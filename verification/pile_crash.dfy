/** What reaches the disk: writes are only durable once synced, and loading a pile after a crash
    repairs its three head words. */
module PileCrash {
  import opened Basics
  import opened PileFormat

  datatype Op = Write(off: nat, bs: Bytes) | Sync

  // The file as the program sees it, as last synced, and the positions written since.
  datatype Disk = Disk(data: Bytes, durable: Bytes, dirty: set<nat>)

  function WriteBytes(data: Bytes, off: nat, bs: Bytes): (r: Bytes)
    ensures |r| == if bs != [] && |data| < off + |bs| then off + |bs| else |data|
    ensures forall p :: 0 <= p < |r| ==>
              r[p] == if off <= p < off + |bs| then bs[p - off] else if p < |data| then data[p] else 0
  {
    seq(if bs != [] && |data| < off + |bs| then off + |bs| else |data|,
        p => if off <= p < off + |bs| then bs[p - off] else if 0 <= p < |data| then data[p] else 0)
  }

  function Range(lo: nat, n: nat): (s: set<nat>)
    ensures forall p :: p in s <==> lo <= p < lo + n
  {
    if n == 0 then {} else Range(lo, n - 1) + {lo + n - 1}
  }

  function Do(d: Disk, op: Op): Disk {
    match op
    case Write(off, bs) => d.(data := WriteBytes(d.data, off, bs), dirty := d.dirty + Range(off, |bs|))
    case Sync => Disk(d.data, d.data, {})
  }

  function DoAll(d: Disk, ops: seq<Op>): Disk
    decreases |ops|
  {
    if ops == [] then d else DoAll(Do(d, ops[0]), ops[1..])
  }

  function Clean(data: Bytes): Disk { Disk(data, data, {}) }

  // After a crash the file can hold anything where it was written since the last sync.
  ghost predicate Crash(d: Disk, img: Bytes) {
    && |img| >= |d.durable|
    && forall p :: 0 <= p < |d.durable| && p !in d.dirty ==> img[p] == d.durable[p]
  }

  lemma {:induction false} DoAllConcat(d: Disk, a: seq<Op>, b: seq<Op>)
    ensures DoAll(d, a + b) == DoAll(DoAll(d, a), b)
    decreases |a|
  {
    if a == [] {
      assert a + b == b;
    } else {
      DoAllConcat(Do(d, a[0]), a[1..], b);
      assert (a + b)[1..] == a[1..] + b;
    }
  }

  lemma DoAllOne(d: Disk, op: Op)
    ensures DoAll(d, [op]) == Do(d, op)
  {
    assert [op][1..] == [];
    assert DoAll(d, [op]) == DoAll(Do(d, op), []);
  }

  lemma DoAllLast(d: Disk, a: seq<Op>, op: Op)
    ensures DoAll(d, a + [op]) == Do(DoAll(d, a), op)
  {
    DoAllConcat(d, a, [op]);
    DoAllOne(DoAll(d, a), op);
  }

  // Consecutive writes.

  function Consecutive(off: nat, cs: seq<Bytes>): (ops: seq<Op>)
    ensures |ops| == |cs|
    decreases |cs|
  {
    if cs == [] then [] else [Write(off, cs[0])] + Consecutive(off + |cs[0]|, cs[1..])
  }

  lemma {:induction false} ConsecutiveLast(off: nat, cs: seq<Bytes>, c: Bytes)
    ensures Consecutive(off, cs + [c]) == Consecutive(off, cs) + [Write(off + |Flatten(cs)|, c)]
    decreases |cs|
  {
    if cs == [] {
      assert cs + [c] == [c] && [c][1..] == [];
      assert Consecutive(off, [c]) == [Write(off, c)] + Consecutive(off + |c|, []);
    } else {
      ConsecutiveLast(off + |cs[0]|, cs[1..], c);
      assert (cs + [c])[0] == cs[0] && (cs + [c])[1..] == cs[1..] + [c];
      assert Consecutive(off, cs + [c]) == [Write(off, cs[0])] + Consecutive(off + |cs[0]|, cs[1..] + [c]);
      assert Consecutive(off, cs) == [Write(off, cs[0])] + Consecutive(off + |cs[0]|, cs[1..]);
      assert |Flatten(cs)| == |cs[0]| + |Flatten(cs[1..])|;
    }
  }

  // The disk after one long write.
  function LongWrite(d: Disk, off: nat, bs: Bytes): Disk {
    Disk(WriteBytes(d.data, off, bs), d.durable, d.dirty + Range(off, |bs|))
  }

  lemma LongWriteNone(d: Disk, off: nat)
    ensures LongWrite(d, off, []) == d
  {
    assert WriteBytes(d.data, off, []) == d.data;
    assert d.dirty + Range(off, 0) == d.dirty;
  }

  lemma LongWriteTwice(d: Disk, off: nat, a: Bytes, b: Bytes)
    ensures LongWrite(LongWrite(d, off, a), off + |a|, b) == LongWrite(d, off, a + b)
  {
    WriteTwice(d.data, off, a, b);
    assert Range(off, |a|) + Range(off + |a|, |b|) == Range(off, |a + b|);
  }

  lemma {:induction false} ConsecutiveEffect(d: Disk, off: nat, cs: seq<Bytes>)
    ensures DoAll(d, Consecutive(off, cs)) == LongWrite(d, off, Flatten(cs))
    decreases |cs|
  {
    if cs == [] {
      LongWriteNone(d, off);
    } else {
      assert Do(d, Write(off, cs[0])) == LongWrite(d, off, cs[0]);
      ConsecutiveRest(LongWrite(d, off, cs[0]), d, off, cs);
      ConsecutiveEffect(LongWrite(d, off, cs[0]), off + |cs[0]|, cs[1..]);
      LongWriteTwice(d, off, cs[0], Flatten(cs[1..]));
    }
  }

  lemma ConsecutiveRest(d': Disk, d: Disk, off: nat, cs: seq<Bytes>)
    requires cs != [] && d' == Do(d, Write(off, cs[0]))
    ensures DoAll(d, Consecutive(off, cs)) == DoAll(d', Consecutive(off + |cs[0]|, cs[1..]))
  {
    hide Do;
    assert Consecutive(off, cs)[1..] == Consecutive(off + |cs[0]|, cs[1..]);
  }

  lemma WriteTwice(data: Bytes, off: nat, a: Bytes, b: Bytes)
    ensures WriteBytes(WriteBytes(data, off, a), off + |a|, b) == WriteBytes(data, off, a + b)
  {
  }

  // The writes of one append, in program order.

  function DataOps(g: Gzip, off: nat, r: Record): seq<Op> { Consecutive(off, Chunks(g, r)) }

  function AppendOps(g: Gzip, off: nat, begin: nat, head: nat, r: Record, sync: bool): seq<Op>
    requires begin <= head
  {
    var s := if sync then [Sync] else [];
    DataOps(g, off, r)
    + [Write(Slot(head - begin), LE(8, off + |Encode(g, r)|)), Write(0, LE(4, head + 1))] + s
    + [Write(4, LE(4, head + 1))] + s
    + [Write(8, LE(4, head + 1))] + s
  }

  // Loading.

  datatype Loaded = Loaded(head: nat, begin: nat, genHash: Bytes)

  // A read that leaves the rest of its zeroed buffer alone at the end of the file.
  function ReadAt(data: Bytes, p: nat, n: nat): (bs: Bytes)
    ensures |bs| == n
    ensures p + n <= |data| ==> bs == data[p..p + n]
  {
    seq(n, i => if 0 <= p + i < |data| then data[p + i] else 0)
  }

  // The head height chosen from the three words, and the writes that make the words agree.
  function Repair(head: nat, a: nat, b: nat): Result<(nat, seq<Op>)> {
    if head == a && a == b then Ok((head, []))
    else if a == b then Ok((a, [Write(0, LE(4, a)), Sync]))
    else if head == (b + 1) % U32 then Ok((head, [Write(4, LE(4, head)), Write(8, LE(4, head)), Sync]))
    else if head == a then Ok((head, [Write(8, LE(4, head)), Sync]))
    else Err(HeightCrashed)
  }

  function MetaError(meta: Bytes): Result<()>
    requires |meta| == META_SIZE
  {
    if U32At(meta, 12) % CHUNK_UNIT != 0 then Err(InvalidChunkBeginHeight)
    else if (U32At(meta, 12) + CHUNK_UNIT) % U32 != U32At(meta, 16) then Err(InvalidChunkEndHeight)
    else Ok(())
  }

  function MetaRepair(meta: Bytes): Result<(nat, seq<Op>)>
    requires |meta| == META_SIZE
  {
    Repair(U32At(meta, 0), U32At(meta, 4), U32At(meta, 8))
  }

  // What LoadPile writes to the file.
  function LoadOps(img: Bytes): seq<Op> {
    var meta := ReadAt(img, 0, META_SIZE);
    if img == [] || MetaError(meta).Err? then []
    else match MetaRepair(meta) case Ok(x) => x.1 case Err(_) => []
  }

  function Int64(x: nat): int { if x >= I64 then x - 2 * I64 else x }

  // The end of the last record, as the offset table has it.
  function LastOffset(data: Bytes, begin: nat, head: nat): Result<int> {
    var n := (head - begin) % U32;
    if n == 0 then Ok(HEADER_SIZE)
    else if |data| <= META_SIZE + (n - 1) * 8 then Err(EndOfFile)
    else Ok(Int64(OfLE(ReadAt(data, META_SIZE + (n - 1) * 8, 8))))
  }

  function Load(img: Bytes): Result<Loaded> {
    var meta := ReadAt(img, 0, META_SIZE);
    if img == [] then Err(EndOfFile)
    else if MetaError(meta).Err? then Err(MetaError(meta).error)
    else if MetaRepair(meta).Err? then Err(MetaRepair(meta).error)
    else
      var head, begin := MetaRepair(meta).value.0, U32At(meta, 12);
      var data := DoAll(Clean(img), LoadOps(img)).data;
      match LastOffset(data, begin, head)
      case Err(e) => Err(e)
      case Ok(o) => if |data| < o then Err(InvalidFileSize) else Ok(Loaded(head, begin, meta[20..52]))
  }

  /** Loading `img` succeeds with exactly the records `recs`, durably. */
  ghost predicate Recovered(g: Gzip, img: Bytes, begin: nat, genHash: Bytes, recs: seq<Record>) {
    && Load(img) == Ok(Loaded(begin + |recs|, begin, genHash))
    && var d := DoAll(Clean(img), LoadOps(img));
       d == Clean(d.data) && Good(g, d.data, begin, genHash, recs)
  }

  // Small facts about writing one word.

  lemma WordWritten(data: Bytes, p: nat, x: nat)
    requires p + 4 <= HEADER_SIZE <= |data| && x < U32
    ensures U32At(WriteBytes(data, p, LE(4, x)), p) == x
  {
    var w := WriteBytes(data, p, LE(4, x));
    assert w[p..p + 4] == LE(4, x);
    Word32(x);
  }

  lemma WordKept(data: Bytes, p: nat, bs: Bytes, q: nat)
    requires q + 4 <= |data| && (q + 4 <= p || p + |bs| <= q)
    ensures U32At(WriteBytes(data, p, bs), q) == U32At(data, q)
  {
    assert WriteBytes(data, p, bs)[q..q + 4] == data[q..q + 4];
  }

  lemma BodyKept(g: Gzip, data: Bytes, p: nat, bs: Bytes, begin: nat, genHash: Bytes, recs: seq<Record>)
    requires Body(g, data, begin, genHash, recs)
    requires forall q :: p <= q < p + |bs| ==> !InBody(q, |recs|, End(g, recs))
    ensures Body(g, WriteBytes(data, p, bs), begin, genHash, recs)
  {
    hide Body, Offset;
    assert |data| >= End(g, recs) by { BodySize(g, data, begin, genHash, recs); }
    BodyOnlyReads(g, data, WriteBytes(data, p, bs), begin, genHash, recs);
  }

  lemma BodySize(g: Gzip, data: Bytes, begin: nat, genHash: Bytes, recs: seq<Record>)
    requires Body(g, data, begin, genHash, recs)
    ensures HEADER_SIZE <= End(g, recs) <= |data| && |recs| <= CHUNK_UNIT && begin + CHUNK_UNIT < U32
  {
  }

  // One head word set to x.
  lemma HeadWord(g: Gzip, data: Bytes, p: nat, x: nat, begin: nat, genHash: Bytes, recs: seq<Record>)
    requires Body(g, data, begin, genHash, recs) && p in {0, 4, 8} && x < U32
    ensures var w := WriteBytes(data, p, LE(4, x));
            && Body(g, w, begin, genHash, recs) && |w| == |data|
            && Heads(w, if p == 0 then x else U32At(data, 0), if p == 4 then x else U32At(data, 4),
                     if p == 8 then x else U32At(data, 8))
  {
    hide Body, OfLE, U32At;
    BodySize(g, data, begin, genHash, recs);
    BodyKept(g, data, p, LE(4, x), begin, genHash, recs);
    WordWritten(data, p, x);
    if p != 0 { WordKept(data, p, LE(4, x), 0); }
    if p != 4 { WordKept(data, p, LE(4, x), 4); }
    if p != 8 { WordKept(data, p, LE(4, x), 8); }
  }

  // Repair.

  lemma RepairGood(g: Gzip, img: Bytes, begin: nat, genHash: Bytes, recs: seq<Record>)
    requires Body(g, img, begin, genHash, recs)
    requires var r := Repair(U32At(img, 0), U32At(img, 4), U32At(img, 8)); r.Ok? && r.value.0 == begin + |recs|
    ensures var r := Repair(U32At(img, 0), U32At(img, 4), U32At(img, 8));
            var d := DoAll(Clean(img), r.value.1);
            d == Clean(d.data) && Good(g, d.data, begin, genHash, recs)
  {
    hide Body, OfLE;
    BodySize(g, img, begin, genHash, recs);
    var h := begin + |recs|;
    var head, a, b := U32At(img, 0), U32At(img, 4), U32At(img, 8);
    var d := Clean(img);
    if head == a && a == b {
    } else if a == b {
      HeadWord(g, img, 0, h, begin, genHash, recs);
      DoAllConcat(d, [Write(0, LE(4, a))], [Sync]);
      DoAllOne(d, Write(0, LE(4, a)));
      DoAllOne(Do(d, Write(0, LE(4, a))), Sync);
      assert [Write(0, LE(4, a)), Sync] == [Write(0, LE(4, a))] + [Sync];
    } else if head == (b + 1) % U32 {
      HeadWord(g, img, 4, h, begin, genHash, recs);
      var w := WriteBytes(img, 4, LE(4, h));
      HeadWord(g, w, 8, h, begin, genHash, recs);
      TwoWords(d, h);
    } else {
      HeadWord(g, img, 8, h, begin, genHash, recs);
      DoAllConcat(d, [Write(8, LE(4, h))], [Sync]);
      DoAllOne(d, Write(8, LE(4, h)));
      DoAllOne(Do(d, Write(8, LE(4, h))), Sync);
      assert [Write(8, LE(4, h)), Sync] == [Write(8, LE(4, h))] + [Sync];
    }
  }

  lemma TwoWords(d: Disk, h: nat)
    ensures DoAll(d, [Write(4, LE(4, h)), Write(8, LE(4, h)), Sync])
            == Do(Do(Do(d, Write(4, LE(4, h))), Write(8, LE(4, h))), Sync)
  {
    var ops := [Write(4, LE(4, h)), Write(8, LE(4, h)), Sync];
    assert ops == ([Write(4, LE(4, h))] + [Write(8, LE(4, h))]) + [Sync];
    DoAllLast(d, [Write(4, LE(4, h))] + [Write(8, LE(4, h))], Sync);
    DoAllLast(d, [Write(4, LE(4, h))], Write(8, LE(4, h)));
    DoAllOne(d, Write(4, LE(4, h)));
  }

  // If the words say that the file holds `recs`, and it does, loading gives exactly that.
  lemma LoadRecovers(g: Gzip, img: Bytes, begin: nat, genHash: Bytes, recs: seq<Record>)
    requires Body(g, img, begin, genHash, recs)
    requires var r := Repair(U32At(img, 0), U32At(img, 4), U32At(img, 8)); r.Ok? && r.value.0 == begin + |recs|
    ensures Recovered(g, img, begin, genHash, recs)
  {
    hide DoAll, OfLE, Repair;
    var meta := ReadAt(img, 0, META_SIZE);
    assert meta[0..4] == img[0..4] && meta[4..8] == img[4..8] && meta[8..12] == img[8..12];
    assert meta[12..16] == img[12..16] && meta[16..20] == img[16..20] && meta[20..52] == img[20..52];
    RepairGood(g, img, begin, genHash, recs);
    var d := DoAll(Clean(img), LoadOps(img));
    LastOffsetIs(g, d.data, begin, genHash, recs);
  }

  lemma LastOffsetIs(g: Gzip, data: Bytes, begin: nat, genHash: Bytes, recs: seq<Record>)
    requires Body(g, data, begin, genHash, recs)
    ensures LastOffset(data, begin, begin + |recs|) == Ok(End(g, recs))
  {
    hide OfLE, Encode;
    var n := |recs|;
    if n > 0 {
      assert RecordAt(g, data, recs, n - 1);
      assert Slot(n - 1) + 8 <= HEADER_SIZE;
    }
  }

  // The disk around an append.

  lemma {:induction false} BodyPrefix(g: Gzip, data: Bytes, begin: nat, genHash: Bytes, recs: seq<Record>, r: Record)
    requires Body(g, data, begin, genHash, recs + [r])
    ensures Body(g, data, begin, genHash, recs)
  {
    hide OfLE, Encode;
    var all := recs + [r];
    OffsetPrefix(g, recs, r, |recs|);
    OffsetsGrow(g, all, |recs|, |all|);
    forall i | 0 <= i < |recs| ensures RecordAt(g, data, recs, i) && ValidRecord(g, recs[i]) {
      assert RecordAt(g, data, all, i) && ValidRecord(g, all[i]);
      OffsetPrefix(g, recs, r, i);
      OffsetPrefix(g, recs, r, i + 1);
    }
  }

  // Adding the record and its slot to a file that holds `recs`.
  lemma BodyExtend(g: Gzip, data: Bytes, begin: nat, genHash: Bytes, recs: seq<Record>, r: Record)
    requires Body(g, data, begin, genHash, recs) && ValidRecord(g, r) && |recs| < CHUNK_UNIT
    requires End(g, recs) + |Encode(g, r)| <= |data| && End(g, recs) + |Encode(g, r)| < I64
    requires data[End(g, recs)..End(g, recs) + |Encode(g, r)|] == Encode(g, r)
    requires U64At(data, Slot(|recs|)) == End(g, recs) + |Encode(g, r)|
    ensures Body(g, data, begin, genHash, recs + [r])
  {
    hide OfLE, Encode, RecordAt, ValidRecord;
    var all := recs + [r];
    OffsetPrefix(g, recs, r, |recs|);
    forall i | 0 <= i < |all| ensures RecordAt(g, data, all, i) && ValidRecord(g, all[i]) {
      if i < |recs| {
        assert RecordAt(g, data, recs, i) && ValidRecord(g, recs[i]);
        RecordStays(g, data, recs, r, i);
      } else {
        RecordAdded(g, data, recs, r);
      }
    }
  }

  lemma RecordStays(g: Gzip, data: Bytes, recs: seq<Record>, r: Record, i: nat)
    requires i < |recs| < CHUNK_UNIT && End(g, recs + [r]) <= |data| && End(g, recs) <= |data|
             && RecordAt(g, data, recs, i)
    ensures RecordAt(g, data, recs + [r], i)
  {
    hide OfLE, Encode;
    OffsetPrefix(g, recs, r, i);
    OffsetPrefix(g, recs, r, i + 1);
  }

  lemma RecordAdded(g: Gzip, data: Bytes, recs: seq<Record>, r: Record)
    requires |recs| < CHUNK_UNIT && End(g, recs + [r]) <= |data|
    requires End(g, recs) + |Encode(g, r)| <= |data|
    requires data[End(g, recs)..End(g, recs) + |Encode(g, r)|] == Encode(g, r)
    requires U64At(data, Slot(|recs|)) == End(g, recs) + |Encode(g, r)|
    ensures RecordAt(g, data, recs + [r], |recs|)
  {
    hide OfLE, Encode;
    OffsetPrefix(g, recs, r, |recs|);
  }

  // The file after the record, its slot and the head word are written.
  function Written(g: Gzip, data: Bytes, begin: nat, recs: seq<Record>, r: Record): Bytes {
    var off := End(g, recs);
    var w := WriteBytes(data, off, Encode(g, r));
    WriteBytes(WriteBytes(w, Slot(|recs|), LE(8, off + |Encode(g, r)|)), 0, LE(4, begin + |recs| + 1))
  }

  ghost predicate CanAppend(g: Gzip, data: Bytes, begin: nat, genHash: Bytes, recs: seq<Record>, r: Record) {
    && Good(g, data, begin, genHash, recs) && ValidRecord(g, r) && |recs| < CHUNK_UNIT
    && End(g, recs) + |Encode(g, r)| < I64
  }

  lemma WrittenBody(g: Gzip, data: Bytes, begin: nat, genHash: Bytes, recs: seq<Record>, r: Record)
    requires CanAppend(g, data, begin, genHash, recs, r)
    ensures var w := Written(g, data, begin, recs, r); var h := begin + |recs|;
            Body(g, w, begin, genHash, recs + [r]) && Heads(w, h + 1, h, h)
  {
    hide OfLE, U32At, Encode, Body, ValidRecord, Offset;
    BodySize(g, data, begin, genHash, recs);
    var off, e := End(g, recs), Encode(g, r);
    var w1 := WriteBytes(data, off, e);
    var w2 := WriteBytes(w1, Slot(|recs|), LE(8, off + |e|));
    assert Slot(|recs|) + 8 <= HEADER_SIZE;
    BodyKept(g, data, off, e, begin, genHash, recs);
    BodyKept(g, w1, Slot(|recs|), LE(8, off + |e|), begin, genHash, recs);
    assert w2[Slot(|recs|)..Slot(|recs|) + 8] == LE(8, off + |e|);
    Word64(off + |e|);
    EncodeNonEmpty(g, r);
    assert w2[off..off + |e|] == e;
    BodyExtend(g, w2, begin, genHash, recs, r);
    forall p | p in {4, 8} ensures U32At(w2, p) == U32At(data, p) {
      WordKept(data, off, e, p);
      WordKept(w1, Slot(|recs|), LE(8, off + |e|), p);
    }
    HeadWord(g, w2, 0, begin + |recs| + 1, begin, genHash, recs + [r]);
  }

  lemma EncodeNonEmpty(g: Gzip, r: Record)
    requires ValidRecord(g, r)
    ensures |Encode(g, r)| >= 32 && Encode(g, r)[..32] == r.hash
  {
    var cs := Chunks(g, r);
    assert Flatten(cs) == cs[0] + Flatten(cs[1..]);
  }
}
