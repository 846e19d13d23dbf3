/** Crash consistency of appending to a pile, at every point of the append and of the repair. */
module PileRecovery {
  import opened Basics
  import opened PileFormat
  import opened PileCrash

  // The writes before the first sync.
  function FirstWrites(g: Gzip, off: nat, begin: nat, head: nat, r: Record): seq<Op>
    requires begin <= head
  {
    DataOps(g, off, r) + [Write(Slot(head - begin), LE(8, off + |Encode(g, r)|)), Write(0, LE(4, head + 1))]
  }

  lemma AppendShape(g: Gzip, off: nat, begin: nat, head: nat, r: Record)
    requires begin <= head
    ensures AppendOps(g, off, begin, head, r, true)
            == FirstWrites(g, off, begin, head, r)
               + [Sync, Write(4, LE(4, head + 1)), Sync, Write(8, LE(4, head + 1)), Sync]
    ensures AppendOps(g, off, begin, head, r, false)
            == FirstWrites(g, off, begin, head, r) + [Write(4, LE(4, head + 1)), Write(8, LE(4, head + 1))]
  {
    hide Encode, Consecutive, LE;
  }

  // Positions the first writes may touch: the head word, the new slot, and past the last record.
  predicate Free(p: nat, n: nat, end: nat) {
    p < 4 || Slot(n) <= p < Slot(n) + 8 || end <= p
  }

  ghost predicate FreeWrite(op: Op, n: nat, end: nat) {
    op.Write? && forall p :: op.off <= p < op.off + |op.bs| ==> Free(p, n, end)
  }

  ghost predicate Confined(ops: seq<Op>, n: nat, end: nat) {
    forall i :: 0 <= i < |ops| ==> FreeWrite(ops[i], n, end)
  }

  lemma {:induction false} ConsecutiveConfined(off: nat, cs: seq<Bytes>, n: nat, end: nat)
    requires off >= end
    ensures Confined(Consecutive(off, cs), n, end)
    decreases |cs|
  {
    if cs != [] {
      ConsecutiveConfined(off + |cs[0]|, cs[1..], n, end);
    }
  }

  lemma FirstWritesConfined(g: Gzip, off: nat, begin: nat, head: nat, r: Record)
    requires begin <= head
    ensures Confined(FirstWrites(g, off, begin, head, r), head - begin, off)
  {
    hide Encode, Chunks;
    ConsecutiveConfined(off, Chunks(g, r), head - begin, off);
  }

  lemma {:induction false} ConfinedDirty(d: Disk, ops: seq<Op>, n: nat, end: nat)
    requires Confined(ops, n, end)
    requires forall p :: p in d.dirty ==> Free(p, n, end)
    ensures DoAll(d, ops).durable == d.durable
    ensures forall p :: p in DoAll(d, ops).dirty ==> Free(p, n, end)
    decreases |ops|
  {
    hide WriteBytes;
    if ops != [] {
      assert FreeWrite(ops[0], n, end);
      ConfinedDirty(Do(d, ops[0]), ops[1..], n, end);
    }
  }

  lemma FirstWritesEffect(g: Gzip, data: Bytes, begin: nat, recs: seq<Record>, r: Record)
    ensures DoAll(Clean(data), FirstWrites(g, End(g, recs), begin, begin + |recs|, r)).data
            == Written(g, data, begin, recs, r)
  {
    hide Chunks, Offset, WriteBytes, LE, Consecutive;
    var off, n, h := End(g, recs), |recs|, begin + |recs|;
    var ops := DataOps(g, off, r);
    var slot, word := Write(Slot(n), LE(8, off + |Encode(g, r)|)), Write(0, LE(4, h + 1));
    ConsecutiveEffect(Clean(data), off, Chunks(g, r));
    DoAllLast(Clean(data), ops + [slot], word);
    DoAllLast(Clean(data), ops, slot);
    assert FirstWrites(g, off, begin, h, r) == ops + [slot] + [word];
  }

  // The three situations a crash can leave.

  // Before the first sync: nothing but free positions differs from before the append.
  lemma CrashBeforeSync(g: Gzip, data: Bytes, img: Bytes, begin: nat, genHash: Bytes, recs: seq<Record>)
    requires Good(g, data, begin, genHash, recs) && |recs| < CHUNK_UNIT && |img| >= |data|
    requires forall p :: 0 <= p < |data| && !Free(p, |recs|, End(g, recs)) ==> img[p] == data[p]
    ensures Recovered(g, img, begin, genHash, recs)
  {
    hide OfLE, Offset, Load, RecordAt;
    BodyOnlyReads(g, data, img, begin, genHash, recs);
    assert img[4..8] == data[4..8] && img[8..12] == data[8..12];
    LoadRecovers(g, img, begin, genHash, recs);
  }

  // The head word is durable, the second word may hold anything.
  lemma CrashAtCheckA(g: Gzip, img: Bytes, begin: nat, genHash: Bytes, recs: seq<Record>, r: Record)
    requires Body(g, img, begin, genHash, recs + [r])
    requires U32At(img, 0) == begin + |recs| + 1 && U32At(img, 8) == begin + |recs|
    ensures Recovered(g, img, begin, genHash, recs) || Recovered(g, img, begin, genHash, recs + [r])
  {
    hide OfLE, Offset, Load, Body;
    BodySize(g, img, begin, genHash, recs + [r]);
    if U32At(img, 4) == U32At(img, 8) {
      BodyPrefix(g, img, begin, genHash, recs, r);
      LoadRecovers(g, img, begin, genHash, recs);
    } else {
      LoadRecovers(g, img, begin, genHash, recs + [r]);
    }
  }

  // The first two words are durable, the third may hold anything.
  lemma CrashAtCheckB(g: Gzip, img: Bytes, begin: nat, genHash: Bytes, recs: seq<Record>)
    requires Body(g, img, begin, genHash, recs)
    requires U32At(img, 0) == begin + |recs| && U32At(img, 4) == begin + |recs|
    ensures Recovered(g, img, begin, genHash, recs)
  {
    hide OfLE, Offset, Load, Body;
    BodySize(g, img, begin, genHash, recs);
    LoadRecovers(g, img, begin, genHash, recs);
  }

  // An image that differs only in bytes 4 to 12.
  lemma SameButChecks(g: Gzip, data: Bytes, img: Bytes, begin: nat, genHash: Bytes, recs: seq<Record>)
    requires Body(g, data, begin, genHash, recs) && |img| >= |data|
    requires forall p :: 0 <= p < |data| && !(4 <= p < 12) ==> img[p] == data[p]
    ensures Body(g, img, begin, genHash, recs) && U32At(img, 0) == U32At(data, 0)
  {
    hide OfLE, Offset, RecordAt;
    BodyOnlyReads(g, data, img, begin, genHash, recs);
    assert img[0..4] == data[0..4];
  }

  // The disk after each prefix of the append that reaches the first sync.
  lemma SyncSteps(d: Disk, a: Op, b: Op, j: nat)
    requires 1 <= j <= 5
    ensures DoAll(d, [Sync, a, Sync, b, Sync][..j])
            == (var d1 := Do(d, Sync); var d2 := Do(d1, a); var d3 := Do(d2, Sync); var d4 := Do(d3, b);
                if j == 1 then d1 else if j == 2 then d2 else if j == 3 then d3
                else if j == 4 then d4 else Do(d4, Sync))
  {
    hide Do, DoAll;
    var ops := [Sync, a, Sync, b, Sync];
    assert ops[..1] == [Sync] && ops[..2] == ops[..1] + [a] && ops[..3] == ops[..2] + [Sync]
        && ops[..4] == ops[..3] + [b] && ops[..5] == ops[..4] + [Sync];
    DoAllOne(d, Sync);
    DoAllLast(d, ops[..1], a);
    DoAllLast(d, ops[..2], Sync);
    DoAllLast(d, ops[..3], b);
    DoAllLast(d, ops[..4], Sync);
  }

  lemma AfterSync(w: Bytes, d: Disk, x: nat, j: nat, img: Bytes)
    requires d.data == w && |w| >= HEADER_SIZE && 1 <= j <= 5
    requires var ops := [Sync, Write(4, LE(4, x)), Sync, Write(8, LE(4, x)), Sync]; Crash(DoAll(d, ops[..j]), img)
    ensures |img| >= |w| && forall p :: 0 <= p < |w| && !(4 <= p < 12) ==> img[p] == w[p]
    ensures j <= 2 ==> img[8..12] == w[8..12]
    ensures j >= 3 ==> img[4..8] == LE(4, x)
  {
    hide LE, DoAll;
    var a, b := Write(4, LE(4, x)), Write(8, LE(4, x));
    SyncSteps(d, a, b, j);
    var wa := WriteBytes(w, 4, LE(4, x));
    if j <= 2 {
      assert DoAll(d, [Sync, a, Sync, b, Sync][..j]).durable == w;
    } else if j <= 4 {
      assert DoAll(d, [Sync, a, Sync, b, Sync][..j]).durable == wa;
      assert wa[4..8] == LE(4, x);
    } else {
      assert DoAll(d, [Sync, a, Sync, b, Sync][..j]).durable == WriteBytes(wa, 8, LE(4, x));
    }
  }

  /** A crash at any point of a synced append, whatever the disk then holds in the bytes not yet
      synced, loses nothing: loading gives the records before the append or those after it, and
      from the second sync on always those after it. */
  lemma CrashConsistent(g: Gzip, data: Bytes, begin: nat, genHash: Bytes, recs: seq<Record>, r: Record, k: nat,
                        img: Bytes)
    requires CanAppend(g, data, begin, genHash, recs, r)
    requires var ops := AppendOps(g, End(g, recs), begin, begin + |recs|, r, true);
             k <= |ops| && Crash(DoAll(Clean(data), ops[..k]), img)
    ensures Recovered(g, img, begin, genHash, recs) || Recovered(g, img, begin, genHash, recs + [r])
    ensures var ops := AppendOps(g, End(g, recs), begin, begin + |recs|, r, true);
            k >= |ops| - 2 ==> Recovered(g, img, begin, genHash, recs + [r])
  {
    hide Body, Encode, Offset, DoAll, Recovered, Consecutive, LE, Good;
    var off, h := End(g, recs), begin + |recs|;
    var first := FirstWrites(g, off, begin, h, r);
    var rest := [Sync, Write(4, LE(4, h + 1)), Sync, Write(8, LE(4, h + 1)), Sync];
    var ops := AppendOps(g, off, begin, h, r, true);
    AppendShape(g, off, begin, h, r);
    assert ops == first + rest && |rest| == 5;
    if k <= |first| {
      assert ops[..k] == first[..k];
      CrashInFirstWrites(g, data, begin, genHash, recs, r, k, img);
    } else {
      var j := k - |first|;
      assert ops[..k] == first + rest[..j];
      DoAllConcat(Clean(data), first, rest[..j]);
      CrashAfterFirstWrites(g, data, begin, genHash, recs, r, j, img);
    }
  }

  lemma CrashInFirstWrites(g: Gzip, data: Bytes, begin: nat, genHash: Bytes, recs: seq<Record>, r: Record, k: nat,
                           img: Bytes)
    requires CanAppend(g, data, begin, genHash, recs, r)
    requires var first := FirstWrites(g, End(g, recs), begin, begin + |recs|, r);
             k <= |first| && Crash(DoAll(Clean(data), first[..k]), img)
    ensures Recovered(g, img, begin, genHash, recs)
  {
    hide Body, Offset, DoAll, Recovered, FirstWrites, Good, Encode;
    var first := FirstWrites(g, End(g, recs), begin, begin + |recs|, r);
    FirstWritesConfined(g, End(g, recs), begin, begin + |recs|, r);
    assert Confined(first[..k], |recs|, End(g, recs));
    ConfinedDirty(Clean(data), first[..k], |recs|, End(g, recs));
    CrashBeforeSync(g, data, img, begin, genHash, recs);
  }

  lemma CrashAfterFirstWrites(g: Gzip, data: Bytes, begin: nat, genHash: Bytes, recs: seq<Record>, r: Record,
                              j: nat, img: Bytes)
    requires CanAppend(g, data, begin, genHash, recs, r) && 1 <= j <= 5
    requires var h := begin + |recs|;
             var d := DoAll(Clean(data), FirstWrites(g, End(g, recs), begin, h, r));
             var rest := [Sync, Write(4, LE(4, h + 1)), Sync, Write(8, LE(4, h + 1)), Sync];
             Crash(DoAll(d, rest[..j]), img)
    ensures Recovered(g, img, begin, genHash, recs) || Recovered(g, img, begin, genHash, recs + [r])
    ensures j >= 3 ==> Recovered(g, img, begin, genHash, recs + [r])
  {
    hide Body, Offset, DoAll, Recovered, FirstWrites, Good, Encode, Written, LE, OfLE, Crash;
    var h := begin + |recs|;
    var w := Written(g, data, begin, recs, r);
    FirstWritesEffect(g, data, begin, recs, r);
    WrittenBody(g, data, begin, genHash, recs, r);
    BodySize(g, w, begin, genHash, recs + [r]);
    AfterSync(w, DoAll(Clean(data), FirstWrites(g, End(g, recs), begin, h, r)), h + 1, j, img);
    SameButChecks(g, w, img, begin, genHash, recs + [r]);
    if j <= 2 {
      CrashAtCheckA(g, img, begin, genHash, recs, r);
    } else {
      Word32(h + 1);
      CrashAtCheckB(g, img, begin, genHash, recs + [r]);
    }
  }

  // Appending without syncing.

  ghost predicate SafeAt(g: Gzip, data: Bytes, begin: nat, genHash: Bytes, recs: seq<Record>, r: Record,
                         sync: bool, k: nat, img: Bytes) {
    var ops := AppendOps(g, End(g, recs), begin, begin + |recs|, r, sync);
    k <= |ops| && Crash(DoAll(Clean(data), ops[..k]), img)
    ==> Recovered(g, img, begin, genHash, recs) || Recovered(g, img, begin, genHash, recs + [r])
  }

  ghost predicate CrashSafe(g: Gzip, data: Bytes, begin: nat, genHash: Bytes, recs: seq<Record>, r: Record,
                            sync: bool) {
    forall k: nat, img :: SafeAt(g, data, begin, genHash, recs, r, sync, k, img)
  }

  // The file after an append that never syncs, with all of it still dirty.
  lemma UnsyncedDisk(g: Gzip, data: Bytes, begin: nat, genHash: Bytes, recs: seq<Record>, r: Record) returns (d: Disk)
    requires CanAppend(g, data, begin, genHash, recs, r)
    ensures d == DoAll(Clean(data), AppendOps(g, End(g, recs), begin, begin + |recs|, r, false))
    ensures d.durable == data && End(g, recs) in d.dirty
    ensures |d.data| >= |data| && forall p :: 0 <= p < |data| && p !in d.dirty ==> d.data[p] == data[p]
    ensures Good(g, d.data, begin, genHash, recs + [r])
  {
    hide Body, Offset, DoAll, FirstWrites, Encode, LE, OfLE, U32At;
    var off, h := End(g, recs), begin + |recs|;
    var first := FirstWrites(g, off, begin, h, r);
    var a, b := Write(4, LE(4, h + 1)), Write(8, LE(4, h + 1));
    var d0 := DoAll(Clean(data), first);
    var w := Written(g, data, begin, recs, r);
    FirstWritesDirty(g, data, begin, recs, r);
    FirstWritesEffect(g, data, begin, recs, r);
    WrittenBody(g, data, begin, genHash, recs, r);
    BodySize(g, w, begin, genHash, recs + [r]);
    HeadWord(g, w, 4, h + 1, begin, genHash, recs + [r]);
    HeadWord(g, WriteBytes(w, 4, a.bs), 8, h + 1, begin, genHash, recs + [r]);
    AppendShape(g, off, begin, h, r);
    assert AppendOps(g, off, begin, h, r, false) == first + [a] + [b];
    DoAllLast(Clean(data), first + [a], b);
    DoAllLast(Clean(data), first, a);
    d := Do(Do(d0, a), b);
  }

  lemma FirstWritesDirty(g: Gzip, data: Bytes, begin: nat, recs: seq<Record>, r: Record)
    requires ValidRecord(g, r)
    ensures var d := DoAll(Clean(data), FirstWrites(g, End(g, recs), begin, begin + |recs|, r));
            && d.durable == data && End(g, recs) in d.dirty && |d.data| >= |data|
            && forall p :: 0 <= p < |data| && p !in d.dirty ==> d.data[p] == data[p]
  {
    hide Chunks, Offset, LE, Consecutive, DoAll;
    var off, n, h := End(g, recs), |recs|, begin + |recs|;
    var ops := DataOps(g, off, r);
    var slot, word := Write(Slot(n), LE(8, off + |Encode(g, r)|)), Write(0, LE(4, h + 1));
    EncodeNonEmpty(g, r);
    ConsecutiveEffect(Clean(data), off, Chunks(g, r));
    DoAllLast(Clean(data), ops + [slot], word);
    DoAllLast(Clean(data), ops, slot);
    assert FirstWrites(g, off, begin, h, r) == ops + [slot] + [word];
  }

  function Other(b: Byte): Byte { if b == 0 then 1 else 0 }

  // A file whose head words agree on a record that is not what was appended.
  lemma WrongRecord(g: Gzip, full: Bytes, begin: nat, genHash: Bytes, recs: seq<Record>, r: Record, img: Bytes)
    requires Good(g, full, begin, genHash, recs + [r]) && ValidRecord(g, r)
    requires End(g, recs) < |full| && img == full[End(g, recs) := Other(full[End(g, recs)])]
    ensures !Recovered(g, img, begin, genHash, recs) && !Recovered(g, img, begin, genHash, recs + [r])
  {
    hide OfLE, Encode, Load;
    var off, all, h := End(g, recs), recs + [r], begin + |recs|;
    var meta := ReadAt(img, 0, META_SIZE);
    assert img[0..4] == full[0..4] && img[4..8] == full[4..8] && img[8..12] == full[8..12];
    assert meta[0..4] == img[0..4] && meta[4..8] == img[4..8] && meta[8..12] == img[8..12];
    assert MetaRepair(meta) == Ok((h + 1, []));
    assert LoadOps(img) == [] && DoAll(Clean(img), []) == Clean(img);
    assert Load(img) != Ok(Loaded(h, begin, genHash)) by { LoadHead(img, h + 1); }
    OffsetPrefix(g, recs, r, |recs|);
    EncodeNonEmpty(g, r);
    assert RecordAt(g, full, all, |recs|);
    assert full[off..End(g, all)][0] == full[off] && img[off..End(g, all)][0] == img[off];
    assert !RecordAt(g, img, all, |recs|);
  }

  lemma LoadHead(img: Bytes, h: nat)
    requires MetaRepair(ReadAt(img, 0, META_SIZE)).Ok? && MetaRepair(ReadAt(img, 0, META_SIZE)).value.0 == h
    ensures Load(img).Ok? ==> Load(img).value.head == h
  {
    hide MetaRepair, LastOffset, DoAll;
  }

  /** Syncing is exactly what makes an append safe: every append that does not sync can lose the
      record while the head words already claim it. */
  lemma SafeExactlyWhenSynced(g: Gzip, data: Bytes, begin: nat, genHash: Bytes, recs: seq<Record>, r: Record,
                              sync: bool)
    requires CanAppend(g, data, begin, genHash, recs, r)
    ensures CrashSafe(g, data, begin, genHash, recs, r, sync) <==> sync
  {
    hide Recovered, Good, DoAll, AppendOps, Offset, Encode, CanAppend;
    if sync {
      forall k: nat, img ensures SafeAt(g, data, begin, genHash, recs, r, sync, k, img) {
        var ops := AppendOps(g, End(g, recs), begin, begin + |recs|, r, true);
        if k <= |ops| && Crash(DoAll(Clean(data), ops[..k]), img) {
          CrashConsistent(g, data, begin, genHash, recs, r, k, img);
        }
      }
    } else {
      var d := UnsyncedDisk(g, data, begin, genHash, recs, r);
      var ops := AppendOps(g, End(g, recs), begin, begin + |recs|, r, false);
      var off := End(g, recs);
      LastRecordInside(g, d.data, begin, genHash, recs, r);
      var img := d.data[off := Other(d.data[off])];
      WrongRecord(g, d.data, begin, genHash, recs, r, img);
      assert ops[..|ops|] == ops;
      assert Crash(DoAll(Clean(data), ops), img);
      assert !SafeAt(g, data, begin, genHash, recs, r, sync, |ops|, img);
    }
  }

  lemma LastRecordInside(g: Gzip, data: Bytes, begin: nat, genHash: Bytes, recs: seq<Record>, r: Record)
    requires Good(g, data, begin, genHash, recs + [r])
    ensures End(g, recs) < |data| && ValidRecord(g, r)
  {
    hide Encode, OfLE, RecordAt;
    assert ValidRecord(g, (recs + [r])[|recs|]);
    OffsetPrefix(g, recs, r, |recs|);
    EncodeNonEmpty(g, r);
  }

  // Crashes while loading.

  // A crash after which each head word is either the synced one or the one written.
  ghost predicate WordCrash(d: Disk, img: Bytes) {
    && Crash(d, img) && HEADER_SIZE <= |d.durable| <= |d.data|
    && WholeWord(d, img, 0) && WholeWord(d, img, 4) && WholeWord(d, img, 8)
  }

  predicate WholeWord(d: Disk, img: Bytes, q: nat)
    requires q + 4 <= |d.durable| <= |d.data| && |d.durable| <= |img|
  {
    img[q..q + 4] == d.durable[q..q + 4] || img[q..q + 4] == d.data[q..q + 4]
  }

  // Two of the three words already agree on `recs`.
  ghost predicate Settled(g: Gzip, img: Bytes, begin: nat, genHash: Bytes, recs: seq<Record>) {
    && Body(g, img, begin, genHash, recs)
    && var h := begin + |recs|;
       U32At(img, 4) == h && (U32At(img, 8) == h || U32At(img, 0) == h)
  }

  lemma SettledRecovers(g: Gzip, img: Bytes, begin: nat, genHash: Bytes, recs: seq<Record>)
    requires Settled(g, img, begin, genHash, recs)
    ensures Recovered(g, img, begin, genHash, recs)
  {
    hide OfLE, Body, Load;
    BodySize(g, img, begin, genHash, recs);
    LoadRecovers(g, img, begin, genHash, recs);
  }

  // `img` with some head words set to h.
  ghost predicate Rewritten(img: Bytes, w: Bytes, h: nat)
    requires |img| >= HEADER_SIZE
  {
    && |w| == |img| && (forall p :: 12 <= p < |img| ==> w[p] == img[p])
    && (U32At(w, 0) == U32At(img, 0) || U32At(w, 0) == h)
    && (U32At(w, 4) == U32At(img, 4) || U32At(w, 4) == h)
    && (U32At(w, 8) == U32At(img, 8) || U32At(w, 8) == h)
  }

  // The words the repair writes all hold the head height it settled on.
  lemma RepairWrites(g: Gzip, img: Bytes, begin: nat, genHash: Bytes, recs: seq<Record>, k: nat)
    requires Settled(g, img, begin, genHash, recs) && k <= |LoadOps(img)|
    ensures var d := DoAll(Clean(img), LoadOps(img)[..k]);
            |img| >= HEADER_SIZE && Rewritten(img, d.data, begin + |recs|) && Rewritten(img, d.durable, begin + |recs|)
    ensures forall p :: p in DoAll(Clean(img), LoadOps(img)[..k]).dirty ==> p < 12
  {
    hide OfLE, Body, LE, WriteBytes, U32At, LoadOps;
    var h := begin + |recs|;
    BodySize(g, img, begin, genHash, recs);
    ChosenOps(g, img, begin, genHash, recs);
    OneWordWritten(img, 0, h);
    OneWordWritten(img, 4, h);
    OneWordWritten(img, 8, h);
    OneWordWritten(WriteBytes(img, 4, LE(4, h)), 8, h);
    var ops := LoadOps(img);
    if |ops| > 0 {
      assert ops == [Write(0, LE(4, h)), Sync] || ops == [Write(8, LE(4, h)), Sync]
          || ops == [Write(4, LE(4, h)), Write(8, LE(4, h)), Sync];
      if |ops| == 2 {
        TwoSteps(Clean(img), ops[0], k);
      } else {
        ThreeSteps(Clean(img), ops[0], ops[1], k);
      }
    }
  }

  lemma MetaWords(img: Bytes)
    requires |img| >= META_SIZE
    ensures var meta := ReadAt(img, 0, META_SIZE);
            forall q :: 0 <= q <= 48 ==> U32At(meta, q) == U32At(img, q)
  {
    hide OfLE;
    var meta := ReadAt(img, 0, META_SIZE);
    forall q | 0 <= q <= 48 ensures U32At(meta, q) == U32At(img, q) {
      assert meta[q..q + 4] == img[q..q + 4];
    }
  }

  lemma OneWordWritten(img: Bytes, q: nat, h: nat)
    requires q in {0, 4, 8} && |img| >= HEADER_SIZE && h < U32
    ensures var w := WriteBytes(img, q, LE(4, h));
            && Rewritten(img, w, h)
            && (forall p :: p in Range(q, |LE(4, h)|) ==> p < 12)
  {
    hide OfLE, U32At;
    WordWritten(img, q, h);
    if q != 0 { WordKept(img, q, LE(4, h), 0); }
    if q != 4 { WordKept(img, q, LE(4, h), 4); }
    if q != 8 { WordKept(img, q, LE(4, h), 8); }
  }

  lemma TwoSteps(d: Disk, a: Op, k: nat)
    requires k <= 2
    ensures DoAll(d, [a, Sync][..k]) == if k == 0 then d else if k == 1 then Do(d, a) else Do(Do(d, a), Sync)
  {
    hide Do;
    var ops := [a, Sync];
    assert ops[..0] == [] && ops[..1] == [a] && ops[..2] == [a] + [Sync];
    DoAllOne(d, a);
    DoAllLast(d, [a], Sync);
  }

  lemma ThreeSteps(d: Disk, a: Op, b: Op, k: nat)
    requires k <= 3
    ensures DoAll(d, [a, b, Sync][..k])
            == if k == 0 then d else if k == 1 then Do(d, a)
               else if k == 2 then Do(Do(d, a), b) else Do(Do(Do(d, a), b), Sync)
  {
    hide Do;
    var ops := [a, b, Sync];
    assert ops[..0] == [] && ops[..1] == [a] && ops[..2] == [a] + [b] && ops[..3] == [a] + [b] + [Sync];
    DoAllOne(d, a);
    DoAllLast(d, [a], b);
    DoAllLast(d, [a] + [b], Sync);
  }

  /** If head words are written whole, loading may itself crash, any number of times: the file it
      leaves is again one that loads with the same records. */
  lemma LoadCanCrash(g: Gzip, img: Bytes, begin: nat, genHash: Bytes, recs: seq<Record>, k: nat, img': Bytes)
    requires Settled(g, img, begin, genHash, recs) && k <= |LoadOps(img)|
    requires WordCrash(DoAll(Clean(img), LoadOps(img)[..k]), img')
    ensures Settled(g, img', begin, genHash, recs) && Recovered(g, img', begin, genHash, recs)
  {
    hide OfLE, Body, LoadOps, DoAll, Recovered;
    RepairWrites(g, img, begin, genHash, recs, k);
    BodySize(g, img, begin, genHash, recs);
    var d := DoAll(Clean(img), LoadOps(img)[..k]);
    assert forall p :: 12 <= p < |img| ==> img'[p] == d.durable[p];
    BodyOnlyReads(g, img, img', begin, genHash, recs);
    SettledRecovers(g, img', begin, genHash, recs);
  }

  // The file holds `recs` and its head words choose that height, after a repair if they disagree.
  ghost predicate Chosen(g: Gzip, img: Bytes, begin: nat, genHash: Bytes, recs: seq<Record>) {
    && Body(g, img, begin, genHash, recs)
    && var r := Repair(U32At(img, 0), U32At(img, 4), U32At(img, 8)); r.Ok? && r.value.0 == begin + |recs|
  }

  // The repair rewrites both the second and the third word before it syncs.
  predicate RewritesTwo(img: Bytes)
    requires |img| >= HEADER_SIZE
  {
    U32At(img, 4) != U32At(img, 8) && U32At(img, 0) == (U32At(img, 8) + 1) % U32
  }

  ghost predicate SurvivesAt(g: Gzip, img: Bytes, begin: nat, genHash: Bytes, recs: seq<Record>, whole: bool,
                             k: nat, img': Bytes) {
    k <= |LoadOps(img)|
    && (var d := DoAll(Clean(img), LoadOps(img)[..k]); if whole then WordCrash(d, img') else Crash(d, img'))
    ==> Recovered(g, img', begin, genHash, recs)
  }

  // However the repair of `img` crashes, with head words written whole or torn, `recs` still load.
  ghost predicate RepairSurvives(g: Gzip, img: Bytes, begin: nat, genHash: Bytes, recs: seq<Record>, whole: bool) {
    forall k: nat, img' :: SurvivesAt(g, img, begin, genHash, recs, whole, k, img')
  }

  /** A crash during the repair never harms the file if and only if the repair does not rewrite two
      words; if head words are written whole, if and only if it does not rewrite two words with the
      second one changing. */
  lemma RepairSurvivesExactly(g: Gzip, img: Bytes, begin: nat, genHash: Bytes, recs: seq<Record>)
    requires Chosen(g, img, begin, genHash, recs)
    ensures |img| >= HEADER_SIZE
    ensures RepairSurvives(g, img, begin, genHash, recs, false) <==> !RewritesTwo(img)
    ensures RepairSurvives(g, img, begin, genHash, recs, true)
            <==> !(RewritesTwo(img) && U32At(img, 4) != U32At(img, 0))
  {
    hide OfLE, Body, LoadOps, DoAll, Recovered, U32At, Crash, WholeWord, Load;
    BodySize(g, img, begin, genHash, recs);
    if RewritesTwo(img) {
      TornRepairCanFail(g, img, begin, genHash, recs);
      var torn :| Crash(DoAll(Clean(img), LoadOps(img)[..2]), torn) && Load(torn) == Err(HeightCrashed);
      NotRecovered(g, torn, begin, genHash, recs);
      assert !SurvivesAt(g, img, begin, genHash, recs, false, 2, torn);
    } else {
      forall k: nat, img' ensures SurvivesAt(g, img, begin, genHash, recs, false, k, img') {
        if k <= |LoadOps(img)| && Crash(DoAll(Clean(img), LoadOps(img)[..k]), img') {
          CalmRepair(g, img, begin, genHash, recs, k, img');
        }
      }
    }
    if RewritesTwo(img) && U32At(img, 4) != U32At(img, 0) {
      var mixed :| WordCrash(DoAll(Clean(img), LoadOps(img)[..2]), mixed) && Load(mixed) == Err(HeightCrashed);
      NotRecovered(g, mixed, begin, genHash, recs);
      assert !SurvivesAt(g, img, begin, genHash, recs, true, 2, mixed);
    } else {
      forall k: nat, img' ensures SurvivesAt(g, img, begin, genHash, recs, true, k, img') {
        if k <= |LoadOps(img)| && WordCrash(DoAll(Clean(img), LoadOps(img)[..k]), img') {
          WholeRepair(g, img, begin, genHash, recs, k, img');
        }
      }
    }
  }

  lemma NotRecovered(g: Gzip, img: Bytes, begin: nat, genHash: Bytes, recs: seq<Record>)
    requires Load(img).Err?
    ensures !Recovered(g, img, begin, genHash, recs)
  {
    hide Load;
  }

  lemma WholeRepair(g: Gzip, img: Bytes, begin: nat, genHash: Bytes, recs: seq<Record>, k: nat, img': Bytes)
    requires Chosen(g, img, begin, genHash, recs) && k <= |LoadOps(img)|
    requires |img| >= HEADER_SIZE && !(RewritesTwo(img) && U32At(img, 4) != U32At(img, 0))
    requires WordCrash(DoAll(Clean(img), LoadOps(img)[..k]), img')
    ensures Recovered(g, img', begin, genHash, recs)
  {
    hide OfLE, Body, LoadOps, DoAll, Recovered, U32At;
    LoadCanCrash(g, img, begin, genHash, recs, k, img');
  }

  // A repair of one word or none leaves two words alone, whatever the crash does to the third.
  lemma CalmRepair(g: Gzip, img: Bytes, begin: nat, genHash: Bytes, recs: seq<Record>, k: nat, img': Bytes)
    requires Chosen(g, img, begin, genHash, recs) && k <= |LoadOps(img)|
    requires |img| >= HEADER_SIZE && !RewritesTwo(img)
    requires Crash(DoAll(Clean(img), LoadOps(img)[..k]), img')
    ensures Recovered(g, img', begin, genHash, recs)
  {
    hide OfLE, Body, Recovered, U32At, LE, WriteBytes, LoadOps;
    var h := begin + |recs|;
    BodySize(g, img, begin, genHash, recs);
    var ops := LoadOps(img);
    ChosenOps(g, img, begin, genHash, recs);
    if ops == [] {
      assert ops[..k] == [];
      KeepsWords(g, img, Clean(img), img', begin, genHash, recs, 0);
    } else {
      var q := ops[0].off;
      assert ops == [Write(q, LE(4, h)), Sync];
      TwoSteps(Clean(img), ops[0], k);
      OneWordWritten(img, q, h);
      KeepsWords(g, img, DoAll(Clean(img), ops[..k]), img', begin, genHash, recs, q);
    }
    SettledRecovers(g, img', begin, genHash, recs);
  }

  lemma ChosenOps(g: Gzip, img: Bytes, begin: nat, genHash: Bytes, recs: seq<Record>)
    requires Chosen(g, img, begin, genHash, recs)
    ensures var h := begin + |recs|; var head, a, b := U32At(img, 0), U32At(img, 4), U32At(img, 8);
            LoadOps(img)
            == if a != b && head == (b + 1) % U32 then [Write(4, LE(4, h)), Write(8, LE(4, h)), Sync]
               else if head == a == b then [] else [Write(if a == b then 0 else 8, LE(4, h)), Sync]
  {
    hide OfLE, LE, RecordAt;
    BodySize(g, img, begin, genHash, recs);
    MetaWords(img);
    var meta := ReadAt(img, 0, META_SIZE);
    assert U32At(meta, 0) == U32At(img, 0) && U32At(meta, 4) == U32At(img, 4) && U32At(meta, 8) == U32At(img, 8);
    assert U32At(meta, 12) == U32At(img, 12) && U32At(meta, 16) == U32At(img, 16);
  }

  // Only the word at q is unsynced, and the other two say h.
  lemma KeepsWords(g: Gzip, img: Bytes, d: Disk, img': Bytes, begin: nat, genHash: Bytes, recs: seq<Record>, q: nat)
    requires Body(g, img, begin, genHash, recs) && |img| >= HEADER_SIZE && Crash(d, img')
    requires |d.durable| == |img| && (q == 0 || q == 8) && (forall p :: p in d.dirty ==> q <= p < q + 4)
    requires forall p :: 0 <= p < |img| && !(q <= p < q + 4) ==> d.durable[p] == img[p]
    requires U32At(img, 4) == begin + |recs| && U32At(img, if q == 0 then 8 else 0) == begin + |recs|
    ensures Settled(g, img', begin, genHash, recs)
  {
    hide OfLE, Body;
    BodySize(g, img, begin, genHash, recs);
    BodyOnlyReads(g, img, img', begin, genHash, recs);
    assert img'[4..8] == img[4..8];
    if q == 0 {
      assert img'[8..12] == img[8..12];
    } else {
      assert img'[0..4] == img[0..4];
    }
  }

  /** A repair that rewrites two words can crash into a file that no longer loads: the third word is
      written and the second one torn, or, if it was not at the new height, not yet written. */
  lemma TornRepairCanFail(g: Gzip, img: Bytes, begin: nat, genHash: Bytes, recs: seq<Record>)
    requires Chosen(g, img, begin, genHash, recs) && |img| >= HEADER_SIZE && RewritesTwo(img)
    ensures Recovered(g, img, begin, genHash, recs) && |LoadOps(img)| == 3
    ensures exists torn :: Crash(DoAll(Clean(img), LoadOps(img)[..2]), torn) && Load(torn) == Err(HeightCrashed)
    ensures U32At(img, 4) != U32At(img, 0) ==>
              exists mixed :: WordCrash(DoAll(Clean(img), LoadOps(img)[..2]), mixed)
                && Load(mixed) == Err(HeightCrashed)
  {
    hide OfLE, Body, LE, LoadOps, Recovered, U32At, Load, DoAll;
    var h := begin + |recs|;
    BodySize(g, img, begin, genHash, recs);
    LoadRecovers(g, img, begin, genHash, recs);
    ChosenOps(g, img, begin, genHash, recs);
    ThreeSteps(Clean(img), Write(4, LE(4, h)), Write(8, LE(4, h)), 2);
    var third := WriteBytes(img, 8, LE(4, h));
    HeadWord(g, img, 8, h, begin, genHash, recs);
    var x := (h + 1) % U32;
    HeadWord(g, third, 4, x, begin, genHash, recs);
    var torn := WriteBytes(third, 4, LE(4, x));
    HeadsDisagree(g, torn, begin, genHash, recs);
    assert Crash(DoAll(Clean(img), LoadOps(img)[..2]), torn);
    if U32At(img, 4) != U32At(img, 0) {
      HeadsDisagree(g, third, begin, genHash, recs);
      ThirdOnly(img, LE(4, h), LE(4, h));
    }
  }

  lemma ThirdOnly(img: Bytes, a: Bytes, b: Bytes)
    requires |img| >= HEADER_SIZE && |a| == |b| == 4
    ensures WordCrash(Do(Do(Clean(img), Write(4, a)), Write(8, b)), WriteBytes(img, 8, b))
  {
    var d := Do(Do(Clean(img), Write(4, a)), Write(8, b));
    var third := WriteBytes(img, 8, b);
    assert third[0..4] == d.durable[0..4] && third[4..8] == d.durable[4..8] && third[8..12] == d.data[8..12];
  }

  lemma HeadsDisagree(g: Gzip, img: Bytes, begin: nat, genHash: Bytes, recs: seq<Record>)
    requires Body(g, img, begin, genHash, recs)
    requires U32At(img, 0) == U32At(img, 8) == begin + |recs| && U32At(img, 4) != begin + |recs|
    ensures Load(img) == Err(HeightCrashed)
  {
    hide OfLE, LE, RecordAt;
    MetaWords(img);
    var meta := ReadAt(img, 0, META_SIZE);
    assert U32At(meta, 0) == U32At(img, 0) && U32At(meta, 4) == U32At(img, 4) && U32At(meta, 8) == U32At(img, 8);
    assert U32At(meta, 12) == U32At(img, 12) && U32At(meta, 16) == U32At(img, 16);
  }

  // Runs of appends and crashes.

  // An append that returned, or one that crashed after k operations, leaving img to be loaded.
  datatype Event = Appended(r: Record) | Crashed(r: Record, k: nat, img: Bytes)

  // The operations of the next append, as computed from the file alone.
  function NextOps(g: Gzip, data: Bytes, begin: nat, r: Record): seq<Op> {
    if |data| < HEADER_SIZE then []
    else
      var head := U32At(data, 0);
      var o := LastOffset(data, begin, head);
      if head < begin || o.Err? || o.value < 0 then [] else AppendOps(g, o.value, begin, head, r, true)
  }

  ghost predicate Step(g: Gzip, begin: nat, genHash: Bytes, data: Bytes, e: Event, data': Bytes) {
    var ops := NextOps(g, data, begin, e.r);
    match e
    case Appended(r) => data' == DoAll(Clean(data), ops).data
    case Crashed(r, k, img) =>
      k <= |ops| && Crash(DoAll(Clean(data), ops[..k]), img) && data' == DoAll(Clean(img), LoadOps(img)).data
  }

  // There is room for the record, as the database checks before it appends.
  ghost predicate Room(g: Gzip, begin: nat, data: Bytes, r: Record) {
    && |data| >= HEADER_SIZE && begin <= U32At(data, 0) && U32At(data, 0) - begin < CHUNK_UNIT && ValidRecord(g, r)
    && forall o :: LastOffset(data, begin, U32At(data, 0)) == Ok(o) ==> o + |Encode(g, r)| < I64
  }

  ghost predicate IsRun(g: Gzip, begin: nat, genHash: Bytes, files: seq<Bytes>, events: seq<Event>)
    requires |files| == |events| + 1
  {
    forall i :: 0 <= i < |events| ==>
      Room(g, begin, files[i], events[i].r) && Step(g, begin, genHash, files[i], events[i], files[i + 1])
  }

  // `after` is `before` followed, in order, by every record whose append returned and by some of
  // those whose append crashed.
  ghost predicate Explains(before: seq<Record>, events: seq<Event>, after: seq<Record>)
    decreases |events|
  {
    if events == [] then after == before
    else match events[0]
         case Appended(r) => Explains(before + [r], events[1..], after)
         case Crashed(r, _, _) => Explains(before, events[1..], after) || Explains(before + [r], events[1..], after)
  }

  lemma {:induction false} ExplainsKeeps(before: seq<Record>, events: seq<Event>, after: seq<Record>)
    requires Explains(before, events, after)
    ensures before <= after
    decreases |events|
  {
    if events != [] {
      var longer := before + [events[0].r];
      if Explains(longer, events[1..], after) {
        ExplainsKeeps(longer, events[1..], after);
      } else {
        ExplainsKeeps(before, events[1..], after);
      }
    }
  }

  lemma NextOpsAre(g: Gzip, data: Bytes, begin: nat, genHash: Bytes, recs: seq<Record>, r: Record)
    requires Good(g, data, begin, genHash, recs) && Room(g, begin, data, r)
    ensures CanAppend(g, data, begin, genHash, recs, r)
    ensures NextOps(g, data, begin, r) == AppendOps(g, End(g, recs), begin, begin + |recs|, r, true)
  {
    hide OfLE, Encode, RecordAt, AppendOps, LastOffset, ValidRecord;
    LastOffsetIs(g, data, begin, genHash, recs);
  }

  lemma StepKeeps(g: Gzip, begin: nat, genHash: Bytes, data: Bytes, recs: seq<Record>, e: Event, data': Bytes)
    requires Good(g, data, begin, genHash, recs) && Room(g, begin, data, e.r) && Step(g, begin, genHash, data, e, data')
    ensures Good(g, data', begin, genHash, recs + [e.r]) || (e.Crashed? && Good(g, data', begin, genHash, recs))
  {
    hide Good, Room, CanAppend, DoAll, AppendOps, NextOps, Load, LoadOps, Offset;
    NextOpsAre(g, data, begin, genHash, recs, e.r);
    var ops := NextOps(g, data, begin, e.r);
    match e {
      case Appended(r) =>
        assert ops[..|ops|] == ops;
        AppendEndsClean(g, data, begin, genHash, recs, r);
      case Crashed(r, k, img) =>
        CrashConsistent(g, data, begin, genHash, recs, r, k, img);
    }
  }

  // A synced append leaves a clean disk with the record added.
  lemma AppendEndsClean(g: Gzip, data: Bytes, begin: nat, genHash: Bytes, recs: seq<Record>, r: Record)
    requires CanAppend(g, data, begin, genHash, recs, r)
    ensures var d := DoAll(Clean(data), AppendOps(g, End(g, recs), begin, begin + |recs|, r, true));
            d == Clean(d.data) && Good(g, d.data, begin, genHash, recs + [r])
  {
    hide Body, Offset, DoAll, FirstWrites, Encode, Written, LE, OfLE, U32At, WriteBytes;
    var off, h := End(g, recs), begin + |recs|;
    var first := FirstWrites(g, off, begin, h, r);
    var a, b := Write(4, LE(4, h + 1)), Write(8, LE(4, h + 1));
    var w := Written(g, data, begin, recs, r);
    FirstWritesEffect(g, data, begin, recs, r);
    WrittenBody(g, data, begin, genHash, recs, r);
    BodySize(g, w, begin, genHash, recs + [r]);
    HeadWord(g, w, 4, h + 1, begin, genHash, recs + [r]);
    HeadWord(g, WriteBytes(w, 4, a.bs), 8, h + 1, begin, genHash, recs + [r]);
    AppendShape(g, off, begin, h, r);
    DoAllConcat(Clean(data), first, [Sync, a, Sync, b, Sync]);
    SyncSteps(DoAll(Clean(data), first), a, b, 5);
    assert [Sync, a, Sync, b, Sync][..5] == [Sync, a, Sync, b, Sync];
  }

  /** Over every run of synced appends and crashes, the file always loads, and every record whose
      append returned keeps its place for good. */
  lemma {:induction false} NothingAcknowledgedIsLost(g: Gzip, begin: nat, genHash: Bytes, files: seq<Bytes>,
                                                     events: seq<Event>, recs: seq<Record>)
    requires |files| == |events| + 1 && IsRun(g, begin, genHash, files, events)
    requires Good(g, files[0], begin, genHash, recs)
    ensures exists after :: Explains(recs, events, after) && Good(g, files[|events|], begin, genHash, after)
    decreases |events|
  {
    hide Good, Room, Step;
    if events == [] {
      assert Explains(recs, events, recs);
    } else {
      var e := events[0];
      StepKeeps(g, begin, genHash, files[0], recs, e, files[1]);
      forall i | 0 <= i < |events[1..]|
        ensures Room(g, begin, files[1..][i], events[1..][i].r)
                && Step(g, begin, genHash, files[1..][i], events[1..][i], files[1..][i + 1])
      {
        assert Room(g, begin, files[i + 1], events[i + 1].r)
               && Step(g, begin, genHash, files[i + 1], events[i + 1], files[i + 2]);
      }
      var next := if Good(g, files[1], begin, genHash, recs + [e.r]) then recs + [e.r] else recs;
      NothingAcknowledgedIsLost(g, begin, genHash, files[1..], events[1..], next);
      var after :| Explains(next, events[1..], after) && Good(g, files[1..][|events| - 1], begin, genHash, after);
      assert Explains(recs, events, after);
    }
  }
}
