/** A pile: one file of up to CHUNK_UNIT records, and the program's handle on it. */
module PileStore {
  import opened Basics
  import opened PileFormat
  import opened PileCrash
  import opened PileRead
  import PileRecovery

  function Zeros(n: nat): (bs: Bytes)
    ensures |bs| == n && forall i :: 0 <= i < n ==> bs[i] == 0
  {
    seq(n, _ => 0)
  }

  function NewMeta(base: nat, genHash: Bytes): (meta: Bytes)
    requires |genHash| == 32
    ensures |meta| == META_SIZE
  {
    LE(4, base) + LE(4, base) + LE(4, base) + LE(4, base) + LE(4, base + CHUNK_UNIT) + genHash + Zeros(204)
  }

  lemma NewIsGood(g: Gzip, base: nat, genHash: Bytes)
    requires |genHash| == 32 && base % CHUNK_UNIT == 0 && base + CHUNK_UNIT < U32
    ensures Good(g, WriteBytes(Zeros(HEADER_SIZE), 0, NewMeta(base, genHash)), base, genHash, [])
  {
    hide OfLE, LE, Encode;
    var meta := NewMeta(base, genHash);
    var data := WriteBytes(Zeros(HEADER_SIZE), 0, meta);
    assert data[0..4] == meta[0..4] && data[4..8] == meta[4..8] && data[8..12] == meta[8..12];
    assert data[12..16] == meta[12..16] && data[16..20] == meta[16..20] && data[20..52] == meta[20..52];
    assert meta[0..4] == meta[4..8] == meta[8..12] == meta[12..16] == LE(4, base);
    assert meta[16..20] == LE(4, base + CHUNK_UNIT) && meta[20..52] == genHash;
    Word32(base);
    Word32(base + CHUNK_UNIT);
  }

  lemma EndFits(g: Gzip, base: nat, genHash: Bytes)
    ensures base + CHUNK_UNIT >= U32 ==> forall data, recs :: !Good(g, data, base, genHash, recs)
  {
  }

  lemma {:induction false} DataOnly(d: Disk, d': Disk, ops: seq<Op>)
    requires d.data == d'.data
    ensures DoAll(d, ops).data == DoAll(d', ops).data
    decreases |ops|
  {
    if ops != [] {
      DataOnly(Do(d, ops[0]), Do(d', ops[0]), ops[1..]);
    }
  }

  // A completed append leaves a good file, synced or not.
  lemma AppendIsGood(g: Gzip, d: Disk, begin: nat, genHash: Bytes, recs: seq<Record>, r: Record, sync: bool)
    requires CanAppend(g, d.data, begin, genHash, recs, r)
    ensures var after := DoAll(d, AppendOps(g, End(g, recs), begin, begin + |recs|, r, sync));
            Good(g, after.data, begin, genHash, recs + [r])
  {
    hide Good, CanAppend, DoAll, AppendOps, Offset;
    DataOnly(d, Clean(d.data), AppendOps(g, End(g, recs), begin, begin + |recs|, r, sync));
    if sync {
      PileRecovery.AppendEndsClean(g, d.data, begin, genHash, recs, r);
    } else {
      var _ := PileRecovery.UnsyncedDisk(g, d.data, begin, genHash, recs, r);
    }
  }

  // The slot of a record past a full chunk is the place of the first record.
  lemma FullChunkOverwritten(g: Gzip, d: Disk, off: nat, begin: nat, r: Record, sync: bool)
    ensures var bs := DoAll(d, AppendOps(g, off, begin, begin + CHUNK_UNIT, r, sync)).data;
            |bs| >= HEADER_SIZE + 8 && bs[HEADER_SIZE..HEADER_SIZE + 8] == LE(8, off + |Encode(g, r)|)
  {
    hide LE, DoAll, Encode, DataOps, AppendOps;
    var d0 := DoAll(d, DataOps(g, off, r));
    HeadSteps(g, d, off, begin, begin + CHUNK_UNIT, r, sync);
  }

  lemma NotGoodBeyond(g: Gzip, begin: nat, genHash: Bytes, recs: seq<Record>)
    ensures |recs| > CHUNK_UNIT ==> forall data :: !Good(g, data, begin, genHash, recs)
  {
  }

  class Pile {
    const g: Gzip
    var data: Bytes              // the file's contents
    var pos: nat                 // the file's read/write position
    var headHeight: nat
    var beginHeight: nat
    var genHash: Bytes
    ghost var disk: Disk         // the contents together with what is durable
    ghost var recs: seq<Record>  // the records the file holds

    ghost predicate Valid()
      reads this
    {
      && data == disk.data && headHeight == beginHeight + |recs|
      && Good(g, data, beginHeight, genHash, recs)
    }

    constructor Opened(g: Gzip, data: Bytes)
      ensures this.g == g && this.data == data && disk == Clean(data) && pos == 0 && recs == []
    {
      this.g := g;
      this.data := data;
      pos, headHeight, beginHeight, genHash := 0, 0, 0, [];
      disk, recs := Clean(data), [];
    }

    method Write(bs: Bytes)
      modifies this`data, this`pos, this`disk
      ensures data == WriteBytes(old(data), old(pos), bs) && pos == old(pos) + |bs|
      ensures disk == Do(old(disk), Op.Write(old(pos), bs))
      ensures old(data == disk.data) ==> data == disk.data
    {
      data := WriteBytes(data, pos, bs);
      disk := Do(disk, Op.Write(pos, bs));
      pos := pos + |bs|;
    }

    method SyncFile()
      modifies this`disk
      ensures disk == Do(old(disk), Sync)
      ensures old(data == disk.data) ==> data == disk.data
    {
      disk := Do(disk, Sync);
    }

    /** Creates the file of the chunk that starts after `base`: a good file, unless its end height does not
        fit in 32 bits. */
    static method New(g: Gzip, genHash: Bytes, base: nat) returns (r: Result<Pile>)
      requires |genHash| == 32 && base < U32
      ensures r.Err? <==> base % CHUNK_UNIT != 0
      ensures r.Err? ==> r.error == InvalidChunkBeginHeight
      ensures r.Ok? ==> fresh(r.value) && r.value.recs == [] && r.value.g == g
      ensures r.Ok? ==> r.value.beginHeight == base && r.value.genHash == genHash
      ensures r.Ok? ==> r.value.data == WriteBytes(Zeros(HEADER_SIZE), 0, NewMeta(base, genHash))
      ensures r.Ok? ==> (r.value.Valid() <==> base + CHUNK_UNIT < U32)
    {
      hide Good, LE;
      if base % CHUNK_UNIT != 0 { return Err(InvalidChunkBeginHeight); }
      var p := new Pile.Opened(g, Zeros(HEADER_SIZE));
      p.Write(NewMeta(base, genHash));
      if base + CHUNK_UNIT < U32 { NewIsGood(g, base, genHash); }
      EndFits(g, base, genHash);
      p.headHeight, p.beginHeight, p.genHash := base, base, genHash;
      return Ok(p);
    }

    /** Loads a pile file, repairing head words that a crash left apart. */
    static method LoadPile(g: Gzip, img: Bytes) returns (r: Result<Loaded>, p: Pile)
      ensures fresh(p) && p.g == g && r == Load(img)
      ensures p.disk == DoAll(Clean(img), LoadOps(img)) && p.data == p.disk.data
      ensures r.Ok? ==> Loaded(p.headHeight, p.beginHeight, p.genHash) == r.value
      ensures forall recs: seq<Record>, begin: nat, gen: Bytes ::
                Recovered(g, img, begin, gen, recs) ==> r.Ok? && p.Holding(recs)
    {
      hide OfLE, Good, LE;
      p := new Pile.Opened(g, img);
      if img == [] { return Err(EndOfFile), p; }
      var meta := ReadAt(img, 0, META_SIZE);
      var head, checkA, checkB := U32At(meta, 0), U32At(meta, 4), U32At(meta, 8);
      var begin, end := U32At(meta, 12), U32At(meta, 16);
      if begin % CHUNK_UNIT != 0 { return Err(InvalidChunkBeginHeight), p; }
      if (begin + CHUNK_UNIT) % U32 != end { return Err(InvalidChunkEndHeight), p; }
      var ok;
      head, ok := p.RepairHeads(head, checkA, checkB);
      if !ok { return Err(HeightCrashed), p; }
      var offset: int := HEADER_SIZE;
      var n := (head - begin) % U32;
      if n > 0 {
        if |p.data| <= META_SIZE + (n - 1) * 8 { return Err(EndOfFile), p; }
        offset := Int64(OfLE(ReadAt(p.data, META_SIZE + (n - 1) * 8, 8)));
      }
      if |p.data| < offset { return Err(InvalidFileSize), p; }
      p.headHeight, p.beginHeight, p.genHash := head, begin, meta[20..52];
      return Ok(Loaded(head, begin, meta[20..52])), p;
    }

    // Valid once the ghost record list is set to `recs`.
    ghost predicate Holding(recs: seq<Record>)
      reads this
    {
      headHeight == beginHeight + |recs| && disk == Clean(data) && Good(g, data, beginHeight, genHash, recs)
    }

    method RepairHeads(head: nat, checkA: nat, checkB: nat) returns (h: nat, ok: bool)
      requires data == disk.data
      modifies this`data, this`pos, this`disk
      ensures data == disk.data
      ensures var r := Repair(head, checkA, checkB);
              && ok == r.Ok? && (ok ==> h == r.value.0)
              && disk == DoAll(old(disk), if ok then r.value.1 else [])
    {
      hide LE, Do;
      h, ok := head, true;
      if head != checkA || checkA != checkB {
        if checkA == checkB {
          PileRecovery.TwoSteps(disk, Op.Write(0, LE(4, checkA)), 2);
          SetWord(0, checkA);
          SyncFile();
          h := checkA;
          assert [Op.Write(0, LE(4, checkA)), Sync][..2] == [Op.Write(0, LE(4, checkA)), Sync];
        } else if head == (checkB + 1) % U32 {
          TwoWords(disk, head);
          SetWord(4, head);
          Write(LE(4, head));
          SyncFile();
        } else if head == checkA {
          PileRecovery.TwoSteps(disk, Op.Write(8, LE(4, head)), 2);
          SetWord(8, head);
          SyncFile();
          assert [Op.Write(8, LE(4, head)), Sync][..2] == [Op.Write(8, LE(4, head)), Sync];
        } else {
          ok := false;
        }
      }
    }

    // Seek to a head word and write it.
    method SetWord(at: nat, x: nat)
      requires data == disk.data
      modifies this`data, this`pos, this`disk
      ensures data == disk.data && disk == Do(old(disk), Op.Write(at, LE(4, x))) && pos == at + 4
    {
      pos := at;
      Write(LE(4, x));
    }

    /** Writes the record of the next height, then its end offset, then the three head words. The file
        stays valid unless the chunk was full: then the end offset goes over the first record's hash. */
    method AppendData(sync: bool, height: nat, hash: Bytes, items: seq<Bytes>) returns (r: Result<()>)
      requires Valid() && ValidRecord(g, Record(hash, items))
      requires End(g, recs) + |Encode(g, Record(hash, items))| < I64
      modifies this
      ensures Valid() <==> r.Err? || |old(recs)| < CHUNK_UNIT
      ensures beginHeight == old(beginHeight) && genHash == old(genHash)
      ensures r == if height == old(headHeight) + 1 then Ok(()) else Err(InvalidAppendHeight)
      ensures r.Err? ==> recs == old(recs) && disk == old(disk)
      ensures r.Ok? ==> recs == old(recs) + [Record(hash, items)] && headHeight == beginHeight + |recs|
      ensures r.Ok? ==>
                disk == DoAll(old(disk), AppendOps(g, End(g, old(recs)), beginHeight, old(headHeight),
                                                   Record(hash, items), sync))
      ensures r.Ok? && |old(recs)| == CHUNK_UNIT ==>
                && |data| >= HEADER_SIZE + 8
                && data[HEADER_SIZE..HEADER_SIZE + 8]
                   == LE(8, End(g, old(recs)) + |Encode(g, Record(hash, items))|)
    {
      hide Good, Encode, Offset, DoAll, AppendOps, LE, OfLE, Do;
      if height != headHeight + 1 { return Err(InvalidAppendHeight); }
      ghost var rec := Record(hash, items);
      ghost var was := disk;
      var n := headHeight - beginHeight;
      var offset := FindOffset();
      if |recs| < CHUNK_UNIT {
        AppendIsGood(g, disk, beginHeight, genHash, recs, rec, sync);
      } else {
        FullChunkOverwritten(g, disk, End(g, recs), beginHeight, rec, sync);
      }
      NotGoodBeyond(g, beginHeight, genHash, recs + [rec]);
      var total := WriteRecord(offset, hash, items);
      WriteHeads(was, rec, offset, total, n, sync);
      headHeight := headHeight + 1;
      recs := recs + [rec];
      return Ok(());
    }

    method FindOffset() returns (offset: nat)
      requires Valid()
      ensures offset == End(g, recs)
      ensures forall r :: ValidRecord(g, r) && |recs| < CHUNK_UNIT && offset + |Encode(g, r)| < I64
                ==> CanAppend(g, data, beginHeight, genHash, recs, r)
      ensures headHeight + 1 < U32 || |recs| == CHUNK_UNIT
    {
      hide Encode, OfLE, ValidRecord;
      offset := HEADER_SIZE;
      var n := headHeight - beginHeight;
      if n > 0 {
        assert RecordAt(g, data, recs, n - 1) && Slot(n - 1) + 8 <= HEADER_SIZE;
        offset := OfLE(ReadAt(data, META_SIZE + (n - 1) * 8, 8));
      }
    }

    method WriteRecord(offset: nat, hash: Bytes, items: seq<Bytes>) returns (total: nat)
      requires data == disk.data && |hash| == 32
      modifies this`data, this`pos, this`disk
      ensures data == disk.data
      ensures disk == DoAll(old(disk), DataOps(g, offset, Record(hash, items)))
      ensures total == |Encode(g, Record(hash, items))|
    {
      hide LE, Consecutive, DoAll, Flatten, ChunksWritten, Do;
      ghost var cs := Chunks(g, Record(hash, items));
      ghost var zall := Zipped(g, items);
      pos := offset;
      total := 32 + 1 + 4 * |items|;
      NoneWritten(disk, offset, cs);
      WriteChunk(old(disk), offset, cs, 0, hash);
      WriteChunk(old(disk), offset, cs, 1, [|items| % 256]);
      var zs: seq<Bytes> := [];
      var i := 0;
      while i < |items|
        invariant 0 <= i <= |items| && zs == zall[..i]
        invariant data == disk.data && ChunksWritten(old(disk), disk, pos, offset, cs, 2 + i)
      {
        var z := g.zip(items[i]);
        zs := zs + [z];
        WriteChunk(old(disk), offset, cs, 2 + i, LE(4, |z|));
        i := i + 1;
      }
      ghost var n := |items|;
      TableWritten(g, hash, items);
      i := 0;
      while i < |zs|
        invariant 0 <= i <= |zs| && zs == zall
        invariant data == disk.data && ChunksWritten(old(disk), disk, pos, offset, cs, 2 + n + i)
        invariant total == |Flatten(cs[..2 + n + i])|
      {
        WriteChunk(old(disk), offset, cs, 2 + n + i, zs[i]);
        total := total + |zs[i]|;
        i := i + 1;
      }
      assert cs[..|cs|] == cs;
      AllWritten(old(disk), disk, pos, offset, cs);
    }

    // The next chunk of a record.
    method WriteChunk(ghost was: Disk, ghost off: nat, ghost cs: seq<Bytes>, ghost k: nat, bs: Bytes)
      requires k < |cs| && bs == cs[k] && data == disk.data && ChunksWritten(was, disk, pos, off, cs, k)
      modifies this`data, this`pos, this`disk
      ensures data == disk.data && ChunksWritten(was, disk, pos, off, cs, k + 1)
      ensures |Flatten(cs[..k + 1])| == |Flatten(cs[..k])| + |bs|
    {
      hide ChunksWritten, Do, Flatten;
      NextWritten(was, disk, pos, off, cs, k);
      Write(bs);
    }

    method WriteHeads(ghost was: Disk, ghost rec: Record, offset: nat, total: nat, n: nat, sync: bool)
      requires data == disk.data && n == headHeight - beginHeight >= 0 && total == |Encode(g, rec)|
      requires disk == DoAll(was, DataOps(g, offset, rec))
      modifies this`data, this`pos, this`disk
      ensures data == disk.data
      ensures disk == DoAll(was, AppendOps(g, offset, beginHeight, headHeight, rec, sync))
    {
      hide LE, DoAll, Encode, DataOps, Do, AppendOps, WriteBytes;
      HeadSteps(g, was, offset, beginHeight, headHeight, rec, sync);
      pos := META_SIZE + n * 8;
      Write(LE(8, offset + total));
      WordAndSync(0, headHeight + 1, sync);
      WordAndSync(4, headHeight + 1, sync);
      WordAndSync(8, headHeight + 1, sync);
    }

    method WordAndSync(at: nat, x: nat, sync: bool)
      requires data == disk.data
      modifies this`data, this`pos, this`disk
      ensures data == disk.data
      ensures disk == (var d := Do(old(disk), Op.Write(at, LE(4, x))); if sync then Do(d, Sync) else d)
    {
      hide LE, Do;
      SetWord(at, x);
      if sync { SyncFile(); }
    }

    /** The hash of a height of this pile; the begin height itself is answered with the first hash. */
    method GetHash(height: nat) returns (r: Result<Bytes>)
      requires Valid()
      ensures height > beginHeight + CHUNK_UNIT ==> r == Err(InvalidHeight)
      ensures beginHeight < height <= headHeight ==> r == Ok(recs[height - beginHeight - 1].hash)
      ensures height == beginHeight && recs != [] ==> r == Ok(recs[0].hash)
      ensures height <= beginHeight + CHUNK_UNIT ==> r == ReadHash(data, beginHeight, height)
    {
      hide OfLE, Encode, RecordAt, ValidRecord;
      if beginHeight < height <= headHeight {
        HashReadBack(g, data, beginHeight, genHash, recs, height - beginHeight - 1);
      } else if height == beginHeight && recs != [] {
        HashReadBack(g, data, beginHeight, genHash, recs, 0);
      }
      if height > beginHeight + CHUNK_UNIT { return Err(InvalidHeight); }
      var offset := FindStart(height);
      match offset
      case Err(e) => return Err(e);
      case Ok(o) =>
        if o < 0 || |data| <= o { return Err(EndOfFile); }
        return Ok(ReadAt(data, o, 32));
    }

    method FindStart(height: nat) returns (r: Result<int>)
      ensures r == StartOf(data, beginHeight, height)
    {
      hide OfLE;
      var n := (height - beginHeight) % U32;
      if n > 1 {
        if |data| <= META_SIZE + (n - 2) * 8 { return Err(EndOfFile); }
        return Ok(Int64(OfLE(ReadAt(data, META_SIZE + (n - 2) * 8, 8))));
      }
      return Ok(HEADER_SIZE);
    }

    /** The item at `index` of a height: exactly what was appended when the record has fewer than
        64 items, and a panic when the index is past the wrapped length table. */
    method GetData(height: nat, index: nat) returns (r: Result<Bytes>)
      requires Valid() && g.Inverse()
      ensures height > headHeight ==> r == Err(InvalidHeight)
      ensures height <= headHeight ==> r == ItemOf(g, data, beginHeight, height, index)
      ensures beginHeight < height <= headHeight ==>
                var items := recs[height - beginHeight - 1].items;
                && (index >= |items| ==> r == Err(InvalidDataIndex))
                && (index < |items| < 64 ==> r == Ok(items[index]))
                && (|items| % 64 <= index < |items| ==> r == Err(Panic))
    {
      hide OfLE, Encode, RecordAt, ValidRecord, ReadItem, Stored, Offset, StartOf;
      if height > beginHeight + CHUNK_UNIT { return Err(InvalidHeight); }
      if height > headHeight { return Err(InvalidHeight); }
      var offset := FindStart(height);
      if beginHeight < height {
        ghost var k := height - beginHeight - 1;
        StoredAt(g, data, beginHeight, genHash, recs, k);
        ItemCases(g, data, offset.value, recs[k], index);
      }
      if offset.Err? { return Err(offset.error); }
      r := ReadItemAt(offset.value, index);
    }

    method ReadItemAt(offset: int, index: nat) returns (r: Result<Bytes>)
      ensures r == ReadItem(g, data, offset, index)
    {
      hide OfLE, ReadOne;
      if offset + 32 < 0 || |data| <= offset + 32 { return Err(EndOfFile); }
      var count: int := data[offset + 32];
      if index >= count { return Err(InvalidDataIndex); }
      var size := (4 * count) % 256;
      if size > 0 && |data| <= offset + 33 { return Err(EndOfFile); }
      var zl := ReadAt(data, offset + 33, size);
      var sum := AddLengths(zl, index);
      if sum.Err? { return Err(sum.error); }
      return ReadOne(g, data, zl, offset + 33 + size + sum.value, index);
    }

    static method AddLengths(zl: Bytes, count: nat) returns (r: Result<nat>)
      ensures r == SumLengths(zl, count)
    {
      hide OfLE;
      var s := 0;
      var i := 0;
      while i < count
        invariant 0 <= i <= count && SumLengths(zl, i) == Ok(s)
      {
        if 4 * i + 4 > |zl| {
          SumTooLong(zl, i + 1);
          SumStops(zl, i + 1, count);
          return Err(Panic);
        }
        s := s + U32At(zl, 4 * i);
        i := i + 1;
      }
      return Ok(s);
    }

    /** The items from..from+count of a height, decompressed and concatenated. */
    method GetDatas(height: nat, from: nat, count: nat) returns (r: Result<Bytes>)
      requires Valid() && g.Inverse()
      ensures height > headHeight ==> r == Err(InvalidHeight)
      ensures height <= headHeight ==> r == ItemsOf(g, data, beginHeight, height, from, count)
      ensures beginHeight < height <= headHeight ==>
                var items := recs[height - beginHeight - 1].items;
                && (from + count > |items| ==> r == Err(InvalidDataIndex))
                && (from + count <= |items| < 64 ==> r == Ok(Flatten(items[from..from + count])))
                && (|items| % 64 <= from && |items| % 64 < from + count <= |items| ==> r == Err(Panic))
                && (count > 0 && |items| % 64 < from + count <= |items| ==> r.Err?)
    {
      hide OfLE, Encode, RecordAt, ReadItems, Stored, Offset, Flatten, StartOf;
      if height > beginHeight + CHUNK_UNIT { return Err(InvalidHeight); }
      if height > headHeight { return Err(InvalidHeight); }
      var offset := FindStart(height);
      if beginHeight < height {
        ghost var k := height - beginHeight - 1;
        StoredAt(g, data, beginHeight, genHash, recs, k);
        ItemsCases(g, data, offset.value, recs[k], from, count);
      }
      if offset.Err? { return Err(offset.error); }
      r := ReadItemsAt(offset.value, from, count);
    }

    method ReadItemsAt(offset: int, from: nat, count: nat) returns (r: Result<Bytes>)
      ensures r == ReadItems(g, data, offset, from, count)
    {
      hide OfLE;
      if offset + 32 < 0 || |data| <= offset + 32 { return Err(EndOfFile); }
      var n: int := data[offset + 32];
      if from + count > n { return Err(InvalidDataIndex); }
      var size := (4 * n) % 256;
      if size > 0 && |data| <= offset + 33 { return Err(EndOfFile); }
      var zl := ReadAt(data, offset + 33, size);
      var sum := AddLengths(zl, from);
      if sum.Err? { return Err(sum.error); }
      r := ReadRun(zl, offset + 33 + size + sum.value, from, count);
    }

    method ReadRun(zl: Bytes, start: int, from: nat, count: nat) returns (r: Result<Bytes>)
      ensures r == ReadMany(g, data, zl, start, from, count)
    {
      hide OfLE, ReadOne;
      var buffer: Bytes := [];
      var at := start;
      PrependNone(ReadMany(g, data, zl, start, from, count));
      var i := 0;
      while i < count
        invariant 0 <= i <= count
        invariant Prepended(buffer, ReadMany(g, data, zl, at, from + i, count - i))
                  == ReadMany(g, data, zl, start, from, count)
      {
        var one := ReadOne(g, data, zl, at, from + i);
        if one.Err? { return Err(one.error); }
        TableHas(g, data, zl, at, from + i);
        var next := at + U32At(zl, 4 * (from + i));
        at := if |data| < next && at <= |data| then |data| else next;
        PrependTwice(buffer, one.value, ReadMany(g, data, zl, at, from + i + 1, count - i - 1));
        buffer := buffer + one.value;
        i := i + 1;
      }
      assert buffer + [] == buffer;
      return Ok(buffer);
    }
  }

  function Prepended(buffer: Bytes, r: Result<Bytes>): Result<Bytes> {
    match r case Ok(rest) => Ok(buffer + rest) case Err(e) => Err(e)
  }

  lemma PrependNone(r: Result<Bytes>)
    ensures Prepended([], r) == r
  {
    if r.Ok? {
      assert [] + r.value == r.value;
    }
  }

  lemma PrependTwice(a: Bytes, b: Bytes, r: Result<Bytes>)
    ensures Prepended(a, Prepended(b, r)) == Prepended(a + b, r)
  {
    if r.Ok? {
      assert a + (b + r.value) == a + b + r.value;
    }
  }

  lemma TableHas(g: Gzip, data: Bytes, zl: Bytes, pos: int, index: nat)
    requires ReadOne(g, data, zl, pos, index).Ok?
    ensures 4 * index + 4 <= |zl|
  {
  }

  lemma {:induction false} SumStops(zl: Bytes, i: nat, k: nat)
    requires i <= k && SumLengths(zl, i) == Err(Panic)
    ensures SumLengths(zl, k) == Err(Panic)
  {
    if i < k {
      SumStops(zl, i, k - 1);
    }
  }

  lemma ItemCases(g: Gzip, data: Bytes, off: nat, r: Record, index: nat)
    requires g.Inverse() && Stored(g, data, off, r)
    ensures index >= |r.items| ==> ReadItem(g, data, off, index) == Err(InvalidDataIndex)
    ensures index < |r.items| < 64 ==> ReadItem(g, data, off, index) == Ok(r.items[index])
    ensures |r.items| % 64 <= index < |r.items| ==> ReadItem(g, data, off, index) == Err(Panic)
  {
    hide Encode, Stored, ReadOne, SumLengths;
    if index >= |r.items| {
      StoredParts(g, data, off, r);
    } else if |r.items| < 64 {
      ReadItemIs(g, data, off, r, index);
    } else if |r.items| % 64 <= index {
      ItemPanics(g, data, off, r, index);
    }
  }

  lemma ItemsCases(g: Gzip, data: Bytes, off: nat, r: Record, from: nat, count: nat)
    requires g.Inverse() && Stored(g, data, off, r)
    ensures from + count > |r.items| ==> ReadItems(g, data, off, from, count) == Err(InvalidDataIndex)
    ensures from + count <= |r.items| < 64 ==>
              ReadItems(g, data, off, from, count) == Ok(Flatten(r.items[from..from + count]))
    ensures |r.items| % 64 <= from && |r.items| % 64 < from + count <= |r.items| ==>
              ReadItems(g, data, off, from, count) == Err(Panic)
    ensures count > 0 && |r.items| % 64 < from + count <= |r.items| ==> ReadItems(g, data, off, from, count).Err?
  {
    hide Encode, Stored, ReadMany, SumLengths, Flatten, ReadItem, OneByOne;
    if from + count > |r.items| {
      StoredParts(g, data, off, r);
    } else {
      RangeIsItems(g, data, off, r, from, count);
      if |r.items| < 64 {
        ReadItemsAre(g, data, off, r, from, count);
      } else if count > 0 && |r.items| % 64 < from + count {
        OneByOneFails(g, data, off, r, from, count);
      }
    }
  }

  // A range that reaches past the loaded table fails, and at once if it starts there.
  lemma {:induction false} OneByOneFails(g: Gzip, data: Bytes, off: nat, r: Record, from: nat, count: nat)
    requires Stored(g, data, off, r) && count > 0 && |r.items| % 64 < from + count <= |r.items|
    ensures OneByOne(g, data, off, from, count).Err?
    ensures |r.items| % 64 <= from ==> OneByOne(g, data, off, from, count) == Err(Panic)
    decreases count
  {
    hide Encode, Stored, ReadItem;
    if |r.items| % 64 <= from {
      ItemPanics(g, data, off, r, from);
    } else {
      OneByOneFails(g, data, off, r, from + 1, count - 1);
    }
  }

  // The first k chunks are written from `off` on.
  ghost predicate ChunksWritten(was: Disk, now: Disk, pos: nat, off: nat, cs: seq<Bytes>, k: nat)
    requires k <= |cs|
  {
    now == DoAll(was, Consecutive(off, cs[..k])) && pos == off + |Flatten(cs[..k])|
  }

  lemma NoneWritten(d: Disk, off: nat, cs: seq<Bytes>)
    ensures ChunksWritten(d, d, off, off, cs, 0)
  {
    assert cs[..0] == [];
  }

  lemma NextWritten(was: Disk, now: Disk, pos: nat, off: nat, cs: seq<Bytes>, k: nat)
    requires k < |cs| && ChunksWritten(was, now, pos, off, cs, k)
    ensures ChunksWritten(was, Do(now, Op.Write(pos, cs[k])), pos + |cs[k]|, off, cs, k + 1)
    ensures |Flatten(cs[..k + 1])| == |Flatten(cs[..k])| + |cs[k]|
  {
    hide Do, Flatten, DoAll, Consecutive;
    assert cs[..k + 1] == cs[..k] + [cs[k]];
    ConsecutiveLast(off, cs[..k], cs[k]);
    FlatAt(cs, k);
    DoAllLast(was, Consecutive(off, cs[..k]), Op.Write(off + |Flatten(cs[..k])|, cs[k]));
  }

  lemma AllWritten(was: Disk, now: Disk, pos: nat, off: nat, cs: seq<Bytes>)
    requires ChunksWritten(was, now, pos, off, cs, |cs|)
    ensures now == DoAll(was, Consecutive(off, cs))
  {
    assert cs[..|cs|] == cs;
  }

  lemma TableWritten(g: Gzip, hash: Bytes, items: seq<Bytes>)
    requires |hash| == 32
    ensures |Flatten(Chunks(g, Record(hash, items))[..2 + |items|])| == 33 + 4 * |items|
  {
    hide LE;
    var zs := Zipped(g, items);
    var top: seq<Bytes> := [hash, [|items| % 256]];
    var cs := Chunks(g, Record(hash, items));
    assert cs[..2 + |items|] == top + Lengths(zs);
    FlattenConcat(top, Lengths(zs));
    FlatLengths(zs);
    assert top[1..] == [[|items| % 256]];
    FlattenOne([|items| % 256]);
  }

  // The writes after the record, one by one.
  lemma HeadSteps(g: Gzip, was: Disk, off: nat, begin: nat, head: nat, r: Record, sync: bool)
    requires begin <= head
    ensures var d0 := DoAll(was, DataOps(g, off, r));
            var slot := Op.Write(Slot(head - begin), LE(8, off + |Encode(g, r)|));
            var d1 := Do(Do(d0, slot), Op.Write(0, LE(4, head + 1)));
            var d2 := Do(if sync then Do(d1, Sync) else d1, Op.Write(4, LE(4, head + 1)));
            var d3 := Do(if sync then Do(d2, Sync) else d2, Op.Write(8, LE(4, head + 1)));
            DoAll(was, AppendOps(g, off, begin, head, r, sync)) == if sync then Do(d3, Sync) else d3
  {
    hide LE, Encode, DataOps, DoAll, Do;
    var a, b := Op.Write(4, LE(4, head + 1)), Op.Write(8, LE(4, head + 1));
    var slot, word := Op.Write(Slot(head - begin), LE(8, off + |Encode(g, r)|)), Op.Write(0, LE(4, head + 1));
    var data := DataOps(g, off, r);
    PileRecovery.AppendShape(g, off, begin, head, r);
    var first := PileRecovery.FirstWrites(g, off, begin, head, r);
    assert first == data + [slot] + [word];
    DoAllLast(was, data + [slot], word);
    DoAllLast(was, data, slot);
    if sync {
      DoAllConcat(was, first, [Sync, a, Sync, b, Sync]);
      PileRecovery.SyncSteps(DoAll(was, first), a, b, 5);
      assert [Sync, a, Sync, b, Sync][..5] == [Sync, a, Sync, b, Sync];
    } else {
      assert first + [a, b] == first + [a] + [b];
      DoAllLast(was, first + [a], b);
      DoAllLast(was, first, a);
    }
  }
}
