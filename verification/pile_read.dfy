/** Reading records back from the bytes of a pile. */
module PileRead {
  import opened Basics
  import opened PileFormat
  import opened PileCrash

  // The offset of a height as the readers find it, from the slot of the height before. The distance
  // to the begin height wraps for the heights below it.
  function StartOf(data: Bytes, begin: nat, height: nat): Result<int> {
    var n := (height - begin) % U32;
    if n <= 1 then Ok(HEADER_SIZE)
    else if |data| <= META_SIZE + (n - 2) * 8 then Err(EndOfFile)
    else Ok(Int64(OfLE(ReadAt(data, META_SIZE + (n - 2) * 8, 8))))
  }

  // The sum of the first k lengths in a length table; a table that is too short is an index panic.
  function SumLengths(zl: Bytes, k: nat): Result<nat> {
    if k == 0 then Ok(0)
    else match SumLengths(zl, k - 1)
         case Err(e) => Err(e)
         case Ok(s) => if 4 * k <= |zl| then Ok(s + U32At(zl, 4 * (k - 1))) else Err(Panic)
  }

  // The table the readers load: its size is computed in a byte, so it wraps at 64 items.
  function TableSize(count: Byte): nat { (4 * count) % 256 }

  // One compressed item.
  function ReadOne(g: Gzip, data: Bytes, zl: Bytes, pos: int, index: nat): Result<Bytes> {
    if 4 * index + 4 > |zl| then Err(Panic)
    else
      var size := U32At(zl, 4 * index);
      if pos < 0 || (size > 0 && |data| <= pos) then Err(EndOfFile) else g.unzip(ReadAt(data, pos, size))
  }

  // The item at `index` of the record at `off`.
  function ReadItem(g: Gzip, data: Bytes, off: int, index: nat): Result<Bytes> {
    if off + 32 < 0 || |data| <= off + 32 then Err(EndOfFile)
    else
      var count := data[off + 32];
      var size := TableSize(count);
      if index >= count then Err(InvalidDataIndex)
      else if size > 0 && |data| <= off + 33 then Err(EndOfFile)
      else
        var zl := ReadAt(data, off + 33, size);
        match SumLengths(zl, index)
        case Err(e) => Err(e)
        case Ok(s) => ReadOne(g, data, zl, off + 33 + size + s, index)
  }

  // The items from `from` on, read one after another from `pos`.
  function ReadMany(g: Gzip, data: Bytes, zl: Bytes, pos: int, from: nat, count: nat): Result<Bytes>
    decreases count
  {
    if count == 0 then Ok([])
    else match ReadOne(g, data, zl, pos, from)
         case Err(e) => Err(e)
         case Ok(d) =>
           assert 4 * from + 4 <= |zl|;
           var pos' := pos + U32At(zl, 4 * from);
           match ReadMany(g, data, zl, if |data| < pos' && pos <= |data| then |data| else pos', from + 1, count - 1)
           case Err(e) => Err(e)
           case Ok(rest) => Ok(d + rest)
  }

  function ReadItems(g: Gzip, data: Bytes, off: int, from: nat, count: nat): Result<Bytes> {
    if off + 32 < 0 || |data| <= off + 32 then Err(EndOfFile)
    else
      var n := data[off + 32];
      var size := TableSize(n);
      if from + count > n then Err(InvalidDataIndex)
      else if size > 0 && |data| <= off + 33 then Err(EndOfFile)
      else
        var zl := ReadAt(data, off + 33, size);
        match SumLengths(zl, from)
        case Err(e) => Err(e)
        case Ok(s) => ReadMany(g, data, zl, off + 33 + size + s, from, count)
  }

  function ReadHash(data: Bytes, begin: nat, height: nat): Result<Bytes> {
    match StartOf(data, begin, height)
    case Err(e) => Err(e)
    case Ok(off) => if off < 0 || |data| <= off then Err(EndOfFile) else Ok(ReadAt(data, off, 32))
  }

  function ItemOf(g: Gzip, data: Bytes, begin: nat, height: nat, index: nat): Result<Bytes> {
    match StartOf(data, begin, height)
    case Err(e) => Err(e)
    case Ok(off) => ReadItem(g, data, off, index)
  }

  function ItemsOf(g: Gzip, data: Bytes, begin: nat, height: nat, from: nat, count: nat): Result<Bytes> {
    match StartOf(data, begin, height)
    case Err(e) => Err(e)
    case Ok(off) => ReadItems(g, data, off, from, count)
  }

  // The parts of an encoded record.

  lemma {:induction false} FlatLengths(zs: seq<Bytes>)
    ensures |Flatten(Lengths(zs))| == 4 * |zs|
  {
    hide LE;
    if zs != [] {
      FlatLengths(zs[1..]);
      assert Lengths(zs)[1..] == Lengths(zs[1..]);
    }
  }

  lemma EncodeParts(g: Gzip, r: Record)
    requires ValidRecord(g, r)
    ensures Encode(g, r) == r.hash + [|r.items|] + Flatten(Lengths(Zipped(g, r.items))) + Flatten(Zipped(g, r.items))
  {
    hide LE;
    var zs := Zipped(g, r.items);
    var top: seq<Bytes> := [r.hash, [|r.items| % 256]];
    FlattenConcat(top + Lengths(zs), zs);
    FlattenConcat(top, Lengths(zs));
    assert top[1..] == [[|r.items|]];
    FlattenOne([|r.items|]);
  }

  lemma {:induction false} FlatAt(cs: seq<Bytes>, i: nat)
    requires i < |cs|
    ensures var s := |Flatten(cs[..i])|;
            && s + |cs[i]| <= |Flatten(cs)| && Flatten(cs)[s..s + |cs[i]|] == cs[i]
            && |Flatten(cs[..i + 1])| == s + |cs[i]|
  {
    assert cs == cs[..i] + [cs[i]] + cs[i + 1..];
    FlattenConcat(cs[..i] + [cs[i]], cs[i + 1..]);
    FlattenConcat(cs[..i], [cs[i]]);
    FlattenOne(cs[i]);
    assert cs[..i + 1] == cs[..i] + [cs[i]];
  }

  lemma LengthAt(zs: seq<Bytes>, i: nat)
    requires i < |zs| && |zs[i]| < U32
    ensures |Flatten(Lengths(zs))| == 4 * |zs| && U32At(Flatten(Lengths(zs)), 4 * i) == |zs[i]|
  {
    hide LE;
    FlatLengths(zs);
    FlatAt(Lengths(zs), i);
    FlatLengths(zs[..i]);
    assert Lengths(zs)[..i] == Lengths(zs[..i]);
    Word32(|zs[i]|);
  }

  lemma {:induction false} LengthsSum(zs: seq<Bytes>, k: nat)
    requires k <= |zs| && forall i :: 0 <= i < |zs| ==> |zs[i]| < U32
    ensures SumLengths(Flatten(Lengths(zs)), k) == Ok(|Flatten(zs[..k])|)
  {
    if k > 0 {
      LengthsSum(zs, k - 1);
      LengthAt(zs, k - 1);
      FlatAt(zs, k - 1);
    }
  }

  // A record with fewer than 64 items, read at its offset.

  ghost predicate Stored(g: Gzip, data: Bytes, off: nat, r: Record) {
    && ValidRecord(g, r) && off + |Encode(g, r)| <= |data|
    && data[off..off + |Encode(g, r)|] == Encode(g, r)
  }

  lemma StoredAt(g: Gzip, data: Bytes, begin: nat, genHash: Bytes, recs: seq<Record>, i: nat)
    requires Body(g, data, begin, genHash, recs) && i < |recs|
    ensures Stored(g, data, Offset(g, recs, i), recs[i])
    ensures StartOf(data, begin, begin + i + 1) == Ok(Offset(g, recs, i))
  {
    hide OfLE, Encode;
    assert RecordAt(g, data, recs, i);
    OffsetsGrow(g, recs, i + 1, |recs|);
    OffsetsGrow(g, recs, i, |recs|);
    if i > 0 {
      assert RecordAt(g, data, recs, i - 1);
      assert Slot(i - 1) + 8 <= HEADER_SIZE;
    }
  }

  lemma StoredParts(g: Gzip, data: Bytes, off: nat, r: Record)
    requires Stored(g, data, off, r)
    ensures var zs := Zipped(g, r.items); var n := |r.items|; var t := off + 33 + 4 * n;
            && off + 33 + 4 * n + |Flatten(zs)| <= |data|
            && data[off..off + 32] == r.hash && data[off + 32] == n
            && data[off + 33..t] == Flatten(Lengths(zs))
            && data[t..t + |Flatten(zs)|] == Flatten(zs)
  {
    hide Lengths, Encode, Flatten;
    EncodeParts(g, r);
    var zs, n := Zipped(g, r.items), |r.items|;
    FlatLengths(zs);
    var e := Encode(g, r);
    assert forall p :: 0 <= p < |e| ==> data[off + p] == e[p] by {
      forall p | 0 <= p < |e| ensures data[off + p] == e[p] {
        assert data[off..off + |e|][p] == data[off + p];
      }
    }
    assert e[..32] == r.hash && e[32] == n;
    assert e[33..33 + 4 * n] == Flatten(Lengths(zs)) && e[33 + 4 * n..] == Flatten(zs);
    assert data[off..off + 32] == e[..32];
    assert data[off + 33..off + 33 + 4 * n] == e[33..33 + 4 * n];
    assert data[off + 33 + 4 * n..off + |e|] == e[33 + 4 * n..];
  }

  lemma SliceOfSlice(data: Bytes, t: nat, n: nat, s: nat, k: nat)
    requires t + n <= |data| && s + k <= n
    ensures data[t..t + n][s..s + k] == data[t + s..t + s + k]
  {
    var a, b := data[t..t + n][s..s + k], data[t + s..t + s + k];
    assert forall i :: 0 <= i < k ==> a[i] == b[i];
  }

  // One item read at its place.
  lemma ReadOneIs(g: Gzip, data: Bytes, off: nat, r: Record, i: nat)
    requires g.Inverse() && Stored(g, data, off, r) && i < |r.items|
    ensures var zs := Zipped(g, r.items); var t := off + 33 + 4 * |r.items|; var zl := Flatten(Lengths(zs));
            && ReadOne(g, data, zl, t + |Flatten(zs[..i])|, i) == Ok(r.items[i])
            && 4 * i + 4 <= |zl| && U32At(zl, 4 * i) == |zs[i]|
            && |Flatten(zs[..i + 1])| == |Flatten(zs[..i])| + |zs[i]| <= |Flatten(zs)|
            && t + |Flatten(zs)| <= |data|
  {
    hide Flatten, Lengths, Encode, OfLE;
    var zs, n := Zipped(g, r.items), |r.items|;
    var t := off + 33 + 4 * n;
    StoredParts(g, data, off, r);
    LengthAt(zs, i);
    FlatAt(zs, i);
    var s := |Flatten(zs[..i])|;
    SliceOfSlice(data, t, |Flatten(zs)|, s, |zs[i]|);
  }

  lemma ReadItemIs(g: Gzip, data: Bytes, off: nat, r: Record, i: nat)
    requires g.Inverse() && Stored(g, data, off, r) && i < |r.items| < 64
    ensures ReadItem(g, data, off, i) == Ok(r.items[i])
  {
    hide Flatten, Lengths, Encode, OfLE, ReadOne;
    var zs, n := Zipped(g, r.items), |r.items|;
    StoredParts(g, data, off, r);
    FlatLengths(zs);
    LengthsSum(zs, i);
    ReadOneIs(g, data, off, r, i);
    assert ReadAt(data, off + 33, 4 * n) == Flatten(Lengths(zs));
  }

  lemma {:induction false} ReadManyIs(g: Gzip, data: Bytes, off: nat, r: Record, from: nat, count: nat)
    requires g.Inverse() && Stored(g, data, off, r) && from + count <= |r.items|
    ensures var zs := Zipped(g, r.items); var t := off + 33 + 4 * |r.items|;
            ReadMany(g, data, Flatten(Lengths(zs)), t + |Flatten(zs[..from])|, from, count)
            == Ok(Flatten(r.items[from..from + count]))
    decreases count
  {
    hide Lengths, Encode, OfLE, ReadOne, Stored, Zipped;
    if count > 0 {
      var zs := Zipped(g, r.items);
      ReadOneIs(g, data, off, r, from);
      ReadManyIs(g, data, off, r, from + 1, count - 1);
      assert r.items[from..from + count][1..] == r.items[from + 1..from + count];
    }
  }

  lemma ReadItemsAre(g: Gzip, data: Bytes, off: nat, r: Record, from: nat, count: nat)
    requires g.Inverse() && Stored(g, data, off, r) && from + count <= |r.items| < 64
    ensures ReadItems(g, data, off, from, count) == Ok(Flatten(r.items[from..from + count]))
  {
    hide Flatten, Lengths, Encode, OfLE, ReadOne, ReadMany;
    var zs, n := Zipped(g, r.items), |r.items|;
    StoredParts(g, data, off, r);
    FlatLengths(zs);
    LengthsSum(zs, from);
    ReadManyIs(g, data, off, r, from, count);
    assert ReadAt(data, off + 33, 4 * n) == Flatten(Lengths(zs));
  }

  // A length table that is too short.
  lemma {:induction false} SumTooLong(zl: Bytes, k: nat)
    requires 4 * k > |zl|
    ensures SumLengths(zl, k) == Err(Panic)
  {
    if k > 0 && 4 * (k - 1) > |zl| {
      SumTooLong(zl, k - 1);
    }
    SumPanicsOrNot(zl, k);
  }

  lemma {:induction false} SumPanicsOrNot(zl: Bytes, k: nat)
    ensures SumLengths(zl, k).Err? ==> SumLengths(zl, k) == Err(Panic)
  {
    if k > 0 {
      SumPanicsOrNot(zl, k - 1);
    }
  }

  /** An item can be reached exactly when its length is in the table the readers load; past that
      the reader panics. */
  lemma ItemPanics(g: Gzip, data: Bytes, off: nat, r: Record, i: nat)
    requires Stored(g, data, off, r) && |r.items| % 64 <= i < |r.items|
    ensures ReadItem(g, data, off, i) == Err(Panic)
  {
    hide Flatten, Lengths, Encode, OfLE, Stored;
    StoredParts(g, data, off, r);
    var size := TableSize(|r.items|);
    assert size == 4 * (|r.items| % 64);
    var zl := ReadAt(data, off + 33, size);
    FlatLengths(Zipped(g, r.items));
    if 4 * i > |zl| {
      SumTooLong(zl, i);
    }
    SumPanicsOrNot(zl, i);
  }

  /** All items of a stored record read back exactly when there are fewer than 64 of them. */
  lemma AllItemsReadBack(g: Gzip, data: Bytes, off: nat, r: Record)
    requires g.Inverse() && Stored(g, data, off, r)
    ensures (forall i :: 0 <= i < |r.items| ==> ReadItem(g, data, off, i) == Ok(r.items[i])) <==> |r.items| < 64
  {
    hide ReadItem, Stored, Encode;
    if |r.items| < 64 {
      forall i | 0 <= i < |r.items| ensures ReadItem(g, data, off, i) == Ok(r.items[i]) {
        ReadItemIs(g, data, off, r, i);
      }
    } else {
      ItemPanics(g, data, off, r, |r.items| - 1);
    }
  }

  // Past 64 items.

  // Where the readers take the compressed items to start.
  function ItemsAt(off: nat, r: Record): nat { off + 33 + 4 * (|r.items| % 64) }

  lemma {:induction false} SumPrefix(zl: Bytes, full: Bytes, k: nat)
    requires 4 * k <= |zl| <= |full| && zl == full[..|zl|]
    ensures SumLengths(zl, k) == SumLengths(full, k)
    ensures 4 * k + 4 <= |zl| ==> U32At(zl, 4 * k) == U32At(full, 4 * k)
  {
    hide OfLE;
    if 4 * k + 4 <= |zl| {
      assert zl[4 * k..4 * k + 4] == full[4 * k..4 * k + 4];
    }
    if k > 0 {
      SumPrefix(zl, full, k - 1);
    }
  }

  lemma TableBytes(g: Gzip, data: Bytes, off: nat, r: Record)
    requires Stored(g, data, off, r)
    ensures TableSize(|r.items|) == 4 * (|r.items| % 64)
    ensures var zs := Zipped(g, r.items); var full := Flatten(Lengths(zs));
            && |full| == 4 * |r.items| && ItemsAt(off, r) + |Flatten(zs)| <= |data|
            && ReadAt(data, off + 33, 4 * (|r.items| % 64)) == full[..4 * (|r.items| % 64)]
  {
    hide Flatten, Lengths, Encode, OfLE, Stored, Zipped, ReadAt, TableSize;
    StoredParts(g, data, off, r);
    var n, m := |r.items|, |r.items| % 64;
    ItemCount(g, data, off, r);
    FlatLengths(Zipped(g, r.items));
    SliceOfSlice(data, off + 33, 4 * n, 0, 4 * m);
    assert ReadAt(data, off + 33, 4 * m) == data[off + 33..off + 33 + 4 * m];
  }

  lemma ItemCount(g: Gzip, data: Bytes, off: nat, r: Record)
    requires Stored(g, data, off, r)
    ensures |r.items| < 256 && TableSize(|r.items|) == 4 * (|r.items| % 64)
  {
    hide Encode;
  }

  // The part of the length table that is loaded is right.
  lemma TableRead(g: Gzip, data: Bytes, off: nat, r: Record, i: nat)
    requires Stored(g, data, off, r) && i <= |r.items| % 64
    ensures TableSize(|r.items|) == 4 * (|r.items| % 64)
    ensures var zs := Zipped(g, r.items); var zl := ReadAt(data, off + 33, 4 * (|r.items| % 64));
            && SumLengths(zl, i) == Ok(|Flatten(zs[..i])|)
            && |Flatten(zs[..i])| <= |Flatten(zs)| && ItemsAt(off, r) + |Flatten(zs)| <= |data|
            && (i < |r.items| % 64 ==>
                  && U32At(zl, 4 * i) == |zs[i]|
                  && |Flatten(zs[..i + 1])| == |Flatten(zs[..i])| + |zs[i]| <= |Flatten(zs)|)
  {
    hide Flatten, Lengths, Encode, OfLE, SumLengths, U32At, ReadAt;
    var zs, m := Zipped(g, r.items), |r.items| % 64;
    TableBytes(g, data, off, r);
    SumPrefix(ReadAt(data, off + 33, 4 * m), Flatten(Lengths(zs)), i);
    LengthsSum(zs, i);
    if i < m {
      LengthAt(zs, i);
      FlatAt(zs, i);
    }
    FlattenConcat(zs[..i], zs[i..]);
    assert zs[..i] + zs[i..] == zs;
  }

  /** An item whose length is in the loaded table is read from behind that table: at the right place
      with fewer than 64 items, and too early by the part of the table that was left out otherwise. */
  lemma ItemReadsFrom(g: Gzip, data: Bytes, off: nat, r: Record, i: nat)
    requires Stored(g, data, off, r) && i < |r.items| % 64
    ensures var zs := Zipped(g, r.items);
            ReadItem(g, data, off, i) == g.unzip(ReadAt(data, ItemsAt(off, r) + |Flatten(zs[..i])|, |zs[i]|))
  {
    hide Flatten, Lengths, Encode, OfLE, SumLengths, Stored;
    TableRead(g, data, off, r, i);
    StoredParts(g, data, off, r);
  }

  // The items of a range read one by one.
  function OneByOne(g: Gzip, data: Bytes, off: nat, from: nat, count: nat): Result<Bytes>
    decreases count
  {
    if count == 0 then Ok([])
    else match ReadItem(g, data, off, from)
         case Err(e) => Err(e)
         case Ok(d) =>
           match OneByOne(g, data, off, from + 1, count - 1)
           case Err(e) => Err(e)
           case Ok(rest) => Ok(d + rest)
  }

  lemma {:induction false} ReadManyOneByOne(g: Gzip, data: Bytes, off: nat, r: Record, from: nat, count: nat)
    requires Stored(g, data, off, r) && from <= |r.items| % 64 && from + count <= |r.items|
    ensures var zs := Zipped(g, r.items); var zl := ReadAt(data, off + 33, 4 * (|r.items| % 64));
            ReadMany(g, data, zl, ItemsAt(off, r) + |Flatten(zs[..from])|, from, count)
            == OneByOne(g, data, off, from, count)
    decreases count
  {
    hide Flatten, Lengths, Encode, OfLE, SumLengths, Stored, ReadItem, Zipped;
    if count > 0 {
      var m := |r.items| % 64;
      TableRead(g, data, off, r, from);
      if from < m {
        ItemReadsFrom(g, data, off, r, from);
        ReadManyOneByOne(g, data, off, r, from + 1, count - 1);
      } else {
        ItemPanics(g, data, off, r, from);
      }
    }
  }

  /** A range reads exactly as its items do one by one; an empty range that starts past the loaded
      table panics all the same. */
  lemma RangeIsItems(g: Gzip, data: Bytes, off: nat, r: Record, from: nat, count: nat)
    requires Stored(g, data, off, r) && from + count <= |r.items|
    ensures ReadItems(g, data, off, from, count)
            == if count == 0 && from > |r.items| % 64 then Err(Panic) else OneByOne(g, data, off, from, count)
  {
    hide Flatten, Lengths, Encode, OfLE, SumLengths, Stored, ReadMany, ReadItem;
    StoredParts(g, data, off, r);
    var m := |r.items| % 64;
    TableRead(g, data, off, r, m);
    var zl := ReadAt(data, off + 33, 4 * m);
    FlatLengths(Zipped(g, r.items));
    if from <= m {
      TableRead(g, data, off, r, from);
      ReadManyOneByOne(g, data, off, r, from, count);
    } else {
      SumTooLong(zl, from);
      if count > 0 { ItemPanics(g, data, off, r, from); }
    }
  }

  /** Every range of a stored record reads back exactly when there are fewer than 64 items. */
  lemma AllRangesReadBack(g: Gzip, data: Bytes, off: nat, r: Record)
    requires g.Inverse() && Stored(g, data, off, r)
    ensures (forall from: nat, count: nat | from + count <= |r.items| ::
               ReadItems(g, data, off, from, count) == Ok(Flatten(r.items[from..from + count])))
            <==> |r.items| < 64
  {
    hide ReadItems, ReadItem, Stored, Encode, Flatten;
    if |r.items| < 64 {
      forall from: nat, count: nat | from + count <= |r.items|
        ensures ReadItems(g, data, off, from, count) == Ok(Flatten(r.items[from..from + count]))
      {
        ReadItemsAre(g, data, off, r, from, count);
      }
    } else {
      var last := |r.items| - 1;
      RangeIsItems(g, data, off, r, last, 1);
      ItemPanics(g, data, off, r, last);
      assert ReadItems(g, data, off, last, 1) == Err(Panic);
    }
  }

  lemma HashReadBack(g: Gzip, data: Bytes, begin: nat, genHash: Bytes, recs: seq<Record>, i: nat)
    requires Body(g, data, begin, genHash, recs) && i < |recs|
    ensures ReadHash(data, begin, begin + i + 1) == Ok(recs[i].hash)
  {
    hide Body, Encode, Offset, Stored;
    StoredAt(g, data, begin, genHash, recs, i);
    StoredParts(g, data, Offset(g, recs, i), recs[i]);
  }
}
