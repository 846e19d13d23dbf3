/** The bytes of a pile file: a 256-byte meta block, one 8-byte end offset per height, and the
    records (hash, item count, item lengths, compressed items) one after another. */
module PileFormat {
  import opened Basics

  type Byte = x: int | 0 <= x < 256
  type Bytes = seq<Byte>

  const CHUNK_UNIT: nat := 172800 * 30
  const META_SIZE: nat := 256
  const HEADER_SIZE: nat := CHUNK_UNIT * 8 + META_SIZE
  const I64: nat := 0x8000_0000_0000_0000

  datatype Result<T> = Ok(value: T) | Err(error: Error)
  datatype Error = InvalidChunkBeginHeight | InvalidChunkEndHeight | HeightCrashed | InvalidFileSize | EndOfFile
                 | InvalidAppendHeight | InvalidHeight | InvalidDataIndex | MissingPile | ExceedMaximumDataArrayLength
                 | AlreadyInitialized | Decompression | Panic

  /** A compressor and its decompressor; the decompressor may refuse. */
  datatype Gzip = Gzip(zip: Bytes -> Bytes, unzip: Bytes -> Result<Bytes>) {
    ghost predicate Inverse() { forall d :: unzip(zip(d)) == Ok(d) }
  }

  // Little-endian words.

  function LE(n: nat, x: nat): (bs: Bytes)
    ensures |bs| == n
  {
    if n == 0 then [] else [x % 256] + LE(n - 1, x / 256)
  }

  function OfLE(bs: Bytes): nat {
    if bs == [] then 0 else bs[0] + 256 * OfLE(bs[1..])
  }

  function Pow256(n: nat): nat {
    if n == 0 then 1 else 256 * Pow256(n - 1)
  }

  lemma {:induction false} LERoundTrip(n: nat, x: nat)
    requires x < Pow256(n)
    ensures OfLE(LE(n, x)) == x
  {
    if n > 0 {
      LERoundTrip(n - 1, x / 256);
      assert LE(n, x)[1..] == LE(n - 1, x / 256);
    }
  }

  lemma {:induction false} LEInverse(bs: Bytes)
    ensures LE(|bs|, OfLE(bs)) == bs && OfLE(bs) < Pow256(|bs|)
  {
    if bs != [] {
      LEInverse(bs[1..]);
    }
  }

  lemma Words()
    ensures Pow256(4) == U32 && Pow256(8) == 2 * I64
  {
    assert Pow256(2) == 65536;
    assert Pow256(4) == 65536 * 65536;
    assert Pow256(6) == 65536 * 65536 * 65536;
  }

  lemma Word32(x: nat)
    requires x < U32
    ensures OfLE(LE(4, x)) == x
  {
    Words();
    LERoundTrip(4, x);
  }

  lemma Word64(x: nat)
    requires x < I64
    ensures OfLE(LE(8, x)) == x
  {
    Words();
    LERoundTrip(8, x);
  }

  // Chunks written one after another.

  function Flatten(cs: seq<Bytes>): Bytes {
    if cs == [] then [] else cs[0] + Flatten(cs[1..])
  }

  lemma {:induction false} FlattenConcat(a: seq<Bytes>, b: seq<Bytes>)
    ensures Flatten(a + b) == Flatten(a) + Flatten(b)
  {
    if a == [] {
      assert a + b == b;
    } else {
      FlattenConcat(a[1..], b);
      assert (a + b)[0] == a[0] && (a + b)[1..] == a[1..] + b;
      assert Flatten(a + b) == a[0] + Flatten(a[1..] + b);
      assert a[0] + (Flatten(a[1..]) + Flatten(b)) == (a[0] + Flatten(a[1..])) + Flatten(b);
    }
  }

  lemma FlattenOne(c: Bytes)
    ensures Flatten([c]) == c
  {
    assert [c][1..] == [];
  }

  // Records.

  datatype Record = Record(hash: Bytes, items: seq<Bytes>)

  function Zipped(g: Gzip, items: seq<Bytes>): (zs: seq<Bytes>)
    ensures |zs| == |items|
    ensures forall i :: 0 <= i < |zs| ==> zs[i] == g.zip(items[i])
  {
    seq(|items|, i requires 0 <= i < |items| => g.zip(items[i]))
  }

  function Lengths(zs: seq<Bytes>): (ls: seq<Bytes>)
    ensures |ls| == |zs|
    ensures forall i :: 0 <= i < |ls| ==> ls[i] == LE(4, |zs[i]|)
  {
    seq(|zs|, i requires 0 <= i < |zs| => LE(4, |zs[i]|))
  }

  function Chunks(g: Gzip, r: Record): seq<Bytes> {
    [r.hash, [|r.items| % 256]] + Lengths(Zipped(g, r.items)) + Zipped(g, r.items)
  }

  function Encode(g: Gzip, r: Record): Bytes { Flatten(Chunks(g, r)) }

  // What AppendData is given: a 32-byte hash, at most 255 items, each compressing below 4 GiB.
  ghost predicate ValidRecord(g: Gzip, r: Record) {
    && |r.hash| == 32 && |r.items| <= 255
    && forall i :: 0 <= i < |r.items| ==> |g.zip(r.items[i])| < U32
  }

  // Where the record at index i starts.
  function Offset(g: Gzip, recs: seq<Record>, i: nat): (o: nat)
    requires i <= |recs|
    ensures o >= HEADER_SIZE
  {
    if i == 0 then HEADER_SIZE else Offset(g, recs, i - 1) + |Encode(g, recs[i - 1])|
  }

  function End(g: Gzip, recs: seq<Record>): nat { Offset(g, recs, |recs|) }

  lemma {:induction false} OffsetsGrow(g: Gzip, recs: seq<Record>, i: nat, j: nat)
    requires i <= j <= |recs|
    ensures Offset(g, recs, i) <= Offset(g, recs, j)
  {
    if i < j {
      OffsetsGrow(g, recs, i, j - 1);
    }
  }

  lemma {:induction false} OffsetPrefix(g: Gzip, recs: seq<Record>, r: Record, i: nat)
    requires i <= |recs|
    ensures Offset(g, recs + [r], i) == Offset(g, recs, i)
  {
    if i > 0 {
      OffsetPrefix(g, recs, r, i - 1);
    }
  }

  // The bytes of the file.

  function U32At(data: Bytes, p: nat): nat
    requires p + 4 <= |data|
  {
    OfLE(data[p..p + 4])
  }

  function U64At(data: Bytes, p: nat): nat
    requires p + 8 <= |data|
  {
    OfLE(data[p..p + 8])
  }

  function Slot(i: nat): nat { META_SIZE + 8 * i }

  // Record i is in place, and its end offset in slot i.
  ghost predicate RecordAt(g: Gzip, data: Bytes, recs: seq<Record>, i: nat)
    requires i < |recs| <= CHUNK_UNIT && End(g, recs) <= |data|
  {
    OffsetsGrow(g, recs, i + 1, |recs|);
    && U64At(data, Slot(i)) == Offset(g, recs, i + 1)
    && data[Offset(g, recs, i)..Offset(g, recs, i + 1)] == Encode(g, recs[i])
  }

  // All records are in place and the constant part of the meta block is intact.
  ghost predicate Body(g: Gzip, data: Bytes, begin: nat, genHash: Bytes, recs: seq<Record>) {
    && |genHash| == 32 && begin % CHUNK_UNIT == 0 && begin + CHUNK_UNIT < U32
    && |recs| <= CHUNK_UNIT && End(g, recs) <= |data| && End(g, recs) < I64
    && U32At(data, 12) == begin && U32At(data, 16) == begin + CHUNK_UNIT && data[20..52] == genHash
    && (forall i :: 0 <= i < |recs| ==> ValidRecord(g, recs[i]))
    && (forall i :: 0 <= i < |recs| ==> RecordAt(g, data, recs, i))
  }

  // The three copies of the head height.
  predicate Heads(data: Bytes, head: nat, a: nat, b: nat)
    requires |data| >= HEADER_SIZE
  {
    U32At(data, 0) == head && U32At(data, 4) == a && U32At(data, 8) == b
  }

  /** A file that holds `recs` and is not in the middle of an append. */
  ghost predicate Good(g: Gzip, data: Bytes, begin: nat, genHash: Bytes, recs: seq<Record>) {
    Body(g, data, begin, genHash, recs) && Heads(data, begin + |recs|, begin + |recs|, begin + |recs|)
  }

  // The positions Body depends on.
  predicate InBody(p: nat, n: nat, end: nat) {
    12 <= p < 52 || META_SIZE <= p < META_SIZE + 8 * n || HEADER_SIZE <= p < end
  }

  ghost predicate SameBody(data: Bytes, img: Bytes, n: nat, end: nat) {
    && end <= |data| && end <= |img|
    && forall p :: 0 <= p < end && InBody(p, n, end) ==> img[p] == data[p]
  }

  lemma SameSlice(data: Bytes, img: Bytes, n: nat, end: nat, lo: nat, hi: nat)
    requires SameBody(data, img, n, end) && lo <= hi <= end
    requires forall p :: lo <= p < hi ==> InBody(p, n, end)
    ensures img[lo..hi] == data[lo..hi]
  {
  }

  lemma BodyOnlyReads(g: Gzip, data: Bytes, img: Bytes, begin: nat, genHash: Bytes, recs: seq<Record>)
    requires Body(g, data, begin, genHash, recs) && SameBody(data, img, |recs|, End(g, recs))
    ensures Body(g, img, begin, genHash, recs)
  {
    hide Encode, OfLE;
    var n, end := |recs|, End(g, recs);
    SameSlice(data, img, n, end, 12, 16);
    SameSlice(data, img, n, end, 16, 20);
    SameSlice(data, img, n, end, 20, 52);
    forall i | 0 <= i < n ensures RecordAt(g, img, recs, i) {
      RecordOnlyReads(g, data, img, recs, i);
    }
  }

  lemma RecordOnlyReads(g: Gzip, data: Bytes, img: Bytes, recs: seq<Record>, i: nat)
    requires i < |recs| <= CHUNK_UNIT && SameBody(data, img, |recs|, End(g, recs)) && RecordAt(g, data, recs, i)
    ensures RecordAt(g, img, recs, i)
  {
    hide Encode, OfLE;
    var n, end := |recs|, End(g, recs);
    OffsetsGrow(g, recs, i + 1, n);
    SameSlice(data, img, n, end, Slot(i), Slot(i) + 8);
    SameSlice(data, img, n, end, Offset(g, recs, i), Offset(g, recs, i + 1));
  }
}
