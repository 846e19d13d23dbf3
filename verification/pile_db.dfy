/** The block store: a list of piles, each holding CHUNK_UNIT consecutive heights. */
module PileDB {
  import opened Basics
  import opened PileFormat
  import opened PileStore
  import PileRead

  ghost predicate InChain(g: Gzip, genHash: Bytes, p: Pile, i: nat)
    reads p
  {
    p.Valid() && p.g == g && p.genHash == genHash && p.beginHeight == i * CHUNK_UNIT
  }

  // Every pile but the last is full, so height h is in pile (h - 1) / CHUNK_UNIT.
  ghost predicate Chained(g: Gzip, genHash: Bytes, piles: seq<Pile>)
    reads piles
  {
    && (forall i, j :: 0 <= i < j < |piles| ==> piles[i] != piles[j])
    && (forall i :: 0 <= i < |piles| ==> InChain(g, genHash, piles[i], i))
    && AllFull(RecordLists(piles))
  }

  ghost function RecordLists(piles: seq<Pile>): (ls: seq<seq<Record>>)
    reads piles
    ensures |ls| == |piles| && forall i :: 0 <= i < |ls| ==> ls[i] == piles[i].recs
  {
    seq(|piles|, i requires 0 <= i < |piles| reads piles => piles[i].recs)
  }

  // All lists but the last hold CHUNK_UNIT records.
  ghost predicate AllFull(ls: seq<seq<Record>>) {
    forall i :: 0 <= i < |ls| - 1 ==> |ls[i]| == CHUNK_UNIT
  }

  ghost function Joined(ls: seq<seq<Record>>): seq<Record>
    decreases |ls|
  {
    if ls == [] then [] else Joined(ls[..|ls| - 1]) + ls[|ls| - 1]
  }

  lemma {:induction false} JoinedLength(ls: seq<seq<Record>>)
    requires AllFull(ls) && ls != []
    ensures |Joined(ls)| == (|ls| - 1) * CHUNK_UNIT + |ls[|ls| - 1]|
    decreases |ls|
  {
    var init := ls[..|ls| - 1];
    assert Joined(ls) == Joined(init) + ls[|ls| - 1];
    if |ls| > 1 {
      assert |init[|init| - 1]| == |ls[|ls| - 2]| == CHUNK_UNIT;
      JoinedLength(init);
    }
  }

  // The record of a height is in the list its index says.
  lemma {:induction false} JoinedAt(ls: seq<seq<Record>>, i: nat, k: nat)
    requires AllFull(ls) && i < |ls| && k < |ls[i]|
    ensures i * CHUNK_UNIT + k < |Joined(ls)| && Joined(ls)[i * CHUNK_UNIT + k] == ls[i][k]
    decreases |ls|
  {
    var init := ls[..|ls| - 1];
    if init != [] { JoinedLength(init); }
    if i < |init| {
      JoinedAt(init, i, k);
    }
  }

  lemma JoinedGrows(ls: seq<seq<Record>>, r: Record)
    requires ls != []
    ensures Joined(ls[|ls| - 1 := ls[|ls| - 1] + [r]]) == Joined(ls) + [r]
    ensures Joined(ls + [[]]) == Joined(ls)
  {
    var n := |ls| - 1;
    assert ls[n := ls[n] + [r]][..n] == ls[..n];
    assert (ls + [[]])[..|ls|] == ls;
  }

  lemma PileSize(p: Pile)
    requires p.Valid()
    ensures |p.recs| <= CHUNK_UNIT && p.headHeight == p.beginHeight + |p.recs| && |p.genHash| == 32
  {
  }

  lemma HeadIsCount(g: Gzip, genHash: Bytes, piles: seq<Pile>)
    requires Chained(g, genHash, piles) && piles != []
    ensures var last := piles[|piles| - 1];
            && last.headHeight == |Joined(RecordLists(piles))| == (|piles| - 1) * CHUNK_UNIT + |last.recs|
            && |last.recs| <= CHUNK_UNIT && |genHash| == 32 && InChain(g, genHash, last, |piles| - 1)
  {
    hide Good;
    JoinedLength(RecordLists(piles));
    assert InChain(g, genHash, piles[|piles| - 1], |piles| - 1);
    PileSize(piles[|piles| - 1]);
  }

  lemma ExtendChain(g: Gzip, genHash: Bytes, piles: seq<Pile>, p: Pile)
    requires Chained(g, genHash, piles) && piles != [] && |piles[|piles| - 1].recs| == CHUNK_UNIT
    requires InChain(g, genHash, p, |piles|) && p !in piles
    ensures Chained(g, genHash, piles + [p]) && RecordLists(piles + [p]) == RecordLists(piles) + [p.recs]
  {
    hide InChain;
    var all := piles + [p];
    forall i | 0 <= i < |all| ensures InChain(g, genHash, all[i], i) {
    }
    assert RecordLists(all) == RecordLists(piles) + [p.recs];
  }

  class DB {
    const g: Gzip
    var piles: seq<Pile>
    var genHash: Bytes
    var syncMode: bool

    ghost predicate Valid()
      reads this, piles
    {
      Chained(g, genHash, piles)
    }

    // The records of heights 1, 2, ...
    ghost function Records(): seq<Record>
      reads this, piles
    {
      Joined(RecordLists(piles))
    }

    constructor (g: Gzip)
      ensures Valid() && piles == [] && this.g == g && !syncMode
    {
      this.g := g;
      piles, genHash, syncMode := [], Zeros(32), false;
    }

    method Init(gen: Bytes) returns (r: Result<()>)
      requires Valid() && |gen| == 32
      modifies this
      ensures Valid() && syncMode == old(syncMode)
      ensures r == if old(piles) == [] then Ok(()) else Err(AlreadyInitialized)
      ensures r.Ok? ==> Records() == [] && genHash == gen && |piles| == 1
      ensures r.Err? ==> piles == old(piles) && genHash == old(genHash)
    {
      hide Good;
      if |piles| > 0 { return Err(AlreadyInitialized); }
      var p := Pile.New(g, gen, 0);
      piles := [p.value];
      genHash := gen;
      assert InChain(g, genHash, piles[0], 0);
      assert RecordLists(piles) == [[]] && Joined([[]][..0]) == [];
      return Ok(());
    }

    /** Appends the record of the next height, opening a new pile when the last one is full.
        `late` says that the last sync lies a second or more ahead of the clock. */
    method AppendData(height: nat, hash: Bytes, items: seq<Bytes>, late: bool) returns (r: Result<()>)
      requires Valid() && piles != [] && |hash| == 32
      requires forall i :: 0 <= i < |items| ==> |g.zip(items[i])| < U32
      requires End(g, piles[|piles| - 1].recs) + |Encode(g, Record(hash, items))| < I64
      requires |piles[|piles| - 1].recs| == CHUNK_UNIT ==> (|piles| + 1) * CHUNK_UNIT < U32
      modifies this, piles
      ensures Valid() && genHash == old(genHash) && syncMode == old(syncMode)
      ensures r == if |items| > 255 then Err(ExceedMaximumDataArrayLength)
                   else if height != |old(Records())| + 1 then Err(InvalidAppendHeight)
                   else Ok(())
      ensures r.Err? ==> Records() == old(Records()) && piles == old(piles)
      ensures r.Ok? ==> Records() == old(Records()) + [Record(hash, items)]
    {
      hide Good, Encode, Joined, Chained, Offset, Pile.Valid;
      if |items| > 255 { return Err(ExceedMaximumDataArrayLength); }
      HeadIsCount(g, genHash, piles);
      if height != piles[|piles| - 1].headHeight + 1 { return Err(InvalidAppendHeight); }
      ghost var rec := Record(hash, items);
      assert ValidRecord(g, rec);
      hide *;
      MakeRoom();
      Grow(height, hash, items, late);
      return Ok(());
    }

    method Grow(height: nat, hash: Bytes, items: seq<Bytes>, late: bool)
      requires Valid() && piles != [] && ValidRecord(g, Record(hash, items))
      requires var p := piles[|piles| - 1];
               && height == p.headHeight + 1 && |p.recs| < CHUNK_UNIT
               && End(g, p.recs) + |Encode(g, Record(hash, items))| < I64
      modifies piles[|piles| - 1]
      ensures Valid() && Records() == old(Records()) + [Record(hash, items)]
    {
      hide Good, Encode, Joined, Chained, Offset;
      JoinedGrows(RecordLists(piles), Record(hash, items));
      AppendToLast(height, hash, items, syncMode || late);
    }

    // Creates the next pile when the last one is full.
    method MakeRoom()
      requires Valid() && piles != []
      requires |piles[|piles| - 1].recs| == CHUNK_UNIT ==> (|piles| + 1) * CHUNK_UNIT < U32
      modifies this`piles, piles
      ensures Valid() && piles != [] && Records() == old(Records())
      ensures var p := piles[|piles| - 1]; var was := old(piles)[|old(piles)| - 1];
              && p.headHeight == old(was.headHeight) && |p.recs| < CHUNK_UNIT
              && (p == was || fresh(p)) && End(g, p.recs) <= End(g, old(was.recs))
    {
      hide Good, Encode, Joined, Chained, Pile.Valid;
      var last := |piles| - 1;
      HeadIsCount(g, genHash, piles);
      if piles[last].headHeight - piles[last].beginHeight >= CHUNK_UNIT {
        JoinedGrows(RecordLists(piles), Record([], []));
        AddPile();
      }
    }

    method AddPile()
      requires Valid() && piles != [] && |piles[|piles| - 1].recs| == CHUNK_UNIT && (|piles| + 1) * CHUNK_UNIT < U32
      modifies this`piles, piles[|piles| - 1]
      ensures Valid() && |piles| == |old(piles)| + 1 && piles[..|old(piles)|] == old(piles)
      ensures fresh(piles[|old(piles)|]) && piles[|old(piles)|].recs == []
      ensures piles[|old(piles)|].headHeight == |old(piles)| * CHUNK_UNIT
      ensures RecordLists(piles) == old(RecordLists(piles)) + [[]]
    {
      hide Good, Pile.Valid, Chained, Joined;
      var n := |piles|;
      SyncLast();
      HeadIsCount(g, genHash, piles);
      assert (n * CHUNK_UNIT) % CHUNK_UNIT == 0;
      assert piles[n - 1].recs == RecordLists(piles)[n - 1];
      var v := Pile.New(g, genHash, piles[n - 1].beginHeight + CHUNK_UNIT);
      PileSize(v.value);
      ExtendChain(g, genHash, piles, v.value);
      piles := piles + [v.value];
    }

    // The full pile is synced before the next one is created.
    method SyncLast()
      requires Valid() && piles != []
      modifies piles[|piles| - 1]
      ensures Valid() && RecordLists(piles) == old(RecordLists(piles))
    {
      hide Good;
      var n := |piles|;
      assert forall i :: 0 <= i < n ==> InChain(g, genHash, piles[i], i);
      piles[n - 1].SyncFile();
      assert forall i :: 0 <= i < n ==> InChain(g, genHash, piles[i], i);
    }

    method AppendToLast(height: nat, hash: Bytes, items: seq<Bytes>, sync: bool)
      requires Valid() && piles != [] && ValidRecord(g, Record(hash, items))
      requires var p := piles[|piles| - 1];
               && height == p.headHeight + 1 && |p.recs| < CHUNK_UNIT
               && End(g, p.recs) + |Encode(g, Record(hash, items))| < I64
      modifies piles[|piles| - 1]
      ensures Valid()
      ensures var n := |piles| - 1; var ls := old(RecordLists(piles));
              RecordLists(piles) == ls[n := ls[n] + [Record(hash, items)]]
    {
      hide Good, Encode, ValidRecord, Offset, PileCrash.DoAll, PileCrash.AppendOps, LE, End, Heads, Body, SameBody;
      var n := |piles| - 1;
      assert forall i :: 0 <= i <= n ==> InChain(g, genHash, piles[i], i);
      var r := piles[n].AppendData(sync, height, hash, items);
      assert forall i :: 0 <= i <= n ==> InChain(g, genHash, piles[i], i);
    }

    /** The hash of a height; height 0 is the genesis. */
    method GetHash(height: nat) returns (r: Result<Bytes>)
      requires Valid()
      ensures height == 0 ==> r == if piles == [] then Err(InvalidHeight) else Ok(genHash)
      ensures 1 <= height <= |Records()| ==> r == Ok(Records()[height - 1].hash)
      ensures height > 0 ==>
                var idx := (height - 1) / CHUNK_UNIT;
                idx < |piles| ==> r == PileRead.ReadHash(piles[idx].data, piles[idx].beginHeight, height)
      ensures height > |piles| * CHUNK_UNIT ==> r == Err(InvalidHeight)
    {
      hide Good, Joined, AllFull, PileRead.ReadHash;
      if height == 0 {
        if |piles| == 0 { return Err(InvalidHeight); }
        assert InChain(g, genHash, piles[0], 0);
        return Ok(piles[0].genHash);
      }
      var idx := (height - 1) / CHUNK_UNIT;
      Locate(g, genHash, piles, height);
      if |piles| <= idx { return Err(InvalidHeight); }
      r := piles[idx].GetHash(height);
    }

    /** Item `index` of a height. */
    method GetData(height: nat, index: nat) returns (r: Result<Bytes>)
      requires Valid() && g.Inverse()
      ensures height == 0 || height > |Records()| ==> r == Err(InvalidHeight)
      ensures var idx := (height - 1) / CHUNK_UNIT;
              0 < height && idx < |piles| && height <= |Records()| ==>
                r == PileRead.ItemOf(g, piles[idx].data, piles[idx].beginHeight, height, index)
      ensures 1 <= height <= |Records()| ==>
                var items := Records()[height - 1].items;
                && (index >= |items| ==> r == Err(InvalidDataIndex))
                && (index < |items| < 64 ==> r == Ok(items[index]))
                && (|items| % 64 <= index < |items| ==> r == Err(Panic))
    {
      hide Good, Joined, AllFull;
      if height == 0 { return Err(InvalidHeight); }
      var idx := (height - 1) / CHUNK_UNIT;
      Locate(g, genHash, piles, height);
      if |piles| <= idx { return Err(InvalidHeight); }
      r := piles[idx].GetData(height, index);
    }

    /** Items from..from+count of a height, concatenated. */
    method GetDatas(height: nat, from: nat, count: nat) returns (r: Result<Bytes>)
      requires Valid() && g.Inverse()
      ensures height == 0 || height > |Records()| ==> r == Err(InvalidHeight)
      ensures var idx := (height - 1) / CHUNK_UNIT;
              0 < height && idx < |piles| && height <= |Records()| ==>
                r == PileRead.ItemsOf(g, piles[idx].data, piles[idx].beginHeight, height, from, count)
      ensures 1 <= height <= |Records()| ==>
                var items := Records()[height - 1].items;
                && (from + count > |items| ==> r == Err(InvalidDataIndex))
                && (from + count <= |items| < 64 ==> r == Ok(Flatten(items[from..from + count])))
                && (|items| % 64 <= from && |items| % 64 < from + count <= |items| ==> r == Err(Panic))
                && (count > 0 && |items| % 64 < from + count <= |items| ==> r.Err?)
    {
      hide Good, Joined, AllFull, Flatten;
      if height == 0 { return Err(InvalidHeight); }
      var idx := (height - 1) / CHUNK_UNIT;
      Locate(g, genHash, piles, height);
      if |piles| <= idx { return Err(InvalidHeight); }
      r := piles[idx].GetDatas(height, from, count);
    }
  }

  // The pile a height above 0 is looked up in.
  lemma Locate(g: Gzip, genHash: Bytes, piles: seq<Pile>, height: nat)
    requires Chained(g, genHash, piles) && height > 0
    ensures var i := (height - 1) / CHUNK_UNIT; var all := Joined(RecordLists(piles));
            && (|piles| <= i <==> height > |piles| * CHUNK_UNIT)
            && (|piles| <= i ==> |all| < height)
            && (i < |piles| ==>
                  && InChain(g, genHash, piles[i], i)
                  && piles[i].beginHeight < height <= piles[i].beginHeight + CHUNK_UNIT
                  && (height <= piles[i].headHeight <==> height <= |all|)
                  && (height <= |all| ==> height - piles[i].beginHeight <= |piles[i].recs|)
                  && (height <= |all| ==> all[height - 1] == piles[i].recs[height - piles[i].beginHeight - 1]))
  {
    hide Pile.Valid, Joined;
    var i, ls := (height - 1) / CHUNK_UNIT, RecordLists(piles);
    if piles != [] { HeadIsCount(g, genHash, piles); }
    LocateIndex(ls, height);
    if i < |piles| {
      assert InChain(g, genHash, piles[i], i);
      PileSize(piles[i]);
    }
  }

  lemma LocateIndex(ls: seq<seq<Record>>, height: nat)
    requires AllFull(ls) && height > 0 && (ls != [] ==> |ls[|ls| - 1]| <= CHUNK_UNIT)
    ensures var i := (height - 1) / CHUNK_UNIT; var k := (height - 1) % CHUNK_UNIT;
            && (|ls| <= i <==> height > |ls| * CHUNK_UNIT)
            && (|ls| <= i ==> |Joined(ls)| < height)
            && (i < |ls| ==> (k < |ls[i]| <==> height <= |Joined(ls)|))
            && (i < |ls| && k < |ls[i]| ==> Joined(ls)[height - 1] == ls[i][k])
  {
    hide Joined;
    var i, k := (height - 1) / CHUNK_UNIT, (height - 1) % CHUNK_UNIT;
    assert height - 1 == i * CHUNK_UNIT + k;
    if ls != [] {
      JoinedLength(ls);
    } else {
      JoinedNone();
    }
    if i < |ls| && k < |ls[i]| {
      JoinedAt(ls, i, k);
    }
  }

  lemma JoinedNone()
    ensures Joined([]) == []
  {
  }

  // Opening the database again.

  ghost function MaxHead(piles: seq<Pile>): nat
    reads piles
  {
    if piles == [] then 0
    else
      var m := MaxHead(piles[..|piles| - 1]);
      if m < piles[|piles| - 1].headHeight then piles[|piles| - 1].headHeight else m
  }

  // The last loaded pile that starts at `begin`.
  ghost predicate LastWith(piles: seq<Pile>, begin: nat, p: Pile)
    reads piles
  {
    exists j :: 0 <= j < |piles| && piles[j] == p && p.beginHeight == begin
                && forall k :: j < k < |piles| ==> piles[k].beginHeight != begin
  }

  ghost predicate Has(piles: seq<Pile>, begin: nat)
    reads piles
  {
    exists j :: 0 <= j < |piles| && piles[j].beginHeight == begin
  }

  // One pile per chunk up to the highest head, or the error that one is missing.
  ghost predicate OpenedAs(loaded: seq<Pile>, r: Result<seq<Pile>>)
    reads loaded
  {
    var m := MaxHead(loaded);
    if m == 0 then r == Ok([])
    else if !(forall i :: 0 <= i <= m / CHUNK_UNIT ==> Has(loaded, i * CHUNK_UNIT)) then r == Err(MissingPile)
    else
      && r.Ok? && |r.value| == m / CHUNK_UNIT + 1
      && forall i :: 0 <= i < |r.value| ==> LastWith(loaded, i * CHUNK_UNIT, r.value[i])
  }

  /** What Open makes of the pile files it loaded, in whatever order the directory gave them. */
  method Open(loaded: seq<Pile>) returns (r: Result<seq<Pile>>)
    ensures OpenedAs(loaded, r)
  {
    var maxHeight := 0;
    var pileMap: map<nat, Pile> := map[];
    var j := 0;
    while j < |loaded|
      invariant 0 <= j <= |loaded|
      invariant maxHeight == MaxHead(loaded[..j])
      invariant forall b :: b in pileMap <==> Has(loaded[..j], b)
      invariant forall b :: b in pileMap ==> LastWith(loaded[..j], b, pileMap[b])
    {
      assert loaded[..j + 1][..j] == loaded[..j];
      LastWithGrows(loaded, j, pileMap);
      pileMap := pileMap[loaded[j].beginHeight := loaded[j]];
      if maxHeight < loaded[j].headHeight { maxHeight := loaded[j].headHeight; }
      j := j + 1;
    }
    assert loaded[..j] == loaded;
    var count := maxHeight / CHUNK_UNIT + 1;
    var piles: seq<Pile> := [];
    if maxHeight > 0 {
      var i := 0;
      while i < count
        invariant 0 <= i <= count && |piles| == i
        invariant forall k :: 0 <= k < i ==> Has(loaded, k * CHUNK_UNIT)
        invariant forall k :: 0 <= k < i ==> LastWith(loaded, k * CHUNK_UNIT, piles[k])
      {
        if i * CHUNK_UNIT !in pileMap { return Err(MissingPile); }
        piles := piles + [pileMap[i * CHUNK_UNIT]];
        i := i + 1;
      }
    }
    return Ok(piles);
  }

  lemma LastWithGrows(loaded: seq<Pile>, j: nat, m: map<nat, Pile>)
    requires j < |loaded|
    requires forall b :: b in m <==> Has(loaded[..j], b)
    requires forall b :: b in m ==> LastWith(loaded[..j], b, m[b])
    ensures var m' := m[loaded[j].beginHeight := loaded[j]];
            && (forall b :: b in m' <==> Has(loaded[..j + 1], b))
            && (forall b :: b in m' ==> LastWith(loaded[..j + 1], b, m'[b]))
  {
    var m' := m[loaded[j].beginHeight := loaded[j]];
    var a, c := loaded[..j], loaded[..j + 1];
    assert c == a + [loaded[j]];
    forall b ensures b in m' <==> Has(c, b) {
      if Has(a, b) {
        var k :| 0 <= k < |a| && a[k].beginHeight == b;
        assert c[k].beginHeight == b;
      }
      if b == loaded[j].beginHeight { assert c[j].beginHeight == b; }
    }
    forall b | b in m' ensures LastWith(c, b, m'[b]) {
      if b == loaded[j].beginHeight {
        assert c[j] == m'[b];
      } else {
        var k :| 0 <= k < |a| && a[k] == m[b] && m[b].beginHeight == b
                 && forall x :: k < x < |a| ==> a[x].beginHeight != b;
        assert c[k] == m'[b];
      }
    }
  }

  /** Opening the files of a store again gives the same piles exactly when the store is not empty
      and its last pile is not full: a store whose last pile has just been filled reports a
      missing pile, and a store without records opens uninitialised. */
  lemma ReopensUnlessFull(g: Gzip, genHash: Bytes, piles: seq<Pile>, loaded: seq<Pile>, r: Result<seq<Pile>>)
    requires Chained(g, genHash, piles) && piles != []
    requires |loaded| == |piles| && (forall p :: p in loaded <==> p in piles)
    requires OpenedAs(loaded, r)
    ensures r == Ok(piles) <==> Joined(RecordLists(piles)) != [] && |piles[|piles| - 1].recs| < CHUNK_UNIT
  {
    hide Good, Joined, Pile.Valid, AllFull, Has, LastWith, MaxHead;
    var n := |piles|;
    var last := piles[n - 1];
    HeadIsCount(g, genHash, piles);
    MaxIsLast(g, genHash, piles, loaded);
    var m := last.headHeight;
    if m > 0 {
      if |last.recs| == CHUNK_UNIT {
        assert m == n * CHUNK_UNIT && m / CHUNK_UNIT == n;
        NotBeyond(g, genHash, piles, loaded);
      } else {
        assert m == (n - 1) * CHUNK_UNIT + |last.recs| && m / CHUNK_UNIT == n - 1;
        forall i | 0 <= i <= n - 1 ensures Has(loaded, i * CHUNK_UNIT) {
          HasEach(g, genHash, piles, loaded, i);
        }
        forall i | 0 <= i < |r.value| ensures r.value[i] == piles[i] {
          OnlyOne(g, genHash, piles, loaded, i, r.value[i]);
        }
        assert r.value == piles;
      }
    }
  }

  lemma HasEach(g: Gzip, genHash: Bytes, piles: seq<Pile>, loaded: seq<Pile>, i: nat)
    requires Chained(g, genHash, piles) && i < |piles| && (forall p :: p in piles ==> p in loaded)
    ensures Has(loaded, i * CHUNK_UNIT)
  {
    hide Good;
    assert InChain(g, genHash, piles[i], i);
    assert piles[i] in piles;
  }

  lemma OnlyOne(g: Gzip, genHash: Bytes, piles: seq<Pile>, loaded: seq<Pile>, i: nat, p: Pile)
    requires Chained(g, genHash, piles) && i < |piles| && (forall p :: p in loaded ==> p in piles)
    requires LastWith(loaded, i * CHUNK_UNIT, p)
    ensures p == piles[i]
  {
    hide Good;
    assert p in loaded && p in piles;
    var j :| 0 <= j < |piles| && piles[j] == p;
    assert InChain(g, genHash, piles[j], j);
  }

  lemma NotBeyond(g: Gzip, genHash: Bytes, piles: seq<Pile>, loaded: seq<Pile>)
    requires Chained(g, genHash, piles) && (forall p :: p in loaded ==> p in piles)
    ensures !Has(loaded, |piles| * CHUNK_UNIT)
  {
    hide Good;
    forall k | 0 <= k < |loaded| ensures loaded[k].beginHeight != |piles| * CHUNK_UNIT {
      assert loaded[k] in piles;
      var j :| 0 <= j < |piles| && piles[j] == loaded[k];
      assert InChain(g, genHash, piles[j], j);
      assert (j + 1) * CHUNK_UNIT <= |piles| * CHUNK_UNIT;
    }
  }

  lemma MaxIsLast(g: Gzip, genHash: Bytes, piles: seq<Pile>, loaded: seq<Pile>)
    requires Chained(g, genHash, piles) && piles != [] && (forall p :: p in loaded <==> p in piles)
    ensures MaxHead(loaded) == piles[|piles| - 1].headHeight
  {
    hide Good;
    var last := piles[|piles| - 1];
    forall p | p in loaded ensures p.headHeight <= last.headHeight {
      var j :| 0 <= j < |piles| && piles[j] == p;
      assert InChain(g, genHash, piles[j], j) && InChain(g, genHash, last, |piles| - 1);
      PileSize(p);
      PileSize(last);
      if j < |piles| - 1 { assert (j + 1) * CHUNK_UNIT <= (|piles| - 1) * CHUNK_UNIT; }
    }
    assert last in piles;
    MaxBound(loaded, last.headHeight);
    MaxAtLeast(loaded, last);
  }

  lemma {:induction false} MaxBound(ps: seq<Pile>, b: nat)
    requires forall p :: p in ps ==> p.headHeight <= b
    ensures MaxHead(ps) <= b
    decreases |ps|
  {
    if ps != [] {
      assert ps[|ps| - 1] in ps;
      MaxBound(ps[..|ps| - 1], b);
    }
  }

  lemma {:induction false} MaxAtLeast(ps: seq<Pile>, p: Pile)
    requires p in ps
    ensures p.headHeight <= MaxHead(ps)
    decreases |ps|
  {
    if ps[|ps| - 1] != p {
      assert p in ps[..|ps| - 1];
      MaxAtLeast(ps[..|ps| - 1], p);
    }
  }
}
