/** The rank table as it runs: a list of shared rank objects and an index of them by address,
    updated in place with binary search and copies. */
module RankTables {
  import opened Basics
  import opened Ranks

  datatype TableError = Ok | InvalidPhase | ExistAddress | ExceedCandidateCount | InsufficientCandidateCount | Panic

  class Rank {
    const address: Address
    const publicHash: nat
    var phase: nat
    var hashSpace: nat
    var score: nat

    function Value(): Entry
      reads this
    {
      Entry(address, publicHash, phase, hashSpace)
    }

    // The cached score is that of the current phase and hash word.
    ghost predicate Valid()
      reads this
    {
      score == Score(Value()) && phase < U32
    }

    constructor (address: Address, publicHash: nat, phase: nat, hashSpace: nat)
      requires phase < U32
      ensures Valid() && Value() == Entry(address, publicHash, phase, hashSpace)
    {
      this.address := address;
      this.publicHash := publicHash;
      this.phase := phase;
      this.hashSpace := hashSpace;
      score := phase * U32 + hashSpace % U32;
    }

    method Set(phase: nat, hashSpace: nat)
      requires phase < U32
      modifies this
      ensures Valid() && Value() == old(Value()).(phase := phase, hashSpace := hashSpace)
    {
      this.phase := phase;
      this.hashSpace := hashSpace;
      Update();
    }

    method SetPhase(phase: nat)
      requires phase < U32
      modifies this
      ensures Valid() && Value() == old(Value()).(phase := phase)
    {
      this.phase := phase;
      Update();
    }

    method Update()
      requires phase < U32
      modifies this`score
      ensures Valid()
    {
      score := phase * U32 + hashSpace % U32;
    }

    predicate IsLess(b: Rank)
      reads this, b
    {
      score < b.score || (score == b.score && address < b.address)
    }
  }

  class RankTable {
    var height: nat
    var candidates: seq<Rank>
    var rankMap: map<Address, Rank>

    ghost function Values(): (xs: seq<Entry>)
      reads this, candidates
      ensures |xs| == |candidates|
      ensures forall i :: 0 <= i < |xs| ==> xs[i] == candidates[i].Value()
    {
      ValuesOf(candidates)
    }

    /** The candidates are strictly sorted with one rank per address, every cached score is
        current, and `rankMap` is an exact index of the candidates. */
    ghost predicate Valid()
      reads this, candidates
    {
      && AllValid(candidates)
      && Indexes(rankMap, candidates)
      && Sorted(Values()) && Unique(Values())
    }

    constructor ()
      ensures Valid() && Values() == []
    {
      height := 0;
      candidates := [];
      rankMap := map[];
    }

    method TopRank(timeoutCount: nat) returns (r: TableError, e: Entry)
      requires Valid()
      ensures r == InsufficientCandidateCount <==> timeoutCount >= |Values()|
      ensures timeoutCount < |Values()| ==> r == Ok && e == Values()[timeoutCount]
    {
      if timeoutCount >= |candidates| {
        return InsufficientCandidateCount, Entry(0, 0, 0, 0);
      }
      return Ok, candidates[timeoutCount].Value();
    }

    method SmallestPhase() returns (p: nat)
      ensures p == if Values() == [] then 0 else Values()[0].phase
    {
      if |candidates| == 0 { return 0; }
      return candidates[0].phase;
    }

    method AddRank(s: Rank) returns (r: TableError)
      requires Valid() && s.Valid()
      modifies this
      ensures Valid() && height == old(height)
      ensures r == InvalidPhase <==> old(Values()) != [] && s.phase < old(Values())[0].phase
      ensures r == ExistAddress <==> r != InvalidPhase && s.address in old(rankMap)
      ensures r == Ok ==> Values() == Insert(old(Values()), s.Value())
      ensures r == Ok ==> rankMap == old(rankMap)[s.address := s]
      ensures r == Ok ==> forall x :: x in candidates <==> x in old(candidates) || x == s
      ensures r != Ok ==> r in {InvalidPhase, ExistAddress} && candidates == old(candidates) && rankMap == old(rankMap)
    {
      if |candidates| > 0 {
        if s.phase < candidates[0].phase {
          return InvalidPhase;
        }
      }
      if s.address in rankMap {
        return ExistAddress;
      }
      Put(s);
      return Ok;
    }

    method Put(s: Rank)
      requires Valid() && s.Valid() && s.address !in rankMap
      modifies this`candidates, this`rankMap
      ensures Valid()
      ensures Values() == Insert(old(Values()), s.Value())
      ensures rankMap == old(rankMap)[s.address := s]
      ensures forall x :: x in candidates <==> x in old(candidates) || x == s
    {
      hide Score, Less, Insert, Sorted, Unique, Indexes, Inserted, AllValid;
      PutFacts(rankMap, candidates, s);
      ghost var k := Position(ValuesOf(candidates), s.Value());
      ghost var xs := Insert(ValuesOf(candidates), s.Value());
      ghost var goal := Inserted(candidates, s, k);
      assert ValuesOf(goal) == xs && AllValid(goal);
      assert forall x :: x in goal <==> x in candidates || x == s;
      var list := InsertRankToList(candidates, s);
      assert list == goal;
      candidates := list;
      rankMap := rankMap[s.address := s];
      assert ValuesOf(candidates) == xs;
    }

    method RemoveRank(a: Address)
      requires Valid()
      modifies this`candidates, this`rankMap
      ensures Valid()
      ensures Values() == Remove(old(Values()), a)
      ensures rankMap == old(rankMap) - {a}
      ensures forall x :: x in candidates ==> x in old(candidates)
    {
      hide Sorted, Unique, Indexes, AllValid, Kept, Remove;
      RemovedFacts(rankMap, candidates, a);
      ghost var goal := Kept(candidates, a);
      assert AllValid(goal) && Indexes(rankMap - {a}, goal) && ValuesOf(goal) == Remove(Values(), a);
      if a in rankMap {
        rankMap := rankMap - {a};
        var list: seq<Rank> := [];
        var i := 0;
        KeptNone(candidates, a);
        while i < |candidates|
          invariant 0 <= i <= |candidates|
          invariant candidates == old(candidates) && rankMap == old(rankMap) - {a}
          invariant list == Kept(candidates[..i], a)
        {
          KeptStep(candidates, i, a);
          if candidates[i].address != a {
            list := list + [candidates[i]];
          }
          i := i + 1;
        }
        assert candidates[..i] == candidates;
        candidates := list;
        assert candidates == goal;
      }
    }

    method ForwardCandidates(timeoutCount: nat) returns (r: TableError)
      requires Valid()
      modifies this`candidates, candidates
      ensures Valid()
      ensures r == ExceedCandidateCount <==> timeoutCount >= |old(Values())|
      ensures r != ExceedCandidateCount ==> r == Ok && Values() == Run(old(Values()), Timeouts(timeoutCount))
      ensures r == ExceedCandidateCount ==> Values() == old(Values())
      ensures forall x :: x in candidates <==> x in old(candidates)
    {
      hide Sorted, Unique, Indexes, AllValid, Forward, Timeouts, Run;
      if timeoutCount >= |candidates| {
        return ExceedCandidateCount;
      }
      var i := 0;
      while i < timeoutCount
        invariant 0 <= i <= timeoutCount
        invariant Valid() && candidates != []
        invariant forall x :: x in candidates <==> x in old(candidates)
        invariant Run(Values(), Timeouts(timeoutCount - i)) == Run(old(Values()), Timeouts(timeoutCount))
      {
        RunStep(Values(), timeoutCount - i);
        assert forall j :: 0 <= j < |candidates| ==> candidates[j] in old(candidates);
        SkipFront();
        i := i + 1;
      }
      RunNone(Values());
      return Ok;
    }

    method SkipFront()
      requires Valid() && candidates != []
      modifies this`candidates, candidates
      ensures Valid()
      ensures Values() == Forward(old(Values()), Timeout)
      ensures forall x :: x in candidates <==> x in old(candidates)
    {
      hide Less, Insert, Sorted, Indexes;
      var m := candidates[0];
      FrontMoves(candidates, Timeout);
      m.SetPhase((m.phase + 2) % U32);
      Reinsert(old(Values()), Timeout);
    }

    method ForwardTop(hash: nat)
      requires Valid() && candidates != []
      modifies this`candidates, this`height, candidates
      ensures Valid() && height == old(height) + 1
      ensures Values() == Forward(old(Values()), Turn(hash))
      ensures forall x :: x in candidates <==> x in old(candidates)
    {
      hide Less, Insert, Sorted, Indexes;
      var top := candidates[0];
      FrontMoves(candidates, Turn(hash));
      top.Set((top.phase + 1) % U32, hash);
      Reinsert(old(Values()), Turn(hash));
      height := height + 1;
    }

    // Moves the changed front to its place: search among the others, shift them, store it.
    method Reinsert(ghost was: seq<Entry>, ghost s: Step)
      requires candidates != [] && AllValid(candidates) && Indexes(rankMap, candidates)
      requires was != [] && Sorted(was) && Unique(was)
      requires ValuesOf(candidates[1..]) == was[1..] && candidates[0].Value() == Moved(was[0], s)
      modifies this`candidates
      ensures Valid()
      ensures Values() == Forward(was, s)
      ensures forall x :: x in candidates <==> x in old(candidates)
    {
      hide Score, Less, Insert, Sorted, Unique, Indexes, Inserted, AllValid, Moved;
      var m := candidates[0];
      ReinsertFacts(rankMap, candidates, was, s);
      ghost var k := Position(ValuesOf(candidates[1..]), m.Value());
      ghost var goal := Inserted(candidates[1..], m, k);
      ghost var xs := Forward(was, s);
      assert ValuesOf(goal) == xs && AllValid(goal);
      assert forall x :: x in goal <==> x in candidates;
      var idx := Search(candidates[1..], m);
      var list := candidates[1..idx + 1] + candidates[idx..];   // copy(candidates, candidates[1:idx+1])
      list := list[idx := m];
      ShiftIsInsert(candidates, idx, list);
      assert list == goal;
      candidates := list;
      assert ValuesOf(candidates) == xs;
    }
  }

  ghost function Kept(ranks: seq<Rank>, a: Address): seq<Rank> {
    if ranks == [] then []
    else if ranks[0].address == a then Kept(ranks[1..], a)
    else [ranks[0]] + Kept(ranks[1..], a)
  }

  lemma KeptNone(ranks: seq<Rank>, a: Address)
    ensures Kept(ranks[..0], a) == []
  {
  }

  lemma {:induction false} KeptAppend(ranks: seq<Rank>, x: Rank, a: Address)
    ensures Kept(ranks + [x], a) == Kept(ranks, a) + (if x.address == a then [] else [x])
  {
    if ranks != [] {
      KeptAppend(ranks[1..], x, a);
      assert (ranks + [x])[1..] == ranks[1..] + [x];
    }
  }

  lemma KeptStep(ranks: seq<Rank>, i: nat, a: Address)
    requires i < |ranks|
    ensures Kept(ranks[..i + 1], a) == Kept(ranks[..i], a) + (if ranks[i].address == a then [] else [ranks[i]])
  {
    assert ranks[..i + 1] == ranks[..i] + [ranks[i]];
    KeptAppend(ranks[..i], ranks[i], a);
  }

  lemma {:induction false} KeptValues(ranks: seq<Rank>, a: Address)
    ensures ValuesOf(Kept(ranks, a)) == Remove(ValuesOf(ranks), a)
  {
    if ranks != [] {
      KeptValues(ranks[1..], a);
      assert ValuesOf(ranks)[1..] == ValuesOf(ranks[1..]);
      var rest := Kept(ranks[1..], a);
      assert ValuesOf([ranks[0]] + rest) == [ranks[0].Value()] + ValuesOf(rest);
    }
  }

  lemma {:induction false} KeptMembers(ranks: seq<Rank>, a: Address, x: Rank)
    ensures x in Kept(ranks, a) <==> x in ranks && x.address != a
  {
    if ranks != [] {
      KeptMembers(ranks[1..], a, x);
      assert x in ranks <==> x == ranks[0] || x in ranks[1..];
    }
  }

  lemma RemovedFacts(m: map<Address, Rank>, ranks: seq<Rank>, a: Address)
    requires AllValid(ranks) && Indexes(m, ranks) && Sorted(ValuesOf(ranks)) && Unique(ValuesOf(ranks))
    ensures var r := Kept(ranks, a);
            && AllValid(r) && Indexes(m - {a}, r)
            && ValuesOf(r) == Remove(ValuesOf(ranks), a)
            && Sorted(ValuesOf(r)) && Unique(ValuesOf(r))
            && (a !in m ==> r == ranks && m - {a} == m)
            && (forall x :: x in r ==> x in ranks)
  {
    hide Sorted, Unique, Indexes, AllValid, Remove, Kept;
    KeptValues(ranks, a);
    forall x | x in Kept(ranks, a) ensures x in ranks {
      KeptMembers(ranks, a, x);
    }
    RemoveOk(ValuesOf(ranks), a);
    RemovedIndex(m, ranks, a);
  }

  lemma RemovedIndex(m: map<Address, Rank>, ranks: seq<Rank>, a: Address)
    requires AllValid(ranks) && Indexes(m, ranks)
    ensures AllValid(Kept(ranks, a)) && Indexes(m - {a}, Kept(ranks, a))
    ensures a !in m ==> Kept(ranks, a) == ranks && m - {a} == m
  {
    hide Kept;
    var r := Kept(ranks, a);
    forall i | 0 <= i < |r| ensures r[i].Valid() && r[i].address in m - {a} && (m - {a})[r[i].address] == r[i] {
      assert r[i] in r;
      KeptMembers(ranks, a, r[i]);
    }
    forall b | b in m - {a} ensures m[b] in r && m[b].address == b {
      KeptMembers(ranks, a, m[b]);
    }
    if a !in m {
      KeptAll(ranks, a);
    }
  }

  lemma {:induction false} KeptAll(ranks: seq<Rank>, a: Address)
    requires forall i :: 0 <= i < |ranks| ==> ranks[i].address != a
    ensures Kept(ranks, a) == ranks
  {
    if ranks != [] {
      KeptAll(ranks[1..], a);
    }
  }

  // The front object is not among the others, so changing it leaves their values alone.
  lemma FrontMoves(ranks: seq<Rank>, s: Step)
    requires ranks != [] && Unique(ValuesOf(ranks))
    ensures ranks[0] !in ranks[1..]
    ensures ValuesOf(ranks)[1..] == ValuesOf(ranks[1..]) && ValuesOf(ranks)[0] == ranks[0].Value()
  {
    forall i | 0 < i < |ranks| ensures ranks[i] != ranks[0] {
      assert ValuesOf(ranks)[0].address != ValuesOf(ranks)[i].address;
    }
  }

  lemma ShiftIsInsert(ranks: seq<Rank>, idx: nat, list: seq<Rank>)
    requires ranks != [] && idx < |ranks|
    requires list == (ranks[1..idx + 1] + ranks[idx..])[idx := ranks[0]]
    ensures list == Inserted(ranks[1..], ranks[0], idx)
  {
  }

  lemma ReinsertFacts(m: map<Address, Rank>, ranks: seq<Rank>, was: seq<Entry>, s: Step)
    requires ranks != [] && AllValid(ranks) && Indexes(m, ranks)
    requires was != [] && Sorted(was) && Unique(was)
    requires ValuesOf(ranks[1..]) == was[1..] && ranks[0].Value() == Moved(was[0], s)
    ensures var r := Inserted(ranks[1..], ranks[0], Position(ValuesOf(ranks[1..]), ranks[0].Value()));
            && AllValid(r) && Indexes(m, r)
            && ValuesOf(r) == Forward(was, s)
            && Sorted(ValuesOf(r)) && Unique(ValuesOf(r))
            && (forall x :: x in r <==> x in ranks)
    ensures AllValid(ranks[1..]) && Sorted(ValuesOf(ranks[1..])) && ranks[0].Valid()
  {
    hide Score, Less, Insert, Inserted, Moved, Sorted, Unique, Indexes;
    ForwardKeepsOrder(was, s);
    TailOk(was);
    var k := Position(ValuesOf(ranks[1..]), ranks[0].Value());
    InsertedValues(ranks[1..], ranks[0], k);
    assert forall x :: x in ranks <==> x == ranks[0] || x in ranks[1..];
    SameIndex(m, ranks, Inserted(ranks[1..], ranks[0], k));
  }

  lemma SameIndex(m: map<Address, Rank>, ranks: seq<Rank>, r: seq<Rank>)
    requires Indexes(m, ranks) && forall x :: x in r <==> x in ranks
    ensures Indexes(m, r)
  {
    forall i | 0 <= i < |r| ensures r[i].address in m && m[r[i].address] == r[i] {
      assert r[i] in ranks;
    }
  }

  lemma PutFacts(m: map<Address, Rank>, ranks: seq<Rank>, s: Rank)
    requires AllValid(ranks) && s.Valid() && Indexes(m, ranks) && s.address !in m
    requires Sorted(ValuesOf(ranks)) && Unique(ValuesOf(ranks))
    ensures var r := Inserted(ranks, s, Position(ValuesOf(ranks), s.Value()));
            && AllValid(r) && Indexes(m[s.address := s], r)
            && ValuesOf(r) == Insert(ValuesOf(ranks), s.Value())
            && Sorted(ValuesOf(r)) && Unique(ValuesOf(r))
            && (forall x :: x in r <==> x in ranks || x == s)
  {
    hide Score, Less, Insert, Sorted, Unique, Inserted;
    NewAddress(m, ranks, s.address);
    InsertKeepsOrder(ValuesOf(ranks), s.Value());
    InsertedValues(ranks, s, Position(ValuesOf(ranks), s.Value()));
    InsertedIndex(m, ranks, s, Position(ValuesOf(ranks), s.Value()));
  }

  lemma NewAddress(m: map<Address, Rank>, ranks: seq<Rank>, a: Address)
    requires Indexes(m, ranks) && a !in m
    ensures !HasAddress(ValuesOf(ranks), a)
  {
  }

  ghost function Inserted(ranks: seq<Rank>, s: Rank, k: nat): seq<Rank>
    requires k <= |ranks|
  {
    ranks[..k] + [s] + ranks[k..]
  }

  lemma InsertedValues(ranks: seq<Rank>, s: Rank, k: nat)
    requires k == Position(ValuesOf(ranks), s.Value())
    ensures ValuesOf(Inserted(ranks, s, k)) == Insert(ValuesOf(ranks), s.Value())
    ensures AllValid(ranks) && s.Valid() ==> AllValid(Inserted(ranks, s, k))
    ensures forall x :: x in Inserted(ranks, s, k) <==> x in ranks || x == s
  {
    hide Score, Less, Inserted, AllValid;
    InsertedMembers(ranks, s, k);
    var l, r := ValuesOf(Inserted(ranks, s, k)), ValuesOf(ranks)[..k] + [s.Value()] + ValuesOf(ranks)[k..];
    assert |l| == |r|;
    forall i | 0 <= i < |l| ensures l[i] == r[i] {
      InsertedAt(ranks, s, k, i);
      if i < k {
        assert r[i] == ValuesOf(ranks)[i] == ranks[i].Value();
      } else if i > k {
        assert r[i] == ValuesOf(ranks)[i - 1] == ranks[i - 1].Value();
      }
    }
    assert l == r;
  }

  lemma InsertedAt(ranks: seq<Rank>, s: Rank, k: nat, i: nat)
    requires k <= |ranks| && i <= |ranks|
    ensures |Inserted(ranks, s, k)| == |ranks| + 1
    ensures Inserted(ranks, s, k)[i] == if i < k then ranks[i] else if i == k then s else ranks[i - 1]
  {
  }

  lemma InsertedMembers(ranks: seq<Rank>, s: Rank, k: nat)
    requires k <= |ranks|
    ensures |Inserted(ranks, s, k)| == |ranks| + 1
    ensures forall x :: x in Inserted(ranks, s, k) <==> x in ranks || x == s
    ensures AllValid(ranks) && s.Valid() ==> AllValid(Inserted(ranks, s, k))
  {
    assert ranks == ranks[..k] + ranks[k..];
  }

  lemma InsertedIndex(m: map<Address, Rank>, ranks: seq<Rank>, s: Rank, k: nat)
    requires Indexes(m, ranks) && s.address !in m && k <= |ranks|
    ensures Indexes(m[s.address := s], Inserted(ranks, s, k))
  {
    var r := Inserted(ranks, s, k);
    assert forall i :: 0 <= i < |r| ==> r[i] == if i < k then ranks[i] else if i == k then s else ranks[i - 1];
    forall x | x in ranks ensures x in r {
      var i :| 0 <= i < |ranks| && ranks[i] == x;
      assert r[if i < k then i else i + 1] == x;
    }
    assert r[k] == s;
  }

  ghost function ValuesOf(ranks: seq<Rank>): (xs: seq<Entry>)
    reads ranks
    ensures |xs| == |ranks|
    ensures forall i :: 0 <= i < |xs| ==> xs[i] == ranks[i].Value()
  {
    seq(|ranks|, i requires 0 <= i < |ranks| reads ranks => ranks[i].Value())
  }

  ghost predicate AllValid(ranks: seq<Rank>)
    reads ranks
  {
    forall i :: 0 <= i < |ranks| ==> ranks[i].Valid()
  }

  // `m` maps exactly the addresses of `ranks` to their ranks.
  ghost predicate Indexes(m: map<Address, Rank>, ranks: seq<Rank>) {
    && (forall i :: 0 <= i < |ranks| ==> ranks[i].address in m && m[ranks[i].address] == ranks[i])
    && (forall a :: a in m ==> m[a] in ranks && m[a].address == a)
  }

  // sort.Search: the smallest i for which s sorts before ranks[i].
  method Search(ranks: seq<Rank>, s: Rank) returns (idx: nat)
    requires AllValid(ranks) && s.Valid() && Sorted(ValuesOf(ranks))
    ensures idx == Position(ValuesOf(ranks), s.Value())
  {
    var i, j := 0, |ranks|;
    while i < j
      invariant 0 <= i <= j <= |ranks|
      invariant forall k :: 0 <= k < i ==> !Less(s.Value(), ValuesOf(ranks)[k])
      invariant j < |ranks| ==> Less(s.Value(), ValuesOf(ranks)[j])
    {
      var h := (i + j) / 2;
      if !s.IsLess(ranks[h]) {
        forall k | 0 <= k < h ensures !Less(s.Value(), ValuesOf(ranks)[k]) {
          if Less(s.Value(), ValuesOf(ranks)[k]) {
            LessTrans(s.Value(), ValuesOf(ranks)[k], ValuesOf(ranks)[h]);
          }
        }
        i := h + 1;
      } else {
        j := h;
      }
    }
    idx := i;
  }

  method InsertRankToList(ranks: seq<Rank>, s: Rank) returns (r: seq<Rank>)
    requires AllValid(ranks) && s.Valid() && Sorted(ValuesOf(ranks))
    ensures r == Inserted(ranks, s, Position(ValuesOf(ranks), s.Value()))
  {
    var idx := Search(ranks, s);
    r := ranks + [s];                                 // append
    r := r[..idx + 1] + r[idx..|r| - 1];              // copy(ranks[idx+1:], ranks[idx:])
    r := r[idx := s];
  }
}
