/** Choosing the round leader among the collected round-vote acks.

    The source ranges over a hash map, so the iteration order is arbitrary: here it is a
    parameter `order` enumerating the keys of `acks`. */
module Leader {
  import opened Basics
  import opened VotingTypes

  type Acks = map<Key, RoundVoteAck>

  ghost function Elements(order: seq<Key>): set<Key> { set k | k in order }

  // `order` lists the keys of `acks`, each exactly once.
  ghost predicate Enumerates(order: seq<Key>, acks: Acks) {
    Distinct(order) && Elements(order) == acks.Keys
  }

  ghost function TimeoutVoters(acks: Acks, seen: set<Key>, t: nat): set<Key> {
    set k | k in seen && k in acks && acks[k].timeoutCount == t
  }

  ghost function LeaderVoters(acks: Acks, seen: set<Key>, leader: Key): set<Key> {
    set k | k in seen && k in acks && acks[k].leader == leader
  }

  ghost function PairVoters(acks: Acks, t: nat, leader: Key): set<Key> {
    TimeoutVoters(acks, acks.Keys, t) * LeaderVoters(acks, acks.Keys, leader)
  }

  // At the i-th ack in iteration order both running counts of that ack have reached the quorum.
  ghost predicate Ripe(acks: Acks, order: seq<Key>, i: nat, q: nat) {
    && i < |order| && order[i] in acks
    && |TimeoutVoters(acks, Elements(order[..i + 1]), acks[order[i]].timeoutCount)| >= q
    && |LeaderVoters(acks, Elements(order[..i + 1]), acks[order[i]].leader)| >= q
  }

  // `r` is what the loop returns: the first ripe ack, or nothing when none is ripe.
  ghost predicate IsChoice(acks: Acks, order: seq<Key>, q: nat, r: Option<RoundVoteAck>) {
    match r
    case None => forall i: nat :: !Ripe(acks, order, i, q)
    case Some(a) =>
      exists i: nat :: && Ripe(acks, order, i, q) && a == acks[order[i]]
                       && forall j: nat :: j < i ==> !Ripe(acks, order, j, q)
  }

  method ChooseAck(acks: Acks, order: seq<Key>, q: nat) returns (r: Option<RoundVoteAck>)
    requires Enumerates(order, acks)
    ensures IsChoice(acks, order, q, r)
  {
    hide Distinct, Elements, TimeoutVoters, LeaderVoters;
    var leaderCount: map<Key, nat> := map[];
    var timeoutCount: map<nat, nat> := map[];
    var i := 0;
    NothingCounted(acks, order);
    while i < |order|
      invariant 0 <= i <= |order|
      invariant forall t: nat :: (if t in timeoutCount then timeoutCount[t] else 0)
                                 == |TimeoutVoters(acks, Elements(order[..i]), t)|
      invariant forall l: Key :: (if l in leaderCount then leaderCount[l] else 0)
                                 == |LeaderVoters(acks, Elements(order[..i]), l)|
      invariant forall j: nat :: j < i ==> !Ripe(acks, order, j, q)
    {
      AllKnown(acks, order, i);
      var a := acks[order[i]];
      forall t: nat { TimeoutStep(acks, order, i, t); }
      forall l: Key { LeaderStep(acks, order, i, l); }
      var tc := (if a.timeoutCount in timeoutCount then timeoutCount[a.timeoutCount] else 0) + 1;
      timeoutCount := timeoutCount[a.timeoutCount := tc];
      var lc := (if a.leader in leaderCount then leaderCount[a.leader] else 0) + 1;
      leaderCount := leaderCount[a.leader := lc];
      if tc >= q && lc >= q {
        assert Ripe(acks, order, i, q);
        return Some(a);
      }
      assert !Ripe(acks, order, i, q);
      i := i + 1;
    }
    return None;
  }

  lemma NothingCounted(acks: Acks, order: seq<Key>)
    ensures forall t: nat :: |TimeoutVoters(acks, Elements(order[..0]), t)| == 0
    ensures forall l: Key :: |LeaderVoters(acks, Elements(order[..0]), l)| == 0
  {
    assert Elements(order[..0]) == {};
    forall t: nat ensures |TimeoutVoters(acks, Elements(order[..0]), t)| == 0 {
      assert TimeoutVoters(acks, Elements(order[..0]), t) == {};
    }
    forall l: Key ensures |LeaderVoters(acks, Elements(order[..0]), l)| == 0 {
      assert LeaderVoters(acks, Elements(order[..0]), l) == {};
    }
  }

  lemma AllKnown(acks: Acks, order: seq<Key>, i: nat)
    requires Enumerates(order, acks) && i < |order|
    ensures order[i] in acks
  {
    assert order[i] in Elements(order);
  }

  lemma ElementsStep(order: seq<Key>, i: nat)
    requires i < |order|
    ensures Elements(order[..i + 1]) == Elements(order[..i]) + {order[i]}
    ensures Distinct(order) ==> order[i] !in Elements(order[..i])
  {
    assert order[..i + 1] == order[..i] + [order[i]];
  }

  // Reading one more ack adds one voter to its own timeout count, and to no other.
  lemma TimeoutStep(acks: Acks, order: seq<Key>, i: nat, t: nat)
    requires Distinct(order) && i < |order| && order[i] in acks
    ensures |TimeoutVoters(acks, Elements(order[..i + 1]), t)|
         == |TimeoutVoters(acks, Elements(order[..i]), t)| + (if t == acks[order[i]].timeoutCount then 1 else 0)
  {
    hide Distinct, Elements;
    ElementsStep(order, i);
    assert TimeoutVoters(acks, Elements(order[..i + 1]), t)
        == TimeoutVoters(acks, Elements(order[..i]), t) + (if t == acks[order[i]].timeoutCount then {order[i]} else {});
  }

  lemma LeaderStep(acks: Acks, order: seq<Key>, i: nat, l: Key)
    requires Distinct(order) && i < |order| && order[i] in acks
    ensures |LeaderVoters(acks, Elements(order[..i + 1]), l)|
         == |LeaderVoters(acks, Elements(order[..i]), l)| + (if l == acks[order[i]].leader then 1 else 0)
  {
    hide Distinct, Elements;
    ElementsStep(order, i);
    assert LeaderVoters(acks, Elements(order[..i + 1]), l)
        == LeaderVoters(acks, Elements(order[..i]), l) + (if l == acks[order[i]].leader then {order[i]} else {});
  }

  lemma SubsetSize<T>(a: set<T>, b: set<T>)
    requires a <= b
    ensures |a| <= |b|
  {
    if a != {} {
      var x :| x in a;
      SubsetSize(a - {x}, b - {x});
    }
  }

  // A ripe ack has a quorum of all acks behind its timeout count and behind its leader.
  lemma RipeHasQuorums(acks: Acks, order: seq<Key>, i: nat, q: nat)
    requires Ripe(acks, order, i, q)
    ensures |TimeoutVoters(acks, acks.Keys, acks[order[i]].timeoutCount)| >= q
    ensures |LeaderVoters(acks, acks.Keys, acks[order[i]].leader)| >= q
  {
    var a, seen := acks[order[i]], Elements(order[..i + 1]);
    SubsetSize(TimeoutVoters(acks, seen, a.timeoutCount), TimeoutVoters(acks, acks.Keys, a.timeoutCount));
    SubsetSize(LeaderVoters(acks, seen, a.leader), LeaderVoters(acks, acks.Keys, a.leader));
  }

  /** At most one timeout count and one leader can have a quorum, since two quorums overlap. */
  lemma QuorumsUnique(acks: Acks, q: nat, t: nat, t': nat, l: Key, l': Key)
    requires 2 * q > |acks|
    ensures |TimeoutVoters(acks, acks.Keys, t)| >= q && |TimeoutVoters(acks, acks.Keys, t')| >= q ==> t == t'
    ensures |LeaderVoters(acks, acks.Keys, l)| >= q && |LeaderVoters(acks, acks.Keys, l')| >= q ==> l == l'
  {
    if t != t' {
      var a, b := TimeoutVoters(acks, acks.Keys, t), TimeoutVoters(acks, acks.Keys, t');
      assert a !! b;
      SubsetSize(a + b, acks.Keys);
    }
    if l != l' {
      var a, b := LeaderVoters(acks, acks.Keys, l), LeaderVoters(acks, acks.Keys, l');
      assert a !! b;
      SubsetSize(a + b, acks.Keys);
    }
  }

  /** Two iteration orders never choose different leaders or timeout counts. */
  lemma OrdersAgree(acks: Acks, order: seq<Key>, order': seq<Key>, q: nat, a: RoundVoteAck, a': RoundVoteAck)
    requires 2 * q > |acks|
    requires IsChoice(acks, order, q, Some(a)) && IsChoice(acks, order', q, Some(a'))
    ensures a.leader == a'.leader && a.timeoutCount == a'.timeoutCount
    ensures |TimeoutVoters(acks, acks.Keys, a.timeoutCount)| >= q
    ensures |LeaderVoters(acks, acks.Keys, a.leader)| >= q
  {
    var i: nat :| Ripe(acks, order, i, q) && a == acks[order[i]];
    var i': nat :| Ripe(acks, order', i', q) && a' == acks[order'[i']];
    RipeHasQuorums(acks, order, i, q);
    RipeHasQuorums(acks, order', i', q);
    QuorumsUnique(acks, q, a.timeoutCount, a'.timeoutCount, a.leader, a'.leader);
  }

  // An enumeration of a finite set.
  lemma Enumeration(s: set<Key>) returns (order: seq<Key>)
    ensures Distinct(order) && Elements(order) == s
  {
    if s == {} {
      order := [];
    } else {
      var k :| k in s;
      var rest := Enumeration(s - {k});
      order := Joined([k], rest);
      assert Elements([k]) == {k};
    }
  }

  lemma Joined(a: seq<Key>, b: seq<Key>) returns (order: seq<Key>)
    requires Distinct(a) && Distinct(b) && Elements(a) !! Elements(b)
    ensures order == a + b && Distinct(order) && Elements(order) == Elements(a) + Elements(b)
  {
    order := a + b;
    forall i, j | 0 <= i < j < |order| ensures order[i] != order[j] {
      if i < |a| && j >= |a| {
        assert order[i] in Elements(a) && order[j] in Elements(b);
      }
    }
    assert Elements(order) == Elements(a) + Elements(b);
  }

  // If some index is ripe, the loop returns an ack.
  lemma FirstRipe(acks: Acks, order: seq<Key>, q: nat, i: nat)
    requires Ripe(acks, order, i, q)
    ensures exists a :: IsChoice(acks, order, q, Some(a))
  {
    if j: nat :| j < i && Ripe(acks, order, j, q) {
      FirstRipe(acks, order, q, j);
    } else {
      assert IsChoice(acks, order, q, Some(acks[order[i]]));
    }
  }

  ghost predicate SomeOrder(acks: Acks, q: nat) {
    exists order, a :: Enumerates(order, acks) && IsChoice(acks, order, q, Some(a))
  }

  ghost predicate EveryOrder(acks: Acks, q: nat) {
    forall order :: Enumerates(order, acks) ==> !IsChoice(acks, order, q, None)
  }

  ghost predicate BothQuorums(acks: Acks, q: nat, k: Key) {
    && k in acks
    && |TimeoutVoters(acks, acks.Keys, acks[k].timeoutCount)| >= q
    && |LeaderVoters(acks, acks.Keys, acks[k].leader)| >= q
  }

  /** Some order chooses exactly when one ack's timeout count and leader both have a quorum. */
  lemma SomeOrderChooses(acks: Acks, q: nat)
    ensures SomeOrder(acks, q) <==> exists k :: BothQuorums(acks, q, k)
  {
    if SomeOrder(acks, q) {
      var order, a :| Enumerates(order, acks) && IsChoice(acks, order, q, Some(a));
      var i: nat :| Ripe(acks, order, i, q);
      RipeHasQuorums(acks, order, i, q);
      assert BothQuorums(acks, q, order[i]);
    }
    if k :| BothQuorums(acks, q, k) {
      LastIsRipe(acks, q, k);
    }
  }

  // An order that puts k last has counted everything when it reaches k.
  lemma LastIsRipe(acks: Acks, q: nat, k: Key)
    requires BothQuorums(acks, q, k)
    ensures SomeOrder(acks, q)
  {
    var rest := Enumeration(acks.Keys - {k});
    assert Elements([k]) == {k};
    var order := Joined(rest, [k]);
    WholeOrderRipe(acks, order, q, |rest|);
    FirstRipe(acks, order, q, |rest|);
    var a :| IsChoice(acks, order, q, Some(a));
    assert Enumerates(order, acks);
  }

  lemma WholeOrderRipe(acks: Acks, order: seq<Key>, q: nat, i: nat)
    requires Enumerates(order, acks) && i + 1 == |order| && BothQuorums(acks, q, order[i])
    ensures Ripe(acks, order, i, q)
  {
    assert order[..i + 1] == order;
  }

  /** Every order chooses exactly when a quorum of acks names one timeout count and one leader
      together. */
  lemma EveryOrderChooses(acks: Acks, q: nat)
    requires 2 * q > |acks| && q > 0
    ensures EveryOrder(acks, q) <==> exists t, l :: |PairVoters(acks, t, l)| >= q
  {
    if t, l :| |PairVoters(acks, t, l)| >= q {
      forall order | Enumerates(order, acks) ensures !IsChoice(acks, order, q, None) {
        PairQuorumRipens(acks, order, q, t, l, |order|);
      }
    } else {
      PoorOrderExists(acks, q);
    }
  }

  // With a quorum for the pair, the last of its voters in the order is ripe.
  lemma PairQuorumRipens(acks: Acks, order: seq<Key>, q: nat, t: nat, l: Key, i: nat)
    requires q > 0 && Enumerates(order, acks) && |PairVoters(acks, t, l)| >= q
    requires i <= |order| && PairVoters(acks, t, l) <= Elements(order[..i])
    ensures !IsChoice(acks, order, q, None)
    decreases i
  {
    var b := PairVoters(acks, t, l);
    if i > 0 {
      ElementsStep(order, i - 1);
      if order[i - 1] in b {
        SubsetSize(b, TimeoutVoters(acks, Elements(order[..i]), t));
        SubsetSize(b, LeaderVoters(acks, Elements(order[..i]), l));
        assert Ripe(acks, order, i - 1, q);
      } else {
        PairQuorumRipens(acks, order, q, t, l, i - 1);
      }
    }
  }

  // Without such a quorum, an order listing the voters of the majority pair first chooses nothing.
  lemma PoorOrderExists(acks: Acks, q: nat)
    requires 2 * q > |acks|
    requires forall t, l :: |PairVoters(acks, t, l)| < q
    ensures !EveryOrder(acks, q)
  {
    var any := Enumeration(acks.Keys);
    if i: nat :| Ripe(acks, any, i, q) {
      RipeHasQuorums(acks, any, i, q);
      PairFirstChoosesNothing(acks, q, acks[any[i]].timeoutCount, acks[any[i]].leader);
    } else {
      assert Enumerates(any, acks) && IsChoice(acks, any, q, None);
    }
  }

  lemma PairFirstChoosesNothing(acks: Acks, q: nat, t: nat, l: Key)
    requires 2 * q > |acks|
    requires |TimeoutVoters(acks, acks.Keys, t)| >= q && |LeaderVoters(acks, acks.Keys, l)| >= q
    requires |PairVoters(acks, t, l)| < q
    ensures !EveryOrder(acks, q)
  {
    var b := PairVoters(acks, t, l);
    var first := Enumeration(b);
    var second := Enumeration(acks.Keys - b);
    var order := Joined(first, second);
    assert order[..|first|] == first;
    forall j: nat ensures !Ripe(acks, order, j, q) {
      PairFirstNotRipe(acks, q, t, l, order, |first|, j);
    }
    assert Enumerates(order, acks) && IsChoice(acks, order, q, None);
  }

  lemma PairFirstNotRipe(acks: Acks, q: nat, t: nat, l: Key, order: seq<Key>, m: nat, j: nat)
    requires 2 * q > |acks|
    requires |TimeoutVoters(acks, acks.Keys, t)| >= q && |LeaderVoters(acks, acks.Keys, l)| >= q
    requires |PairVoters(acks, t, l)| < q
    requires Enumerates(order, acks) && m <= |order| && Elements(order[..m]) == PairVoters(acks, t, l)
    ensures !Ripe(acks, order, j, q)
  {
    if Ripe(acks, order, j, q) {
      RipeHasQuorums(acks, order, j, q);
      QuorumsUnique(acks, q, t, acks[order[j]].timeoutCount, l, acks[order[j]].leader);
      assert order[j] in Elements(order[..m]);
      assert order[..j + 1] == order[..m][..j + 1];
      assert forall k :: k in order[..j + 1] ==> k in order[..m];
      SubsetSize(TimeoutVoters(acks, Elements(order[..j + 1]), t), PairVoters(acks, t, l));
    }
  }

  function ExampleAcks(): Acks {
    var a := RoundVoteAck(1, Genesis, 1, 0, 1, 1, 1, 0, false);
    map[1 := a, 2 := a, 3 := a.(leader := 2), 4 := a.(timeoutCount := 1)]
  }

  /** Whether a leader is found can depend on the order: of these four acks of five observers,
      two name the majority pair, one only its timeout count and one only its leader. */
  lemma OrderCanMatter()
    ensures SomeOrder(ExampleAcks(), 3) && !EveryOrder(ExampleAcks(), 3)
  {
    var acks := ExampleAcks();
    assert acks.Keys == {1, 2, 3, 4};
    assert TimeoutVoters(acks, acks.Keys, 0) == {1, 2, 3};
    assert LeaderVoters(acks, acks.Keys, 1) == {1, 2, 4};
    assert PairVoters(acks, 0, 1) == {1, 2};
    LastIsRipe(acks, 3, 1);
    PairFirstChoosesNothing(acks, 3, 0, 1);
  }
}
