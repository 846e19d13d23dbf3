/** Unstakings waiting for their height. Amounts are stored per height, staker and formulator; an
    index per height lists the stakers that are paid there. Taking the last amount of a staker back
    drops the staker from the index but leaves the amount stored. */
module UnstakingQueues {
  import opened Basics
  import opened Amounts
  import opened EnumIndex

  type QueueKey = (nat, Address, Address)       // unlock height, staker, Hyper formulator

  datatype Queue = Queue(entries: map<QueueKey, nat>, index: map<nat, Index>)

  predicate Listed(q: Queue, t: nat, a: Address) { a in IndexOf(q.index, t).numbers }

  // What is stored for a staker at a height, paid there or not.
  function Mine(q: Queue, t: nat, a: Address): map<QueueKey, nat> {
    map k | k in q.entries && k.0 == t && k.1 == a :: q.entries[k]
  }

  // The entries that will be paid: those of listed stakers.
  ghost function Outstanding(q: Queue): map<QueueKey, nat> {
    map k | k in q.entries && Listed(q, k.0, k.1) :: q.entries[k]
  }

  // Heights and stakers with amounts stored that nobody will pay.
  ghost function StalePairs(q: Queue): set<(nat, Address)> {
    set k | k in q.entries && !Listed(q, k.0, k.1) :: (k.0, k.1)
  }

  // Number and reverse tables are inverse, and every listed staker has an entry.
  ghost predicate QueueOk(q: Queue) {
    && (forall t: nat :: Indexed(IndexOf(q.index, t)))
    && (forall t: nat, a: Address :: Listed(q, t, a) ==> Mine(q, t, a) != map[])
  }

  function Magnitude(x: int): nat { if x < 0 then -x else x }

  // addUnstakingAmount.
  function Added(q: Queue, key: QueueKey, am: int): Queue {
    Queue(q.entries[key := Magnitude(At(q.entries, key) + am)],
          q.index[key.0 := Register(IndexOf(q.index, key.0), key.1)])
  }

  predicate Covers(q: Queue, key: QueueKey, am: nat) { key in q.entries && q.entries[key] >= am }

  // subUnstakingAmount, of an amount that the entry covers.
  function Reduced(q: Queue, key: QueueKey, am: nat): Queue
    requires QueueOk(q) && Covers(q, key, am)
  {
    var left := q.entries[key] - am;
    var entries := if left == 0 then q.entries - {key} else q.entries[key := left];
    var q' := q.(entries := entries);
    if Mine(q', key.0, key.1) != map[] then q'
    else if Listed(q, key.0, key.1) then q.(index := q.index[key.0 := Unregister(IndexOf(q.index, key.0), key.1)])
    else q
  }

  // Who is listed afterwards.

  lemma AddedLists(q: Queue, key: QueueKey, am: int)
    requires QueueOk(q)
    ensures forall t: nat :: Indexed(IndexOf(Added(q, key, am).index, t))
    ensures forall t: nat, a: Address ::
              Listed(Added(q, key, am), t, a) <==> Listed(q, t, a) || (t == key.0 && a == key.1)
  {
    hide Indexed, Register;
    var ix := IndexOf(q.index, key.0);
    assert Indexed(ix);
    RegisterOk(ix, key.1);
    var q' := Added(q, key, am);
    assert forall t: nat :: IndexOf(q'.index, t) == if t == key.0 then Register(ix, key.1) else IndexOf(q.index, t);
  }

  lemma DelistedLists(q: Queue, t: nat, a: Address)
    requires QueueOk(q) && Listed(q, t, a)
    ensures var q' := q.(index := q.index[t := Unregister(IndexOf(q.index, t), a)]);
            && (forall u: nat :: Indexed(IndexOf(q'.index, u)))
            && (forall u: nat, b: Address :: Listed(q', u, b) <==> Listed(q, u, b) && !(u == t && b == a))
  {
    hide Indexed, Unregister;
    var ix := IndexOf(q.index, t);
    UnregisterOk(ix, a);
    var q' := q.(index := q.index[t := Unregister(ix, a)]);
    assert forall u: nat :: IndexOf(q'.index, u) == if u == t then Unregister(ix, a) else IndexOf(q.index, u);
  }

  // Adding.

  lemma AddedKeeps(q: Queue, key: QueueKey, am: int)
    requires QueueOk(q)
    ensures QueueOk(Added(q, key, am)) && StalePairs(Added(q, key, am)) <= StalePairs(q)
  {
    hide Indexed, Register;
    AddedLists(q, key, am);
    var q' := Added(q, key, am);
    forall t: nat, a: Address | Listed(q', t, a) ensures Mine(q', t, a) != map[] {
      if t == key.0 && a == key.1 {
        assert key in Mine(q', t, a);
      } else {
        var k :| k in Mine(q, t, a);
        assert k in Mine(q', t, a);
      }
    }
  }

  // What is outstanding of one staker, and of all others.
  ghost function Others(q: Queue, t: nat, a: Address): map<QueueKey, nat> {
    map k | k in q.entries && Listed(q, k.0, k.1) && !(k.0 == t && k.1 == a) :: q.entries[k]
  }

  lemma OutstandingSplit(q: Queue, t: nat, a: Address)
    ensures Sum(Outstanding(q)) == Sum(Others(q, t, a)) + if Listed(q, t, a) then Sum(Mine(q, t, a)) else 0
  {
    hide Listed;
    var all, mine := Outstanding(q), Mine(q, t, a);
    SumSplit(all, mine.Keys);
    assert all - mine.Keys == Others(q, t, a);
    var some := map k | k in all && k in mine.Keys :: all[k];
    if Listed(q, t, a) {
      assert some == mine;
    } else {
      assert some == map[];
      SumNone<QueueKey>();
    }
  }

  lemma AddedSum(q: Queue, key: QueueKey, am: int)
    requires QueueOk(q)
    ensures var mine := Mine(q, key.0, key.1); var x := At(q.entries, key);
            Sum(Outstanding(Added(q, key, am))) == Sum(Outstanding(q)) - x + Magnitude(x + am)
                                                   + if Listed(q, key.0, key.1) then 0 else Sum(mine)
  {
    hide *;
    var t, a := key.0, key.1;
    OutstandingSplit(q, t, a);
    OutstandingSplit(Added(q, key, am), t, a);
    AddedParts(q, key, am);
    SumSet(Mine(q, t, a), key, Magnitude(At(q.entries, key) + am));
  }

  lemma AddedParts(q: Queue, key: QueueKey, am: int)
    requires QueueOk(q)
    ensures var q' := Added(q, key, am); var t, a := key.0, key.1;
            && Listed(q', t, a) && Others(q', t, a) == Others(q, t, a)
            && Mine(q', t, a) == Mine(q, t, a)[key := Magnitude(At(q.entries, key) + am)]
            && At(Mine(q, t, a), key) == At(q.entries, key)
  {
    hide Indexed, Register, Listed, QueueOk, Others, Mine, Magnitude;
    var q' := Added(q, key, am);
    AddedLists(q, key, am);
    SameOthers(q, q', key.0, key.1);
    MineSet(q, q', key, Magnitude(At(q.entries, key) + am));
  }

  lemma SameOthers(q: Queue, q': Queue, t: nat, a: Address)
    requires forall u: nat, b: Address :: !(u == t && b == a) ==> (Listed(q', u, b) <==> Listed(q, u, b))
    requires forall k: QueueKey :: !(k.0 == t && k.1 == a) ==> (k in q'.entries <==> k in q.entries)
    requires forall k: QueueKey :: k in q.entries && !(k.0 == t && k.1 == a) ==> q'.entries[k] == q.entries[k]
    ensures Others(q', t, a) == Others(q, t, a)
  {
    hide Listed;
  }

  lemma MineSet(q: Queue, q': Queue, key: QueueKey, x: nat)
    requires q'.entries == q.entries[key := x]
    ensures Mine(q', key.0, key.1) == Mine(q, key.0, key.1)[key := x]
    ensures At(Mine(q, key.0, key.1), key) == At(q.entries, key)
  {
  }

  /** Adding to the queue adds exactly the amount to what will be paid if and only if the entry does not
      turn negative and nothing stale is stored for the staker at that height. */
  lemma AddedExactly(q: Queue, key: QueueKey, am: int)
    requires QueueOk(q)
    ensures Sum(Outstanding(Added(q, key, am))) == Sum(Outstanding(q)) + am
       <==> At(q.entries, key) + am >= 0 && (Listed(q, key.0, key.1) || Sum(Mine(q, key.0, key.1)) == 0)
  {
    hide Indexed, Register, Sum, Outstanding, Added;
    AddedSum(q, key, am);
    var mine := Mine(q, key.0, key.1);
    SumRemove(mine, key);
    assert At(mine, key) == At(q.entries, key);
  }

  // Taking back.

  lemma ReducedKeeps(q: Queue, key: QueueKey, am: nat)
    requires QueueOk(q) && Covers(q, key, am)
    ensures QueueOk(Reduced(q, key, am)) && StalePairs(Reduced(q, key, am)) <= StalePairs(q) + {(key.0, key.1)}
  {
    hide Indexed, Unregister, Register;
    var t, a := key.0, key.1;
    var left := q.entries[key] - am;
    var q' := q.(entries := if left == 0 then q.entries - {key} else q.entries[key := left]);
    if Mine(q', t, a) != map[] {
      forall u: nat, b: Address | Listed(q', u, b) ensures Mine(q', u, b) != map[] {
        if !(u == t && b == a) {
          assert Listed(q, u, b) && Mine(q, u, b) != map[];
          var k :| k in Mine(q, u, b);
          assert k in Mine(q', u, b);
        }
      }
    } else if Listed(q, t, a) {
      DelistedLists(q, t, a);
    }
  }

  /** Taking an amount back lowers what will be paid by exactly that amount if the staker is listed, and
      not at all if not. */
  lemma ReducedSum(q: Queue, key: QueueKey, am: nat)
    requires QueueOk(q) && Covers(q, key, am)
    ensures Sum(Outstanding(Reduced(q, key, am)))
            == Sum(Outstanding(q)) - if Listed(q, key.0, key.1) then am else 0
  {
    hide Indexed, Unregister, Sum, Outstanding, Others, Mine, Listed, QueueOk;
    var t, a := key.0, key.1;
    OutstandingSplit(q, t, a);
    OutstandingSplit(Reduced(q, key, am), t, a);
    ReducedMine(q, key, am);
    ReducedOthers(q, key, am);
    SumNone<QueueKey>();
  }

  lemma ReducedOthers(q: Queue, key: QueueKey, am: nat)
    requires QueueOk(q) && Covers(q, key, am)
    ensures var r := Reduced(q, key, am); var t, a := key.0, key.1;
            var left := q.entries[key] - am;
            var q' := q.(entries := if left == 0 then q.entries - {key} else q.entries[key := left]);
            && Others(r, t, a) == Others(q, t, a)
            && (Listed(r, t, a) <==> Listed(q, t, a) && Mine(q', t, a) != map[])
  {
    hide Indexed, Unregister, Others, Mine, QueueOk;
    var t, a := key.0, key.1;
    var r := Reduced(q, key, am);
    if Listed(q, t, a) {
      DelistedLists(q, t, a);
    }
    hide Listed;
    SameOthers(q, r, t, a);
  }

  lemma ReducedMine(q: Queue, key: QueueKey, am: nat)
    requires Covers(q, key, am)
    ensures var left := q.entries[key] - am;
            var q' := q.(entries := if left == 0 then q.entries - {key} else q.entries[key := left]);
            Sum(Mine(q', key.0, key.1)) == Sum(Mine(q, key.0, key.1)) - am
  {
    hide Sum;
    var left := q.entries[key] - am;
    var mine := Mine(q, key.0, key.1);
    SumPut(mine, key, left);
    var q' := q.(entries := if left == 0 then q.entries - {key} else q.entries[key := left]);
    assert Mine(q', key.0, key.1) == PutAmount(mine, key, left);
  }

  /** An unstaking that is taken back whole stays stored: the next one of the same staker and height
      brings it back, and both are paid. */
  lemma TakenBackCountsAgain(q: Queue, key: QueueKey, x: nat)
    requires QueueOk(q) && Listed(q, key.0, key.1) && key in q.entries
    requires Mine(q, key.0, key.1) == map[key := q.entries[key]]
    ensures var r := Reduced(q, key, q.entries[key]);
            && (key.0, key.1) in StalePairs(r)
            && Sum(Outstanding(Added(r, key, x))) == Sum(Outstanding(q)) + x
  {
    hide Indexed, Register, Unregister, Sum, Outstanding;
    var am := q.entries[key];
    var r := Reduced(q, key, am);
    var q' := q.(entries := q.entries - {key});
    assert Mine(q', key.0, key.1) == Mine(q, key.0, key.1) - {key};
    ReducedKeeps(q, key, am);
    ReducedSum(q, key, am);
    DelistedLists(q, key.0, key.1);
    AddedSum(r, key, x);
    SumOne(key, am);
  }

  // Paying a height.

  // The outstanding entries of one height.
  ghost function DueAt(q: Queue, t: nat): map<QueueKey, nat> {
    map k | k in q.entries && k.0 == t && Listed(q, t, k.1) :: q.entries[k]
  }

  function Paid(q: Queue, t: nat, due: map<QueueKey, nat>): Queue { Queue(q.entries - due.Keys, q.index - {t}) }

  /** Paying a height takes out exactly its outstanding entries. */
  lemma PaidKeeps(q: Queue, t: nat)
    requires QueueOk(q)
    ensures var q' := Paid(q, t, DueAt(q, t));
            && QueueOk(q') && StalePairs(q') <= StalePairs(q)
            && Sum(Outstanding(q')) + Sum(DueAt(q, t)) == Sum(Outstanding(q))
  {
    hide *;
    PaidLists(q, t);
    PaidParts(q, t);
    SumSplit(Outstanding(q), DueAt(q, t).Keys);
  }

  lemma PaidLists(q: Queue, t: nat)
    requires QueueOk(q)
    ensures var q' := Paid(q, t, DueAt(q, t));
            && QueueOk(q') && StalePairs(q') <= StalePairs(q)
            && (forall u: nat, a: Address :: Listed(q', u, a) <==> Listed(q, u, a) && u != t)
  {
    hide Indexed;
    var q' := Paid(q, t, DueAt(q, t));
    NoEntries();
    assert forall u: nat :: IndexOf(q'.index, u) == if u == t then NO_ENTRIES else IndexOf(q.index, u);
    forall u: nat, a: Address | Listed(q', u, a) ensures Mine(q', u, a) != map[] {
      assert Listed(q, u, a) && Mine(q, u, a) != map[];
      var k :| k in Mine(q, u, a);
      assert k in Mine(q', u, a);
    }
  }

  lemma PaidParts(q: Queue, t: nat)
    requires QueueOk(q)
    ensures var due := DueAt(q, t); var all := Outstanding(q);
            && (map k | k in all && k in due.Keys :: all[k]) == due
            && all - due.Keys == Outstanding(Paid(q, t, due))
  {
    hide Listed, QueueOk, Indexed, IndexOf;
    PaidLists(q, t);
    PaidRest(q, Paid(q, t, DueAt(q, t)), t);
  }

  lemma PaidRest(q: Queue, q': Queue, t: nat)
    requires q'.entries == q.entries - DueAt(q, t).Keys
    requires forall u: nat, a: Address :: Listed(q', u, a) <==> Listed(q, u, a) && u != t
    ensures Outstanding(q) - DueAt(q, t).Keys == Outstanding(q')
  {
    hide Listed;
  }
}
