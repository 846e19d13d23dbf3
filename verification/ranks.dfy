/** The candidate list of the rank table as a value: a list strictly sorted by score and address,
    rotated by raising the phase of its front and re-inserting it. */
module Ranks {
  import opened Basics

  // `hashSpace` is read as a little-endian number, so its first four bytes are its low 32 bits.
  datatype Entry = Entry(address: Address, publicHash: nat, phase: nat, hashSpace: nat)

  function Score(e: Entry): nat { e.phase * U32 + e.hashSpace % U32 }

  predicate Less(a: Entry, b: Entry) {
    Score(a) < Score(b) || (Score(a) == Score(b) && a.address < b.address)
  }

  // The phase counter is an unsigned 32-bit number.
  function AddPhase(e: Entry, n: nat): Entry { e.(phase := (e.phase + n) % U32) }

  ghost predicate Sorted(xs: seq<Entry>) {
    forall i, j :: 0 <= i < j < |xs| ==> Less(xs[i], xs[j])
  }

  ghost predicate Unique(xs: seq<Entry>) {
    forall i, j :: 0 <= i < j < |xs| ==> xs[i].address != xs[j].address
  }

  // All phases are within `lo .. lo + 2`.
  ghost predicate Within(xs: seq<Entry>, lo: nat) {
    forall i :: 0 <= i < |xs| ==> lo <= xs[i].phase <= lo + 2
  }

  /** The invariant of the rank table: strictly sorted, one entry per address, and all phases
      within two of the front's. */
  ghost predicate TableInv(xs: seq<Entry>) {
    Sorted(xs) && Unique(xs) && (xs != [] ==> Within(xs, xs[0].phase))
  }

  ghost predicate HasAddress(xs: seq<Entry>, a: Address) {
    exists i :: 0 <= i < |xs| && xs[i].address == a
  }

  // The first position whose entry sorts after e.
  function Position(xs: seq<Entry>, e: Entry): (k: nat)
    ensures k <= |xs|
    ensures forall i :: 0 <= i < k ==> !Less(e, xs[i])
    ensures k < |xs| ==> Less(e, xs[k])
  {
    if xs == [] || Less(e, xs[0]) then 0
    else
      var k := Position(xs[1..], e);
      assert forall i :: 0 < i < k + 1 ==> xs[i] == xs[1..][i - 1];
      k + 1
  }

  function Insert(xs: seq<Entry>, e: Entry): seq<Entry> {
    var k := Position(xs, e);
    xs[..k] + [e] + xs[k..]
  }

  function Remove(xs: seq<Entry>, a: Address): seq<Entry> {
    if xs == [] then []
    else if xs[0].address == a then Remove(xs[1..], a)
    else [xs[0]] + Remove(xs[1..], a)
  }

  /** One forward step: the front is skipped after a timeout (two phases up), or has finished its
      turn (one phase up and a new hash word). */
  datatype Step = Timeout | Turn(hash: nat)

  function Moved(e: Entry, s: Step): Entry {
    match s
    case Timeout => AddPhase(e, 2)
    case Turn(h) => AddPhase(e, 1).(hashSpace := h)
  }

  function Forward(xs: seq<Entry>, s: Step): (r: seq<Entry>)
    requires xs != []
    ensures |r| == |xs|
  {
    Insert(xs[1..], Moved(xs[0], s))
  }

  function Run(xs: seq<Entry>, steps: seq<Step>): (r: seq<Entry>)
    requires xs != []
    ensures |r| == |xs|
    decreases |steps|
  {
    if steps == [] then xs else Run(Forward(xs, steps[0]), steps[1..])
  }

  function Timeouts(t: nat): seq<Step> { seq(t, _ => Timeout) }

  lemma RunStep(xs: seq<Entry>, t: nat)
    requires xs != [] && t > 0
    ensures Run(xs, Timeouts(t)) == Run(Forward(xs, Timeout), Timeouts(t - 1))
  {
    assert Timeouts(t)[1..] == Timeouts(t - 1);
  }

  lemma RunNone(xs: seq<Entry>)
    requires xs != []
    ensures Run(xs, Timeouts(0)) == xs
  {
  }

  // Order facts.

  lemma LessTotal(a: Entry, b: Entry)
    requires a.address != b.address
    ensures Less(a, b) || Less(b, a)
    ensures !(Less(a, b) && Less(b, a))
  {
  }

  lemma LessTrans(a: Entry, b: Entry, c: Entry)
    requires Less(a, b) && Less(b, c)
    ensures Less(a, c)
  {
  }

  lemma LessPhase(a: Entry, b: Entry)
    ensures Less(a, b) ==> a.phase <= b.phase
    ensures a.phase < b.phase ==> Less(a, b)
  {
    if a.phase < b.phase {
      assert a.phase * U32 + U32 <= b.phase * U32;
    }
    if b.phase < a.phase {
      assert b.phase * U32 + U32 <= a.phase * U32;
    }
  }

  // Inserting a new address.

  lemma PlaceOfNew(xs: seq<Entry>, e: Entry)
    requires Sorted(xs) && !HasAddress(xs, e.address)
    ensures var k := Position(xs, e);
            && (forall i :: 0 <= i < k ==> Less(xs[i], e))
            && (forall i :: k <= i < |xs| ==> Less(e, xs[i]))
  {
    hide Score;
    var k := Position(xs, e);
    forall i | 0 <= i < k ensures Less(xs[i], e) {
      LessTotal(xs[i], e);
    }
    forall i | k <= i < |xs| ensures Less(e, xs[i]) {
      if i > k { LessTrans(e, xs[k], xs[i]); }
    }
  }

  lemma InsertAt(xs: seq<Entry>, e: Entry, i: nat)
    requires i < |xs| + 1
    ensures |Insert(xs, e)| == |xs| + 1
    ensures var k := Position(xs, e);
            Insert(xs, e)[i] == if i < k then xs[i] else if i == k then e else xs[i - 1]
  {
    hide Less;
  }

  lemma InsertCounts(xs: seq<Entry>, e: Entry)
    ensures multiset(Insert(xs, e)) == multiset(xs) + multiset{e}
  {
    hide Less;
    var k := Position(xs, e);
    assert xs == xs[..k] + xs[k..];
  }

  lemma InsertKeepsOrder(xs: seq<Entry>, e: Entry)
    requires Sorted(xs) && Unique(xs) && !HasAddress(xs, e.address)
    ensures Sorted(Insert(xs, e)) && Unique(Insert(xs, e))
    ensures multiset(Insert(xs, e)) == multiset(xs) + multiset{e}
  {
    hide Less, Insert, Position;
    InsertCounts(xs, e);
    PlaceOfNew(xs, e);
    InsertAt(xs, e, 0);
    var r := Insert(xs, e);
    forall i, j | 0 <= i < j < |r| ensures Less(r[i], r[j]) && r[i].address != r[j].address {
      InsertAt(xs, e, i);
      InsertAt(xs, e, j);
    }
  }

  lemma InsertKeepsWithin(xs: seq<Entry>, e: Entry, lo: nat)
    requires Within(xs, lo) && lo <= e.phase <= lo + 2
    ensures Within(Insert(xs, e), lo)
  {
    var k := Position(xs, e);
    var r := Insert(xs, e);
    forall i | 0 <= i < |r| ensures lo <= r[i].phase <= lo + 2 {
      assert r[i] == if i < k then xs[i] else if i == k then e else xs[i - 1];
    }
  }

  lemma WithinFront(xs: seq<Entry>, lo: nat)
    requires Sorted(xs) && Unique(xs) && Within(xs, lo)
    ensures TableInv(xs)
  {
    forall i | 0 <= i < |xs| ensures xs[0].phase <= xs[i].phase <= xs[0].phase + 2 {
      if i > 0 { LessPhase(xs[0], xs[i]); }
    }
  }

  lemma TailOk(xs: seq<Entry>)
    requires Sorted(xs) && Unique(xs) && xs != []
    ensures Sorted(xs[1..]) && Unique(xs[1..]) && !HasAddress(xs[1..], xs[0].address)
    ensures multiset(xs) == multiset{xs[0]} + multiset(xs[1..])
  {
    assert xs == [xs[0]] + xs[1..];
  }

  // Any replacement of the front keeps the order, whatever its new phase.
  lemma ForwardKeepsOrder(xs: seq<Entry>, s: Step)
    requires Sorted(xs) && Unique(xs) && xs != []
    ensures Sorted(Forward(xs, s)) && Unique(Forward(xs, s))
    ensures multiset(Forward(xs, s)) == multiset(xs) - multiset{xs[0]} + multiset{Moved(xs[0], s)}
  {
    TailOk(xs);
    InsertKeepsOrder(xs[1..], Moved(xs[0], s));
  }

  /** A forward step keeps the table invariant, as long as the phase counter does not wrap. */
  lemma ForwardKeepsInv(xs: seq<Entry>, s: Step)
    requires TableInv(xs) && xs != [] && xs[0].phase + 2 < U32
    ensures TableInv(Forward(xs, s))
  {
    ForwardKeepsOrder(xs, s);
    InsertKeepsWithin(xs[1..], Moved(xs[0], s), xs[0].phase);
    WithinFront(Forward(xs, s), xs[0].phase);
  }

  lemma {:induction false} RemoveMembers(xs: seq<Entry>, a: Address)
    ensures forall e :: e in Remove(xs, a) <==> e in xs && e.address != a
  {
    if xs != [] {
      RemoveMembers(xs[1..], a);
      assert forall e :: e in xs <==> e == xs[0] || e in xs[1..];
    }
  }

  lemma {:induction false} RemoveOk(xs: seq<Entry>, a: Address)
    requires Sorted(xs) && Unique(xs)
    ensures Sorted(Remove(xs, a)) && Unique(Remove(xs, a))
  {
    hide Less;
    if xs != [] {
      TailOk(xs);
      RemoveOk(xs[1..], a);
      if xs[0].address != a {
        var r := Remove(xs[1..], a);
        RemoveMembers(xs[1..], a);
        forall j | 0 <= j < |r| ensures Less(xs[0], r[j]) && xs[0].address != r[j].address {
          assert r[j] in xs[1..];
        }
      }
    }
  }

  lemma RemoveKeepsWithin(xs: seq<Entry>, a: Address, lo: nat)
    requires Within(xs, lo)
    ensures Within(Remove(xs, a), lo)
  {
    RemoveMembers(xs, a);
    var r := Remove(xs, a);
    forall i | 0 <= i < |r| ensures lo <= r[i].phase <= lo + 2 {
      assert r[i] in xs;
    }
  }
}
