/** The consensus state that every connected block updates: the rank table and the number of
    blocks by the same formulator. */
module ConsensusState {
  import opened Basics
  import opened Ranks
  import opened RankTables
  import opened Rotation

  /** A formulator account touched by the block: created in it or not, active or revoked, and the
      key hash it generates with. */
  datatype Change = Change(address: Address, isNew: bool, activated: bool, generatorHash: nat)

  datatype Tables = Tables(xs: seq<Entry>, error: TableError)

  function AddTo(xs: seq<Entry>, e: Entry): Tables {
    if xs != [] && e.phase < xs[0].phase then Tables(xs, InvalidPhase)
    else if Holds(xs, e.address) then Tables(xs, ExistAddress)
    else Tables(Insert(xs, e), Ok)
  }

  predicate Holds(xs: seq<Entry>, a: Address) {
    xs != [] && (xs[0].address == a || Holds(xs[1..], a))
  }

  function KeyOf(xs: seq<Entry>, a: Address): nat
    requires Holds(xs, a)
  {
    if xs[0].address == a then xs[0].publicHash else KeyOf(xs[1..], a)
  }

  function ApplyChange(xs: seq<Entry>, phase: nat, c: Change, word: Address -> nat): Tables {
    var e := Entry(c.address, c.generatorHash, phase, word(c.address));
    if c.isNew then (if c.activated then AddTo(xs, e) else Tables(xs, Ok))
    else if Holds(xs, c.address) then
      if !c.activated then Tables(Remove(xs, c.address), Ok)
      else if KeyOf(xs, c.address) != c.generatorHash then AddTo(Remove(xs, c.address), e)
      else Tables(xs, Ok)
    else if c.activated then AddTo(xs, e)
    else Tables(xs, Ok)
  }

  function ApplyChanges(xs: seq<Entry>, phase: nat, cs: seq<Change>, word: Address -> nat): Tables
    decreases |cs|
  {
    if cs == [] then Tables(xs, Ok)
    else
      var r := ApplyChange(xs, phase, cs[0], word);
      if r.error != Ok then r else ApplyChanges(r.xs, phase, cs[1..], word)
  }

  function RemoveAll(xs: seq<Entry>, addrs: seq<Address>): seq<Entry>
    decreases |addrs|
  {
    if addrs == [] then xs else RemoveAll(Remove(xs, addrs[0]), addrs[1..])
  }

  function NewPhase(xs: seq<Entry>): nat { ((if xs == [] then 0 else xs[0].phase) + 2) % U32 }

  function UpdateList(xs: seq<Entry>, cs: seq<Change>, deleted: seq<Address>, word: Address -> nat): Tables {
    var r := ApplyChanges(xs, NewPhase(xs), cs, word);
    if r.error != Ok then r
    else
      var ys := RemoveAll(r.xs, deleted);
      Tables(ys, if ys == [] then InsufficientCandidateCount else Ok)
  }

  // Proofs about one pass.

  lemma {:induction false} HoldsIff(xs: seq<Entry>, a: Address)
    ensures Holds(xs, a) <==> HasAddress(xs, a)
  {
    if xs != [] {
      HoldsIff(xs[1..], a);
      if HasAddress(xs[1..], a) {
        var i :| 0 <= i < |xs[1..]| && xs[1..][i].address == a;
        assert xs[i + 1].address == a;
      }
      if HasAddress(xs, a) && xs[0].address != a {
        var i :| 0 <= i < |xs| && xs[i].address == a;
        assert xs[1..][i - 1].address == a;
      }
    }
  }

  // During a pass every phase stays within two of where the pass started.
  ghost predicate PassInv(xs: seq<Entry>, lo: nat) { Sorted(xs) && Unique(xs) && Within(xs, lo) }

  lemma AddKeepsPass(xs: seq<Entry>, e: Entry, lo: nat)
    requires PassInv(xs, lo) && e.phase == lo + 2
    ensures AddTo(xs, e).error != InvalidPhase && PassInv(AddTo(xs, e).xs, lo)
  {
    HoldsIff(xs, e.address);
    if !Holds(xs, e.address) {
      InsertKeepsOrder(xs, e);
      InsertKeepsWithin(xs, e, lo);
    }
  }

  lemma RemoveKeepsPass(xs: seq<Entry>, a: Address, lo: nat)
    requires PassInv(xs, lo)
    ensures PassInv(Remove(xs, a), lo)
  {
    RemoveOk(xs, a);
    RemoveKeepsWithin(xs, a, lo);
  }

  lemma ChangeKeepsPass(xs: seq<Entry>, c: Change, lo: nat, word: Address -> nat)
    requires PassInv(xs, lo)
    ensures var r := ApplyChange(xs, lo + 2, c, word); r.error != InvalidPhase && PassInv(r.xs, lo)
  {
    var e := Entry(c.address, c.generatorHash, lo + 2, word(c.address));
    AddKeepsPass(xs, e, lo);
    RemoveKeepsPass(xs, c.address, lo);
    AddKeepsPass(Remove(xs, c.address), e, lo);
  }

  lemma {:induction false} ChangesKeepPass(xs: seq<Entry>, cs: seq<Change>, lo: nat, word: Address -> nat)
    requires PassInv(xs, lo)
    ensures var r := ApplyChanges(xs, lo + 2, cs, word); r.error != InvalidPhase && PassInv(r.xs, lo)
    decreases |cs|
  {
    if cs != [] {
      ChangeKeepsPass(xs, cs[0], lo, word);
      var r := ApplyChange(xs, lo + 2, cs[0], word);
      ChangesKeepPass(r.xs, cs[1..], lo, word);
    }
  }

  lemma {:induction false} RemoveAllKeepsPass(xs: seq<Entry>, addrs: seq<Address>, lo: nat)
    requires PassInv(xs, lo)
    ensures PassInv(RemoveAll(xs, addrs), lo)
    decreases |addrs|
  {
    if addrs != [] {
      RemoveKeepsPass(xs, addrs[0], lo);
      RemoveAllKeepsPass(Remove(xs, addrs[0]), addrs[1..], lo);
    }
  }

  /** Updating the list after a block keeps the table invariant and never fails on the phase
      check, even after removals earlier in the same pass. */
  lemma UpdateKeepsInv(xs: seq<Entry>, cs: seq<Change>, deleted: seq<Address>, word: Address -> nat)
    requires TableInv(xs) && (xs != [] ==> xs[0].phase + 2 < U32)
    ensures UpdateList(xs, cs, deleted, word).error != InvalidPhase
    ensures TableInv(UpdateList(xs, cs, deleted, word).xs)
  {
    hide Sorted, Unique, ApplyChanges, RemoveAll;
    var lo := if xs == [] then 0 else xs[0].phase;
    ChangesKeepPass(xs, cs, lo, word);
    var r := ApplyChanges(xs, lo + 2, cs, word);
    RemoveAllKeepsPass(r.xs, deleted, lo);
    WithinFront(UpdateList(xs, cs, deleted, word).xs, lo);
  }

  // Who is ranked after a pass, and with which entry.

  // The entry of an address.
  function EntryOf(xs: seq<Entry>, a: Address): (e: Option<Entry>)
    ensures e.Some? <==> Holds(xs, a)
    ensures e.Some? ==> e.value in xs && e.value.address == a
  {
    if xs == [] then None else if xs[0].address == a then Some(xs[0]) else EntryOf(xs[1..], a)
  }

  lemma {:induction false} KeyOfEntry(xs: seq<Entry>, a: Address)
    requires Holds(xs, a)
    ensures KeyOf(xs, a) == EntryOf(xs, a).value.publicHash
  {
    if xs[0].address != a {
      KeyOfEntry(xs[1..], a);
    }
  }

  lemma {:induction false} EntryConcat(xs: seq<Entry>, ys: seq<Entry>, b: Address)
    ensures EntryOf(xs + ys, b) == if EntryOf(xs, b).Some? then EntryOf(xs, b) else EntryOf(ys, b)
  {
    if xs == [] {
      assert xs + ys == ys;
    } else {
      EntryConcat(xs[1..], ys, b);
      assert (xs + ys)[1..] == xs[1..] + ys;
    }
  }

  lemma InsertEntry(xs: seq<Entry>, e: Entry, b: Address)
    requires !Holds(xs, e.address)
    ensures EntryOf(Insert(xs, e), b) == if b == e.address then Some(e) else EntryOf(xs, b)
  {
    hide Position;
    var k := Position(xs, e);
    assert xs == xs[..k] + xs[k..];
    EntryConcat(xs[..k], xs[k..], b);
    EntryConcat(xs[..k] + [e], xs[k..], b);
    EntryConcat(xs[..k], [e], b);
    OneEntry(e, b);
  }

  lemma OneEntry(e: Entry, b: Address)
    ensures EntryOf([e], b) == if b == e.address then Some(e) else None
  {
    assert [e][1..] == [];
  }

  lemma {:induction false} RemoveEntry(xs: seq<Entry>, a: Address, b: Address)
    ensures EntryOf(Remove(xs, a), b) == if b == a then None else EntryOf(xs, b)
  {
    if xs != [] {
      RemoveEntry(xs[1..], a, b);
      assert ([xs[0]] + Remove(xs[1..], a))[1..] == Remove(xs[1..], a);
    }
  }

  // What a change makes of the entry of its address: an active formulator is ranked, anew unless it was
  // with the same key; a revoked one is not ranked, unless it is new and so was never looked up.
  function Changed(e: Option<Entry>, c: Change, phase: nat, word: Address -> nat): Option<Entry> {
    if c.activated && e.Some? && e.value.publicHash == c.generatorHash then e
    else if c.activated then Some(Entry(c.address, c.generatorHash, phase, word(c.address)))
    else if c.isNew then e
    else None
  }

  lemma ChangeEntry(xs: seq<Entry>, phase: nat, c: Change, word: Address -> nat, b: Address)
    requires ApplyChange(xs, phase, c, word).error == Ok
    ensures EntryOf(ApplyChange(xs, phase, c, word).xs, b)
            == if b == c.address then Changed(EntryOf(xs, b), c, phase, word) else EntryOf(xs, b)
  {
    var e := Entry(c.address, c.generatorHash, phase, word(c.address));
    if Holds(xs, c.address) { KeyOfEntry(xs, c.address); }
    RemoveEntry(xs, c.address, b);
    RemoveEntry(xs, c.address, c.address);
    if !Holds(xs, e.address) { InsertEntry(xs, e, b); }
    InsertEntry(Remove(xs, c.address), e, b);
  }

  // The change of an address, if there is one.
  function ChangeOf(cs: seq<Change>, a: Address): (c: Option<Change>)
    ensures c.Some? ==> c.value in cs && c.value.address == a
    ensures c.None? ==> forall i :: 0 <= i < |cs| ==> cs[i].address != a
  {
    if cs == [] then None else if cs[0].address == a then Some(cs[0]) else ChangeOf(cs[1..], a)
  }

  ghost predicate OncePerAddress(cs: seq<Change>) {
    forall i, j :: 0 <= i < j < |cs| ==> cs[i].address != cs[j].address
  }

  lemma {:induction false} ChangesEntry(xs: seq<Entry>, phase: nat, cs: seq<Change>, word: Address -> nat, b: Address)
    requires OncePerAddress(cs) && ApplyChanges(xs, phase, cs, word).error == Ok
    ensures EntryOf(ApplyChanges(xs, phase, cs, word).xs, b)
            == match ChangeOf(cs, b)
               case None => EntryOf(xs, b)
               case Some(c) => Changed(EntryOf(xs, b), c, phase, word)
    decreases |cs|
  {
    hide ApplyChange, Changed;
    if cs != [] {
      ChangeEntry(xs, phase, cs[0], word, b);
      ChangesEntry(ApplyChange(xs, phase, cs[0], word).xs, phase, cs[1..], word, b);
      if cs[0].address == b {
        assert forall i :: 0 <= i < |cs[1..]| ==> cs[1..][i].address != b;
        assert ChangeOf(cs[1..], b).None?;
      }
    }
  }

  lemma {:induction false} RemoveAllEntry(xs: seq<Entry>, addrs: seq<Address>, b: Address)
    ensures EntryOf(RemoveAll(xs, addrs), b) == if b in addrs then None else EntryOf(xs, b)
    decreases |addrs|
  {
    if addrs != [] {
      RemoveEntry(xs, addrs[0], b);
      RemoveAllEntry(Remove(xs, addrs[0]), addrs[1..], b);
    }
  }

  lemma {:induction false} ChangeErrors(xs: seq<Entry>, phase: nat, cs: seq<Change>, word: Address -> nat)
    ensures ApplyChanges(xs, phase, cs, word).error in {Ok, InvalidPhase, ExistAddress}
    decreases |cs|
  {
    if cs != [] {
      ChangeErrors(ApplyChange(xs, phase, cs[0], word).xs, phase, cs[1..], word);
    }
  }

  lemma {:induction false} ChangesFail(xs: seq<Entry>, lo: nat, cs: seq<Change>, word: Address -> nat)
    requires OncePerAddress(cs) && PassInv(xs, lo)
    ensures ApplyChanges(xs, lo + 2, cs, word).error != Ok <==>
            exists i :: 0 <= i < |cs| && cs[i].isNew && cs[i].activated && Holds(xs, cs[i].address)
    decreases |cs|
  {
    hide PassInv;
    if cs != [] {
      var c, r := cs[0], ApplyChange(xs, lo + 2, cs[0], word);
      ChangeKeepsPass(xs, c, lo, word);
      RemoveEntry(xs, c.address, c.address);
      if r.error == Ok {
        forall i | 0 < i < |cs| ensures Holds(r.xs, cs[i].address) <==> Holds(xs, cs[i].address) {
          ChangeEntry(xs, lo + 2, c, word, cs[i].address);
        }
        ChangesFail(r.xs, lo, cs[1..], word);
        assert forall i :: 0 < i < |cs| ==> cs[i] == cs[1..][i - 1];
      }
    }
  }

  /** In a valid table a pass stops early exactly when a formulator created in the block is active and ranked
      already; otherwise it reaches its end, with an error exactly when nobody is left. */
  lemma PassEnds(xs: seq<Entry>, cs: seq<Change>, deleted: seq<Address>, word: Address -> nat)
    requires OncePerAddress(cs) && TableInv(xs) && (xs != [] ==> xs[0].phase + 2 < U32)
    ensures var r := UpdateList(xs, cs, deleted, word);
            && (r.error == ExistAddress <==>
                  exists i :: 0 <= i < |cs| && cs[i].isNew && cs[i].activated && Holds(xs, cs[i].address))
            && (r.error != ExistAddress ==> Finished(r) && (r.error == Ok <==> r.xs != []))
  {
    hide ApplyChanges, RemoveAll;
    var lo := if xs == [] then 0 else xs[0].phase;
    ChangesFail(xs, lo, cs, word);
    ChangesKeepPass(xs, cs, lo, word);
    ChangeErrors(xs, lo + 2, cs, word);
  }

  // The pass reached its end.
  predicate Finished(t: Tables) { t.error == Ok || t.error == InsufficientCandidateCount }

  /** After a pass over changes of distinct addresses that reaches its end, an address is ranked if and only
      if it is not deleted, and its change is active, or it was ranked and has no change or one that is new
      and revoked. */
  lemma RankedAfter(xs: seq<Entry>, cs: seq<Change>, deleted: seq<Address>, word: Address -> nat, a: Address)
    requires OncePerAddress(cs) && Finished(UpdateList(xs, cs, deleted, word))
    ensures Holds(UpdateList(xs, cs, deleted, word).xs, a) <==>
            && a !in deleted
            && (|| (exists i :: 0 <= i < |cs| && cs[i].address == a && cs[i].activated)
                || (Holds(xs, a)
                    && forall i :: 0 <= i < |cs| && cs[i].address == a ==> cs[i].isNew && !cs[i].activated))
  {
    hide ApplyChanges, RemoveAll;
    EntryAfter(xs, cs, deleted, word, a);
    if ChangeOf(cs, a).Some? {
      var i :| 0 <= i < |cs| && cs[i] == ChangeOf(cs, a).value;
      assert forall j :: 0 <= j < |cs| && cs[j].address == a ==> j == i;
    }
  }

  // After a pass, a is ranked if and only if it is not deleted, and its change is active, or it was ranked and has no
  // change or one that is new and revoked. If its change is active and it was not ranked with the same key before, it
  // has the change's key, the front's phase plus two and its own hash word; otherwise the very entry it had.
  ghost predicate RankedNow(xs: seq<Entry>, ys: seq<Entry>, cs: seq<Change>, deleted: seq<Address>,
                            word: Address -> nat, a: Address) {
    var before, after, c := EntryOf(xs, a), EntryOf(ys, a), ChangeOf(cs, a);
    && (after.Some? ==>
          if c.Some? && c.value.activated && (before.None? || before.value.publicHash != c.value.generatorHash)
          then
            var front := if xs == [] then 0 else xs[0].phase;
            after == Some(Entry(a, c.value.generatorHash, (front + 2) % U32, word(a)))
          else after == before)
    && (after.Some? <==> a !in deleted && if c.None? then before.Some?
                                          else c.value.activated || (c.value.isNew && before.Some?))
  }

  /** Which addresses are ranked after a pass that reaches its end, and with which entry. */
  lemma EntryAfter(xs: seq<Entry>, cs: seq<Change>, deleted: seq<Address>, word: Address -> nat, a: Address)
    requires OncePerAddress(cs) && Finished(UpdateList(xs, cs, deleted, word))
    ensures RankedNow(xs, UpdateList(xs, cs, deleted, word).xs, cs, deleted, word, a)
  {
    hide ApplyChanges, RemoveAll, EntryOf;
    ChangeErrors(xs, NewPhase(xs), cs, word);
    ChangesEntry(xs, NewPhase(xs), cs, word, a);
    RemoveAllEntry(ApplyChanges(xs, NewPhase(xs), cs, word).xs, deleted, a);
  }

  // Connected blocks.

  datatype Save = Save(turn: BlockTurn, changes: seq<Change>, deleted: seq<Address>)

  datatype State = State(xs: seq<Entry>, same: nat, error: TableError)

  // What saving one block does to the consensus state. Ending a turn without candidates is an index panic.
  function SaveBlock(s: State, max: nat, b: Save, word: Address -> nat): State {
    if b.turn.timeoutCount >= |s.xs| && b.turn.timeoutCount > 0 then s.(error := ExceedCandidateCount)
    else if s.xs == [] && s.same + 1 >= max then State([], s.same + 1, Panic)
    else if s.xs == [] then
      var r := UpdateList([], b.changes, b.deleted, word);
      State(r.xs, s.same + 1, r.error)
    else
      var r := UpdateList(Run(s.xs, BlockSteps(s.same, max, b.turn)), b.changes, b.deleted, word);
      State(r.xs, NextSame(s.same, max, b.turn), r.error)
  }

  /** A block with as many timeouts as there are candidates, or more, changes nothing. A turn that ends without
      candidates panics. Every other block counts as one of its formulator's, the first one if there were
      timeouts, and the `max`th of a turn ends it; its changes apply to the rotated table. */
  lemma SavedExactly(s: State, max: nat, b: Save, word: Address -> nat)
    ensures var t := SaveBlock(s, max, b, word);
            var late := b.turn.timeoutCount;
            var count := if late > 0 then 1 else s.same + 1;
            if late > 0 && late >= |s.xs| then t == State(s.xs, s.same, ExceedCandidateCount)
            else if s.xs == [] && count >= max then t == State([], count, Panic)
            else
              && t.same == (if count >= max then 0 else count)
              && t.error != ExceedCandidateCount && t.error != Panic
              && var xs := if s.xs == [] then [] else Run(s.xs, BlockSteps(s.same, max, b.turn));
                 Tables(t.xs, t.error) == UpdateList(xs, b.changes, b.deleted, word)
  {
    hide UpdateList, Run, BlockSteps;
    UpdateErrors(if s.xs == [] then [] else Run(s.xs, BlockSteps(s.same, max, b.turn)), b.changes, b.deleted, word);
  }

  lemma UpdateErrors(xs: seq<Entry>, cs: seq<Change>, deleted: seq<Address>, word: Address -> nat)
    ensures UpdateList(xs, cs, deleted, word).error in {Ok, InvalidPhase, ExistAddress, InsufficientCandidateCount}
  {
    hide ApplyChanges;
    ChangeErrors(xs, NewPhase(xs), cs, word);
  }

  // No phase counter wraps while the steps are taken.
  ghost predicate NoWrap(xs: seq<Entry>, steps: seq<Step>)
    requires xs != []
    decreases |steps|
  {
    xs[0].phase + 2 < U32 && (steps != [] ==> NoWrap(Forward(xs, steps[0]), steps[1..]))
  }

  lemma {:induction false} RunKeepsInv(xs: seq<Entry>, steps: seq<Step>)
    requires TableInv(xs) && xs != [] && NoWrap(xs, steps)
    ensures TableInv(Run(xs, steps)) && Run(xs, steps)[0].phase + 2 < U32
    decreases |steps|
  {
    if steps != [] {
      ForwardKeepsInv(xs, steps[0]);
      RunKeepsInv(Forward(xs, steps[0]), steps[1..]);
    }
  }

  lemma {:induction false} RunConcat(xs: seq<Entry>, a: seq<Step>, b: seq<Step>)
    requires xs != []
    ensures Run(xs, a + b) == Run(Run(xs, a), b)
    decreases |a|
  {
    hide Forward;
    if a == [] {
      assert a + b == b;
    } else {
      RunConcat(Forward(xs, a[0]), a[1..], b);
      assert (a + b)[1..] == a[1..] + b;
    }
  }

  lemma SaveKeepsInv(s: State, max: nat, b: Save, word: Address -> nat)
    requires TableInv(s.xs) && (s.xs != [] ==> NoWrap(s.xs, BlockSteps(s.same, max, b.turn)))
    ensures TableInv(SaveBlock(s, max, b, word).xs)
    ensures s.error != InvalidPhase ==> SaveBlock(s, max, b, word).error != InvalidPhase
  {
    if s.xs == [] {
      UpdateKeepsInv([], b.changes, b.deleted, word);
    } else {
      var ys := Run(s.xs, BlockSteps(s.same, max, b.turn));
      RunKeepsInv(s.xs, BlockSteps(s.same, max, b.turn));
      UpdateKeepsInv(ys, b.changes, b.deleted, word);
    }
  }

  function SaveAll(s: State, max: nat, bs: seq<Save>, word: Address -> nat): State
    decreases |bs|
  {
    if bs == [] || s.error != Ok then s else SaveAll(SaveBlock(s, max, bs[0], word), max, bs[1..], word)
  }

  ghost predicate NeverWraps(s: State, max: nat, bs: seq<Save>, word: Address -> nat)
    decreases |bs|
  {
    bs == [] || s.error != Ok
    || (&& (s.xs != [] ==> NoWrap(s.xs, BlockSteps(s.same, max, bs[0].turn)))
        && NeverWraps(SaveBlock(s, max, bs[0], word), max, bs[1..], word))
  }

  /** In every chain of blocks the table stays strictly sorted with one entry per address and all
      phases within two of the front's, and no block fails with an invalid phase. */
  lemma {:induction false} ChainKeepsInv(s: State, max: nat, bs: seq<Save>, word: Address -> nat)
    requires TableInv(s.xs) && s.error != InvalidPhase && NeverWraps(s, max, bs, word)
    ensures TableInv(SaveAll(s, max, bs, word).xs) && SaveAll(s, max, bs, word).error != InvalidPhase
    decreases |bs|
  {
    if !(bs == [] || s.error != Ok) {
      SaveKeepsInv(s, max, bs[0], word);
      ChainKeepsInv(SaveBlock(s, max, bs[0], word), max, bs[1..], word);
    }
  }

  // Waiting over saved blocks.

  // None of the blocks fails, and none changes who is ranked.
  ghost predicate SameMembers(s: State, max: nat, bs: seq<Save>, word: Address -> nat)
    requires s.xs != []
    decreases |bs|
  {
    bs != [] ==>
      var b := bs[0]; var ys := Run(s.xs, BlockSteps(s.same, max, b.turn));
      && b.turn.timeoutCount < |s.xs| && UpdateList(ys, b.changes, b.deleted, word) == Tables(ys, Ok)
      && SameMembers(SaveBlock(s, max, b, word), max, bs[1..], word)
  }

  // A change that leaves the table alone: a ranked formulator with its key, or an unranked one that is revoked.
  predicate NothingToDo(xs: seq<Entry>, c: Change) {
    if Holds(xs, c.address) then !c.isNew && c.activated && KeyOf(xs, c.address) == c.generatorHash else !c.activated
  }

  lemma {:induction false} NothingDone(xs: seq<Entry>, cs: seq<Change>, word: Address -> nat)
    requires xs != [] && forall i :: 0 <= i < |cs| ==> NothingToDo(xs, cs[i])
    ensures UpdateList(xs, cs, [], word) == Tables(xs, Ok)
    decreases |cs|
  {
    if cs != [] {
      assert NothingToDo(xs, cs[0]);
      NothingDone(xs, cs[1..], word);
    }
  }

  function Turns(bs: seq<Save>): (ts: seq<BlockTurn>)
    ensures |ts| == |bs|
  {
    if bs == [] then [] else [bs[0].turn] + Turns(bs[1..])
  }

  lemma SavedStep(s: State, max: nat, bs: seq<Save>, word: Address -> nat)
    requires s.xs != [] && s.error == Ok && bs != [] && SameMembers(s, max, bs, word)
    ensures var t := SaveBlock(s, max, bs[0], word); var steps := BlockSteps(s.same, max, bs[0].turn);
            && t == State(Run(s.xs, steps), NextSame(s.same, max, bs[0].turn), Ok)
            && SaveAll(s, max, bs, word) == SaveAll(t, max, bs[1..], word) && SameMembers(t, max, bs[1..], word)
            && ChainSteps(s.same, max, Turns(bs)) == steps + ChainSteps(t.same, max, Turns(bs[1..]))
            && forall rest :: Run(s.xs, steps + rest) == Run(t.xs, rest)
  {
    hide Run, BlockSteps, UpdateList;
    assert Turns(bs)[1..] == Turns(bs[1..]);
    var steps := BlockSteps(s.same, max, bs[0].turn);
    forall rest ensures Run(s.xs, steps + rest) == Run(Run(s.xs, steps), rest) {
      RunConcat(s.xs, steps, rest);
    }
  }

  /** Saving blocks with fixed membership is running their steps. */
  lemma {:induction false} SaveAllIsRun(s: State, max: nat, bs: seq<Save>, word: Address -> nat)
    requires s.xs != [] && s.error == Ok && SameMembers(s, max, bs, word)
    ensures SaveAll(s, max, bs, word).error == Ok
    ensures SaveAll(s, max, bs, word).xs == Run(s.xs, ChainSteps(s.same, max, Turns(bs)))
    decreases |bs|
  {
    hide SaveBlock, BlockSteps;
    if bs != [] {
      SavedStep(s, max, bs, word);
      SaveAllIsRun(SaveBlock(s, max, bs[0], word), max, bs[1..], word);
    }
  }

  lemma NoSteps(xs: seq<Entry>, same: nat, max: nat)
    requires xs != []
    ensures ChainSteps(same, max, Turns([])) == [] && Run(xs, []) == xs
  {
  }

  // `e` is in front after the first i steps of block j, or after all blocks.
  ghost predicate FrontDuring(s: State, max: nat, bs: seq<Save>, word: Address -> nat, j: nat, i: nat, e: Entry)
    requires j <= |bs|
  {
    var t := SaveAll(s, max, bs[..j], word);
    && t.xs != [] && t.error == Ok
    && if j == |bs| then t.xs[0] == e
       else i <= |BlockSteps(t.same, max, bs[j].turn)| && Run(t.xs, BlockSteps(t.same, max, bs[j].turn)[..i])[0] == e
  }

  // A position among the steps of the chain is a position within the steps of one block.
  lemma {:induction false} StepInBlock(s: State, max: nat, bs: seq<Save>, word: Address -> nat, n: nat)
    returns (j: nat, i: nat)
    requires s.xs != [] && s.error == Ok && SameMembers(s, max, bs, word)
    requires n <= |ChainSteps(s.same, max, Turns(bs))|
    ensures j <= |bs|
    ensures FrontDuring(s, max, bs, word, j, i, Run(s.xs, ChainSteps(s.same, max, Turns(bs))[..n])[0])
    decreases |bs|
  {
    hide BlockSteps, UpdateList, SaveBlock, Run, ChainSteps, SameMembers;
    var all := ChainSteps(s.same, max, Turns(bs));
    NoSteps(s.xs, s.same, max);
    if bs == [] {
      assert all[..n] == [] && bs[..0] == [];
      return 0, 0;
    }
    SavedStep(s, max, bs, word);
    var t, steps := SaveBlock(s, max, bs[0], word), BlockSteps(s.same, max, bs[0].turn);
    if n <= |steps| {
      assert all[..n] == steps[..n] && bs[..0] == [];
      return 0, n;
    }
    var rest := ChainSteps(t.same, max, Turns(bs[1..]));
    assert all[..n] == steps + rest[..n - |steps|];
    j, i := StepInBlock(t, max, bs[1..], word, n - |steps|);
    assert bs[..j + 1][0] == bs[0] && bs[..j + 1][1..] == bs[1..][..j];
    j := j + 1;
  }

  /** Bounded waiting over saved blocks: while membership is fixed, every one of n candidates stands in
      front during the first 3(n-1) * maxBlocksPerFormulator saves. */
  lemma BoundedWaitingInSaves(s: State, max: nat, bs: seq<Save>, word: Address -> nat, k: nat)
    returns (j: nat, i: nat)
    requires TableInv(s.xs) && k < |s.xs| && s.xs[k].phase + 2 < U32 && s.error == Ok && s.same < max
    requires |bs| >= 3 * (|s.xs| - 1) * max && SameMembers(s, max, bs, word)
    ensures j <= |bs| && FrontDuring(s, max, bs, word, j, i, s.xs[k])
  {
    hide TableInv, Run, ChainSteps, SameMembers, FrontDuring;
    var n := BoundedWaitingInBlocks(s.xs, s.same, max, Turns(bs), k);
    j, i := StepInBlock(s, max, bs, word, n);
  }

  class Consensus {
    const maxBlocks: nat
    const word: Address -> nat     // the hash word of an address
    const rt: RankTable
    var sameBlocks: nat

    constructor (maxBlocks: nat, word: Address -> nat)
      ensures this.maxBlocks == maxBlocks && this.word == word && sameBlocks == 0
      ensures fresh(rt) && rt.Valid() && rt.Values() == []
    {
      this.maxBlocks := maxBlocks;
      this.word := word;
      rt := new RankTable();
      sameBlocks := 0;
    }

    method UpdateFormulatorList(changes: seq<Change>, deleted: seq<Address>) returns (r: TableError)
      requires rt.Valid()
      modifies rt
      ensures rt.Valid()
      ensures Tables(rt.Values(), r) == UpdateList(old(rt.Values()), changes, deleted, word)
      ensures OncePerAddress(changes) && (r == Ok || r == InsufficientCandidateCount) ==>
                forall a: Address :: RankedNow(old(rt.Values()), rt.Values(), changes, deleted, word, a)
    {
      hide UpdateList, RankedNow, OncePerAddress;
      r := ListPass(changes, deleted);
      if OncePerAddress(changes) && (r == Ok || r == InsufficientCandidateCount) {
        forall a: Address ensures RankedNow(old(rt.Values()), rt.Values(), changes, deleted, word, a) {
          EntryAfter(old(rt.Values()), changes, deleted, word, a);
        }
      }
    }

    method ListPass(changes: seq<Change>, deleted: seq<Address>) returns (r: TableError)
      requires rt.Valid()
      modifies rt
      ensures rt.Valid()
      ensures Tables(rt.Values(), r) == UpdateList(old(rt.Values()), changes, deleted, word)
    {
      hide ApplyChange, Remove, Sorted, Unique, Indexes, AllValid;
      var p := rt.SmallestPhase();
      var phase := (p + 2) % U32;
      var i := 0;
      while i < |changes|
        invariant 0 <= i <= |changes|
        invariant rt.Valid()
        invariant ApplyChanges(rt.Values(), phase, changes[i..], word)
                  == ApplyChanges(old(rt.Values()), phase, changes, word)
      {
        assert changes[i..][1..] == changes[i + 1..];
        r := HandleChange(phase, changes[i]);
        if r != Ok { return; }
        i := i + 1;
      }
      ghost var ys := rt.Values();
      i := 0;
      while i < |deleted|
        invariant 0 <= i <= |deleted|
        invariant rt.Valid()
        invariant RemoveAll(rt.Values(), deleted[i..]) == RemoveAll(ys, deleted)
      {
        assert deleted[i..][1..] == deleted[i + 1..];
        rt.RemoveRank(deleted[i]);
        i := i + 1;
      }
      if |rt.candidates| == 0 { return InsufficientCandidateCount; }
      return Ok;
    }

    method HandleChange(phase: nat, c: Change) returns (r: TableError)
      requires rt.Valid() && phase < U32
      modifies rt
      ensures rt.Valid()
      ensures Tables(rt.Values(), r) == ApplyChange(old(rt.Values()), phase, c, word)
    {
      IndexIsHolds(rt, c.address);
      if c.isNew {
        if !c.activated { return Ok; }
        r := AddNew(phase, c);
      } else if c.address in rt.rankMap {
        if !c.activated {
          rt.RemoveRank(c.address);
          return Ok;
        }
        if rt.rankMap[c.address].publicHash != c.generatorHash {
          rt.RemoveRank(c.address);
          r := AddNew(phase, c);
        } else {
          return Ok;
        }
      } else {
        if !c.activated { return Ok; }
        r := AddNew(phase, c);
      }
    }

    method AddNew(phase: nat, c: Change) returns (r: TableError)
      requires rt.Valid() && phase < U32
      modifies rt
      ensures rt.Valid()
      ensures Tables(rt.Values(), r)
              == AddTo(old(rt.Values()), Entry(c.address, c.generatorHash, phase, word(c.address)))
    {
      IndexIsHolds(rt, c.address);
      var s := new Rank(c.address, c.generatorHash, phase, word(c.address));
      r := rt.AddRank(s);
    }

    /** Called when a block is saved: rotate for its timeouts, count it, end the turn of a
        formulator that is done, and update the candidates. */
    method OnSaveData(turn: BlockTurn, changes: seq<Change>, deleted: seq<Address>) returns (r: TableError)
      requires rt.Valid()
      modifies this, rt, rt.candidates
      ensures rt.Valid()
      ensures State(rt.Values(), sameBlocks, r)
           == SaveBlock(State(old(rt.Values()), old(sameBlocks), Ok), maxBlocks, Save(turn, changes, deleted), word)
    {
      hide UpdateList, Run, BlockSteps, Sorted, Unique, Indexes, AllValid;
      if |rt.candidates| == 0 {   // there is no front to move
        if turn.timeoutCount > 0 { return ExceedCandidateCount; }
        sameBlocks := sameBlocks + 1;
        if sameBlocks >= maxBlocks { return Panic; }
        r := UpdateFormulatorList(changes, deleted);
        return;
      }
      r := Rotate(turn);
      if r != Ok { return; }
      r := UpdateFormulatorList(changes, deleted);
    }

    // The rotation part of OnSaveData.
    method Rotate(turn: BlockTurn) returns (r: TableError)
      requires rt.Valid() && rt.candidates != []
      modifies this, rt, rt.candidates
      ensures rt.Valid()
      ensures r == if turn.timeoutCount > 0 && turn.timeoutCount >= |old(rt.Values())| then ExceedCandidateCount else Ok
      ensures r != Ok ==> rt.Values() == old(rt.Values()) && sameBlocks == old(sameBlocks)
      ensures r == Ok ==> rt.Values() == Run(old(rt.Values()), BlockSteps(old(sameBlocks), maxBlocks, turn))
      ensures r == Ok ==> sameBlocks == NextSame(old(sameBlocks), maxBlocks, turn)
    {
      hide *;
      StepsDone(rt.Values(), sameBlocks, maxBlocks, turn);
      r := SkipTimeouts(turn.timeoutCount);
      if r != Ok { return; }
      assert forall i :: 0 <= i < |rt.candidates| ==> rt.candidates[i] in old(rt.candidates);
      EndTurn(turn.hash);
    }

    method SkipTimeouts(timeoutCount: nat) returns (r: TableError)
      requires rt.Valid() && rt.candidates != []
      modifies this`sameBlocks, rt`candidates, rt.candidates
      ensures rt.Valid() && forall x :: x in rt.candidates <==> x in old(rt.candidates)
      ensures r == if timeoutCount > 0 && timeoutCount >= |old(rt.Values())| then ExceedCandidateCount else Ok
      ensures r != Ok ==> rt.Values() == old(rt.Values()) && sameBlocks == old(sameBlocks)
      ensures r == Ok ==>
                var xs := old(rt.Values());
                rt.Values() == if timeoutCount > 0 then Run(xs, Timeouts(timeoutCount)) else xs
      ensures r == Ok ==> sameBlocks == if timeoutCount > 0 then 0 else old(sameBlocks)
    {
      hide *;
      if timeoutCount == 0 { return Ok; }
      r := rt.ForwardCandidates(timeoutCount);
      if r == Ok { sameBlocks := 0; }
    }

    method EndTurn(hash: nat)
      requires rt.Valid() && rt.candidates != []
      modifies this, rt, rt.candidates
      ensures rt.Valid()
      ensures var xs := old(rt.Values());
              rt.Values() == if old(sameBlocks) + 1 >= maxBlocks then Forward(xs, Turn(hash)) else xs
      ensures sameBlocks == if old(sameBlocks) + 1 >= maxBlocks then 0 else old(sameBlocks) + 1
    {
      hide Forward, Sorted, Unique, Indexes, AllValid;
      sameBlocks := sameBlocks + 1;
      if sameBlocks >= maxBlocks {
        rt.ForwardTop(hash);
        sameBlocks := 0;
      }
    }
  }

  lemma StepsDone(xs: seq<Entry>, same: nat, max: nat, b: BlockTurn)
    requires xs != []
    ensures var ys := Run(xs, Timeouts(b.timeoutCount));
            Run(xs, BlockSteps(same, max, b))
            == if (if b.timeoutCount > 0 then 0 else same) + 1 >= max then Forward(ys, Turn(b.hash)) else ys
    ensures b.timeoutCount == 0 ==> Run(xs, Timeouts(b.timeoutCount)) == xs
    ensures var counted := (if b.timeoutCount > 0 then 0 else same) + 1;
            NextSame(same, max, b) == if counted >= max then 0 else counted
  {
    var ys := Run(xs, Timeouts(b.timeoutCount));
    var turn := BlockSteps(same, max, b)[b.timeoutCount..];
    assert BlockSteps(same, max, b) == Timeouts(b.timeoutCount) + turn;
    RunConcat(xs, Timeouts(b.timeoutCount), turn);
    if turn != [] {
      assert turn == [Turn(b.hash)] && turn[1..] == [];
      assert Run(ys, turn) == Run(Forward(ys, Turn(b.hash)), []);
    }
  }

  // The index answers membership and gives the right key.
  lemma IndexIsHolds(rt: RankTable, a: Address)
    requires rt.Valid()
    ensures a in rt.rankMap <==> Holds(rt.Values(), a)
    ensures a in rt.rankMap ==> rt.rankMap[a].publicHash == KeyOf(rt.Values(), a)
  {
    HoldsIff(rt.Values(), a);
    if a in rt.rankMap {
      var i :| 0 <= i < |rt.candidates| && rt.candidates[i] == rt.rankMap[a];
      assert rt.Values()[i].address == a;
      KeyIs(rt.Values(), a, i);
    }
  }

  lemma {:induction false} KeyIs(xs: seq<Entry>, a: Address, i: nat)
    requires Unique(xs) && i < |xs| && xs[i].address == a
    ensures Holds(xs, a) && KeyOf(xs, a) == xs[i].publicHash
  {
    if i > 0 {
      KeyIs(xs[1..], a, i - 1);
    }
  }
}
