/** What rotating the rank table guarantees: who stands in front after timeouts, and how long a
    candidate can wait. */
module Rotation {
  import opened Basics
  import opened Ranks

  // Where the entry at index k goes when the front is moved.
  lemma IndexAfter(xs: seq<Entry>, s: Step, k: nat)
    requires Sorted(xs) && Unique(xs) && 0 < k < |xs|
    ensures Less(xs[k], Moved(xs[0], s)) ==> Forward(xs, s)[k - 1] == xs[k] && Forward(xs, s)[..k] == xs[1..k + 1]
    ensures !Less(xs[k], Moved(xs[0], s)) ==> Forward(xs, s)[k] == xs[k]
  {
    var tail, m := xs[1..], Moved(xs[0], s);
    var pos := Position(tail, m);
    assert tail[k - 1] == xs[k];
    if Less(xs[k], m) {
      if pos < k {
        assert Less(m, tail[pos]);
        if pos < k - 1 { LessTrans(m, tail[pos], xs[k]); }
        LessTrans(xs[k], m, xs[k]);
      }
      assert Forward(xs, s)[..k] == tail[..k];
    } else {
      LessTotal(xs[k], m);
    }
  }

  // Fewer steps than entries ahead cannot bring an entry to the front.
  lemma {:induction false} FarFromFront(xs: seq<Entry>, steps: seq<Step>, k: nat)
    requires Sorted(xs) && Unique(xs) && |steps| < k < |xs|
    ensures Run(xs, steps)[0].address != xs[k].address
    decreases |steps|
  {
    if steps != [] {
      IndexAfter(xs, steps[0], k);
      ForwardKeepsOrder(xs, steps[0]);
      var j := if Less(xs[k], Moved(xs[0], steps[0])) then k - 1 else k;
      FarFromFront(Forward(xs, steps[0]), steps[1..], j);
    }
  }

  ghost predicate SkippedSortAfter(xs: seq<Entry>, t: nat)
    requires t < |xs|
  {
    forall i :: 0 <= i < t ==> Less(xs[t], AddPhase(xs[i], 2))
  }

  lemma NobodySkipped(xs: seq<Entry>)
    requires xs != []
    ensures SkippedSortAfter(xs, 0)
  {
  }

  lemma NotSkipped(xs: seq<Entry>, t: nat)
    requires 0 < t < |xs| && SkippedSortAfter(xs, t)
    ensures Less(xs[t], AddPhase(xs[0], 2))
  {
  }

  lemma SkippedShift(xs: seq<Entry>, ys: seq<Entry>, t: nat)
    requires 0 < t < |xs| && |ys| == |xs| && ys[..t] == xs[1..t + 1] && Less(xs[t], AddPhase(xs[0], 2))
    ensures SkippedSortAfter(ys, t - 1) <==> SkippedSortAfter(xs, t)
  {
    assert forall i :: 0 <= i < t ==> ys[..t][i] == ys[i];
    assert forall i :: 0 < i <= t ==> xs[i] == xs[1..t + 1][i - 1];
    assert forall i :: 0 < i <= t ==> xs[i] == ys[i - 1];
    assert forall i :: 0 <= i < t ==> ys[i] == xs[1..t + 1][i];
  }

  /** The generator that validation accepts for timeout count t, `xs[t]`, is the candidate that
      rotation brings to the front exactly when no skipped candidate, raised two phases, still
      sorts before it. */
  lemma {:induction false} RotationMeetsTopRank(xs: seq<Entry>, t: nat)
    requires Sorted(xs) && Unique(xs) && t < |xs|
    ensures Run(xs, Timeouts(t))[0] == xs[t] <==> SkippedSortAfter(xs, t)
    decreases t
  {
    hide Less, AddPhase, Insert, SkippedSortAfter;
    if t == 0 {
      NobodySkipped(xs);
    } else {
      var ys := Forward(xs, Timeout);
      assert Timeouts(t)[1..] == Timeouts(t - 1);
      IndexAfter(xs, Timeout, t);
      ForwardKeepsOrder(xs, Timeout);
      if Less(xs[t], AddPhase(xs[0], 2)) {
        RotationMeetsTopRank(ys, t - 1);
        SkippedShift(xs, ys, t);
      } else {
        FarFromFront(ys, Timeouts(t - 1), t);
        if SkippedSortAfter(xs, t) { NotSkipped(xs, t); }
      }
    }
  }

  /** A candidate whose phase is at most one above the front's always qualifies. */
  lemma CloseCandidateQualifies(xs: seq<Entry>, t: nat)
    requires TableInv(xs) && t < |xs| && xs[t].phase <= xs[0].phase + 1
    requires xs[t].phase + 2 < U32
    ensures SkippedSortAfter(xs, t)
  {
    forall i | 0 <= i < t ensures Less(xs[t], AddPhase(xs[i], 2)) {
      LessPhase(xs[i], xs[t]);
      LessPhase(xs[t], AddPhase(xs[i], 2));
    }
  }

  /** The two can differ: a candidate just added two phases up is accepted after one timeout,
      while the raised front still stands before it. */
  lemma AcceptedButNotRotated()
    ensures var xs := [Entry(1, 0, 0, 0), Entry(2, 0, 2, 5)];
            TableInv(xs) && Run(xs, Timeouts(1))[0].address == 1 && xs[1].address == 2
  {
    var xs := [Entry(1, 0, 0, 0), Entry(2, 0, 2, 5)];
    assert Timeouts(1)[1..] == [];
    assert xs[1..] == [xs[1]];
  }

  // Bounded waiting.

  // How many more times an entry can stand in front of a candidate of phase p.
  function Debt(e: Entry, p: nat): nat { if e.phase <= p then p + 1 - e.phase else 0 }

  function TotalDebt(xs: seq<Entry>, p: nat, a: Address): nat {
    if xs == [] then 0 else (if xs[0].address == a then 0 else Debt(xs[0], p)) + TotalDebt(xs[1..], p, a)
  }

  lemma {:induction false} DebtConcat(xs: seq<Entry>, ys: seq<Entry>, p: nat, a: Address)
    ensures TotalDebt(xs + ys, p, a) == TotalDebt(xs, p, a) + TotalDebt(ys, p, a)
  {
    if xs == [] {
      assert xs + ys == ys;
    } else {
      DebtConcat(xs[1..], ys, p, a);
      assert (xs + ys)[1..] == xs[1..] + ys;
    }
  }

  lemma DebtInsert(xs: seq<Entry>, e: Entry, p: nat, a: Address)
    ensures TotalDebt(Insert(xs, e), p, a) == TotalDebt(xs, p, a) + TotalDebt([e], p, a)
  {
    var k := Position(xs, e);
    DebtConcat(xs[..k], [e], p, a);
    DebtConcat(xs[..k] + [e], xs[k..], p, a);
    DebtConcat(xs[..k], xs[k..], p, a);
    assert xs == xs[..k] + xs[k..];
  }

  lemma {:induction false} DebtAtMost(xs: seq<Entry>, p: nat, a: Address)
    requires forall i :: 0 <= i < |xs| ==> p <= xs[i].phase + 2
    ensures TotalDebt(xs, p, a) <= 3 * |xs|
  {
    if xs != [] {
      DebtAtMost(xs[1..], p, a);
    }
  }

  // In a valid table the others together owe at most three turns each.
  lemma DebtBound(xs: seq<Entry>, k: nat)
    requires TableInv(xs) && k < |xs|
    ensures TotalDebt(xs, xs[k].phase, xs[k].address) <= 3 * (|xs| - 1)
  {
    var p, a := xs[k].phase, xs[k].address;
    DebtAtMost(xs[..k], p, a);
    DebtAtMost(xs[k + 1..], p, a);
    DebtConcat(xs[..k], [xs[k]], p, a);
    DebtConcat(xs[..k] + [xs[k]], xs[k + 1..], p, a);
    assert xs == xs[..k] + [xs[k]] + xs[k + 1..];
  }

  // Each step of another candidate pays one turn of the debt.
  lemma DebtFalls(xs: seq<Entry>, s: Step, k: nat)
    requires Sorted(xs) && Unique(xs) && 0 < k < |xs| && xs[k].phase + 2 < U32
    ensures TotalDebt(Forward(xs, s), xs[k].phase, xs[k].address) < TotalDebt(xs, xs[k].phase, xs[k].address)
  {
    hide Score, Insert, TotalDebt;
    var p, a := xs[k].phase, xs[k].address;
    LessPhase(xs[0], xs[k]);
    DebtHead(xs, p, a);
    DebtHead([Moved(xs[0], s)], p, a);
    DebtInsert(xs[1..], Moved(xs[0], s), p, a);
  }

  lemma DebtHead(xs: seq<Entry>, p: nat, a: Address)
    requires xs != []
    ensures TotalDebt(xs, p, a) == (if xs[0].address == a then 0 else Debt(xs[0], p)) + TotalDebt(xs[1..], p, a)
    ensures |xs| == 1 ==> TotalDebt(xs[1..], p, a) == 0
  {
  }

  lemma {:induction false} Waits(xs: seq<Entry>, steps: seq<Step>, k: nat) returns (i: nat)
    requires Sorted(xs) && Unique(xs) && k < |xs| && xs[k].phase + 2 < U32
    requires TotalDebt(xs, xs[k].phase, xs[k].address) <= |steps|
    ensures i <= TotalDebt(xs, xs[k].phase, xs[k].address)
    ensures Run(xs, steps[..i])[0] == xs[k]
    decreases |steps|
  {
    if k == 0 {
      i := 0;
    } else {
      DebtFalls(xs, steps[0], k);
      IndexAfter(xs, steps[0], k);
      ForwardKeepsOrder(xs, steps[0]);
      var j := if Less(xs[k], Moved(xs[0], steps[0])) then k - 1 else k;
      var rest := Waits(Forward(xs, steps[0]), steps[1..], j);
      i := rest + 1;
      assert steps[..i][1..] == steps[1..][..rest];
    }
  }

  /** Bounded waiting: with fixed membership of n candidates, every candidate stands in front
      after at most 3(n-1) forward steps, whatever mix of timeouts and turns they are. */
  lemma BoundedWaiting(xs: seq<Entry>, steps: seq<Step>, k: nat) returns (i: nat)
    requires TableInv(xs) && k < |xs| && xs[k].phase + 2 < U32
    requires |steps| >= 3 * (|xs| - 1)
    ensures i <= 3 * (|xs| - 1) && Run(xs, steps[..i])[0] == xs[k]
  {
    DebtBound(xs, k);
    i := Waits(xs, steps, k);
  }

  // Connected blocks.

  datatype BlockTurn = BlockTurn(timeoutCount: nat, hash: nat)

  // Blocks by the same formulator so far, after a block.
  function NextSame(same: nat, max: nat, b: BlockTurn): nat {
    var s := (if b.timeoutCount > 0 then 0 else same) + 1;
    if s >= max then 0 else s
  }

  // The forward steps one block causes: its timeouts, and a turn when the formulator is done.
  function BlockSteps(same: nat, max: nat, b: BlockTurn): seq<Step> {
    Timeouts(b.timeoutCount) + (if (if b.timeoutCount > 0 then 0 else same) + 1 >= max then [Turn(b.hash)] else [])
  }

  function ChainSteps(same: nat, max: nat, bs: seq<BlockTurn>): seq<Step>
    decreases |bs|
  {
    if bs == [] then [] else BlockSteps(same, max, bs[0]) + ChainSteps(NextSame(same, max, bs[0]), max, bs[1..])
  }

  lemma ChainStepsIs(same: nat, max: nat, bs: seq<BlockTurn>)
    ensures ChainSteps(same, max, bs)
            == if bs == [] then []
               else BlockSteps(same, max, bs[0]) + ChainSteps(NextSame(same, max, bs[0]), max, bs[1..])
  {
    hide BlockSteps, NextSame;
  }

  lemma FirstBlock(same: nat, max: nat, bs: seq<BlockTurn>)
    requires bs != [] ==> bs[0].timeoutCount == 0
    ensures ChainSteps(same, max, bs) == if bs == [] then []
                                         else if same + 1 >= max then
                                           [Turn(bs[0].hash)] + ChainSteps(0, max, bs[1..])
                                         else ChainSteps(same + 1, max, bs[1..])
  {
    hide ChainSteps;
    ChainStepsIs(same, max, bs);
    assert Timeouts(0) == [];
  }

  /** Without timeouts a turn ends with the formulator's `max`th block, with that block's hash, and the next
      turn starts counting from nothing. */
  lemma {:induction false} TurnEnds(same: nat, max: nat, bs: seq<BlockTurn>)
    requires same < max
    requires forall i :: 0 <= i < |bs| && i < max - same ==> bs[i].timeoutCount == 0
    ensures ChainSteps(same, max, bs) == if |bs| < max - same then []
                                         else [Turn(bs[max - same - 1].hash)] + ChainSteps(0, max, bs[max - same..])
    decreases |bs|
  {
    hide ChainSteps;
    FirstBlock(same, max, bs);
    if bs != [] {
      if same + 1 < max {
        TurnEnds(same + 1, max, bs[1..]);
        if |bs| >= max - same {
          assert bs[1..][max - same - 1..] == bs[max - same..];
        }
      }
    }
  }

  /** Timeouts give the turn away, and the next formulator starts counting from nothing. */
  lemma TimeoutsStartOver(same: nat, max: nat, bs: seq<BlockTurn>)
    requires bs != [] && bs[0].timeoutCount > 0
    ensures ChainSteps(same, max, bs)
            == Timeouts(bs[0].timeoutCount) + ChainSteps(0, max, [bs[0].(timeoutCount := 0)] + bs[1..])
  {
    hide ChainSteps;
    var first := bs[0].(timeoutCount := 0);
    ChainStepsIs(same, max, bs);
    ChainStepsIs(0, max, [first] + bs[1..]);
    assert Timeouts(0) == [];
    assert ([first] + bs[1..])[1..] == bs[1..];
  }

  lemma {:induction false} StepsPerBlocks(same: nat, max: nat, bs: seq<BlockTurn>)
    requires same < max
    ensures |bs| + same <= |ChainSteps(same, max, bs)| * max + max - 1
    decreases |bs|
  {
    if bs != [] {
      var steps := BlockSteps(same, max, bs[0]);
      var next := NextSame(same, max, bs[0]);
      var rest := ChainSteps(next, max, bs[1..]);
      StepsPerBlocks(next, max, bs[1..]);
      assert 1 + same <= |steps| * max + next by {
        if |steps| > 0 { assert |steps| * max >= max; }
      }
      assert (|steps| + |rest|) * max == |steps| * max + |rest| * max;
    }
  }

  lemma EnoughSteps(steps: nat, need: nat, max: nat, blocks: nat)
    requires blocks >= need * max && blocks <= steps * max + max - 1 && max > 0
    ensures steps >= need
  {
    assert steps < need ==> (steps + 1) * max <= need * max;
  }

  /** Hence every candidate stands in front within 3(n-1) * maxBlocksPerFormulator connected blocks. */
  lemma BoundedWaitingInBlocks(xs: seq<Entry>, same: nat, max: nat, bs: seq<BlockTurn>, k: nat) returns (i: nat)
    requires TableInv(xs) && k < |xs| && xs[k].phase + 2 < U32
    requires same < max && |bs| >= 3 * (|xs| - 1) * max
    ensures i <= |ChainSteps(same, max, bs)| && Run(xs, ChainSteps(same, max, bs)[..i])[0] == xs[k]
  {
    hide TableInv, Run, ChainSteps;
    var steps := ChainSteps(same, max, bs);
    StepsPerBlocks(same, max, bs);
    EnoughSteps(|steps|, 3 * (|xs| - 1), max, |bs|);
    i := BoundedWaiting(xs, steps, k);
  }
}
