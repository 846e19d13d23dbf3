/** What round votes, acks and the vote timer lead to: when an observer acks and whom it names, when a turn
    starts and which heights it covers, when a turn goes on, and when an observer gives up. */
module RoundVotes {
  import opened Basics
  import opened VotingTypes
  import opened Leader
  import opened VotingSteps
  import opened RoundInvariant

  // The candidate at this timeout count is the formulator, with this key.
  predicate RankedAt(s: Node, timeoutCount: nat, formulator: Address, key: Key) {
    timeoutCount < |s.ranks| && s.ranks[timeoutCount].address == formulator && s.ranks[timeoutCount].publicHash == key
  }

  // Round votes.

  /** A vote of an observer for the next height of this chain, for the candidate at its timeout count, while
      votes are collected, and later than the one the observer may have sent before. */
  ghost predicate MayVote(p: Params, s: Node, k: Key, v: RoundVote, sig: Signature) {
    && sig.content == RoundVoteContent(v) && sig.signer == k && k in p.keys
    && v.targetHeight == s.round.target && v.chainID == p.chainID && v.lastHash == LastHash(s.chain)
    && RankedAt(s, v.timeoutCount, v.formulator, v.formulatorKey)
    && s.round.state == RoundVoting && (k in s.round.votes ==> v.timestamp > s.round.votes[k].timestamp)
  }

  /** Votes are kept exactly when they may be; the collection ends exactly when n/2+2 observers have voted. */
  lemma VoteKeptExactly(p: Params, s: Node, k: Key, v: RoundVote, sig: Signature, env: Env, o: Outcome)
    requires OnRoundVote(p, s, k, v, sig, env, o)
    ensures o.node.round.votes == if MayVote(p, s, k, v, sig) then s.round.votes[k := v] else s.round.votes
    ensures o.node.round.state
            == if MayVote(p, s, k, v, sig) && |s.round.votes[k := v]| >= |p.keys| / 2 + 2 then RoundAcking
               else s.round.state
    ensures o.node.(round := s.round) == s && o.node.round.target == s.round.target
  {
    hide LockedVoteReply, RoundVoteReply, IsLeast, AckFor;
  }

  // Ordered by timeout count, then by key.
  predicate NotBefore(votes: map<Key, RoundVote>, j: Key, k: Key)
    requires j in votes && k in votes
  {
    votes[k].timeoutCount < votes[j].timeoutCount || (votes[k].timeoutCount == votes[j].timeoutCount && k <= j)
  }

  /** The ack that ends the collection names the voter with the smallest timeout count, and among these the
      smallest key, together with what it voted for; no other acks are sent in answer to a vote. */
  lemma AckNamesLeast(p: Params, s: Node, k: Key, v: RoundVote, sig: Signature, env: Env, o: Outcome)
    requires OnRoundVote(p, s, k, v, sig, env, o)
    ensures var votes := s.round.votes[k := v];
            if MayVote(p, s, k, v, sig) && |votes| >= |p.keys| / 2 + 2 then
              exists l :: && l in votes && (forall j :: j in votes ==> NotBefore(votes, j, l))
                          && SignedAck(s.me, AckFor(votes, l, env.now)) in o.out
                          && AckFor(votes, l, env.now).leader == l
                          && AckFor(votes, l, env.now).timeoutCount == votes[l].timeoutCount
                          && AckFor(votes, l, env.now).formulator == votes[l].formulator
                          && AckFor(votes, l, env.now).formulatorKey == votes[l].formulatorKey
                          && AckFor(votes, l, env.now).lastHash == votes[l].lastHash
            else forall m :: m in o.out ==> !m.RoundVoteAckMessage?
  {
    hide LockedVoteReply, RoundVoteReply;
    RepliesAreVotes(p, s, env);
    RepliesAreVotes(p, s.(round := s.round.(votes := s.round.votes[k := v])), env);
    VoteKeptExactly(p, s, k, v, sig, env, o);
    var votes := s.round.votes[k := v];
    if MayVote(p, s, k, v, sig) && |votes| >= |p.keys| / 2 + 2 {
      var l :| IsLeast(votes, l) && SignedAck(s.me, AckFor(votes, l, env.now)) in o.out;
      assert forall j :: j in votes ==> NotBefore(votes, j, l);
    }
  }

  lemma RepliesAreVotes(p: Params, s: Node, env: Env)
    ensures forall m :: m in RoundVoteReply(p, s, env) ==> m.RoundVoteMessage?
    ensures forall m :: m in LockedVoteReply(s) ==> m.BlockVoteMessage?
  {
    hide TopRankIn, Active;
  }

  // Acks.

  ghost predicate MayAck(p: Params, s: Node, k: Key, a: RoundVoteAck, sig: Signature) {
    && sig.content == RoundVoteAckContent(a) && sig.signer == k && k in p.keys
    && a.targetHeight == s.round.target && a.chainID == p.chainID && a.lastHash == LastHash(s.chain)
    && RankedAt(s, a.timeoutCount, a.formulator, a.formulatorKey)
    && s.round.state == RoundAcking && (k in s.round.acks ==> a.timestamp > s.round.acks[k].timestamp)
  }

  // c was chosen among the acks.
  ghost predicate Agreed(p: Params, acks: Acks, c: RoundVoteAck) {
    && c in acks.Values
    && |TimeoutVoters(acks, acks.Keys, c.timeoutCount)| >= |p.keys| / 2 + 1
    && |LeaderVoters(acks, acks.Keys, c.leader)| >= |p.keys| / 2 + 1
  }

  /** A turn starts only with an ack whose timeout count and whose leader each have the acks of more than half
      of the observers. */
  lemma TurnStartsAgreed(p: Params, s: Node, k: Key, a: RoundVoteAck, sig: Signature, env: Env, order: seq<Key>,
                         o: Outcome)
    requires OnAck(p, s, k, a, sig, env, order, o)
    ensures o.node.round.state != s.round.state ==>
              && MayAck(p, s, k, a, sig) && o.node.round.state == BlockWaiting && o.node.round.minAck.Some?
              && Agreed(p, s.round.acks[k := a], o.node.round.minAck.value)
  {
    hide IsChoice, AckReply, LockedVoteReply, TrimBlocks, TakeWaiting, RemainingBlocks, Agreed;
    if o.node.round.state != s.round.state {
      ChoiceAgreed(p, s.round.acks[k := a], order, o.node.round.minAck.value);
    }
  }

  lemma ChoiceAgreed(p: Params, acks: Acks, order: seq<Key>, c: RoundVoteAck)
    requires IsChoice(acks, order, Quorum(p), Some(c))
    ensures Agreed(p, acks, c)
  {
    var i: nat :| && Ripe(acks, order, i, Quorum(p)) && c == acks[order[i]]
                  && forall j: nat :: j < i ==> !Ripe(acks, order, j, Quorum(p));
    RipeHasQuorums(acks, order, i, Quorum(p));
    InValues(acks, order, i, Quorum(p));
  }

  /** It does start, whatever the order the acks are gone through, once more than half of the observers name one
      timeout count and leader together. */
  lemma AgreedTurnStarts(p: Params, s: Node, k: Key, a: RoundVoteAck, sig: Signature, env: Env, order: seq<Key>,
                         o: Outcome, t: nat, l: Key)
    requires OnAck(p, s, k, a, sig, env, order, o) && MayAck(p, s, k, a, sig)
    requires Enumerates(order, s.round.acks[k := a]) && |PairVoters(s.round.acks[k := a], t, l)| >= |p.keys| / 2 + 1
    ensures o.node.round.state == BlockWaiting
  {
    hide IsChoice, AckReply, LockedVoteReply, TrimBlocks, TakeWaiting, RemainingBlocks, PairVoters, Enumerates;
    var acks := s.round.acks[k := a];
    PairsAmongAcks(acks, order, t, l);
    PairQuorumRipens(acks, order, Quorum(p), t, l, |order|);
  }

  lemma InValues(acks: Acks, order: seq<Key>, i: nat, q: nat)
    requires Ripe(acks, order, i, q)
    ensures order[i] in acks && acks[order[i]] in acks.Values
  {
    assert order[i] in acks.Keys;
  }

  lemma PairsAmongAcks(acks: Acks, order: seq<Key>, t: nat, l: Key)
    requires Enumerates(order, acks)
    ensures PairVoters(acks, t, l) <= Elements(order[..|order|]) && |PairVoters(acks, t, l)| <= |acks|
  {
    assert order[..|order|] == order;
    SubsetSize(PairVoters(acks, t, l), acks.Keys);
    assert |acks.Keys| == |acks|;
  }

  /** A started turn covers exactly the heights of the round below its target plus what is left of the
      formulator's turn: all of maxBlocks after a timeout, and otherwise what it has not generated yet. Locks and
      votes stay, and only blocks of the chosen formulator go on waiting. */
  lemma TurnCovers(p: Params, s: Node, chosen: RoundVoteAck)
    requires chosen.timeoutCount != 0 || s.sameBlocks <= p.maxBlocks
    ensures var r := StartBlocks(p, s, chosen).0;
            var left := if chosen.timeoutCount != 0 then p.maxBlocks else p.maxBlocks - s.sameBlocks;
            && (forall h :: h in r.blocks <==> h in s.round.blocks && h < s.round.target + left)
            && (forall h :: h in r.blocks ==>
                  && r.blocks[h].gen == s.round.blocks[h].gen && r.blocks[h].votes == s.round.blocks[h].votes
                  && r.blocks[h].voteWait == s.round.blocks[h].voteWait
                  && (r.blocks[h].genWait.Some? ==>
                        && r.blocks[h].genWait == s.round.blocks[h].genWait
                        && r.blocks[h].genWait.value.header.generator == chosen.formulator))
            && r.target == s.round.target && r.state == BlockWaiting && r.minAck == Some(chosen)
  {
    hide TrimBlocks, TakeWaiting;
    var end := s.round.target + RemainingBlocks(p, s, chosen);
    TrimmedTo(s.round.blocks, end, chosen.formulator);
    TakenFrom(TrimBlocks(s.round.blocks, end, chosen.formulator), s.round.target);
  }

  // The same lock, votes and waiting votes, and the waiting block or none.
  predicate SameButWaiting(b: BlockRound, b': BlockRound) {
    && b'.gen == b.gen && b'.votes == b.votes && b'.voteWait == b.voteWait
    && (b'.genWait.Some? ==> b'.genWait == b.genWait)
  }

  lemma TrimmedTo(blocks: map<nat, BlockRound>, end: nat, formulator: Address)
    ensures var r := TrimBlocks(blocks, end, formulator);
            && (forall h :: h in r <==> h in blocks && h < end)
            && (forall h :: h in r ==> SameButWaiting(blocks[h], r[h])
                                       && (r[h].genWait.Some? ==> r[h].genWait.value.header.generator == formulator))
  {
  }

  lemma TakenFrom(blocks: map<nat, BlockRound>, h: nat)
    ensures var r := TakeWaiting(blocks, h).0;
            r.Keys == blocks.Keys && forall g :: g in r ==> SameButWaiting(blocks[g], r[g])
  {
  }

  /** In a round that is fresh but for its votes, that are exactly so many heights from the target on. */
  lemma TurnLength(p: Params, s: Node, chosen: RoundVoteAck, h: nat)
    requires chosen.timeoutCount != 0 || s.sameBlocks <= p.maxBlocks
    requires forall g: nat :: g in s.round.blocks <==> s.round.target <= g < s.round.target + p.maxBlocks
    ensures h in StartBlocks(p, s, chosen).0.blocks <==>
            s.round.target <= h < s.round.target + p.maxBlocks - if chosen.timeoutCount != 0 then 0 else s.sameBlocks
  {
    hide StartBlocks;
    TurnCovers(p, s, chosen);
  }

  /** A block that waits at the target is taken up when the turn starts, if the chosen formulator made it. */
  lemma WaitingTaken(p: Params, s: Node, chosen: RoundVoteAck)
    requires chosen.timeoutCount != 0 || s.sameBlocks < p.maxBlocks
    requires p.maxBlocks > 0 && s.round.target in s.round.blocks && s.round.blocks[s.round.target].gen.None?
    ensures var (r, queued) := StartBlocks(p, s, chosen); var waiting := s.round.blocks[s.round.target].genWait;
            && r.blocks[s.round.target].genWait == None
            && queued == if waiting.Some? && waiting.value.header.generator == chosen.formulator
                         then {BlockGenMessage(waiting.value)} else {}
  {
  }

  // After a connected block.

  /** The turn goes on with the next height exactly when the round covers it and the formulator is still in
      front; otherwise votes are collected for the next height. An observer that knows other connected
      formulators but finds none of them ranked, or no candidate at all, stays where it is. */
  lemma TurnGoesOn(p: Params, s: Node, env: Env)
    requires s.round.minAck.Some?
    ensures var o := NextRound(p, s, env); var a := s.round.minAck.value.formulator;
            var others := set b | b in env.connected && !(b in s.ignored && env.now < s.ignored[b]) && b != a;
            var stuck := s.ranks == []
                         || (others != {} && forall i :: 0 <= i < |s.ranks| ==> s.ranks[i].address !in others);
            && o.ok == !stuck && (stuck ==> o.node == s)
            && (!stuck ==>
                  if s.ranks[0].address == a && s.round.target + 1 in s.round.blocks then
                    && o.node.round.state == BlockWaiting && o.node.round.target == s.round.target + 1
                    && o.node.round.blocks == s.round.blocks && o.node.round.failCount == 0
                    && var b := s.round.blocks[s.round.target + 1];
                       o.queued == if b.genWait.Some? && b.gen.None? then {BlockGenMessage(b.genWait.value)} else {}
                  else o.node.round == NewRound(|s.chain| + 1, p.maxBlocks))
            && o.node.chain == s.chain && o.node.ignored == s.ignored
  {
    hide EmptyBlockRounds;
    var a := s.round.minAck.value.formulator;
    assert Active(s, env) - {a} == set b | b in env.connected && !(b in s.ignored && env.now < s.ignored[b]) && b != a;
    FirstIn(s.ranks, Active(s, env) - {a});
  }

  lemma {:induction false} FirstIn(ranks: seq<Rank>, s: set<Address>)
    ensures TopRankIn(ranks, s).None? <==> forall i :: 0 <= i < |ranks| ==> ranks[i].address !in s
    ensures TopRankIn(ranks, s).Some? ==> forall i :: 0 <= i < TopRankIn(ranks, s).value ==> ranks[i].address !in s
  {
    if ranks != [] {
      FirstIn(ranks[1..], s);
      assert forall i :: 0 < i < |ranks| ==> ranks[i] == ranks[1..][i - 1];
    }
  }

  // The timer.

  // Some connected formulator is not ignored now.
  predicate SomeActive(s: Node, env: Env) {
    exists a :: a in env.connected && !(a in s.ignored && env.now < s.ignored[a])
  }

  lemma ActiveExactly(s: Node, env: Env)
    ensures SomeActive(s, env) <==> Active(s, env) != {}
  {
    if Active(s, env) != {} {
      var a :| a in Active(s, env);
    }
    if SomeActive(s, env) {
      var a :| a in env.connected && !(a in s.ignored && env.now < s.ignored[a]);
      assert a in Active(s, env);
    }
  }

  // Failures so far, given that a fresh vote starts the count again.
  function Failures(p: Params, s: Node, env: Env): nat {
    if s.round.state == RoundVoting && TopRankIn(s.ranks, Active(s, env)).Some? then 0 else s.round.failCount
  }

  /** At the current height the timer gives up the round exactly when some formulator is active, no block is
      voted on, and this is the 31st failure in a row: then the agreed formulator is ignored for 30 seconds, or
      for 120 if it had been ignored before, and votes are collected anew. Before that it only counts. A locked
      block is never given up: the vote for it is sent again. */
  lemma TimerExactly(p: Params, s: Node, env: Env)
    requires WellFormed(s) && s.round.target == |s.chain| + 1
    ensures var o := OnVoteTimer(p, s, env);
            && o.node.chain == s.chain
            && (!SomeActive(s, env) ==> o.node == s && o.out == {})
            && (SomeActive(s, env) && s.round.state == BlockVoting ==>
                  && o.node == s
                  && o.out == {SignedBlockVote(s.me, s.round.blocks[s.round.target].gen.value, false)})
            && (SomeActive(s, env) && s.round.state != BlockVoting ==>
                  o.out == if s.round.state == RoundVoting
                           then FreshRoundVote(p, s, env, false) + {StatusMessage(|s.chain|, LastHash(s.chain))}
                           else {})
            && (SomeActive(s, env) && s.round.state != BlockVoting ==>
                  if Failures(p, s, env) + 1 > 30 then
                    && o.node.round == NewRound(|s.chain| + 1, p.maxBlocks)
                    && o.node.ignored == (if s.round.minAck.None? then s.ignored else IgnoredAlso(s, env))
                  else o.node == s.(round := s.round.(failCount := Failures(p, s, env) + 1)))
  {
    hide EmptyBlockRounds, TopRankIn, BlocksOk;
    ActiveExactly(s, env);
  }

  // The agreed formulator is ignored from now on, longer the second time.
  function IgnoredAlso(s: Node, env: Env): map<Address, nat>
    requires s.round.minAck.Some?
  {
    var a := s.round.minAck.value.formulator;
    s.ignored[a := env.now + if a in s.ignored then 120_000_000_000 else 30_000_000_000]
  }

  /** A round that the chain has overtaken waits for the block after it if the agreed formulator is in front and
      the round covers that height, and starts anew otherwise. */
  lemma CatchesUp(p: Params, s: Node)
    requires s.round.target <= |s.chain| && s.ranks != []
    ensures var (r, queued) := SyncRound(p, s); var next := |s.chain| + 1;
            if s.round.minAck.Some? && s.ranks[0].address == s.round.minAck.value.formulator
               && next in s.round.blocks then
              && r.target == next && r.state == BlockWaiting && r.minAck == s.round.minAck
              && r.blocks.Keys == s.round.blocks.Keys
              && (var b := s.round.blocks[next];
                  queued == if b.genWait.Some? && b.gen.None? then {BlockGenMessage(b.genWait.value)} else {})
              && forall h :: h in r.blocks ==> r.blocks[h].gen == s.round.blocks[h].gen
                                               && r.blocks[h].votes == s.round.blocks[h].votes
            else r == NewRound(next, p.maxBlocks) && queued == {}
  {
    hide EmptyBlockRounds;
  }
}
