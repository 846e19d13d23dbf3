/** What observers send each other: the votes and acks of one observer are taken by every other one that is at
    the same place, an observer that asks is answered with what the other knows, and a reply is never answered. */
module Answers {
  import opened Basics
  import opened VotingTypes
  import opened VotingSteps
  import Leader
  import opened BlockVotes
  import opened RoundVotes

  // Both are at the same height, with the same chain and the same candidates.
  predicate SamePlace(s: Node, t: Node) {
    s.chain == t.chain && s.ranks == t.ranks && t.round.target == |t.chain| + 1
  }

  // The candidate is connected and not ignored now.
  predicate Connected(s: Node, env: Env, i: nat)
    requires i < |s.ranks|
  {
    var a := s.ranks[i].address;
    a in env.connected && !(a in s.ignored && env.now < s.ignored[a])
  }

  // Votes.

  /** An observer votes for the first candidate that is connected and not ignored, and not at all if there is
      none. */
  lemma VotesForFirst(p: Params, s: Node, env: Env, isReply: bool)
    ensures FreshRoundVote(p, s, env, isReply) == {} <==> forall i :: 0 <= i < |s.ranks| ==> !Connected(s, env, i)
    ensures forall m :: m in FreshRoundVote(p, s, env, isReply) ==>
              && m.RoundVoteMessage? && m.vote.isReply == isReply && m.vote.timestamp == env.now
              && m.vote.timeoutCount < |s.ranks| && Connected(s, env, m.vote.timeoutCount)
              && forall i :: 0 <= i < m.vote.timeoutCount ==> !Connected(s, env, i)
  {
    hide TopRankIn;
    FirstIn(s.ranks, Active(s, env));
    forall i | 0 <= i < |s.ranks| ensures Connected(s, env, i) <==> s.ranks[i].address in Active(s, env) {
    }
  }

  /** Every other observer at the same place that collects votes keeps this vote, if it has no newer one. */
  lemma FreshVoteKept(p: Params, s: Node, t: Node, env: Env, isReply: bool, m: Message)
    requires m in FreshRoundVote(p, s, env, isReply) && s.me in p.keys
    requires SamePlace(s, t) && t.round.state == RoundVoting
    requires s.me in t.round.votes ==> t.round.votes[s.me].timestamp < env.now
    ensures m.RoundVoteMessage? && MayVote(p, t, s.me, m.vote, m.signature)
  {
  }

  /** The ack for a vote that fits is taken by every other observer at the same place that collects acks. */
  lemma AckTaken(p: Params, s: Node, t: Node, votes: map<Key, RoundVote>, l: Key, now: nat)
    requires l in votes && votes[l].targetHeight == t.round.target && votes[l].chainID == p.chainID
    requires votes[l].lastHash == LastHash(s.chain)
             && RankedAt(s, votes[l].timeoutCount, votes[l].formulator, votes[l].formulatorKey)
    requires s.me in p.keys && SamePlace(s, t) && t.round.state == RoundAcking
    requires s.me in t.round.acks ==> t.round.acks[s.me].timestamp < now
    ensures var m := SignedAck(s.me, AckFor(votes, l, now));
            MayAck(p, t, s.me, m.ack, m.signature) && m.ack.leader == l && !m.ack.isReply
  {
  }

  /** The vote an observer sends for a block it signs, at once or again later, is counted by every other observer at
      the same place that agreed on the same formulator and is locked on the same header. */
  lemma BlockVoteCounted(p: Params, s: Node, t: Node, gen: BlockGen, env: Env, isReply: bool)
    requires MaySign(p, s, gen, env) && s.me in p.keys && SamePlace(s, t)
    requires t.round.state == BlockVoting && LockedGen(t) && LockedBlock(t).header == gen.header
    requires t.round.minAck.value.formulator == s.round.minAck.value.formulator
             && t.round.minAck.value.formulatorKey == s.round.minAck.value.formulatorKey
    ensures var m := SignedBlockVote(s.me, gen, isReply); MayCount(p, t, s.me, m.blockVote, m.signature)
  {
  }

  // Replies.

  // The message answers another one.
  predicate IsReply(m: Message) {
    match m
    case RoundVoteMessage(v, _) => v.isReply
    case RoundVoteAckMessage(a, _) => a.isReply
    case BlockVoteMessage(v, _) => v.isReply
    case BlockGenMessage(_) => false
    case StatusMessage(_, _) => true
  }

  /** While a block is voted on, an observer replies with its own round vote, moved to the next height of the
      chain if it was for another one, and otherwise with a fresh one; always as a reply for the next height. */
  lemma VoteReplies(p: Params, s: Node, env: Env, m: Message)
    ensures m in RoundVoteReply(p, s, env) ==>
              && m.RoundVoteMessage? && m.vote.isReply && m.vote.targetHeight == |s.chain| + 1
              && m.signature.signer == s.me && m.signature.content == RoundVoteContent(m.vote)
    ensures RoundVoteReply(p, s, env) == {} <==>
              if s.round.state == BlockVoting then s.me !in s.round.votes
              else forall i :: 0 <= i < |s.ranks| ==> !Connected(s, env, i)
    ensures m in RoundVoteReply(p, s, env) && s.round.state == BlockVoting ==>
              var mine := s.round.votes[s.me];
              && m.vote.formulator == mine.formulator && m.vote.formulatorKey == mine.formulatorKey
              && if mine.targetHeight == |s.chain| + 1 then
                   m.vote.timeoutCount == mine.timeoutCount && m.vote.lastHash == mine.lastHash
                 else m.vote.timeoutCount == 0 && m.vote.lastHash == LastHash(s.chain) && m.vote.timestamp == env.now
    ensures s.round.state != BlockVoting ==> RoundVoteReply(p, s, env) == FreshRoundVote(p, s, env, true)
  {
    hide FreshRoundVote;
    VotesForFirst(p, s, env, true);
    FreshVoteSigned(p, s, env, true);
  }

  lemma FreshVoteSigned(p: Params, s: Node, env: Env, isReply: bool)
    ensures forall m :: m in FreshRoundVote(p, s, env, isReply) ==>
              && m.RoundVoteMessage? && m.vote.targetHeight == |s.chain| + 1
              && m.signature.signer == s.me && m.signature.content == RoundVoteContent(m.vote)
  {
  }

  /** An observer replies to acks with its own one, if it has acked, moved to the next height of the chain while a
      block is voted on. */
  lemma AckReplies(s: Node, env: Env, m: Message)
    ensures AckReply(s, env) == {} <==> s.me !in s.round.acks
    ensures m in AckReply(s, env) ==>
              var mine := s.round.acks[s.me];
              && m.RoundVoteAckMessage? && m.ack.isReply
              && m.signature.signer == s.me && m.signature.content == RoundVoteAckContent(m.ack)
              && m.ack.formulator == mine.formulator && m.ack.formulatorKey == mine.formulatorKey
              && m.ack.leader == mine.leader
              && if s.round.state != BlockVoting || mine.targetHeight == |s.chain| + 1 then
                   && m.ack.targetHeight == mine.targetHeight && m.ack.timeoutCount == mine.timeoutCount
                   && m.ack.lastHash == mine.lastHash && m.ack.timestamp == mine.timestamp
                 else
                   && m.ack.targetHeight == |s.chain| + 1 && m.ack.timeoutCount == 0
                   && m.ack.lastHash == LastHash(s.chain) && m.ack.timestamp == env.now
  {
  }

  /** An observer that has locked a block replies with its vote for it, and others have none to reply with. */
  lemma LockedReplies(s: Node, m: Message)
    requires WellFormed(s)
    ensures m in LockedVoteReply(s) <==>
              s.round.state == BlockVoting && m == SignedBlockVote(s.me, LockedBlock(s), true)
  {
    hide BlocksOk, SignedBlockVote;
  }

  /** A round vote of another observer that is no reply itself is answered: with the own status if it is for a
      lower height, and if it fits, with the own votes. Nothing else is sent, but the ack that ends the
      collection. */
  lemma VoteAnswered(p: Params, s: Node, k: Key, v: RoundVote, sig: Signature, env: Env, o: Outcome, m: Message)
    requires OnRoundVote(p, s, k, v, sig, env, o) && !m.RoundVoteAckMessage?
    ensures m in o.out <==>
            && sig.content == RoundVoteContent(v) && sig.signer == k && k in p.keys && k != s.me && !v.isReply
            && if v.targetHeight < s.round.target then m == StatusMessage(|s.chain|, LastHash(s.chain))
               else
                 && v.targetHeight == s.round.target && v.chainID == p.chainID && v.lastHash == LastHash(s.chain)
                 && RankedAt(s, v.timeoutCount, v.formulator, v.formulatorKey)
                 && (m in LockedVoteReply(s) || m in RoundVoteReply(p, s, env))
  {
    hide FreshRoundVote, AckFor, IsLeast;
    if s.round.state == RoundVoting {
      SameFreshVote(p, s, k, v, env);
    }
  }

  lemma SameFreshVote(p: Params, s: Node, k: Key, v: RoundVote, env: Env)
    ensures var s1 := s.(round := s.round.(votes := s.round.votes[k := v]));
            FreshRoundVote(p, s1, env, true) == FreshRoundVote(p, s, env, true)
  {
    hide TopRankIn;
    assert Active(s.(round := s.round.(votes := s.round.votes[k := v])), env) == Active(s, env);
  }

  /** The same for acks, which are answered with the own ack, but not while votes are still collected. */
  lemma AckAnswered(p: Params, s: Node, k: Key, a: RoundVoteAck, sig: Signature, env: Env, order: seq<Key>, o: Outcome,
                    m: Message)
    requires OnAck(p, s, k, a, sig, env, order, o)
    ensures m in o.out <==>
            && sig.content == RoundVoteAckContent(a) && sig.signer == k && k in p.keys && k != s.me && !a.isReply
            && if a.targetHeight < s.round.target then m == StatusMessage(|s.chain|, LastHash(s.chain))
               else
                 && a.targetHeight == s.round.target && a.chainID == p.chainID && a.lastHash == LastHash(s.chain)
                 && RankedAt(s, a.timeoutCount, a.formulator, a.formulatorKey) && s.round.state != RoundVoting
                 && (m in LockedVoteReply(s) || m in AckReply(s, env))
  {
    hide Leader.IsChoice, StartBlocks;
  }

  /** A counted block vote of another observer that is no reply itself is answered with the own vote for the
      locked block. */
  lemma BlockVoteAnswered(p: Params, s: Node, k: Key, v: BlockVote, sig: Signature, env: Env, order: seq<Key>,
                          o: Outcome, m: Message)
    requires WellFormed(s) && OnBlockVote(p, s, k, v, sig, env, order, o) && !m.StatusMessage?
    ensures m in o.out <==> MayCount(p, s, k, v, sig) && k != s.me && !v.isReply && m in LockedVoteReply(s)
  {
    hide BlocksOk, LockedVoteReply, MayCount, Countable, CountedVote, HoldVote, Unignore;
    CountsExactly(p, s, k, v, sig);
    if MayCount(p, s, k, v, sig) {
      CountedVoteSends(p, s, k, v, env, order, o, m);
    }
  }

  lemma CountedVoteSends(p: Params, s: Node, k: Key, v: BlockVote, env: Env, order: seq<Key>, o: Outcome, m: Message)
    requires LockedGen(s)
    requires CountedVote(p, s, k, v, env, order, o) && !m.StatusMessage?
    ensures m in o.out <==> k != s.me && !v.isReply && m in LockedVoteReply(s)
  {
    hide LockedVoteReply, NextRound, ObserverSignatures;
    if k !in Counted(s) && |CountVote(s, k, v).round.blocks[s.round.target].votes| >= Quorum(p) && env.stores {
      var s1 := CountVote(s, k, v);
      OrderCovers(order, s1.round.blocks[s.round.target].votes);
      NextRoundSends(p, ConnectLocked(s1, LockedBlock(s),
                                      ObserverSignatures(s1.round.blocks[s.round.target].votes, order), env), env);
    }
  }

  /** A block vote for a height that is done is answered with the own status, and a connected block is announced
      with the new one. */
  lemma StatusSent(p: Params, s: Node, k: Key, v: BlockVote, sig: Signature, env: Env, order: seq<Key>, o: Outcome,
                   m: Message)
    requires WellFormed(s) && OnBlockVote(p, s, k, v, sig, env, order, o) && m.StatusMessage?
    ensures m in o.out <==>
            if o.node.chain != s.chain then m == StatusMessage(|o.node.chain|, LastHash(o.node.chain))
            else && sig.content == BlockVoteContent(v) && sig.signer == k && k in p.keys && k != s.me
                 && v.header.height in s.round.blocks && v.header.height < s.round.target
                 && m == StatusMessage(|s.chain|, LastHash(s.chain))
  {
    hide BlocksOk, LockedVoteReply, MayCount, Countable, CountedVote, LastHash;
    CountsExactly(p, s, k, v, sig);
    if MayCount(p, s, k, v, sig) {
      CountedVoteStatus(p, s, k, v, env, order, o, m);
    }
  }

  lemma CountedVoteStatus(p: Params, s: Node, k: Key, v: BlockVote, env: Env, order: seq<Key>, o: Outcome, m: Message)
    requires LockedGen(s) && CountedVote(p, s, k, v, env, order, o) && m.StatusMessage?
    ensures m in o.out <==> o.node.chain != s.chain && m == StatusMessage(|o.node.chain|, LastHash(o.node.chain))
  {
    hide NextRound, ObserverSignatures, LastHash, SignedBlockVote;
    assert m !in LockedVoteReply(s) by { LockedIsVote(s, m); }
    if k !in Counted(s) && |CountVote(s, k, v).round.blocks[s.round.target].votes| >= Quorum(p) && env.stores {
      var s1 := CountVote(s, k, v);
      OrderCovers(order, s1.round.blocks[s.round.target].votes);
      var s2 := ConnectLocked(s1, LockedBlock(s),
                              ObserverSignatures(s1.round.blocks[s.round.target].votes, order), env);
      NextRoundSends(p, s2, env);
      NextRoundChain(p, s2, env);
    }
  }

  lemma LockedIsVote(s: Node, m: Message)
    ensures m in LockedVoteReply(s) ==> m.BlockVoteMessage?
  {
  }

  lemma NextRoundSends(p: Params, s: Node, env: Env)
    requires s.round.minAck.Some?
    ensures NextRound(p, s, env).out == {StatusMessage(|s.chain|, LastHash(s.chain))}
  {
    hide TopRankIn, EmptyBlockRounds;
  }

  /** A vote for a block that is not voted on yet waits at its height. One for the current height takes its
      generator off the ignore list, and the failures are counted anew if it was on it. */
  lemma EarlyVoteWaits(p: Params, s: Node, k: Key, v: BlockVote, sig: Signature, env: Env, order: seq<Key>, o: Outcome)
    requires WellFormed(s) && OnBlockVote(p, s, k, v, sig, env, order, o)
    requires sig.content == BlockVoteContent(v) && sig.signer == k && k in p.keys && v.header.height in s.round.blocks
    requires v.header.height > s.round.target
             || (v.header.height == s.round.target && s.round.state != BlockVoting)
    ensures var h, a := v.header.height, v.header.generator; var r := o.node.round;
            && r.blocks == s.round.blocks[h := s.round.blocks[h].(voteWait := r.blocks[h].voteWait)]
            && r.blocks[h].voteWait == s.round.blocks[h].voteWait[k := BlockVoteMessage(v, sig)]
            && o.node.ignored == (if h == s.round.target then s.ignored - {a} else s.ignored)
            && r.failCount == (if h == s.round.target && a in s.ignored then 0 else s.round.failCount)
            && o.node.chain == s.chain && r.state == s.round.state && r.target == s.round.target
  {
    hide BlocksOk;
  }

  /** Every answer is a reply, so that no answer is answered. */
  lemma RepliesEnd(p: Params, s: Node, k: Key, v: RoundVote, sig: Signature, env: Env, o: Outcome, m: Message)
    requires OnRoundVote(p, s, k, v, sig, env, o) && m in o.out && !m.RoundVoteAckMessage?
    ensures !v.isReply && IsReply(m)
  {
    hide OnRoundVote, LockedVoteReply, RoundVoteReply;
    VoteAnswered(p, s, k, v, sig, env, o, m);
    VoteReplies(p, s, env, m);
    LockedIsReply(s, m);
  }

  lemma LockedIsReply(s: Node, m: Message)
    ensures m in LockedVoteReply(s) ==> IsReply(m)
  {
  }
}
