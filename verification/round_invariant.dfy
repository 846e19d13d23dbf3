/** Every event keeps the observer's round well formed. */
module RoundInvariant {
  import opened Basics
  import opened VotingTypes
  import opened Leader
  import opened VotingSteps

  lemma FreshRoundWellFormed(s: Node, target: nat, maxBlocks: nat)
    requires s.round == NewRound(target, maxBlocks) && target <= |s.chain| + 1
    ensures WellFormed(s)
  {
  }

  lemma RoundVoteKeeps(p: Params, s: Node, sender: Key, vote: RoundVote, signature: Signature, env: Env, o: Outcome)
    requires WellFormed(s) && OnRoundVote(p, s, sender, vote, signature, env, o)
    ensures WellFormed(o.node)
  {
  }

  lemma StartBlocksKeeps(p: Params, s: Node, chosen: RoundVoteAck)
    requires WellFormed(s) && s.round.state == RoundAcking
    ensures WellFormed(s.(round := StartBlocks(p, s, chosen).0))
  {
    hide RemainingBlocks;
    var end := s.round.target + RemainingBlocks(p, s, chosen);
    var trimmed := TrimBlocks(s.round.blocks, end, chosen.formulator);
    forall h | h in trimmed ensures BlockOk(trimmed[h], h, s.round.target, BlockWaiting) {
      assert BlockOk(s.round.blocks[h], h, s.round.target, s.round.state);
    }
    TakeWaitingKeeps(trimmed, s.round.target, s.round.target, BlockWaiting);
  }

  lemma TakeWaitingKeeps(blocks: map<nat, BlockRound>, h: nat, target: nat, state: RoundState)
    requires BlocksOk(blocks, target, state)
    ensures BlocksOk(TakeWaiting(blocks, h).0, target, state)
  {
  }

  // An ack either leaves lock, target and block rounds alone or starts the chosen turn.
  lemma AckCases(p: Params, s: Node, sender: Key, ack: RoundVoteAck, signature: Signature, env: Env,
                 order: seq<Key>, o: Outcome)
    returns (c: Option<RoundVoteAck>)
    requires OnAck(p, s, sender, ack, signature, env, order, o)
    ensures c.None? ==> && o.node.round.blocks == s.round.blocks && o.node.round.state == s.round.state
                        && o.node.round.target == s.round.target && o.node.round.minAck == s.round.minAck
                        && o.node.chain == s.chain && o.node.me == s.me
    ensures c.Some? ==> && s.round.state == RoundAcking
                        && var s1 := s.(round := s.round.(acks := s.round.acks[sender := ack]));
                           o.node == s1.(round := StartBlocks(p, s1, c.value).0)
  {
    var s1 := s.(round := s.round.(acks := s.round.acks[sender := ack]));
    if o.node.round.state != s.round.state {
      var a :| o.node == s1.(round := StartBlocks(p, s1, a).0);
      c := Some(a);
    } else {
      c := None;
    }
  }

  lemma AckKeeps(p: Params, s: Node, sender: Key, ack: RoundVoteAck, signature: Signature, env: Env,
                 order: seq<Key>, o: Outcome)
    requires WellFormed(s) && OnAck(p, s, sender, ack, signature, env, order, o)
    ensures WellFormed(o.node)
  {
    var c := AckCases(p, s, sender, ack, signature, env, order, o);
    if c.Some? {
      StartBlocksKeeps(p, s.(round := s.round.(acks := s.round.acks[sender := ack])), c.value);
    }
  }

  lemma BlockGenKeeps(p: Params, s: Node, gen: BlockGen, env: Env)
    requires WellFormed(s)
    ensures WellFormed(OnBlockGen(p, s, gen, env).node)
  {
  }

  lemma NextRoundKeeps(p: Params, s: Node, env: Env)
    requires WellFormed(s) && s.round.state == BlockVoting && s.round.target <= |s.chain|
    ensures WellFormed(NextRound(p, s, env).node)
  {
  }

  lemma CountVoteKeeps(s: Node, sender: Key, vote: BlockVote)
    requires WellFormed(s) && s.round.state == BlockVoting
    ensures WellFormed(CountVote(s, sender, vote))
  {
  }

  lemma HoldVoteKeeps(s: Node, h: nat, sender: Key, vote: BlockVote, signature: Signature)
    requires WellFormed(s) && h in s.round.blocks
    ensures WellFormed(HoldVote(s, h, sender, vote, signature))
  {
  }

  lemma CountedVoteKeeps(p: Params, s: Node, sender: Key, vote: BlockVote, env: Env, order: seq<Key>, o: Outcome)
    requires WellFormed(s) && s.round.state == BlockVoting && Countable(p, s, sender, vote)
    requires CountedVote(p, s, sender, vote, env, order, o)
    ensures WellFormed(o.node)
  {
    CountVoteKeeps(s, sender, vote);
    var s1 := CountVote(s, sender, vote);
    var votes := s1.round.blocks[s.round.target].votes;
    if o.node.chain != s.chain {
      var s2 := ConnectLocked(s1, s.round.blocks[s.round.target].gen.value, ObserverSignatures(votes, order), env);
      NextRoundKeeps(p, s2, env);
    }
  }

  lemma BlockVoteKeeps(p: Params, s: Node, sender: Key, vote: BlockVote, signature: Signature, env: Env,
                       order: seq<Key>, o: Outcome)
    requires WellFormed(s) && OnBlockVote(p, s, sender, vote, signature, env, order, o)
    ensures WellFormed(o.node)
  {
    var h := vote.header.height;
    if h in s.round.blocks {
      HoldVoteKeeps(s, h, sender, vote, signature);
      HoldVoteKeeps(Unignore(s, vote.header.generator), h, sender, vote, signature);
    }
    if s.round.state == BlockVoting && Countable(p, s, sender, vote) && CountedVote(p, s, sender, vote, env, order, o) {
      CountedVoteKeeps(p, s, sender, vote, env, order, o);
    }
  }

  lemma SyncKeeps(p: Params, s: Node)
    requires WellFormed(s) && (s.round.target <= |s.chain| ==> s.ranks != [])
    ensures WellFormed(s.(round := SyncRound(p, s).0))
  {
    var next := |s.chain| + 1;
    if s.round.target < next {
      forall h | h in s.round.blocks ensures BlockOk(s.round.blocks[h], h, next, BlockWaiting) {
        assert BlockOk(s.round.blocks[h], h, s.round.target, s.round.state);
      }
      TakeWaitingKeeps(s.round.blocks, next, next, BlockWaiting);
    }
  }

  lemma TickKeeps(p: Params, s: Node, queued: set<Message>, env: Env)
    requires WellFormed(s)
    ensures WellFormed(Tick(p, s, queued, env).node)
  {
  }

  lemma VoteTimerKeeps(p: Params, s: Node, env: Env)
    requires WellFormed(s)
    ensures WellFormed(OnVoteTimer(p, s, env).node)
  {
    if !(s.round.target <= |s.chain| && s.ranks == []) {
      SyncKeeps(p, s);
      var (round, queued) := SyncRound(p, s);
      TickKeeps(p, s.(round := round), queued, env);
    }
  }
}
