/** The observer's handlers and timers as they run: sequences of checks with early returns that
    update the round in place.  Each is proved to have exactly the outcome of `VotingSteps`. */
module Observer {
  import opened Basics
  import opened VotingTypes
  import opened Leader
  import opened Certificates
  import opened VotingSteps
  import opened RoundInvariant
  import opened BlockVotes

  class ObserverNode {
    const p: Params
    const me: Key
    var chain: seq<Block>
    var ranks: seq<Rank>
    var sameBlocks: nat
    var ignored: map<Address, nat>
    var round: Round

    function Value(): Node
      reads this
    {
      Node(me, chain, ranks, sameBlocks, ignored, round)
    }

    ghost predicate Valid()
      reads this
    {
      WellFormed(Value())
    }

    constructor (p: Params, me: Key, ranks: seq<Rank>)
      ensures this.p == p && Value() == NewNode(p, me, ranks) && Valid()
    {
      this.p := p;
      this.me := me;
      this.ranks := ranks;
      chain := [];
      sameBlocks := 0;
      ignored := map[];
      new;
      round := NewVoteRound(1, p.maxBlocks);
    }

    static method NewVoteRound(target: nat, maxBlocks: nat) returns (r: Round)
      ensures r == NewRound(target, maxBlocks)
    {
      r := Round(RoundVoting, target, map[], map[], None, map[], map[], 0);
      var i := target;
      while i < target + maxBlocks
        invariant target <= i <= target + maxBlocks
        invariant r == NewRound(target, maxBlocks).(blocks := EmptyBlockRounds(target, i - target))
      {
        r := r.(blocks := r.blocks[i := NewBlockRound()]);
        i := i + 1;
      }
    }

    // Sorts by (timeout count, public hash) and takes the first.
    static method LeastVoter(votes: map<Key, RoundVote>) returns (k: Key)
      requires votes != map[]
      ensures IsLeast(votes, k)
    {
      var rest := votes.Keys;
      assert rest != {};
      k :| k in votes;
      rest := rest - {k};
      while rest != {}
        invariant k in votes && rest <= votes.Keys && k !in rest
        invariant forall k' :: k' in votes && k' !in rest && k' != k ==> VoteLess(votes, k, k')
        decreases rest
      {
        var k' :| k' in rest;
        rest := rest - {k'};
        if VoteLess(votes, k', k) {
          k := k';
        }
      }
    }

    method HandleRoundVote(sender: Key, vote: RoundVote, signature: Signature, env: Env)
      returns (ok: bool, out: set<Message>, queued: set<Message>)
      requires Valid()
      modifies this`round
      ensures Valid() && OnRoundVote(p, old(Value()), sender, vote, signature, env, Outcome(Value(), out, queued, ok))
    {
      ok, out, queued := false, {}, {};
      var signer := Recover(RoundVoteContent(vote), signature);
      if signer.None? { return; }
      if signer.value != sender { return; }
      if sender !in p.keys { return; }

      if vote.targetHeight != round.target {
        if vote.targetHeight < round.target {
          if !vote.isReply && sender != me {
            out := {Status(Value())};
          }
        }
        return;
      }
      if vote.chainID != p.chainID { return; }
      if vote.lastHash != LastHash(chain) { return; }
      var top := TopRank(ranks, vote.timeoutCount);
      if top.None? { return; }
      if vote.formulator != top.value.address { return; }
      if vote.formulatorKey != top.value.publicHash { return; }

      if round.state != RoundVoting {
        if !vote.isReply && sender != me {
          if round.state == BlockVoting {
            out := LockedVoteReply(Value());
          }
          out := out + RoundVoteReply(p, Value(), env);
        }
        return;
      }
      if sender in round.votes {
        if vote.timestamp <= round.votes[sender].timestamp {
          if !vote.isReply && sender != me {
            out := RoundVoteReply(p, Value(), env);
          }
          return;
        }
      }
      round := round.(votes := round.votes[sender := vote]);
      if !vote.isReply && sender != me {
        out := RoundVoteReply(p, Value(), env);
      }
      if |round.votes| >= |p.keys| / 2 + 2 {
        round := round.(state := RoundAcking);
        assert sender in round.votes;
        var least := LeastVoter(round.votes);
        out := out + {SignedAck(me, AckFor(round.votes, least, env.now))};
        queued := round.ackWait.Values;
      }
      ok := true;
    }

    method HandleAck(sender: Key, ack: RoundVoteAck, signature: Signature, env: Env, order: seq<Key>)
      returns (ok: bool, out: set<Message>, queued: set<Message>)
      requires Valid()
      requires Enumerates(order, round.acks[sender := ack])   // the order in which the map is ranged over
      modifies this`round
      ensures Valid() && OnAck(p, old(Value()), sender, ack, signature, env, order, Outcome(Value(), out, queued, ok))
    {
      ok, out, queued := false, {}, {};
      var signer := Recover(RoundVoteAckContent(ack), signature);
      if signer.None? { return; }
      if signer.value != sender { return; }
      if sender !in p.keys { return; }

      if ack.targetHeight != round.target {
        if ack.targetHeight < round.target {
          if !ack.isReply && sender != me {
            out := {Status(Value())};
          }
        }
        return;
      }
      if ack.chainID != p.chainID { return; }
      if ack.lastHash != LastHash(chain) { return; }
      var top := TopRank(ranks, ack.timeoutCount);
      if top.None? { return; }
      if ack.formulator != top.value.address { return; }
      if ack.formulatorKey != top.value.publicHash { return; }

      if round.state != RoundAcking {
        if round.state == RoundVoting {
          round := round.(ackWait := round.ackWait[sender := RoundVoteAckMessage(ack, signature)]);
        } else if !ack.isReply && sender != me {
          if round.state == BlockVoting {
            out := LockedVoteReply(Value());
          }
          out := out + AckReply(Value(), env);
        }
        return;
      }
      if sender in round.acks {
        if ack.timestamp <= round.acks[sender].timestamp {
          if !ack.isReply && sender != me {
            out := AckReply(Value(), env);
          }
          return;
        }
      }
      round := round.(acks := round.acks[sender := ack]);
      if !ack.isReply && sender != me {
        out := AckReply(Value(), env);
      }
      ok := true;
      if |round.acks| >= Quorum(p) {
        var chosen := ChooseAck(round.acks, order, Quorum(p));
        if chosen.Some? {
          queued := BeginBlocks(chosen.value);
        }
      }
    }

    // Ranges over the block rounds: later heights are deleted, foreign waiting blocks dropped.
    static method TrimBlockRounds(all: map<nat, BlockRound>, end: nat,
                                  formulator: Address) returns (blocks: map<nat, BlockRound>)
      ensures blocks == TrimBlocks(all, end, formulator)
    {
      blocks := map[];
      var todo := all.Keys;
      while todo != {}
        invariant todo <= all.Keys
        invariant blocks.Keys == set h | h in all && h !in todo && h < end
        invariant forall h :: h in blocks ==> blocks[h] == KeepGen(all[h], formulator)
        decreases todo
      {
        var h :| h in todo;
        todo := todo - {h};
        if h < end {
          var b := all[h];
          if b.genWait.Some? {
            if b.genWait.value.header.generator != formulator {
              b := b.(genWait := None);
            }
          }
          blocks := blocks[h := b];
        }
      }
    }

    method BeginBlocks(chosen: RoundVoteAck) returns (queued: set<Message>)
      requires Valid() && round.state == RoundAcking
      modifies this`round
      ensures Valid() && (round, queued) == StartBlocks(p, old(Value()), chosen)
    {
      hide RemainingBlocks, TrimBlocks, BlocksOk;
      StartBlocksKeeps(p, Value(), chosen);
      var remain := RemainingBlocks(p, Value(), chosen);
      round := round.(state := BlockWaiting, minAck := Some(chosen), failCount := 0);
      var blocks := TrimBlockRounds(round.blocks, round.target + remain, chosen.formulator);
      round := round.(blocks := blocks);
      queued := {};
      if round.target in round.blocks {
        var b := round.blocks[round.target];
        if b.genWait.Some? && b.gen.None? {
          queued := {BlockGenMessage(b.genWait.value)};
          round := round.(blocks := round.blocks[round.target := b.(genWait := None)]);
        }
      }
    }

    method HandleBlockGen(gen: BlockGen, env: Env) returns (ok: bool, out: set<Message>, queued: set<Message>)
      requires Valid()
      modifies this`round
      ensures Valid() && Outcome(Value(), out, queued, ok) == OnBlockGen(p, old(Value()), gen, env)
      ensures (exists m :: m in out && m.BlockVoteMessage?) <==> old(MaySign(p, Value(), gen, env))
    {
      hide MaySign;
      BlockGenKeeps(p, Value(), gen, env);
      SignsExactly(p, Value(), gen, env);
      ok, out, queued := false, {}, {};
      var h := gen.header.height;
      if h !in round.blocks { return; }
      var b := round.blocks[h];
      if b.gen.Some? { return; }
      if round.minAck.Some? && env.relayFails { return; }

      if h != round.target {
        if h > round.target {
          round := round.(blocks := round.blocks[h := b.(genWait := Some(gen))]);
        }
        return;
      }
      if round.state != BlockWaiting {
        if round.state != BlockVoting {
          round := round.(blocks := round.blocks[h := b.(genWait := Some(gen))]);
        }
        return;
      }
      var top := TopRank(ranks, gen.header.timeoutCount);
      if top.None? { return; }
      if gen.header.generator != top.value.address { return; }
      if gen.header.generator != round.minAck.value.formulator { return; }
      if b.genWait.Some? {
        if HashOf(gen.header) != HashOf(b.genWait.value.header) { return; }
      }
      var signer := Recover(HeaderContent(HashOf(gen.header)), gen.generatorSignature);
      if signer.None? { return; }
      if signer.value != top.value.publicHash { return; }
      if signer.value != round.minAck.value.formulatorKey { return; }
      if !ValidHeader(p, chain, gen.header) { return; }
      if gen.header.timestamp > env.now + MAX_CLOCK_SKEW { return; }
      if !env.executes { return; }

      round := round.(state := BlockVoting);
      b := b.(gen := Some(gen));
      round := round.(blocks := round.blocks[h := b]);
      out := {SignedBlockVote(me, gen, false)};
      queued := b.voteWait.Values;
      ok := true;
    }

    method HandleBlockVote(sender: Key, vote: BlockVote, signature: Signature, env: Env, order: seq<Key>)
      returns (ok: bool, out: set<Message>, queued: set<Message>)
      requires Valid()
      requires vote.header.height in round.blocks ==>   // the order in which the vote map is ranged over
                 Distinct(order) && Elements(order) == round.blocks[vote.header.height].votes.Keys + {sender}
      modifies this`round, this`ignored, this`chain, this`ranks, this`sameBlocks
      ensures Valid()
      ensures OnBlockVote(p, old(Value()), sender, vote, signature, env, order, Outcome(Value(), out, queued, ok))
      ensures chain != old(chain) <==>
              && old(MayCount(p, Value(), sender, vote, signature)) && sender !in old(Counted(Value()))
              && |old(Counted(Value()))| + 1 >= |p.keys| / 2 + 1 && env.stores
    {
      var was := Value();
      ok, out, queued := CountBlockVote(sender, vote, signature, env, order);
      VoteConnectsExactly(p, was, sender, vote, signature, env, order, Outcome(Value(), out, queued, ok));
    }

    method CountBlockVote(sender: Key, vote: BlockVote, signature: Signature, env: Env, order: seq<Key>)
      returns (ok: bool, out: set<Message>, queued: set<Message>)
      requires Valid()
      requires vote.header.height in round.blocks ==>
                 Distinct(order) && Elements(order) == round.blocks[vote.header.height].votes.Keys + {sender}
      modifies this`round, this`ignored, this`chain, this`ranks, this`sameBlocks
      ensures Valid()
      ensures OnBlockVote(p, old(Value()), sender, vote, signature, env, order, Outcome(Value(), out, queued, ok))
    {
      ok, out, queued := false, {}, {};
      var signer := Recover(BlockVoteContent(vote), signature);
      if signer.None? { return; }
      if signer.value != sender { return; }
      if sender !in p.keys { return; }

      var h := vote.header.height;
      if h !in round.blocks { return; }
      if h != round.target {
        if h < round.target {
          if sender != me { out := {Status(Value())}; }
        } else {
          KeepVote(h, sender, vote, signature);
        }
        return;
      }
      if round.state != BlockVoting {
        if vote.header.generator in ignored {
          ignored := ignored - {vote.header.generator};
          round := round.(failCount := 0);
        }
        KeepVote(h, sender, vote, signature);
        return;
      }
      var countable := CheckBlockVote(sender, vote);
      if !countable { return; }
      ok, out, queued := ApplyBlockVote(sender, vote, env, order);
    }

    method KeepVote(h: nat, sender: Key, vote: BlockVote, signature: Signature)
      requires Valid() && h in round.blocks
      modifies this`round
      ensures Valid() && Value() == HoldVote(old(Value()), h, sender, vote, signature)
    {
      HoldVoteKeeps(Value(), h, sender, vote, signature);
      var b := round.blocks[h];
      var waiting := b.voteWait[sender := BlockVoteMessage(vote, signature)];
      round := round.(blocks := round.blocks[h := b.(voteWait := waiting)]);
    }

    method CheckBlockVote(sender: Key, vote: BlockVote) returns (ok: bool)
      requires Valid() && round.state == BlockVoting
      ensures ok <==> Countable(p, Value(), sender, vote)
    {
      var b := round.blocks[round.target];
      var top := TopRank(ranks, vote.header.timeoutCount);
      if top.None? { return false; }
      if vote.header.generator != top.value.address { return false; }
      var signer := Recover(HeaderContent(HashOf(vote.header)), vote.generatorSignature);
      if signer.None? { return false; }
      if signer.value != top.value.publicHash { return false; }
      if vote.header.generator != round.minAck.value.formulator { return false; }
      if signer.value != round.minAck.value.formulatorKey { return false; }
      if vote.header.prevHash != LastHash(chain) { return false; }
      if HashOf(vote.header) != HashOf(b.gen.value.header) { return false; }
      if !ValidHeader(p, chain, vote.header) { return false; }
      var observer := Recover(BlockSignContent(HashOf(vote.header), vote.generatorSignature), vote.observerSignature);
      if observer.None? { return false; }
      return observer.value == sender;
    }

    // Counts a vote for the locked block and connects the block once the quorum is reached.
    method ApplyBlockVote(sender: Key, vote: BlockVote, env: Env, order: seq<Key>) returns (ok: bool,
                          out: set<Message>, queued: set<Message>)
      requires Valid() && round.state == BlockVoting && Countable(p, Value(), sender, vote)
      requires Distinct(order) && Elements(order) == round.blocks[round.target].votes.Keys + {sender}
      modifies this`round, this`ignored, this`chain, this`ranks, this`sameBlocks
      ensures Valid() && CountedVote(p, old(Value()), sender, vote, env, order, Outcome(Value(), out, queued, ok))
    {
      hide NextRound, BlocksOk, Distinct, Elements, LockedVoteReply;
      ok, out, queued := false, {}, {};
      if !vote.isReply && sender != me { out := LockedVoteReply(Value()); }
      if sender in round.blocks[round.target].votes { return; }
      var votes := AddBlockVote(sender, vote);
      if |votes| < Quorum(p) { return true, out, {}; }
      if !env.stores {
        ranks, sameBlocks := env.nextRanks, env.nextSameBlocks;
        return;
      }
      OrderCovers(order, votes);
      ConnectBlock(round.blocks[round.target].gen.value, ObserverSignatures(votes, order), env);
      var more;
      ok, more, queued := ContinueRound(env);
      out := out + more;
    }

    method AddBlockVote(sender: Key, vote: BlockVote) returns (votes: map<Key, BlockVote>)
      requires Valid() && round.state == BlockVoting
      modifies this`round
      ensures Valid() && Value() == CountVote(old(Value()), sender, vote)
      ensures votes == round.blocks[round.target].votes == old(round.blocks[round.target].votes)[sender := vote]
    {
      CountVoteKeeps(Value(), sender, vote);
      var b := round.blocks[round.target];
      b := b.(votes := b.votes[sender := vote]);
      round := round.(blocks := round.blocks[round.target := b]);
      votes := b.votes;
    }

    method ConnectBlock(gen: BlockGen, sigs: seq<Signature>, env: Env)
      requires round.minAck.Some?
      modifies this`ignored, this`chain, this`ranks, this`sameBlocks
      ensures Value() == ConnectLocked(old(Value()), gen, sigs, env)
    {
      chain := chain + [Block(gen.header, gen.body, [gen.generatorSignature] + sigs)];
      ranks := env.nextRanks;
      sameBlocks := env.nextSameBlocks;
      ignored := ignored - {round.minAck.value.formulator};
    }

    // Moves to the next height with the same formulator or to a new vote.
    method ContinueRound(env: Env) returns (ok: bool, out: set<Message>, queued: set<Message>)
      requires Valid() && round.state == BlockVoting && round.target <= |chain|
      modifies this`round
      ensures Valid() && Outcome(Value(), out, queued, ok) == NextRound(p, old(Value()), env)
    {
      hide Active, EmptyBlockRounds, BlocksOk, TopRankIn, NewRound;
      NextRoundKeeps(p, Value(), env);
      ok, out, queued := false, {Status(Value())}, {};
      var formulator := round.minAck.value.formulator;
      var others := Active(Value(), env) - {formulator};
      if others != {} {
        var next := TopRankIn(ranks, others);
        if next.None? { return; }
      }
      var top := TopRank(ranks, 0);
      if top.None? { return; }
      ok := true;
      if round.target + 1 in round.blocks && top.value.address == formulator {
        var b := round.blocks[round.target + 1];
        round := round.(state := BlockWaiting, failCount := 0, target := round.target + 1);
        if b.genWait.Some? && b.gen.None? {
          queued := {BlockGenMessage(b.genWait.value)};
        }
      } else {
        round := NewVoteRound(|chain| + 1, p.maxBlocks);
      }
    }

    method VoteTimer(env: Env) returns (ok: bool, out: set<Message>, queued: set<Message>)
      requires Valid()
      modifies this`round, this`ignored
      ensures Valid() && Outcome(Value(), out, queued, ok) == OnVoteTimer(p, old(Value()), env)
    {
      out := {};
      ok, queued := SyncVoteRound();
      if !ok { return; }
      TickKeeps(p, Value(), queued, env);
      if Active(Value(), env) == {} { return; }
      var isFailable := true;
      if round.state == RoundVoting {
        out := out + {Status(Value())};
        var vote := FreshRoundVote(p, Value(), env, false);
        if vote != {} {
          round := round.(failCount := 0);
          out := out + vote;
        }
      } else if round.state == BlockVoting {
        if round.target in round.blocks {
          out := out + {SignedBlockVote(me, round.blocks[round.target].gen.value, false)};
          isFailable := false;
        }
      }
      if isFailable {
        Failure(env);
      }
    }

    method Failure(env: Env)
      modifies this`round, this`ignored
      ensures Value() == CountFailure(p, old(Value()), env)
    {
      round := round.(failCount := round.failCount + 1);
      if round.failCount > MAX_FAILURES {
        if round.minAck.Some? {
          var a := round.minAck.value.formulator;
          if a in ignored {
            ignored := ignored[a := env.now + IGNORE_LONG];
          } else {
            ignored := ignored[a := env.now + IGNORE_SHORT];
          }
        }
        round := NewVoteRound(|chain| + 1, p.maxBlocks);
      }
    }

    method SyncVoteRound() returns (ok: bool, queued: set<Message>)
      requires Valid()
      modifies this`round
      ensures Valid()
      ensures !ok <==> old(round.target) <= |chain| && ranks == []
      ensures !ok ==> Value() == old(Value()) && queued == {}
      ensures ok ==> (round, queued) == SyncRound(p, old(Value()))
    {
      ok, queued := true, {};
      var next := |chain| + 1;
      if round.target < next {
        var top := TopRank(ranks, 0);
        if top.None? { return false, {}; }
        var isContinue := false;
        if round.minAck.Some? && top.value.address == round.minAck.value.formulator {
          if next in round.blocks {
            var b := round.blocks[next];
            round := round.(target := next, state := BlockWaiting);
            if b.genWait.Some? && b.gen.None? {
              queued := {BlockGenMessage(b.genWait.value)};
              round := round.(blocks := round.blocks[next := b.(genWait := None)]);
            }
            isContinue := true;
          }
        }
        if !isContinue {
          round := NewVoteRound(|chain| + 1, p.maxBlocks);
        }
      }
    }

    // One block from the queue of fetched blocks; the source panics when it does not connect.
    method ConnectQueued(b: Block, env: Env) returns (ok: bool, out: set<Message>, queued: set<Message>)
      requires Valid()
      modifies this`chain, this`ranks, this`sameBlocks
      ensures Valid() && OnQueuedBlock(p, old(Value()), b, env, Outcome(Value(), out, queued, ok))
    {
      ok, out, queued := false, {}, {};
      if !ValidHeader(p, chain, b.header) { return; }
      var e := ValidateSignature(p, ranks, b.header, b.signatures);
      if e != NoError { return; }
      if !env.executes || !env.stores { return; }
      chain := chain + [b];
      ranks := env.nextRanks;
      sameBlocks := env.nextSameBlocks;
      ok, out, queued := true, {Status(Value())}, {};
    }
  }
}
