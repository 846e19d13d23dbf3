/** What runs keep besides locks and certificates: blocks are signed only after they executed, votes are counted
    no further than needed, and connected blocks carry certificates that others accept. */
module VoteHistory {
  import opened Basics
  import opened VotingTypes
  import opened Leader
  import opened Certificates
  import opened VotingSteps
  import opened RoundInvariant
  import opened BlockVotes
  import opened Protocol

  // Locks and votes after a step.

  // The same lock, with the same agreed formulator, as before.
  ghost predicate SameLock(s: Node, s': Node) {
    && s.round.state == BlockVoting && LockedGen(s) && LockedGen(s')
    && s'.round.target == s.round.target && s'.round.minAck == s.round.minAck && LockedBlock(s') == LockedBlock(s)
  }

  // A lock made in this step.
  ghost predicate NewLock(s: Node, e: Event, env: Env, s': Node) {
    && s.round.state == BlockWaiting && LockedGen(s') && e.BlockGenEvent? && env.executes && s'.chain == s.chain
    && LockedBlock(s') == e.gen && Counted(s') == map[]
    && e.gen.generatorSignature.content == HeaderContent(HashOf(e.gen.header))
    && e.gen.generatorSignature.signer == s'.round.minAck.value.formulatorKey
  }

  // A vote counted in this step.
  ghost predicate NewVote(p: Params, s: Node, e: Event, env: Env, o: Outcome) {
    && e.BlockVoteEvent? && e.sender in p.keys && LockedGen(s) && Countable(p, s, e.sender, e.blockVote)
    && CountedVote(p, s, e.sender, e.blockVote, env, e.voteOrder, o)
  }

  ghost predicate LockStep(p: Params, s: Node, e: Event, env: Env, o: Outcome) {
    o.node.round.state == BlockVoting && LockedGen(o.node) ==>
      || NewLock(s, e, env, o.node)
      || (SameLock(s, o.node) && Counted(o.node) == Counted(s))
      || (&& SameLock(s, o.node) && s.round.state == BlockVoting && NewVote(p, s, e, env, o)
          && Counted(o.node) == Counted(s)[e.sender := e.blockVote])
  }

  lemma RoundVoteLock(p: Params, s: Node, k: Key, v: RoundVote, sig: Signature, env: Env, o: Outcome)
    requires OnRoundVote(p, s, k, v, sig, env, o)
    ensures o.node.round.minAck == s.round.minAck && o.node.round.blocks == s.round.blocks
    ensures o.node.round.target == s.round.target
    ensures o.node.round.state == BlockVoting ==> s.round.state == BlockVoting
  {
    hide Authentic, MatchesTop, LockedVoteReply, RoundVoteReply;
  }

  lemma BlockGenLock(p: Params, s: Node, gen: BlockGen, env: Env)
    requires WellFormed(s)
    ensures LockStep(p, s, BlockGenEvent(gen), env, OnBlockGen(p, s, gen, env))
  {
    hide OnBlockGen, BlocksOk, SignedBlockVote, Countable, CountedVote;
    var o := OnBlockGen(p, s, gen, env);
    SigningLocks(p, s, gen, env);
    SignsExactly(p, s, gen, env);
    if o.out != {} {
      VoteIn(s.me, gen, o.out);
    }
  }

  lemma VoteIn(me: Key, gen: BlockGen, out: set<Message>)
    requires out == {SignedBlockVote(me, gen, false)}
    ensures exists m :: m in out && m.BlockVoteMessage?
  {
    assert SignedBlockVote(me, gen, false) in out;
  }

  // A vote that passed the checks leaves the lock with the vote added, as it was, or ends it.
  lemma CountedVoteLock(p: Params, s: Node, k: Key, v: BlockVote, env: Env, order: seq<Key>, o: Outcome)
    requires WellFormed(s) && s.round.state == BlockVoting && CountedVote(p, s, k, v, env, order, o)
    ensures o.node.round.state == BlockVoting && LockedGen(o.node) ==>
              SameLock(s, o.node) && Counted(o.node) in {Counted(s), Counted(s)[k := v]}
  {
    hide NextRound, LockedVoteReply, BlocksOk, Distinct, Elements, ObserverSignatures;
    var s1 := CountVote(s, k, v);
    if |Counted(s1)| >= Quorum(p) && k !in Counted(s) && env.stores {
      OrderCovers(order, Counted(s1));
      NextRoundLock(p, ConnectLocked(s1, LockedBlock(s), ObserverSignatures(Counted(s1), order), env), env);
    }
  }

  lemma NextRoundLock(p: Params, s: Node, env: Env)
    requires s.round.minAck.Some?
    ensures NextRound(p, s, env).node.round.state == BlockVoting ==> NextRound(p, s, env).node.round == s.round
  {
    hide Active, TopRankIn, EmptyBlockRounds;
  }

  lemma BlockVoteLock(p: Params, s: Node, e: Event, env: Env, o: Outcome)
    requires WellFormed(s) && e.BlockVoteEvent?
    requires OnBlockVote(p, s, e.sender, e.blockVote, e.signature, env, e.voteOrder, o)
    ensures LockStep(p, s, e, env, o)
  {
    hide CountedVote, Countable, BlocksOk;
    if s.round.state == BlockVoting && Countable(p, s, e.sender, e.blockVote) && e.sender in p.keys
       && CountedVote(p, s, e.sender, e.blockVote, env, e.voteOrder, o)
    {
      CountedVoteLock(p, s, e.sender, e.blockVote, env, e.voteOrder, o);
    }
  }

  lemma TimerLock(p: Params, s: Node, env: Env)
    requires WellFormed(s)
    ensures LockStep(p, s, VoteTimerEvent, env, OnVoteTimer(p, s, env))
  {
    hide Tick, BlocksOk, TakeWaiting, EmptyBlockRounds, Countable, CountedVote;
    if !(s.round.target <= |s.chain| && s.ranks == []) {
      SyncKeeps(p, s);
      var (round, queued) := SyncRound(p, s);
      TickFrame(p, s.(round := round), queued, env);
    }
  }

  lemma StepLock(p: Params, s: Node, e: Event, env: Env, o: Outcome)
    requires NodeStep(p, s, e, env, o)
    ensures LockStep(p, s, e, env, o)
  {
    hide OnRoundVote, OnAck, OnBlockGen, OnBlockVote, OnVoteTimer, BlocksOk, Countable, CountedVote;
    match e {
      case RoundVoteEvent(k, v, sig) => RoundVoteLock(p, s, k, v, sig, env, o);
      case AckEvent(k, a, sig, order) => AckLock(p, s, k, a, sig, env, order, o);
      case BlockGenEvent(gen) => BlockGenLock(p, s, gen, env);
      case BlockVoteEvent(_, _, _, _) => BlockVoteLock(p, s, e, env, o);
      case VoteTimerEvent => TimerLock(p, s, env);
      case QueuedBlockEvent(_) =>
    }
  }

  lemma AckLock(p: Params, s: Node, k: Key, a: RoundVoteAck, sig: Signature, env: Env, order: seq<Key>, o: Outcome)
    requires OnAck(p, s, k, a, sig, env, order, o)
    ensures o.node.round.state == BlockVoting ==>
              && s.round.state == BlockVoting && o.node.round.minAck == s.round.minAck
              && o.node.round.blocks == s.round.blocks && o.node.round.target == s.round.target
  {
    hide OnAck, TrimBlocks, RemainingBlocks, TakeWaiting;
    var _ := AckCases(p, s, k, a, sig, env, order, o);
  }

  // The history invariant.

  // What an observer has signed it has found to execute.
  ghost predicate SignedExecuted(signed: set<Signature>, executed: set<(Key, Header)>, k: Key) {
    forall h :: HasSigned(signed, k, h) ==> (k, h) in executed
  }

  // A locked block has fewer votes than connect it, unless storing it has failed.
  ghost predicate FewVotes(p: Params, failed: set<(Key, nat)>, s: Node) {
    Locked(s) && LockedGen(s) && (s.me, s.round.target) !in failed ==> |Counted(s)| < |p.keys| / 2 + 1
  }

  ghost predicate History(p: Params, sys: System) {
    forall k :: k in sys.nodes ==>
      && SignedExecuted(sys.signed, sys.executed, k) && FewVotes(p, sys.failed, sys.nodes[k])
      && LockSound(p, sys.nodes[k])
  }

  lemma LockStaysSound(p: Params, s: Node, e: Event, env: Env, o: Outcome)
    requires NodeStep(p, s, e, env, o) && LockSound(p, s)
    ensures LockSound(p, o.node)
  {
    hide NodeStep, CountedVote, WellFormed;
    StepLock(p, s, e, env, o);
  }

  lemma VotesStayFew(p: Params, failed: set<(Key, nat)>, s: Node, e: Event, env: Env, o: Outcome)
    requires NodeStep(p, s, e, env, o) && FewVotes(p, failed, s)
    ensures FewVotes(p, failed + StoreFailures(p, s.me, s, e, env), o.node)
  {
    hide OnRoundVote, OnAck, OnBlockGen, OnBlockVote, OnVoteTimer, OnQueuedBlock, BlocksOk, Countable, CountedVote;
    StepLock(p, s, e, env, o);
    EventEffect(p, s, e, env, o);
    if Locked(o.node) && SameLock(s, o.node) {
      assert o.node.chain == s.chain && Locked(s);
      if NewVote(p, s, e, env, o) {
        QuorumConnects(p, s, e.sender, e.blockVote, env, e.voteOrder, o);
        NewVoter(Counted(s), e.sender, e.blockVote);
      }
    }
  }

  lemma SigningExecutes(p: Params, signed: set<Signature>, executed: set<(Key, Header)>, s: Node, e: Event, env: Env,
                        o: Outcome)
    requires NodeStep(p, s, e, env, o) && LockSigned(signed, s) && SignedExecuted(signed, executed, s.me)
    ensures SignedExecuted(signed + Made(o.out), executed + Executions(s.me, e, env), s.me)
  {
    hide NodeStep, BlocksOk, CountedVote, Countable;
    StepLock(p, s, e, env, o);
    EventEffect(p, s, e, env, o);
    forall h | HasSigned(signed + Made(o.out), s.me, h) ensures (s.me, h) in executed + Executions(s.me, e, env) {
      OwnNew(s, o, signed, h);
    }
  }

  lemma OthersKeepExecuted(s: Node, o: Outcome, signed: set<Signature>, executed: set<(Key, Header)>,
                           more: set<(Key, Header)>, k: Key)
    requires SignsOwn(s, o) && k != s.me && SignedExecuted(signed, executed, k)
    ensures SignedExecuted(signed + Made(o.out), executed + more, k)
  {
    forall h | HasSigned(signed + Made(o.out), k, h) ensures (k, h) in executed {
      OthersUnchanged(s, o, signed, k, h);
    }
  }

  lemma NextHistory(p: Params, faulty: set<Key>, sys: System, sys': System)
    requires Inv(p, faulty, sys) && History(p, sys) && Next(p, faulty, sys, sys')
    ensures History(p, sys')
  {
    hide NodeStep, LockSound, FewVotes, SignedExecuted, NodeInv, Effect, SignsOwn;
    var k, e, env, o :| StepBy(p, faulty, sys, sys', k, e, env, o);
    var s := sys.nodes[k];
    assert LockSigned(sys.signed, s) by { assert NodeInv(p, faulty, sys.signed, s); LockOf(p, faulty, sys.signed, s); }
    LockStaysSound(p, s, e, env, o);
    VotesStayFew(p, sys.failed, s, e, env, o);
    SigningExecutes(p, sys.signed, sys.executed, s, e, env, o);
    OwnEffect(p, s, e, env, o);
    forall j | j in sys'.nodes
      ensures && SignedExecuted(sys'.signed, sys'.executed, j) && FewVotes(p, sys'.failed, sys'.nodes[j])
              && LockSound(p, sys'.nodes[j])
    {
      if j != k {
        OthersKeepExecuted(s, o, sys.signed, sys.executed, Executions(k, e, env), j);
        MoreFailures(p, sys.failed, sys'.failed, sys.nodes[j]);
      }
    }
  }

  lemma LockOf(p: Params, faulty: set<Key>, signed: set<Signature>, s: Node)
    requires NodeInv(p, faulty, signed, s)
    ensures LockSigned(signed, s)
  {
  }

  lemma OwnEffect(p: Params, s: Node, e: Event, env: Env, o: Outcome)
    requires NodeStep(p, s, e, env, o)
    ensures SignsOwn(s, o) && o.node.me == s.me
  {
    hide NodeStep;
    EventEffect(p, s, e, env, o);
  }

  lemma MoreFailures(p: Params, failed: set<(Key, nat)>, failed': set<(Key, nat)>, s: Node)
    requires FewVotes(p, failed, s) && failed <= failed'
    ensures FewVotes(p, failed', s)
  {
  }

  lemma InitHistory(p: Params, faulty: set<Key>, sys: System)
    requires Init(p, faulty, sys)
    ensures History(p, sys)
  {
  }

  lemma {:induction false} RunHistory(p: Params, faulty: set<Key>, run: seq<System>, i: nat)
    requires IsRun(p, faulty, run) && i < |run|
    ensures History(p, run[i])
  {
    hide Inv, Next, History, Init;
    if i == 0 {
      InitHistory(p, faulty, run[0]);
    } else {
      RunHistory(p, faulty, run, i - 1);
      RunInv(p, faulty, run, i - 1);
      assert NextAt(p, faulty, run, i - 1);
      NextHistory(p, faulty, run[i - 1], run[i]);
    }
  }

  ghost predicate AllExecuted(p: Params, faulty: set<Key>, executed: set<(Key, Header)>, ks: set<Key>, h: Header) {
    forall k :: k in ks ==> Honest(p, faulty, k) && (k, h) in executed
  }

  /** In every run, a header that has a certificate was found to execute by at least n/2+1 observers less the
      faulty ones, all of them following the code. */
  lemma CertifiedExecuted(p: Params, faulty: set<Key>, run: seq<System>, i: nat, h: Header)
    requires IsRun(p, faulty, run) && i < |run| && Certified(p, faulty, run[i].signed, h)
    ensures exists ks :: |ks| >= |p.keys| / 2 + 1 - |faulty| && AllExecuted(p, faulty, run[i].executed, ks, h)
  {
    hide IsRun;
    RunHistory(p, faulty, run, i);
    RunInv(p, faulty, run, i);
    var signers :| |signers| >= Quorum(p) && AllSupport(p, faulty, run[i].signed, signers, h);
    var ks := signers - faulty;
    SubsetSize(signers * faulty, faulty);
    assert signers == ks + signers * faulty;
    forall k | k in ks ensures Honest(p, faulty, k) && (k, h) in run[i].executed {
      assert Supports(p, faulty, run[i].signed, k, h);
      assert k in run[i].nodes;
    }
    assert AllExecuted(p, faulty, run[i].executed, ks, h);
  }

  /** In every run, an observer that has a block locked and has not failed to store one at this height holds
      fewer than n/2+1 votes for it. */
  lemma LockedHoldsFewVotes(p: Params, faulty: set<Key>, run: seq<System>, i: nat, k: Key)
    requires IsRun(p, faulty, run) && i < |run| && k in run[i].nodes
    requires Locked(run[i].nodes[k]) && (k, run[i].nodes[k].round.target) !in run[i].failed
    ensures LockedGen(run[i].nodes[k]) && |Counted(run[i].nodes[k])| < |p.keys| / 2 + 1
  {
    hide IsRun;
    RunHistory(p, faulty, run, i);
    RunInv(p, faulty, run, i);
    assert NodeInv(p, faulty, run[i].signed, run[i].nodes[k]);
    assert FewVotes(p, run[i].failed, run[i].nodes[k]);
  }

  /** In every run, the block that a vote connects passes the signature check of the others if and only if
      exactly n/2+1 votes were counted for it and all are over the locked generator signature; and if the
      observer has not failed to store a block at this height, the votes are exactly that many. */
  lemma ConnectedAccepted(p: Params, faulty: set<Key>, run: seq<System>, i: nat, sys': System, k: Key, e: Event,
                          env: Env, o: Outcome)
    requires IsRun(p, faulty, run) && i < |run| && StepBy(p, faulty, run[i], sys', k, e, env, o)
    requires e.BlockVoteEvent? && o.node.chain != run[i].nodes[k].chain
    ensures var s := run[i].nodes[k];
            && LockedGen(s) && |o.node.chain| == |s.chain| + 1
            && var b, votes := o.node.chain[|s.chain|], Counted(s)[e.sender := e.blockVote];
               && (ValidCertificate(p, s.ranks, b.header, b.signatures) <==>
                     |votes| == |p.keys| / 2 + 1 && SameGeneratorSignature(s, votes))
               && ((k, s.round.target) !in run[i].failed ==> |votes| == |p.keys| / 2 + 1)
  {
    hide IsRun, Countable, CountedVote, ValidCertificate, SameGeneratorSignature, BlocksOk, StoreFailures;
    RunHistory(p, faulty, run, i);
    RunInv(p, faulty, run, i);
    var s := run[i].nodes[k];
    assert NodeInv(p, faulty, run[i].signed, s);
    ConnectingVote(p, s, e, env, o);
    QuorumConnects(p, s, e.sender, e.blockVote, env, e.voteOrder, o);
    CertificateExactly(p, s, e.sender, e.blockVote, env, e.voteOrder, o);
    NewVoter(Counted(s), e.sender, e.blockVote);
  }

  // Only a counted vote for a locked block of the next height changes the chain.
  lemma ConnectingVote(p: Params, s: Node, e: Event, env: Env, o: Outcome)
    requires NodeStep(p, s, e, env, o) && e.BlockVoteEvent? && o.node.chain != s.chain
    ensures s.round.state == BlockVoting && LockedGen(s) && NewVote(p, s, e, env, o) && Locked(s)
  {
    hide CountedVote;
  }
}
