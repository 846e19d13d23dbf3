/** All observers together, over a network that may lose, duplicate, delay and reorder messages,
    with generators that may equivocate: no two blocks of one height are both certified. */
module Protocol {
  import opened Basics
  import opened VotingTypes
  import opened Leader
  import opened Certificates
  import opened VotingSteps
  import opened RoundInvariant

  datatype Event =
    | RoundVoteEvent(sender: Key, vote: RoundVote, signature: Signature)
    | AckEvent(sender: Key, ack: RoundVoteAck, signature: Signature, ackOrder: seq<Key>)
    | BlockGenEvent(gen: BlockGen)
    | BlockVoteEvent(sender: Key, blockVote: BlockVote, signature: Signature, voteOrder: seq<Key>)
    | VoteTimerEvent
    | QueuedBlockEvent(block: Block)

  /** The observers that follow the code, every block signature one of them has made, the headers each has
      found to execute, and the heights at which each has failed to store a block with enough votes. */
  datatype System = System(nodes: map<Key, Node>, signed: set<Signature>,
                           executed: set<(Key, Header)>, failed: set<(Key, nat)>)

  ghost predicate Honest(p: Params, faulty: set<Key>, k: Key) { k in p.keys && k !in faulty }

  /** With n odd no observer may be faulty (restarted, or not following the code); with n even,
      one may be. */
  ghost predicate FewFaults(p: Params, faulty: set<Key>) {
    |faulty| < 2 * Quorum(p) - |p.keys|
  }

  ghost predicate NodeStep(p: Params, s: Node, e: Event, env: Env, o: Outcome) {
    && WellFormed(s)
    && match e
       case RoundVoteEvent(k, v, sig) => OnRoundVote(p, s, k, v, sig, env, o)
       case AckEvent(k, a, sig, order) => OnAck(p, s, k, a, sig, env, order, o)
       case BlockGenEvent(gen) => o == OnBlockGen(p, s, gen, env)
       case BlockVoteEvent(k, v, sig, order) => OnBlockVote(p, s, k, v, sig, env, order, o)
       case VoteTimerEvent => o == OnVoteTimer(p, s, env)
       case QueuedBlockEvent(b) => OnQueuedBlock(p, s, b, env, o)
  }

  // The observer signatures over blocks that an incoming message carries.
  ghost function Carried(e: Event): set<Signature> {
    match e
    case BlockVoteEvent(_, v, _, _) => {v.observerSignature}
    case QueuedBlockEvent(b) => set sig | sig in b.signatures
    case _ => {}
  }

  /** Signatures cannot be forged: a block signature of an honest observer only appears in a
      message after that observer made it.  Nothing else restricts what the network delivers. */
  ghost predicate Unforged(p: Params, faulty: set<Key>, signed: set<Signature>, e: Event) {
    forall sig :: sig in Carried(e) && sig.content.BlockSignContent? && Honest(p, faulty, sig.signer) ==> sig in signed
  }

  ghost function Made(out: set<Message>): set<Signature> {
    set m | m in out && m.BlockVoteMessage? :: m.blockVote.observerSignature
  }

  ghost predicate Init(p: Params, faulty: set<Key>, sys: System) {
    && (forall k :: k in sys.nodes <==> Honest(p, faulty, k))
    && (forall k :: k in sys.nodes ==> sys.nodes[k] == NewNode(p, k, sys.nodes[k].ranks))
    && sys.signed == {} && sys.executed == {} && sys.failed == {}
  }

  // A generated block executed.
  ghost function Executions(k: Key, e: Event, env: Env): set<(Key, Header)> {
    if e.BlockGenEvent? && env.executes then {(k, e.gen.header)} else {}
  }

  // With this vote more than half of the observers have voted for the locked block, and it cannot be stored.
  ghost function StoreFailures(p: Params, k: Key, s: Node, e: Event, env: Env): set<(Key, nat)> {
    if e.BlockVoteEvent? && !env.stores && LockedGen(s)
       && |s.round.blocks[s.round.target].votes[e.sender := e.blockVote]| >= |p.keys| / 2 + 1
    then {(k, s.round.target)} else {}
  }

  ghost predicate StepBy(p: Params, faulty: set<Key>, sys: System, sys': System, k: Key, e: Event, env: Env,
                         o: Outcome) {
    && k in sys.nodes
    && Unforged(p, faulty, sys.signed, e)
    && NodeStep(p, sys.nodes[k], e, env, o)
    && sys' == System(sys.nodes[k := o.node], sys.signed + Made(o.out), sys.executed + Executions(k, e, env),
                      sys.failed + StoreFailures(p, k, sys.nodes[k], e, env))
  }

  ghost predicate Next(p: Params, faulty: set<Key>, sys: System, sys': System) {
    exists k, e, env, o :: StepBy(p, faulty, sys, sys', k, e, env, o)
  }

  ghost predicate IsRun(p: Params, faulty: set<Key>, run: seq<System>) {
    && run != [] && Init(p, faulty, run[0])
    && forall i: nat :: i + 1 < |run| ==> NextAt(p, faulty, run, i)
  }

  ghost predicate NextAt(p: Params, faulty: set<Key>, run: seq<System>, i: nat)
    requires i + 1 < |run|
  {
    Next(p, faulty, run[i], run[i + 1])
  }

  // Vote locking, per observer.

  predicate Locked(s: Node) {
    && s.round.state == BlockVoting && s.round.target == |s.chain| + 1
    && s.round.target in s.round.blocks && s.round.blocks[s.round.target].gen.Some?
  }

  function LockedHeader(s: Node): Header
    requires s.round.state == BlockVoting && s.round.target in s.round.blocks
             && s.round.blocks[s.round.target].gen.Some?
  {
    s.round.blocks[s.round.target].gen.value.header
  }

  // Once voted, the vote stays until the chain has grown.
  ghost predicate KeepsLock(s: Node, s': Node) {
    Locked(s) ==> |s'.chain| > |s.chain| || (Locked(s') && LockedHeader(s') == LockedHeader(s) && s'.chain == s.chain)
  }

  // The chain is left alone or extended by one block of the next height.
  predicate ExtendsChain(s: Node, s': Node) {
    || s'.chain == s.chain
    || (s'.chain != [] && s'.chain[..|s'.chain| - 1] == s.chain && s'.chain[|s.chain|].header.height == |s.chain| + 1)
  }

  // What an observer signs in a step: the block it had locked, or one it locks now.
  predicate Signs(s: Node, s': Node, h: Header) {
    || (s.round.state == BlockVoting && LockedGen(s) && h == LockedHeader(s))
    || (s.round.state == BlockWaiting && Locked(s') && h == LockedHeader(s') && s'.chain == s.chain)
  }

  predicate OwnVote(s: Node, s': Node, v: BlockVote) {
    && v.observerSignature == Signature(s.me, BlockSignContent(HashOf(v.header), v.generatorSignature), 0)
    && Signs(s, s', v.header)
  }

  ghost predicate SignsOwn(s: Node, o: Outcome) {
    forall m :: m in o.out && m.BlockVoteMessage? ==> OwnVote(s, o.node, m.blockVote)
  }

  // A block is only locked together with sending the vote for it.
  ghost predicate LocksBySigning(s: Node, o: Outcome) {
    o.node.round.state == BlockVoting && LockedGen(o.node) ==>
      || (s.round.state == BlockVoting && LockedGen(s) && LockedHeader(s) == LockedHeader(o.node))
      || SignedBlockVote(s.me, o.node.round.blocks[o.node.round.target].gen.value, false) in o.out
  }

  ghost predicate Effect(s: Node, o: Outcome) {
    && LocksBySigning(s, o)
    && o.node.me == s.me
    && ExtendsChain(s, o.node)
    && KeepsLock(s, o.node)
    && SignsOwn(s, o)
    && WellFormed(o.node)
  }

  lemma RoundVoteFrame(p: Params, s: Node, k: Key, v: RoundVote, sig: Signature, env: Env, o: Outcome)
    requires OnRoundVote(p, s, k, v, sig, env, o)
    ensures o.node.chain == s.chain && o.node.me == s.me && o.node.round.blocks == s.round.blocks
    ensures o.node.round.target == s.round.target
    ensures o.node.round.state == s.round.state || s.round.state == RoundVoting
  {
  }

  lemma RoundVoteSigns(p: Params, s: Node, k: Key, v: RoundVote, sig: Signature, env: Env, o: Outcome)
    requires WellFormed(s) && OnRoundVote(p, s, k, v, sig, env, o)
    ensures SignsOwn(s, o)
  {
    hide BlocksOk, Authentic, MatchesTop;
  }

  lemma RoundVoteEffect(p: Params, s: Node, k: Key, v: RoundVote, sig: Signature, env: Env, o: Outcome)
    requires WellFormed(s) && OnRoundVote(p, s, k, v, sig, env, o)
    ensures Effect(s, o) && o.node.chain == s.chain && o.node.round.blocks == s.round.blocks
  {
    RoundVoteKeeps(p, s, k, v, sig, env, o);
    RoundVoteFrame(p, s, k, v, sig, env, o);
    RoundVoteSigns(p, s, k, v, sig, env, o);
  }

  lemma AckFrame(p: Params, s: Node, k: Key, a: RoundVoteAck, sig: Signature, env: Env, order: seq<Key>, o: Outcome)
    requires OnAck(p, s, k, a, sig, env, order, o)
    ensures o.node.chain == s.chain && o.node.me == s.me
    ensures (s.round.state == RoundAcking && o.node.round.state == BlockWaiting)
            || (&& o.node.round.state == s.round.state && o.node.round.target == s.round.target
                && o.node.round.blocks == s.round.blocks)
  {
    hide OnAck, TrimBlocks, RemainingBlocks, TakeWaiting;
    var _ := AckCases(p, s, k, a, sig, env, order, o);
  }

  lemma AckSigns(p: Params, s: Node, k: Key, a: RoundVoteAck, sig: Signature, env: Env, order: seq<Key>, o: Outcome)
    requires WellFormed(s) && OnAck(p, s, k, a, sig, env, order, o)
    ensures SignsOwn(s, o)
  {
    hide StartBlocks, IsChoice, BlocksOk, Authentic, MatchesTop;
  }

  lemma AckEffect(p: Params, s: Node, k: Key, a: RoundVoteAck, sig: Signature, env: Env, order: seq<Key>, o: Outcome)
    requires WellFormed(s) && OnAck(p, s, k, a, sig, env, order, o)
    ensures Effect(s, o) && o.node.chain == s.chain
  {
    hide OnAck, BlocksOk;
    AckKeeps(p, s, k, a, sig, env, order, o);
    AckFrame(p, s, k, a, sig, env, order, o);
    AckSigns(p, s, k, a, sig, env, order, o);
  }

  lemma BlockGenEffect(p: Params, s: Node, gen: BlockGen, env: Env)
    requires WellFormed(s)
    ensures Effect(s, OnBlockGen(p, s, gen, env))
  {
    BlockGenKeeps(p, s, gen, env);
  }

  lemma ConnectFrame(p: Params, s: Node, gen: BlockGen, sigs: seq<Signature>, env: Env)
    requires s.round.minAck.Some?
    ensures var o := NextRound(p, ConnectLocked(s, gen, sigs, env), env);
            && o.node.chain == s.chain + [Block(gen.header, gen.body, [gen.generatorSignature] + sigs)]
            && o.node.me == s.me
            && (o.node.round.blocks == s.round.blocks
                || o.node.round.blocks == EmptyBlockRounds(|o.node.chain| + 1, p.maxBlocks))
            && (o.node.round.state == BlockVoting ==> o.node.round == s.round)
            && (forall m :: m in o.out ==> m.StatusMessage?)
  {
  }

  // Counting a vote connects the locked block with a quorum of the counted votes.
  ghost predicate Connects(p: Params, s: Node, order: seq<Key>, s': Node)
    requires LockedGen(s)
  {
    var b := s.round.blocks[s.round.target];
    && |b.votes| >= Quorum(p)
    && Elements(order) == b.votes.Keys
    && s'.chain == s.chain + [Block(b.gen.value.header, b.gen.value.body,
                                    [b.gen.value.generatorSignature] + ObserverSignatures(b.votes, order))]
    && (s'.round.blocks == s.round.blocks || s'.round.blocks == EmptyBlockRounds(|s'.chain| + 1, p.maxBlocks))
    && (s'.round.state == BlockVoting ==> s'.round == s.round)
  }

  lemma CountedVoteFrame(p: Params, s: Node, k: Key, v: BlockVote, env: Env, order: seq<Key>, o: Outcome)
    requires WellFormed(s) && s.round.state == BlockVoting
    requires CountedVote(p, s, k, v, env, order, o)
    ensures o.node.me == s.me
    ensures || o.node == s || (o.node.chain == s.chain && o.node.round == CountVote(s, k, v).round)
            || Connects(p, CountVote(s, k, v), order, o.node)
    ensures forall m :: m in o.out && m.BlockVoteMessage? ==> m in LockedVoteReply(s)
  {
    var s1 := CountVote(s, k, v);
    var b := s1.round.blocks[s.round.target];
    if k !in s.round.blocks[s.round.target].votes && |b.votes| >= Quorum(p) && env.stores {
      ConnectFrame(p, s1, b.gen.value, ObserverSignatures(b.votes, order), env);
    }
  }

  lemma AppendExtends(s: Node, s': Node, b: Block)
    requires s'.chain == s.chain + [b] && b.header.height == |s.chain| + 1
    ensures ExtendsChain(s, s')
  {
  }

  lemma ConnectsEffect(p: Params, s: Node, order: seq<Key>, s': Node)
    requires LockedGen(s) && s.round.state == BlockVoting && Connects(p, s, order, s')
    requires LockedHeader(s).height == |s.chain| + 1
    ensures ExtendsChain(s, s') && |s'.chain| > |s.chain|
    ensures s'.round.state == BlockVoting && LockedGen(s') ==> LockedHeader(s') == LockedHeader(s)
  {
    hide ObserverSignatures, EmptyBlockRounds, ExtendsChain, Elements;
    AppendExtends(s, s', s'.chain[|s.chain|]);
  }

  lemma CountedVoteEffect(p: Params, s: Node, k: Key, v: BlockVote, env: Env, order: seq<Key>, o: Outcome)
    requires WellFormed(s) && s.round.state == BlockVoting && Countable(p, s, k, v)
    requires CountedVote(p, s, k, v, env, order, o)
    ensures Effect(s, o)
  {
    hide CountedVote, BlocksOk, Connects;
    CountedVoteKeeps(p, s, k, v, env, order, o);
    CountedVoteFrame(p, s, k, v, env, order, o);
    if Connects(p, CountVote(s, k, v), order, o.node) {
      ConnectsEffect(p, CountVote(s, k, v), order, o.node);
    }
  }

  lemma BlockVoteEffect(p: Params, s: Node, k: Key, v: BlockVote, sig: Signature, env: Env, order: seq<Key>,
                        o: Outcome)
    requires WellFormed(s) && OnBlockVote(p, s, k, v, sig, env, order, o)
    ensures Effect(s, o)
  {
    BlockVoteKeeps(p, s, k, v, sig, env, order, o);
    if s.round.state == BlockVoting && Countable(p, s, k, v) && CountedVote(p, s, k, v, env, order, o) {
      CountedVoteEffect(p, s, k, v, env, order, o);
    }
  }

  // A timer only ever restarts a round that has locked nothing at the next height.
  lemma TickFrame(p: Params, s: Node, queued: set<Message>, env: Env)
    requires WellFormed(s)
    ensures var o := Tick(p, s, queued, env);
            && o.node.chain == s.chain && o.node.me == s.me
            && (s.round.state == BlockVoting ==> o.node == s)
            && (s.round.state != BlockVoting ==> o.node.round.state != BlockVoting)
            && (forall m :: m in o.out && m.BlockVoteMessage? ==>
                  && s.round.state == BlockVoting
                  && m == SignedBlockVote(s.me, s.round.blocks[s.round.target].gen.value, false))
  {
    hide EmptyBlockRounds, Active, BlocksOk;
  }

  lemma VoteTimerEffect(p: Params, s: Node, env: Env)
    requires WellFormed(s)
    ensures Effect(s, OnVoteTimer(p, s, env))
  {
    VoteTimerKeeps(p, s, env);
    hide Tick, TakeWaiting, EmptyBlockRounds, BlocksOk;
    if !(s.round.target <= |s.chain| && s.ranks == []) {
      SyncKeeps(p, s);
      var (round, queued) := SyncRound(p, s);
      TickFrame(p, s.(round := round), queued, env);
    }
  }

  lemma QueuedBlockEffect(p: Params, s: Node, b: Block, env: Env, o: Outcome)
    requires WellFormed(s) && OnQueuedBlock(p, s, b, env, o)
    ensures Effect(s, o)
  {
  }

  // Every block round has the lock and votes it had before, or no votes at all.
  ghost predicate Inherits(a: map<nat, BlockRound>, b: map<nat, BlockRound>) {
    forall h :: h in b ==> b[h].votes == map[] || (h in a && b[h].gen == a[h].gen && b[h].votes == a[h].votes)
  }

  lemma TrimInherits(blocks: map<nat, BlockRound>, end: nat, formulator: Address)
    ensures Inherits(blocks, TrimBlocks(blocks, end, formulator))
  {
  }

  lemma TakeInherits(a: map<nat, BlockRound>, b: map<nat, BlockRound>, h: nat)
    requires Inherits(a, b)
    ensures Inherits(a, TakeWaiting(b, h).0)
  {
  }

  lemma TrimTakeInherits(blocks: map<nat, BlockRound>, end: nat, formulator: Address, h: nat)
    ensures Inherits(blocks, TakeWaiting(TrimBlocks(blocks, end, formulator), h).0)
  {
    TrimInherits(blocks, end, formulator);
    TakeInherits(blocks, TrimBlocks(blocks, end, formulator), h);
  }

  lemma StartInherits(p: Params, s: Node, c: RoundVoteAck)
    ensures Inherits(s.round.blocks, StartBlocks(p, s, c).0.blocks)
  {
    hide RemainingBlocks, TrimBlocks, TakeWaiting, Inherits;
    TrimTakeInherits(s.round.blocks, s.round.target + RemainingBlocks(p, s, c), c.formulator, s.round.target);
  }

  lemma AckInherits(p: Params, s: Node, k: Key, a: RoundVoteAck, sig: Signature, env: Env, order: seq<Key>,
                    o: Outcome)
    requires OnAck(p, s, k, a, sig, env, order, o)
    ensures Inherits(s.round.blocks, o.node.round.blocks)
  {
    var c := AckCases(p, s, k, a, sig, env, order, o);
    if c.Some? {
      StartInherits(p, s.(round := s.round.(acks := s.round.acks[k := a])), c.value);
    }
  }

  lemma BlockGenInherits(p: Params, s: Node, gen: BlockGen, env: Env)
    requires WellFormed(s)
    ensures Inherits(s.round.blocks, OnBlockGen(p, s, gen, env).node.round.blocks)
  {
    var h := gen.header.height;
    if h in s.round.blocks {
      assert BlockOk(s.round.blocks[h], h, s.round.target, s.round.state);
    }
  }

  lemma HoldVoteInherits(s: Node, h: nat, k: Key, v: BlockVote, sig: Signature)
    requires h in s.round.blocks
    ensures Inherits(s.round.blocks, HoldVote(s, h, k, v, sig).round.blocks)
  {
  }

  lemma FailureBlocks(p: Params, s: Node, env: Env)
    ensures var b := CountFailure(p, s, env).round.blocks;
            b == s.round.blocks || b == EmptyBlockRounds(|s.chain| + 1, p.maxBlocks)
  {
    hide EmptyBlockRounds;
  }

  lemma TickBlocks(p: Params, s: Node, queued: set<Message>, env: Env)
    ensures var r := Tick(p, s, queued, env).node.round;
            r.blocks == s.round.blocks || r.blocks == EmptyBlockRounds(|s.chain| + 1, p.maxBlocks)
  {
    hide EmptyBlockRounds, FreshRoundVote, Active, SignedBlockVote, CountFailure;
    FailureBlocks(p, s, env);
    FailureBlocks(p, s.(round := s.round.(failCount := 0)), env);
  }

  lemma SyncInherits(p: Params, s: Node)
    requires s.round.target <= |s.chain| ==> s.ranks != []
    ensures Inherits(s.round.blocks, SyncRound(p, s).0.blocks)
  {
    TakeInherits(s.round.blocks, s.round.blocks, |s.chain| + 1);
  }

  lemma VoteTimerInherits(p: Params, s: Node, env: Env)
    ensures Inherits(s.round.blocks, OnVoteTimer(p, s, env).node.round.blocks)
  {
    if !(s.round.target <= |s.chain| && s.ranks == []) {
      SyncInherits(p, s);
      var (round, queued) := SyncRound(p, s);
      TickBlocks(p, s.(round := round), queued, env);
    }
  }

  // Certificates and the signatures behind them.

  predicate SignsHeader(sig: Signature, h: Header) {
    sig.content.BlockSignContent? && sig.content.headerHash == HashOf(h)
  }

  ghost predicate HasSigned(signed: set<Signature>, k: Key, h: Header) {
    exists sig :: sig in signed && sig.signer == k && SignsHeader(sig, h)
  }

  // k is an observer, and if it is honest it has signed h.
  ghost predicate Supports(p: Params, faulty: set<Key>, signed: set<Signature>, k: Key, h: Header) {
    k in p.keys && (k !in faulty ==> HasSigned(signed, k, h))
  }

  /** Header h has gathered the signatures of n/2+1 observers. */
  ghost predicate Certified(p: Params, faulty: set<Key>, signed: set<Signature>, h: Header) {
    exists signers :: |signers| >= Quorum(p) && AllSupport(p, faulty, signed, signers, h)
  }

  ghost predicate AllSupport(p: Params, faulty: set<Key>, signed: set<Signature>, signers: set<Key>, h: Header) {
    forall k :: k in signers ==> Supports(p, faulty, signed, k, h)
  }

  ghost predicate VotesBacked(p: Params, faulty: set<Key>, signed: set<Signature>, blocks: map<nat, BlockRound>) {
    forall h, k :: h in blocks && k in blocks[h].votes ==>
                     blocks[h].gen.Some? && Supports(p, faulty, signed, k, blocks[h].gen.value.header)
  }

  ghost predicate ChainCertified(p: Params, faulty: set<Key>, signed: set<Signature>, chain: seq<Block>) {
    forall i :: 0 <= i < |chain| ==> chain[i].header.height == i + 1 && Certified(p, faulty, signed, chain[i].header)
  }

  /** Observer k has signed at most one header per height. */
  ghost predicate OneVotePerHeight(signed: set<Signature>, k: Key) {
    forall h, h' :: HasSigned(signed, k, h) && HasSigned(signed, k, h') && h.height == h'.height ==> h == h'
  }

  // What the observer has signed is at or below its chain's height, or is the block it has locked.
  ghost predicate WithinLock(signed: set<Signature>, s: Node) {
    forall h :: HasSigned(signed, s.me, h) ==> h.height <= |s.chain| || (Locked(s) && h == LockedHeader(s))
  }

  ghost predicate LockSigned(signed: set<Signature>, s: Node) {
    s.round.state == BlockVoting && LockedGen(s) ==> HasSigned(signed, s.me, LockedHeader(s))
  }

  ghost predicate NodeInv(p: Params, faulty: set<Key>, signed: set<Signature>, s: Node) {
    && WellFormed(s)
    && VotesBacked(p, faulty, signed, s.round.blocks)
    && ChainCertified(p, faulty, signed, s.chain)
    && WithinLock(signed, s) && LockSigned(signed, s)
    && OneVotePerHeight(signed, s.me)
  }

  ghost predicate Inv(p: Params, faulty: set<Key>, sys: System) {
    && (forall k :: k in sys.nodes <==> Honest(p, faulty, k))
    && (forall k :: k in sys.nodes ==> sys.nodes[k].me == k && NodeInv(p, faulty, sys.signed, sys.nodes[k]))
  }

  lemma MoreSigned(p: Params, faulty: set<Key>, signed: set<Signature>, signed': set<Signature>, s: Node)
    requires signed <= signed'
    ensures VotesBacked(p, faulty, signed, s.round.blocks) ==> VotesBacked(p, faulty, signed', s.round.blocks)
    ensures ChainCertified(p, faulty, signed, s.chain) ==> ChainCertified(p, faulty, signed', s.chain)
  {
    forall k, h | Supports(p, faulty, signed, k, h) ensures Supports(p, faulty, signed', k, h) {
    }
    forall h | Certified(p, faulty, signed, h) ensures Certified(p, faulty, signed', h) {
      var signers :| |signers| >= Quorum(p) && AllSupport(p, faulty, signed, signers, h);
      assert AllSupport(p, faulty, signed', signers, h);
    }
  }

  lemma EventEffect(p: Params, s: Node, e: Event, env: Env, o: Outcome)
    requires NodeStep(p, s, e, env, o)
    ensures Effect(s, o)
  {
    match e
    case RoundVoteEvent(k, v, sig) => RoundVoteEffect(p, s, k, v, sig, env, o);
    case AckEvent(k, a, sig, order) => AckEffect(p, s, k, a, sig, env, order, o);
    case BlockGenEvent(gen) => BlockGenEffect(p, s, gen, env);
    case BlockVoteEvent(k, v, sig, order) => BlockVoteEffect(p, s, k, v, sig, env, order, o);
    case VoteTimerEvent => VoteTimerEffect(p, s, env);
    case QueuedBlockEvent(b) => QueuedBlockEffect(p, s, b, env, o);
  }

  // Signing: the step adds only signatures of the acting observer, for its lock.

  lemma OthersUnchanged(s: Node, o: Outcome, signed: set<Signature>, k: Key, h: Header)
    requires SignsOwn(s, o) && k != s.me
    ensures HasSigned(signed + Made(o.out), k, h) <==> HasSigned(signed, k, h)
  {
  }

  lemma OwnNew(s: Node, o: Outcome, signed: set<Signature>, h: Header)
    requires SignsOwn(s, o) && HasSigned(signed + Made(o.out), s.me, h)
    ensures HasSigned(signed, s.me, h) || Signs(s, o.node, h)
  {
  }

  lemma LockGetsSigned(s: Node, o: Outcome, signed: set<Signature>)
    requires Effect(s, o) && LockSigned(signed, s)
    ensures LockSigned(signed + Made(o.out), o.node)
  {
    if o.node.round.state == BlockVoting && LockedGen(o.node) {
      var m := SignedBlockVote(s.me, o.node.round.blocks[o.node.round.target].gen.value, false);
      if m in o.out {
        assert m.blockVote.observerSignature in Made(o.out);
        assert SignsHeader(m.blockVote.observerSignature, LockedHeader(o.node));
      }
    }
  }

  /** The acting observer still has at most one signed header per height. */
  lemma StepKeepsOneVote(s: Node, o: Outcome, signed: set<Signature>)
    requires WellFormed(s) && Effect(s, o)
    requires WithinLock(signed, s) && LockSigned(signed, s) && OneVotePerHeight(signed, s.me)
    ensures WithinLock(signed + Made(o.out), o.node) && OneVotePerHeight(signed + Made(o.out), o.node.me)
  {
    var signed' := signed + Made(o.out);
    forall h | HasSigned(signed', s.me, h)
      ensures h.height <= |o.node.chain| || (Locked(o.node) && h == LockedHeader(o.node))
    {
      OwnNew(s, o, signed, h);
    }
    forall h, h' | HasSigned(signed', s.me, h) && HasSigned(signed', s.me, h') && h.height == h'.height
      ensures h == h'
    {
      OwnNew(s, o, signed, h);
      OwnNew(s, o, signed, h');
    }
  }

  // Votes and chains stay backed by signatures.

  lemma InheritedBacked(p: Params, faulty: set<Key>, signed: set<Signature>, a: map<nat, BlockRound>,
                        b: map<nat, BlockRound>)
    requires VotesBacked(p, faulty, signed, a) && Inherits(a, b)
    ensures VotesBacked(p, faulty, signed, b)
  {
  }

  lemma CountedBacked(p: Params, faulty: set<Key>, signed: set<Signature>, s: Node, k: Key, v: BlockVote)
    requires WellFormed(s) && s.round.state == BlockVoting && Countable(p, s, k, v) && k in p.keys
    requires VotesBacked(p, faulty, signed, s.round.blocks)
    requires k !in faulty ==> v.observerSignature in signed
    ensures VotesBacked(p, faulty, signed, CountVote(s, k, v).round.blocks)
  {
    var h := s.round.blocks[s.round.target].gen.value.header;
    assert SignsHeader(v.observerSignature, h);
    assert Supports(p, faulty, signed, k, h);
  }

  // A quorum of counted votes certifies the locked header.
  lemma QuorumCertifies(p: Params, faulty: set<Key>, signed: set<Signature>, s: Node)
    requires LockedGen(s) && VotesBacked(p, faulty, signed, s.round.blocks)
    requires |s.round.blocks[s.round.target].votes| >= Quorum(p)
    ensures Certified(p, faulty, signed, s.round.blocks[s.round.target].gen.value.header)
  {
    var b := s.round.blocks[s.round.target];
    assert |b.votes.Keys| == |b.votes|;
    assert AllSupport(p, faulty, signed, b.votes.Keys, b.gen.value.header);
  }

  /** A certificate accepted by signature validation is backed by a quorum of real signatures. */
  lemma CertificateCertifies(p: Params, faulty: set<Key>, signed: set<Signature>, ranks: seq<Rank>, b: Block)
    requires ValidCertificate(p, ranks, b.header, b.signatures)
    requires Unforged(p, faulty, signed, QueuedBlockEvent(b))
    ensures Certified(p, faulty, signed, b.header)
  {
    var sigs := b.signatures[1..];
    SignerCount(sigs);
    forall k | k in Signers(sigs) ensures Supports(p, faulty, signed, k, b.header) {
      var i :| 0 <= i < |sigs| && sigs[i].signer == k;
      assert sigs[i] in Carried(QueuedBlockEvent(b));
      assert SignsHeader(sigs[i], b.header);
    }
    assert AllSupport(p, faulty, signed, Signers(sigs), b.header);
  }

  lemma ChainExtends(p: Params, faulty: set<Key>, signed: set<Signature>, chain: seq<Block>, b: Block)
    requires ChainCertified(p, faulty, signed, chain)
    requires b.header.height == |chain| + 1 && Certified(p, faulty, signed, b.header)
    ensures ChainCertified(p, faulty, signed, chain + [b])
  {
  }

  ghost predicate Backed(p: Params, faulty: set<Key>, signed: set<Signature>, s: Node) {
    VotesBacked(p, faulty, signed, s.round.blocks) && ChainCertified(p, faulty, signed, s.chain)
  }

  lemma CountedVoteBacked(p: Params, faulty: set<Key>, signed: set<Signature>, s: Node, k: Key, v: BlockVote,
                          env: Env, order: seq<Key>, o: Outcome)
    requires WellFormed(s) && Backed(p, faulty, signed, s)
    requires s.round.state == BlockVoting && Countable(p, s, k, v) && k in p.keys
    requires k !in faulty ==> v.observerSignature in signed
    requires CountedVote(p, s, k, v, env, order, o)
    ensures Backed(p, faulty, signed, o.node)
  {
    CountedVoteFrame(p, s, k, v, env, order, o);
    CountedBacked(p, faulty, signed, s, k, v);
    var s1 := CountVote(s, k, v);
    if Connects(p, s1, order, o.node) {
      QuorumCertifies(p, faulty, signed, s1);
      ChainExtends(p, faulty, signed, s.chain, o.node.chain[|s.chain|]);
    }
  }

  lemma BlockVoteBacked(p: Params, faulty: set<Key>, signed: set<Signature>, s: Node, e: Event, env: Env, o: Outcome)
    requires e.BlockVoteEvent? && NodeStep(p, s, e, env, o) && Unforged(p, faulty, signed, e)
    requires Backed(p, faulty, signed, s)
    ensures Backed(p, faulty, signed, o.node)
  {
    var k, v, h := e.sender, e.blockVote, e.blockVote.header.height;
    if s.round.state == BlockVoting && Countable(p, s, k, v) && k in p.keys
       && CountedVote(p, s, k, v, env, e.voteOrder, o)
    {
      assert v.observerSignature in Carried(e);
      CountedVoteBacked(p, faulty, signed, s, k, v, env, e.voteOrder, o);
    } else if o.node != s {
      HoldVoteInherits(s, h, k, v, e.signature);
      HoldVoteInherits(Unignore(s, v.header.generator), h, k, v, e.signature);
      InheritedBacked(p, faulty, signed, s.round.blocks, o.node.round.blocks);
    }
  }

  lemma EventBacked(p: Params, faulty: set<Key>, signed: set<Signature>, s: Node, e: Event, env: Env, o: Outcome)
    requires NodeStep(p, s, e, env, o) && Unforged(p, faulty, signed, e)
    requires Backed(p, faulty, signed, s)
    ensures Backed(p, faulty, signed, o.node)
  {
    match e {
      case RoundVoteEvent(k, v, sig) =>
        RoundVoteFrame(p, s, k, v, sig, env, o);
      case AckEvent(k, a, sig, order) =>
        AckInherits(p, s, k, a, sig, env, order, o);
        AckEffect(p, s, k, a, sig, env, order, o);
        InheritedBacked(p, faulty, signed, s.round.blocks, o.node.round.blocks);
      case BlockGenEvent(gen) =>
        BlockGenInherits(p, s, gen, env);
        InheritedBacked(p, faulty, signed, s.round.blocks, o.node.round.blocks);
      case BlockVoteEvent(k, v, sig, order) =>
        BlockVoteBacked(p, faulty, signed, s, e, env, o);
      case VoteTimerEvent =>
        VoteTimerInherits(p, s, env);
        InheritedBacked(p, faulty, signed, s.round.blocks, o.node.round.blocks);
      case QueuedBlockEvent(b) =>
        if o.node != s {
          CertificateCertifies(p, faulty, signed, s.ranks, b);
          ChainExtends(p, faulty, signed, s.chain, b);
        }
    }
  }

  // The invariant over runs.

  lemma InitInv(p: Params, faulty: set<Key>, sys: System)
    requires Init(p, faulty, sys)
    ensures Inv(p, faulty, sys)
  {
    forall k | k in sys.nodes ensures sys.nodes[k].me == k && NodeInv(p, faulty, sys.signed, sys.nodes[k]) {
      FreshRoundWellFormed(sys.nodes[k], 1, p.maxBlocks);
    }
  }

  lemma ActorKeepsInv(p: Params, faulty: set<Key>, signed: set<Signature>, s: Node, e: Event, env: Env, o: Outcome)
    requires NodeInv(p, faulty, signed, s) && NodeStep(p, s, e, env, o) && Unforged(p, faulty, signed, e)
    ensures NodeInv(p, faulty, signed + Made(o.out), o.node) && SignsOwn(s, o) && o.node.me == s.me
  {
    EventEffect(p, s, e, env, o);
    EventBacked(p, faulty, signed, s, e, env, o);
    MoreSigned(p, faulty, signed, signed + Made(o.out), o.node);
    LockGetsSigned(s, o, signed);
    StepKeepsOneVote(s, o, signed);
  }

  lemma BystanderKeepsInv(p: Params, faulty: set<Key>, signed: set<Signature>, s: Node, o: Outcome, s': Node)
    requires NodeInv(p, faulty, signed, s') && SignsOwn(s, o) && s'.me != s.me
    ensures NodeInv(p, faulty, signed + Made(o.out), s')
  {
    MoreSigned(p, faulty, signed, signed + Made(o.out), s');
    forall h ensures HasSigned(signed + Made(o.out), s'.me, h) <==> HasSigned(signed, s'.me, h) {
      OthersUnchanged(s, o, signed, s'.me, h);
    }
  }

  lemma NextInv(p: Params, faulty: set<Key>, sys: System, sys': System)
    requires Inv(p, faulty, sys) && Next(p, faulty, sys, sys')
    ensures Inv(p, faulty, sys')
    ensures sys.signed <= sys'.signed
  {
    var k, e, env, o :| StepBy(p, faulty, sys, sys', k, e, env, o);
    ActorKeepsInv(p, faulty, sys.signed, sys.nodes[k], e, env, o);
    forall j | j in sys'.nodes ensures sys'.nodes[j].me == j && NodeInv(p, faulty, sys'.signed, sys'.nodes[j]) {
      if j != k {
        BystanderKeepsInv(p, faulty, sys.signed, sys.nodes[k], o, sys.nodes[j]);
      }
    }
  }

  lemma {:induction false} RunInv(p: Params, faulty: set<Key>, run: seq<System>, i: nat)
    requires IsRun(p, faulty, run) && i < |run|
    ensures Inv(p, faulty, run[i])
  {
    hide Inv, Next;
    if i == 0 {
      InitInv(p, faulty, run[0]);
    } else {
      RunInv(p, faulty, run, i - 1);
      assert NextAt(p, faulty, run, i - 1);
      NextInv(p, faulty, run[i - 1], run[i]);
    }
  }

  /** Vote locking: in every run, an observer that follows the code signs at most one header per
      height. */
  lemma VoteLocking(p: Params, faulty: set<Key>, run: seq<System>, i: nat, k: Key, h: Header, h': Header)
    requires IsRun(p, faulty, run) && i < |run| && Honest(p, faulty, k)
    requires HasSigned(run[i].signed, k, h) && HasSigned(run[i].signed, k, h') && h.height == h'.height
    ensures h == h'
  {
    RunInv(p, faulty, run, i);
    assert NodeInv(p, faulty, run[i].signed, run[i].nodes[k]);
  }

  /** Fork freedom: in every run, two different headers of one height are never both certified. */
  lemma ForkFreedom(p: Params, faulty: set<Key>, run: seq<System>, i: nat, h: Header, h': Header)
    requires IsRun(p, faulty, run) && i < |run| && FewFaults(p, faulty)
    requires Certified(p, faulty, run[i].signed, h) && Certified(p, faulty, run[i].signed, h')
    requires h.height == h'.height
    ensures h == h'
  {
    var a :| |a| >= Quorum(p) && AllSupport(p, faulty, run[i].signed, a, h);
    var b :| |b| >= Quorum(p) && AllSupport(p, faulty, run[i].signed, b, h');
    var k := QuorumsMeet(p.keys, faulty, a, b);
    VoteLocking(p, faulty, run, i, k, h, h');
  }

  /** The chains of any two observers that follow the code agree at every height both have. */
  lemma ChainsAgree(p: Params, faulty: set<Key>, run: seq<System>, i: nat, k: Key, k': Key, height: nat)
    requires IsRun(p, faulty, run) && i < |run| && FewFaults(p, faulty)
    requires k in run[i].nodes && k' in run[i].nodes
    requires 0 < height <= |run[i].nodes[k].chain| && height <= |run[i].nodes[k'].chain|
    ensures run[i].nodes[k].chain[height - 1].header == run[i].nodes[k'].chain[height - 1].header
  {
    RunInv(p, faulty, run, i);
    assert NodeInv(p, faulty, run[i].signed, run[i].nodes[k]);
    assert NodeInv(p, faulty, run[i].signed, run[i].nodes[k']);
    ForkFreedom(p, faulty, run, i, run[i].nodes[k].chain[height - 1].header, run[i].nodes[k'].chain[height - 1].header);
  }
}
