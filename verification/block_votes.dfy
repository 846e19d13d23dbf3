/** Which blocks an observer signs, when a quorum of votes connects a block, and when the connected block
    carries a certificate that others accept. */
module BlockVotes {
  import opened Basics
  import opened VotingTypes
  import opened Leader
  import opened Certificates
  import opened VotingSteps

  // The header extends the chain.
  predicate Follows(p: Params, chain: seq<Block>, h: Header) {
    && h.chainID == p.chainID && h.version <= p.version && h.generator != 0 && h.height == |chain| + 1
    && if chain == [] then h.prevHash == Genesis && h.timestamp > 0 && h.version > 0
       else
         var last := chain[|chain| - 1].header;
         && h.prevHash == HashOf(last) && h.timestamp > last.timestamp && h.version >= last.version
         && h.chainID == last.chainID
  }

  /** The observer waits for a block of exactly this height, has none there yet and can relay it; the candidate
      ranked at the block's timeout count generated and signed it, and is the one that was agreed on; a block
      waiting there has the same header; the header follows the chain; its time is at most ten seconds ahead;
      and it executes. */
  ghost predicate MaySign(p: Params, s: Node, gen: BlockGen, env: Env) {
    var h, sig := gen.header, gen.generatorSignature;
    && s.round.state == BlockWaiting && h.height == s.round.target && h.height in s.round.blocks
    && s.round.blocks[h.height].gen.None? && !env.relayFails && s.round.minAck.Some?
    && h.timeoutCount < |s.ranks| && s.ranks[h.timeoutCount].address == h.generator
    && h.generator == s.round.minAck.value.formulator
    && sig.content == HeaderContent(HashOf(h)) && sig.signer == s.ranks[h.timeoutCount].publicHash
    && sig.signer == s.round.minAck.value.formulatorKey
    && (s.round.blocks[h.height].genWait.Some? ==> s.round.blocks[h.height].genWait.value.header == h)
    && Follows(p, s.chain, h) && h.timestamp <= env.now + 10_000_000_000
    && env.executes
  }

  lemma FollowsIsValid(p: Params, chain: seq<Block>, h: Header)
    ensures ValidHeader(p, chain, h) <==> Follows(p, chain, h)
  {
  }

  /** An observer answers a generated block with a vote if and only if it may sign it. */
  lemma SignsExactly(p: Params, s: Node, gen: BlockGen, env: Env)
    requires WellFormed(s)
    ensures (exists m :: m in OnBlockGen(p, s, gen, env).out && m.BlockVoteMessage?) <==> MaySign(p, s, gen, env)
  {
    hide BlocksOk, ValidHeader, Follows;
    FollowsIsValid(p, s.chain, gen.header);
    var o := OnBlockGen(p, s, gen, env);
    if o.out != {} {
      assert SignedBlockVote(s.me, gen, false) in o.out;
    }
  }

  /** Signing a block locks it and sends one vote, for this very block; not signing it leaves lock, state and
      counted votes alone, and sends nothing. */
  lemma SigningLocks(p: Params, s: Node, gen: BlockGen, env: Env)
    requires WellFormed(s)
    ensures var o := OnBlockGen(p, s, gen, env);
            if o.out != {} then
              && o.out == {SignedBlockVote(s.me, gen, false)} && o.node.round.state == BlockVoting
              && o.node.round.target in o.node.round.blocks
              && o.node.round.blocks[o.node.round.target].gen == Some(gen)
              && o.node.round.blocks[o.node.round.target].votes == map[]
              && o.queued == s.round.blocks[s.round.target].voteWait.Values
            else
              && o.node.round.state == s.round.state && o.node.round.blocks.Keys == s.round.blocks.Keys
              && forall h :: h in s.round.blocks ==> o.node.round.blocks[h].gen == s.round.blocks[h].gen
                                                     && o.node.round.blocks[h].votes == s.round.blocks[h].votes
    ensures var o := OnBlockGen(p, s, gen, env);
            o.node.chain == s.chain && o.node.round.target == s.round.target && o.node.round.minAck == s.round.minAck
  {
    hide Votable, BlocksOk, SignedBlockVote;
    NotYetVoted(s, gen.header.height);
  }

  lemma NotYetVoted(s: Node, h: nat)
    requires WellFormed(s)
    ensures h in s.round.blocks && s.round.blocks[h].gen.None? ==> s.round.blocks[h].votes == map[]
  {
    if h in s.round.blocks {
      assert BlockOk(s.round.blocks[h], h, s.round.target, s.round.state);
    }
  }

  // Counting votes.

  // The votes counted for the locked block.
  function Counted(s: Node): map<Key, BlockVote>
    requires LockedGen(s)
  {
    s.round.blocks[s.round.target].votes
  }

  function LockedBlock(s: Node): BlockGen
    requires LockedGen(s)
  {
    s.round.blocks[s.round.target].gen.value
  }

  lemma NewVoter(votes: map<Key, BlockVote>, k: Key, v: BlockVote)
    ensures |votes[k := v]| == if k in votes then |votes| else |votes| + 1
    ensures votes[k := v].Keys == votes.Keys + {k}
  {
    assert votes[k := v].Keys == votes.Keys + {k};
    assert |votes[k := v]| == |votes[k := v].Keys| && |votes| == |votes.Keys|;
  }

  /** A valid vote for the locked block extends the chain, by exactly that block with the generator's and all
      voters' signatures, if and only if its sender had not voted, more than half of the observers have voted
      with it, and the block can be stored. */
  lemma QuorumConnects(p: Params, s: Node, sender: Key, vote: BlockVote, env: Env, order: seq<Key>, o: Outcome)
    requires LockedGen(s) && CountedVote(p, s, sender, vote, env, order, o)
    ensures o.node.chain != s.chain <==>
              sender !in Counted(s) && |Counted(s)| + 1 >= |p.keys| / 2 + 1 && env.stores
    ensures o.node.chain != s.chain ==>
              var votes := Counted(s)[sender := vote]; var g := LockedBlock(s);
              && Elements(order) == votes.Keys && Distinct(order) && (forall k :: k in order ==> k in votes)
              && o.node.chain == s.chain + [Block(g.header, g.body,
                                                  [g.generatorSignature] + ObserverSignatures(votes, order))]
    ensures o.node.chain == s.chain && o.node.round.state == BlockVoting && LockedGen(o.node) ==>
              LockedBlock(o.node) == LockedBlock(s)
    ensures o.node.chain == s.chain ==> o.node.round.target == s.round.target && o.node.round.state == s.round.state
  {
    hide NextRound, Distinct, LockedVoteReply;
    NewVoter(Counted(s), sender, vote);
    if sender !in Counted(s) && |Counted(s)| + 1 >= |p.keys| / 2 + 1 && env.stores {
      var votes := Counted(s)[sender := vote];
      OrderCovers(order, votes);
      var s1 := CountVote(s, sender, vote);
      NextRoundChain(p, ConnectLocked(s1, LockedBlock(s), ObserverSignatures(votes, order), env), env);
    }
  }

  // There is such an outcome for every order of the voters.
  lemma ConnectOutcome(p: Params, s: Node, sender: Key, vote: BlockVote, env: Env, order: seq<Key>)
    returns (o: Outcome)
    requires LockedGen(s) && sender !in Counted(s) && |Counted(s)| + 1 >= |p.keys| / 2 + 1 && env.stores
    requires Distinct(order) && Elements(order) == Counted(s).Keys + {sender}
    ensures CountedVote(p, s, sender, vote, env, order, o) && o.node.chain != s.chain
  {
    hide NextRound, Distinct, LockedVoteReply;
    var votes := Counted(s)[sender := vote];
    NewVoter(Counted(s), sender, vote);
    OrderCovers(order, votes);
    var reply := if !vote.isReply && sender != s.me then LockedVoteReply(s) else {};
    var next := NextRound(p, ConnectLocked(CountVote(s, sender, vote), LockedBlock(s), ObserverSignatures(votes, order),
                                           env), env);
    o := next.(out := reply + next.out);
    QuorumConnects(p, s, sender, vote, env, order, o);
  }

  lemma NextRoundChain(p: Params, s: Node, env: Env)
    requires s.round.minAck.Some?
    ensures NextRound(p, s, env).node.chain == s.chain
  {
    hide Active, TopRankIn, EmptyBlockRounds;
  }

  /** The vote is signed by an observer, is for the height that is voted on and for the very header that is
      locked there; the candidate ranked at its timeout count, and no other than the one agreed on, generated
      it and signed it; the header follows the chain; and the sender signed header and generator signature. */
  ghost predicate MayCount(p: Params, s: Node, sender: Key, vote: BlockVote, signature: Signature) {
    var h, sig := vote.header, vote.generatorSignature;
    && signature.content == BlockVoteContent(vote) && signature.signer == sender && sender in p.keys
    && s.round.state == BlockVoting && LockedGen(s) && h.height == s.round.target && h == LockedBlock(s).header
    && h.timeoutCount < |s.ranks| && s.ranks[h.timeoutCount].address == h.generator
    && h.generator == s.round.minAck.value.formulator
    && sig.content == HeaderContent(HashOf(h)) && sig.signer == s.ranks[h.timeoutCount].publicHash
    && sig.signer == s.round.minAck.value.formulatorKey
    && Follows(p, s.chain, h)
    && vote.observerSignature.content == BlockSignContent(HashOf(h), sig) && vote.observerSignature.signer == sender
  }

  // The vote passes all checks of the handler exactly when it may be counted.
  lemma CountsExactly(p: Params, s: Node, sender: Key, vote: BlockVote, signature: Signature)
    requires WellFormed(s)
    ensures MayCount(p, s, sender, vote, signature) <==>
            && Authentic(p, sender, BlockVoteContent(vote), signature) && vote.header.height in s.round.blocks
            && vote.header.height == s.round.target && s.round.state == BlockVoting && Countable(p, s, sender, vote)
  {
    hide BlocksOk;
    FollowsIsValid(p, s.chain, vote.header);
  }

  /** A block vote extends the chain if and only if it may be counted, its sender had not voted, more than half
      of the observers have voted with it, and the block can be stored; then it adds exactly the locked block,
      with the generator's signature and those of all voters. */
  lemma VoteConnectsExactly(p: Params, s: Node, sender: Key, vote: BlockVote, signature: Signature, env: Env,
                            order: seq<Key>, o: Outcome)
    requires WellFormed(s) && OnBlockVote(p, s, sender, vote, signature, env, order, o)
    ensures o.node.chain != s.chain <==>
            && MayCount(p, s, sender, vote, signature) && sender !in Counted(s)
            && |Counted(s)| + 1 >= |p.keys| / 2 + 1 && env.stores
    ensures o.node.chain != s.chain ==>
              var votes := Counted(s)[sender := vote]; var g := LockedBlock(s);
              && (forall k :: k in order <==> k in votes) && |order| == |votes|
              && o.node.chain == s.chain + [Block(g.header, g.body,
                                                  [g.generatorSignature] + ObserverSignatures(votes, order))]
  {
    hide BlocksOk, CountedVote, Countable, Authentic, MayCount, Distinct;
    CountsExactly(p, s, sender, vote, signature);
    if MayCount(p, s, sender, vote, signature) {
      QuorumConnects(p, s, sender, vote, env, order, o);
      if o.node.chain != s.chain {
        OrderLength(order, Counted(s)[sender := vote]);
        assert forall k :: k in order <==> k in Elements(order);
      }
    } else {
      OtherwiseKept(p, s, sender, vote, signature, env, order, o);
    }
  }

  lemma OtherwiseKept(p: Params, s: Node, sender: Key, vote: BlockVote, signature: Signature, env: Env,
                      order: seq<Key>, o: Outcome)
    requires WellFormed(s) && OnBlockVote(p, s, sender, vote, signature, env, order, o)
    requires !(&& Authentic(p, sender, BlockVoteContent(vote), signature) && vote.header.height in s.round.blocks
               && vote.header.height == s.round.target && s.round.state == BlockVoting && Countable(p, s, sender, vote))
    ensures o.node.chain == s.chain
  {
    hide BlocksOk, CountedVote, Countable, Authentic;
  }

  // What is known about a lock and the votes counted for it, whatever the rank table has become since.
  ghost predicate LockSound(p: Params, s: Node) {
    s.round.state == BlockVoting && LockedGen(s) ==>
      var g := LockedBlock(s);
      && g.generatorSignature.content == HeaderContent(HashOf(g.header))
      && g.generatorSignature.signer == s.round.minAck.value.formulatorKey
      && forall k :: k in Counted(s) ==>
           && k in p.keys && Counted(s)[k].observerSignature.signer == k
           && Counted(s)[k].observerSignature.content
              == BlockSignContent(HashOf(g.header), Counted(s)[k].generatorSignature)
  }

  // All counted votes were given over the generator signature that the observer has locked.
  ghost predicate SameGeneratorSignature(s: Node, votes: map<Key, BlockVote>)
    requires LockedGen(s)
  {
    forall k :: k in votes ==> votes[k].generatorSignature == LockedBlock(s).generatorSignature
  }

  /** The block that a vote connects passes the signature check of the others, against the ranks before it, if
      and only if exactly n/2+1 votes were counted and all of them are over the locked generator signature. */
  lemma CertificateExactly(p: Params, s: Node, sender: Key, vote: BlockVote, env: Env, order: seq<Key>, o: Outcome)
    requires LockedGen(s) && s.round.state == BlockVoting && LockSound(p, s)
    requires sender in p.keys && Countable(p, s, sender, vote) && CountedVote(p, s, sender, vote, env, order, o)
    requires o.node.chain != s.chain
    ensures |o.node.chain| == |s.chain| + 1
    ensures var b := o.node.chain[|s.chain|];
            ValidCertificate(p, s.ranks, b.header, b.signatures) <==>
              && |Counted(s)| + 1 == |p.keys| / 2 + 1
              && SameGeneratorSignature(s, Counted(s)[sender := vote])
  {
    hide CountedVote;
    QuorumConnects(p, s, sender, vote, env, order, o);
    var votes, g := Counted(s)[sender := vote], LockedBlock(s);
    NewVoter(Counted(s), sender, vote);
    OrderLength(order, votes);
    var sigs := ObserverSignatures(votes, order);
    var all := [g.generatorSignature] + sigs;
    assert all[1..] == sigs && all[0] == g.generatorSignature;
    SignaturesOf(p, s, votes, order);
  }

  lemma OrderLength(order: seq<Key>, votes: map<Key, BlockVote>)
    requires Distinct(order) && Elements(order) == votes.Keys
    ensures |order| == |votes|
  {
    DistinctCount(order);
    assert |votes.Keys| == |votes|;
  }

  lemma {:induction false} DistinctCount(order: seq<Key>)
    requires Distinct(order)
    ensures |Elements(order)| == |order|
  {
    if order == [] {
      assert Elements(order) == {};
    } else {
      var n := |order| - 1;
      DistinctCount(order[..n]);
      ElementsStep(order, n);
      assert order[..n + 1] == order;
    }
  }

  lemma SignaturesOf(p: Params, s: Node, votes: map<Key, BlockVote>, order: seq<Key>)
    requires LockedGen(s) && Distinct(order) && Elements(order) == votes.Keys && (forall k :: k in order ==> k in votes)
    requires forall k :: k in votes ==>
               && k in p.keys && votes[k].observerSignature.signer == k
               && votes[k].observerSignature.content
                  == BlockSignContent(HashOf(LockedBlock(s).header), votes[k].generatorSignature)
    ensures var g, sigs := LockedBlock(s), ObserverSignatures(votes, order);
            IsMajority(BlockSignContent(HashOf(g.header), g.generatorSignature), sigs, p.keys)
            <==> |order| == |p.keys| / 2 + 1 && SameGeneratorSignature(s, votes)
  {
    var g, sigs := LockedBlock(s), ObserverSignatures(votes, order);
    assert DistinctSigners(sigs);
    if SameGeneratorSignature(s, votes) {
      assert forall i :: 0 <= i < |sigs| ==> sigs[i] == votes[order[i]].observerSignature;
    } else {
      var k :| k in votes && votes[k].generatorSignature != g.generatorSignature;
      assert k in Elements(order);
      var i :| 0 <= i < |order| && order[i] == k;
      assert sigs[i] == votes[k].observerSignature;
    }
  }

  // Two blocks that others refuse. Three observers; observer 1 has locked the first block and counted its own
  // vote, so that one more vote connects the block.

  function ExampleParams(): Params { Params(0, 1, {1, 2, 3}, 1) }

  function ExampleHeader(): Header { Header(0, 1, 1, Genesis, 0, 0, 1, 9, 0) }

  function GeneratorSignature(nonce: nat): Signature { Signature(90, HeaderContent(HashOf(ExampleHeader())), nonce) }

  function ExampleVote(k: Key, nonce: nat): BlockVote {
    var sig := GeneratorSignature(nonce);
    BlockVote(1, ExampleHeader(), sig, Signature(k, BlockSignContent(HashOf(ExampleHeader()), sig), 0), false)
  }

  function ExampleNode(votes: map<Key, BlockVote>): Node {
    var ack := RoundVoteAck(0, Genesis, 1, 0, 9, 90, 1, 0, false);
    var gen := BlockGen(ExampleHeader(), 0, GeneratorSignature(0));
    Node(1, [], [Rank(9, 90)], 0, map[],
         Round(BlockVoting, 1, map[], map[], Some(ack), map[1 := BlockRound(votes, Some(gen), map[], None)], map[], 0))
  }

  function ExampleEnv(stores: bool): Env { Env(1, {}, true, false, stores, [Rank(9, 90)], 0) }

  lemma ExampleSound(votes: map<Key, BlockVote>, k: Key, nonce: nat)
    requires k in {1, 2, 3} && forall j :: j in votes ==> j in {1, 2, 3} && votes[j] == ExampleVote(j, 0)
    ensures var s := ExampleNode(votes);
            && WellFormed(s) && LockedGen(s) && LockSound(ExampleParams(), s)
            && Countable(ExampleParams(), s, k, ExampleVote(k, nonce))
  {
  }

  // The outcome of a vote that connects the block.
  lemma ExampleConnects(votes: map<Key, BlockVote>, k: Key, nonce: nat, order: seq<Key>) returns (o: Outcome)
    requires k in {1, 2, 3} && forall j :: j in votes ==> j in {1, 2, 3} && votes[j] == ExampleVote(j, 0)
    requires k !in votes && |votes| >= 1 && Distinct(order) && Elements(order) == votes.Keys + {k}
    ensures LockedGen(ExampleNode(votes))
    ensures CountedVote(ExampleParams(), ExampleNode(votes), k, ExampleVote(k, nonce), ExampleEnv(true), order, o)
    ensures o.node.chain != []
  {
    hide CountedVote, Distinct, ExampleVote, LockSound, Countable;
    ExampleSound(votes, k, nonce);
    assert |ExampleParams().keys| == 3;
    o := ConnectOutcome(ExampleParams(), ExampleNode(votes), k, ExampleVote(k, nonce), ExampleEnv(true), order);
  }

  // The votes of the first two observers.
  function TwoVotes(): map<Key, BlockVote> { map[1 := ExampleVote(1, 0)][2 := ExampleVote(2, 0)] }

  lemma FailedStore() returns (o: Outcome)
    ensures LockedGen(ExampleNode(map[1 := ExampleVote(1, 0)]))
    ensures CountedVote(ExampleParams(), ExampleNode(map[1 := ExampleVote(1, 0)]), 2, ExampleVote(2, 0),
                        ExampleEnv(false), [], o)
    ensures o.node == ExampleNode(TwoVotes())
  {
    hide LockedVoteReply, ExampleVote;
    var one := map[1 := ExampleVote(1, 0)];
    var s := ExampleNode(one);
    assert |ExampleParams().keys| == 3;
    NewVoter(one, 2, ExampleVote(2, 0));
    o := Outcome(ExampleNode(TwoVotes()), if !ExampleVote(2, 0).isReply then LockedVoteReply(s) else {}, {}, false);
  }

  lemma TwoVoters()
    ensures TwoVotes().Keys == {1, 2} && |TwoVotes()| == 2 && Elements([1, 2, 3]) == TwoVotes().Keys + {3}
    ensures forall j :: j in TwoVotes() ==> j in {1, 2, 3} && TwoVotes()[j] == ExampleVote(j, 0)
  {
    hide ExampleVote;
    assert |TwoVotes()| == |TwoVotes().Keys|;
  }

  /** After a failed store the next vote connects a block with one signature too many. */
  lemma RefusedAfterFailedStore() returns (o: Outcome, o': Outcome)
    ensures LockedGen(ExampleNode(map[1 := ExampleVote(1, 0)]))
    ensures CountedVote(ExampleParams(), ExampleNode(map[1 := ExampleVote(1, 0)]), 2, ExampleVote(2, 0),
                        ExampleEnv(false), [], o)
    ensures LockedGen(o.node)
    ensures CountedVote(ExampleParams(), o.node, 3, ExampleVote(3, 0), ExampleEnv(true), [1, 2, 3], o')
    ensures |o'.node.chain| == 1
    ensures !ValidCertificate(ExampleParams(), [Rank(9, 90)], o'.node.chain[0].header, o'.node.chain[0].signatures)
  {
    hide CountedVote, ExampleVote, TwoVotes, ValidCertificate, Countable, LockSound, Elements;
    o := FailedStore();
    TwoVoters();
    o' := ExampleConnects(TwoVotes(), 3, 0, [1, 2, 3]);
    ExampleSound(TwoVotes(), 3, 0);
    assert |ExampleParams().keys| == 3;
    CertificateExactly(ExampleParams(), o.node, 3, ExampleVote(3, 0), ExampleEnv(true), [1, 2, 3], o');
  }

  /** A vote over a second generator signature of the same header is counted, and the block it connects is
      refused although it has the right number of signatures. */
  lemma RefusedOnSecondSignature() returns (o: Outcome)
    ensures LockedGen(ExampleNode(map[1 := ExampleVote(1, 0)]))
    ensures CountedVote(ExampleParams(), ExampleNode(map[1 := ExampleVote(1, 0)]), 2, ExampleVote(2, 1),
                        ExampleEnv(true), [1, 2], o)
    ensures |o.node.chain| == 1 && |o.node.chain[0].signatures| == 3
    ensures !ValidCertificate(ExampleParams(), [Rank(9, 90)], o.node.chain[0].header, o.node.chain[0].signatures)
  {
    hide CountedVote, ValidCertificate, Countable, LockSound;
    var one := map[1 := ExampleVote(1, 0)];
    var s := ExampleNode(one);
    assert Elements([1, 2]) == one.Keys + {2};
    o := ExampleConnects(one, 2, 1, [1, 2]);
    ExampleSound(one, 2, 1);
    CertificateExactly(ExampleParams(), s, 2, ExampleVote(2, 1), ExampleEnv(true), [1, 2], o);
    QuorumConnects(ExampleParams(), s, 2, ExampleVote(2, 1), ExampleEnv(true), [1, 2], o);
    var votes := one[2 := ExampleVote(2, 1)];
    assert votes[2].generatorSignature != LockedBlock(s).generatorSignature;
  }
}
