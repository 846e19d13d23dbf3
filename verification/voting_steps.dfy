/** What one observer does on each event, as a case table over values.  The class in
    `observer.dfy` runs the handlers' code and is proved to produce exactly these outcomes;
    `protocol.dfy` composes them into runs of all observers. */
module VotingSteps {
  import opened Basics
  import opened VotingTypes
  import opened Leader
  import opened Certificates

  const IGNORE_SHORT: nat := 30_000_000_000
  const IGNORE_LONG: nat := 120_000_000_000
  const MAX_CLOCK_SKEW: nat := 10_000_000_000
  const MAX_FAILURES: nat := 30
  predicate Authentic(p: Params, sender: Key, content: Content, signature: Signature) {
    Recover(content, signature) == Some(sender) && sender in p.keys
  }

  predicate MatchesTop(ranks: seq<Rank>, timeoutCount: nat, formulator: Address, formulatorKey: Key) {
    var top := TopRank(ranks, timeoutCount);
    top.Some? && top.value.address == formulator && top.value.publicHash == formulatorKey
  }

  /** What the code relies on about its own round: a formulator is agreed on once blocks are
      awaited, a block is locked at the target height exactly while it is voted on, later heights
      have no locked block, votes are only counted for a locked block, and the target is at most
      one above the chain. */
  ghost predicate WellFormed(s: Node) {
    && (s.round.state == BlockWaiting || s.round.state == BlockVoting ==> s.round.minAck.Some?)
    && (s.round.state == BlockVoting ==> s.round.target in s.round.blocks && s.round.blocks[s.round.target].gen.Some?)
    && BlocksOk(s.round.blocks, s.round.target, s.round.state)
    && s.round.target <= |s.chain| + 1
  }

  ghost predicate BlocksOk(blocks: map<nat, BlockRound>, target: nat, state: RoundState) {
    forall h :: h in blocks ==> BlockOk(blocks[h], h, target, state)
  }

  predicate BlockOk(b: BlockRound, h: nat, target: nat, state: RoundState) {
    match b.gen
    case None => b.votes == map[]
    case Some(gen) => gen.header.height == h && h <= target && (h == target ==> state == BlockVoting)
  }

  // Round votes.

  predicate VoteLess(votes: map<Key, RoundVote>, k: Key, k': Key)
    requires k in votes && k' in votes
  {
    if votes[k].timeoutCount == votes[k'].timeoutCount then k < k'
    else votes[k].timeoutCount < votes[k'].timeoutCount
  }

  ghost predicate IsLeast(votes: map<Key, RoundVote>, k: Key) {
    k in votes && forall k' :: k' in votes && k' != k ==> VoteLess(votes, k, k')
  }

  // The ack names the voter with the smallest timeout count, ties broken by public hash.
  function AckFor(votes: map<Key, RoundVote>, k: Key, now: nat): RoundVoteAck
    requires k in votes
  {
    var v := votes[k];
    RoundVoteAck(v.chainID, v.lastHash, v.targetHeight, v.timeoutCount, v.formulator, v.formulatorKey, k, now, false)
  }

  ghost predicate OnRoundVote(p: Params, s: Node, sender: Key, vote: RoundVote, signature: Signature, env: Env,
                              o: Outcome) {
    var asks := !vote.isReply && sender != s.me;
    if !Authentic(p, sender, RoundVoteContent(vote), signature) then
      o == Outcome(s, {}, {}, false)
    else if vote.targetHeight != s.round.target then
      o == Outcome(s, if vote.targetHeight < s.round.target && asks then {Status(s)} else {}, {}, false)
    else if vote.chainID != p.chainID || vote.lastHash != LastHash(s.chain)
            || !MatchesTop(s.ranks, vote.timeoutCount, vote.formulator, vote.formulatorKey) then
      o == Outcome(s, {}, {}, false)
    else if s.round.state != RoundVoting then
      o == Outcome(s, if asks then LockedVoteReply(s) + RoundVoteReply(p, s, env) else {}, {}, false)
    else if sender in s.round.votes && vote.timestamp <= s.round.votes[sender].timestamp then
      o == Outcome(s, if asks then RoundVoteReply(p, s, env) else {}, {}, false)
    else
      var votes := s.round.votes[sender := vote];
      var reply := if asks then RoundVoteReply(p, s.(round := s.round.(votes := votes)), env) else {};
      if |votes| < |p.keys| / 2 + 2 then
        o == Outcome(s.(round := s.round.(votes := votes)), reply, {}, true)
      else
        exists least ::
          && IsLeast(votes, least)
          && o == Outcome(s.(round := s.round.(votes := votes, state := RoundAcking)),
                          reply + {SignedAck(s.me, AckFor(votes, least, env.now))}, s.round.ackWait.Values, true)
  }

  // Round-vote acks.

  // Blocks the chosen formulator may still generate in its turn (32-bit subtraction).
  function RemainingBlocks(p: Params, s: Node, chosen: RoundVoteAck): nat {
    if chosen.timeoutCount != 0 then p.maxBlocks
    else if s.sameBlocks <= p.maxBlocks then p.maxBlocks - s.sameBlocks
    else U32 - (s.sameBlocks - p.maxBlocks) % U32
  }

  function KeepGen(b: BlockRound, formulator: Address): BlockRound {
    if b.genWait.Some? && b.genWait.value.header.generator != formulator then b.(genWait := None) else b
  }

  // Drops the heights beyond the turn and the blocks other generators have sent ahead.
  function TrimBlocks(blocks: map<nat, BlockRound>, end: nat, formulator: Address): map<nat, BlockRound> {
    map h | h in blocks && h < end :: KeepGen(blocks[h], formulator)
  }

  // Takes the block that waits at height h, if there is one and none is locked there.
  function TakeWaiting(blocks: map<nat, BlockRound>, h: nat): (map<nat, BlockRound>, set<Message>) {
    if h in blocks && blocks[h].genWait.Some? && blocks[h].gen.None?
    then (blocks[h := blocks[h].(genWait := None)], {BlockGenMessage(blocks[h].genWait.value)})
    else (blocks, {})
  }

  function StartBlocks(p: Params, s: Node, chosen: RoundVoteAck): (Round, set<Message>) {
    var end := s.round.target + RemainingBlocks(p, s, chosen);
    var (blocks, queued) := TakeWaiting(TrimBlocks(s.round.blocks, end, chosen.formulator), s.round.target);
    (s.round.(state := BlockWaiting, minAck := Some(chosen), failCount := 0, blocks := blocks), queued)
  }

  ghost predicate OnAck(p: Params, s: Node, sender: Key, ack: RoundVoteAck, signature: Signature, env: Env,
                        order: seq<Key>, o: Outcome)
  {
    var asks := !ack.isReply && sender != s.me;
    if !Authentic(p, sender, RoundVoteAckContent(ack), signature) then
      o == Outcome(s, {}, {}, false)
    else if ack.targetHeight != s.round.target then
      o == Outcome(s, if ack.targetHeight < s.round.target && asks then {Status(s)} else {}, {}, false)
    else if ack.chainID != p.chainID || ack.lastHash != LastHash(s.chain)
            || !MatchesTop(s.ranks, ack.timeoutCount, ack.formulator, ack.formulatorKey) then
      o == Outcome(s, {}, {}, false)
    else if s.round.state == RoundVoting then
      var waiting := s.round.ackWait[sender := RoundVoteAckMessage(ack, signature)];
      o == Outcome(s.(round := s.round.(ackWait := waiting)), {}, {}, false)
    else if s.round.state != RoundAcking then
      o == Outcome(s, if asks then LockedVoteReply(s) + AckReply(s, env) else {}, {}, false)
    else if sender in s.round.acks && ack.timestamp <= s.round.acks[sender].timestamp then
      o == Outcome(s, if asks then AckReply(s, env) else {}, {}, false)
    else
      var s1 := s.(round := s.round.(acks := s.round.acks[sender := ack]));
      var reply := if asks then AckReply(s1, env) else {};
      if |s1.round.acks| < Quorum(p) then o == Outcome(s1, reply, {}, true)
      else
        exists chosen ::
          && IsChoice(s1.round.acks, order, Quorum(p), chosen)
          && (match chosen
              case None => o == Outcome(s1, reply, {}, true)
              case Some(a) =>
                var (round, queued) := StartBlocks(p, s1, a);
                o == Outcome(s1.(round := round), reply, queued, true))
  }

  // Generated blocks.

  // The checks after which the observer signs the block.
  predicate Votable(p: Params, s: Node, gen: BlockGen, env: Env)
    requires s.round.minAck.Some? && gen.header.height in s.round.blocks
  {
    var h := gen.header;
    var b := s.round.blocks[h.height];
    var top := TopRank(s.ranks, h.timeoutCount);
    && top.Some? && h.generator == top.value.address
    && h.generator == s.round.minAck.value.formulator
    && (b.genWait.Some? ==> b.genWait.value.header == h)
    && Recover(HeaderContent(HashOf(h)), gen.generatorSignature) == Some(top.value.publicHash)
    && top.value.publicHash == s.round.minAck.value.formulatorKey
    && ValidHeader(p, s.chain, h)
    && h.timestamp <= env.now + MAX_CLOCK_SKEW
    && env.executes
  }

  function OnBlockGen(p: Params, s: Node, gen: BlockGen, env: Env): Outcome
    requires s.round.state == BlockWaiting ==> s.round.minAck.Some?
  {
    var h := gen.header.height;
    if h !in s.round.blocks || s.round.blocks[h].gen.Some? || (s.round.minAck.Some? && env.relayFails) then
      Outcome(s, {}, {}, false)
    else if h > s.round.target || (h == s.round.target && s.round.state in {RoundVoting, RoundAcking}) then
      var blocks := s.round.blocks[h := s.round.blocks[h].(genWait := Some(gen))];
      Outcome(s.(round := s.round.(blocks := blocks)), {}, {}, false)
    else if h < s.round.target || s.round.state == BlockVoting || !Votable(p, s, gen, env) then
      Outcome(s, {}, {}, false)
    else
      var b := s.round.blocks[h].(gen := Some(gen));
      Outcome(s.(round := s.round.(state := BlockVoting, blocks := s.round.blocks[h := b])),
              {SignedBlockVote(s.me, gen, false)}, b.voteWait.Values, true)
  }

  // Block votes.

  // The checks after which a vote for the locked block is counted.
  predicate Countable(p: Params, s: Node, sender: Key, vote: BlockVote)
    requires s.round.minAck.Some? && s.round.target in s.round.blocks && s.round.blocks[s.round.target].gen.Some?
  {
    var h := vote.header;
    var top := TopRank(s.ranks, h.timeoutCount);
    && top.Some? && h.generator == top.value.address
    && Recover(HeaderContent(HashOf(h)), vote.generatorSignature) == Some(top.value.publicHash)
    && h.generator == s.round.minAck.value.formulator
    && top.value.publicHash == s.round.minAck.value.formulatorKey
    && h.prevHash == LastHash(s.chain)
    && h == s.round.blocks[s.round.target].gen.value.header
    && ValidHeader(p, s.chain, h)
    && Recover(BlockSignContent(HashOf(h), vote.generatorSignature), vote.observerSignature) == Some(sender)
  }

  function ObserverSignatures(votes: map<Key, BlockVote>, order: seq<Key>): seq<Signature>
    requires forall k :: k in order ==> k in votes
  {
    seq(|order|, i requires 0 <= i < |order| => votes[order[i]].observerSignature)
  }

  lemma OrderCovers(order: seq<Key>, votes: map<Key, BlockVote>)
    requires Elements(order) == votes.Keys
    ensures forall k :: k in order ==> k in votes
  {
    assert forall k :: k in order ==> k in Elements(order);
  }

  function ConnectLocked(s: Node, gen: BlockGen, sigs: seq<Signature>, env: Env): Node
    requires s.round.minAck.Some?
  {
    s.(chain := s.chain + [Block(gen.header, gen.body, [gen.generatorSignature] + sigs)],
       ranks := env.nextRanks, sameBlocks := env.nextSameBlocks,
       ignored := s.ignored - {s.round.minAck.value.formulator})
  }

  // The round after the locked block was connected: the formulator goes on, or a new vote starts.
  function NextRound(p: Params, s: Node, env: Env): Outcome
    requires s.round.minAck.Some?
  {
    var formulator := s.round.minAck.value.formulator;
    var others := Active(s, env) - {formulator};
    if (others != {} && TopRankIn(s.ranks, others).None?) || s.ranks == [] then
      Outcome(s, {Status(s)}, {}, false)
    else if s.round.target + 1 in s.round.blocks && s.ranks[0].address == formulator then
      var b := s.round.blocks[s.round.target + 1];
      Outcome(s.(round := s.round.(state := BlockWaiting, failCount := 0, target := s.round.target + 1)),
              {Status(s)}, if b.genWait.Some? && b.gen.None? then {BlockGenMessage(b.genWait.value)} else {}, true)
    else
      Outcome(s.(round := NewRound(|s.chain| + 1, p.maxBlocks)), {Status(s)}, {}, true)
  }

  // An early vote is kept; it also takes its generator off the ignore list.
  function HoldVote(s: Node, h: nat, sender: Key, vote: BlockVote, signature: Signature): Node
    requires h in s.round.blocks
  {
    var b := s.round.blocks[h];
    var waiting := b.voteWait[sender := BlockVoteMessage(vote, signature)];
    s.(round := s.round.(blocks := s.round.blocks[h := b.(voteWait := waiting)]))
  }

  function Unignore(s: Node, a: Address): Node {
    if a in s.ignored then s.(ignored := s.ignored - {a}, round := s.round.(failCount := 0)) else s
  }

  predicate LockedGen(s: Node) {
    && s.round.minAck.Some? && s.round.target in s.round.blocks
    && s.round.blocks[s.round.target].gen.Some?
  }

  function CountVote(s: Node, sender: Key, vote: BlockVote): Node
    requires LockedGen(s)
  {
    var b := s.round.blocks[s.round.target];
    s.(round := s.round.(blocks := s.round.blocks[s.round.target := b.(votes := b.votes[sender := vote])]))
  }

  // A vote that passed all checks, for the locked block.
  ghost predicate CountedVote(p: Params, s: Node, sender: Key, vote: BlockVote, env: Env, order: seq<Key>, o: Outcome)
    requires LockedGen(s)
  {
    var reply := if !vote.isReply && sender != s.me then LockedVoteReply(s) else {};
    if sender in s.round.blocks[s.round.target].votes then o == Outcome(s, reply, {}, false)
    else
      var s1 := CountVote(s, sender, vote);
      var votes := s1.round.blocks[s.round.target].votes;
      if |votes| < Quorum(p) then o == Outcome(s1, reply, {}, true)
      else if !env.stores then   // by then the rank table may have been rotated
        o == Outcome(s1.(ranks := env.nextRanks, sameBlocks := env.nextSameBlocks), reply, {}, false)
      else
        && Distinct(order) && Elements(order) == votes.Keys
        && var next := NextRound(p, ConnectLocked(s1, s.round.blocks[s.round.target].gen.value,
                                                  ObserverSignatures(votes, order), env), env);
           o == next.(out := reply + next.out)
  }

  ghost predicate OnBlockVote(p: Params, s: Node, sender: Key, vote: BlockVote, signature: Signature, env: Env,
                              order: seq<Key>, o: Outcome)
    requires s.round.state == BlockVoting ==> LockedGen(s)
  {
    var h := vote.header.height;
    if !Authentic(p, sender, BlockVoteContent(vote), signature) || h !in s.round.blocks then
      o == Outcome(s, {}, {}, false)
    else if h < s.round.target then
      o == Outcome(s, if sender != s.me then {Status(s)} else {}, {}, false)
    else if h > s.round.target then
      o == Outcome(HoldVote(s, h, sender, vote, signature), {}, {}, false)
    else if s.round.state != BlockVoting then
      o == Outcome(HoldVote(Unignore(s, vote.header.generator), h, sender, vote, signature), {}, {}, false)
    else if !Countable(p, s, sender, vote) then
      o == Outcome(s, {}, {}, false)
    else
      CountedVote(p, s, sender, vote, env, order, o)
  }

  // Timers and the block queue.

  // Catches up when the chain has grown past the round's target.
  function SyncRound(p: Params, s: Node): (Round, set<Message>)
    requires s.round.target <= |s.chain| ==> s.ranks != []
  {
    var next := |s.chain| + 1;
    if s.round.target >= next then (s.round, {})
    else if s.round.minAck.Some? && s.ranks[0].address == s.round.minAck.value.formulator && next in s.round.blocks then
      var (blocks, queued) := TakeWaiting(s.round.blocks, next);
      (s.round.(target := next, state := BlockWaiting, blocks := blocks), queued)
    else (NewRound(next, p.maxBlocks), {})
  }

  // A failed turn: the formulator is ignored, longer when it already was, and the vote restarts.
  function FailTurn(p: Params, s: Node, env: Env): Node {
    var ignored :=
      if s.round.minAck.None? then s.ignored
      else
        var a := s.round.minAck.value.formulator;
        s.ignored[a := env.now + (if a in s.ignored then IGNORE_LONG else IGNORE_SHORT)];
    s.(ignored := ignored, round := NewRound(|s.chain| + 1, p.maxBlocks))
  }

  function CountFailure(p: Params, s: Node, env: Env): Node {
    var s1 := s.(round := s.round.(failCount := s.round.failCount + 1));
    if s1.round.failCount > MAX_FAILURES then FailTurn(p, s1, env) else s1
  }

  // With no candidate left the source panics when it has to catch up.
  function OnVoteTimer(p: Params, s: Node, env: Env): Outcome {
    if s.round.target <= |s.chain| && s.ranks == [] then Outcome(s, {}, {}, false)
    else
      var (round, queued) := SyncRound(p, s);
      Tick(p, s.(round := round), queued, env)
  }

  function Tick(p: Params, s1: Node, queued: set<Message>, env: Env): Outcome {
    if Active(s1, env) == {} then Outcome(s1, {}, queued, true)
    else if s1.round.state == RoundVoting then
      var vote := FreshRoundVote(p, s1, env, false);
      var s2 := if vote == {} then s1 else s1.(round := s1.round.(failCount := 0));
      Outcome(CountFailure(p, s2, env), vote + {Status(s1)}, queued, true)
    else if s1.round.state == BlockVoting && s1.round.target in s1.round.blocks
            && s1.round.blocks[s1.round.target].gen.Some? then
      Outcome(s1, {SignedBlockVote(s1.me, s1.round.blocks[s1.round.target].gen.value, false)}, queued, true)
    else Outcome(CountFailure(p, s1, env), {}, queued, true)
  }

  // A block fetched from a peer is connected when header, certificate and execution check out.
  ghost predicate OnQueuedBlock(p: Params, s: Node, b: Block, env: Env, o: Outcome) {
    if ValidHeader(p, s.chain, b.header) && ValidCertificate(p, s.ranks, b.header, b.signatures) && env.executes
       && env.stores then
      var s1 := s.(chain := s.chain + [b], ranks := env.nextRanks, sameBlocks := env.nextSameBlocks);
      o == Outcome(s1, {Status(s1)}, {}, true)
    else
      o == Outcome(s, {}, {}, false)
  }
}
