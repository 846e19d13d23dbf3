/** Values exchanged and kept by the observers of the proof-of-formulator consensus.

    Hashes and signatures are symbolic.  `HashOf` is a free constructor, so hashing is injective.
    A `Signature` records who made it and over what, so a signature recovers to its signer on
    the signed content and to nobody on any other content.  `nonce` allows several distinct
    signatures of one signer over one content. */
module VotingTypes {
  import opened Basics

  type Key = nat       // public hash of an observer or a generator, compared as a big-endian number

  datatype Hash = Genesis | HashOf(header: Header)

  datatype Header = Header(
    chainID: nat, version: nat, height: nat, prevHash: Hash, levelRoot: nat, contextHash: nat,
    timestamp: nat, generator: Address, timeoutCount: nat)

  datatype Content =
    | RoundVoteContent(vote: RoundVote)
    | RoundVoteAckContent(ack: RoundVoteAck)
    | HeaderContent(hash: Hash)
    | BlockSignContent(headerHash: Hash, generatorSignature: Signature)
    | BlockVoteContent(blockVote: BlockVote)

  datatype Signature = Signature(signer: Key, content: Content, nonce: nat)

  datatype RoundVote = RoundVote(
    chainID: nat, lastHash: Hash, targetHeight: nat, timeoutCount: nat,
    formulator: Address, formulatorKey: Key, timestamp: nat, isReply: bool)

  datatype RoundVoteAck = RoundVoteAck(
    chainID: nat, lastHash: Hash, targetHeight: nat, timeoutCount: nat,
    formulator: Address, formulatorKey: Key, leader: Key, timestamp: nat, isReply: bool)

  datatype BlockVote = BlockVote(
    targetHeight: nat, header: Header, generatorSignature: Signature,
    observerSignature: Signature, isReply: bool)

  // `signatures[0]` is the generator's, the rest are the observers'.
  datatype Block = Block(header: Header, body: nat, signatures: seq<Signature>)

  datatype BlockGen = BlockGen(header: Header, body: nat, generatorSignature: Signature)

  datatype Message =
    | RoundVoteMessage(vote: RoundVote, signature: Signature)
    | RoundVoteAckMessage(ack: RoundVoteAck, signature: Signature)
    | BlockGenMessage(gen: BlockGen)
    | BlockVoteMessage(blockVote: BlockVote, signature: Signature)
    | StatusMessage(height: nat, lastHash: Hash)

  // One candidate of the rank table: the address allowed to generate and its public hash.
  datatype Rank = Rank(address: Address, publicHash: Key)

  datatype RoundState = RoundVoting | RoundAcking | BlockWaiting | BlockVoting

  datatype BlockRound = BlockRound(
    votes: map<Key, BlockVote>, gen: Option<BlockGen>,
    voteWait: map<Key, Message>, genWait: Option<BlockGen>)

  datatype Round = Round(
    state: RoundState, target: nat,
    votes: map<Key, RoundVote>, acks: map<Key, RoundVoteAck>, minAck: Option<RoundVoteAck>,
    blocks: map<nat, BlockRound>, ackWait: map<Key, Message>, failCount: nat)

  /** One observer: its key, its chain (heights 1, 2, ...), the rank table and block counter of
      the consensus at the head of that chain, the formulators it ignores and until when, and
      the current round. */
  datatype Node = Node(
    me: Key, chain: seq<Block>, ranks: seq<Rank>, sameBlocks: nat,
    ignored: map<Address, nat>, round: Round)

  datatype Params = Params(chainID: nat, version: nat, keys: set<Key>, maxBlocks: nat)

  /** What a step takes from outside the observer: the clock, the connected formulators, whether
      executing the block reproduces the context hash, whether relaying to the next formulator
      fails, whether storing the block succeeds, and the consensus state after a block. */
  datatype Env = Env(
    now: nat, connected: set<Address>, executes: bool, relayFails: bool, stores: bool,
    nextRanks: seq<Rank>, nextSameBlocks: nat)

  // The new observer state, the messages it signs and sends (also to itself), the waiting
  // messages it puts back into its own queue, and whether the handler succeeded.
  datatype Outcome = Outcome(node: Node, out: set<Message>, queued: set<Message>, ok: bool)

  function Recover(content: Content, signature: Signature): (k: Option<Key>) {
    if signature.content == content then Some(signature.signer) else None
  }

  function Quorum(p: Params): nat { |p.keys| / 2 + 1 }

  function LastHash(chain: seq<Block>): Hash {
    if chain == [] then Genesis else HashOf(chain[|chain| - 1].header)
  }

  function LastTimestamp(chain: seq<Block>): nat {
    if chain == [] then 0 else chain[|chain| - 1].header.timestamp
  }

  function TopRank(ranks: seq<Rank>, timeoutCount: nat): Option<Rank> {
    if timeoutCount < |ranks| then Some(ranks[timeoutCount]) else None
  }

  // The index of the first candidate whose address is in `formulators`.
  function TopRankIn(ranks: seq<Rank>, formulators: set<Address>): (i: Option<nat>)
    ensures i.Some? ==> i.value < |ranks| && ranks[i.value].address in formulators
  {
    if ranks == [] then None
    else if ranks[0].address in formulators then Some(0)
    else
      var rest := TopRankIn(ranks[1..], formulators);
      if rest.Some? then Some(rest.value + 1) else None
  }

  predicate ValidHeader(p: Params, chain: seq<Block>, h: Header) {
    && h.chainID == p.chainID
    && h.version <= p.version
    && h.prevHash == LastHash(chain)
    && h.timestamp > LastTimestamp(chain)
    && h.generator != 0
    && h.height == |chain| + 1
    && (chain == [] ==> h.version > 0)
    && (chain != [] ==> h.version >= chain[|chain| - 1].header.version
                        && h.chainID == chain[|chain| - 1].header.chainID)
  }

  function Active(s: Node, env: Env): set<Address> {
    set a | a in env.connected && !(a in s.ignored && env.now < s.ignored[a])
  }

  function NewBlockRound(): BlockRound { BlockRound(map[], None, map[], None) }

  // An empty block round for each of the `n` heights from `target` on.
  function EmptyBlockRounds(target: nat, n: nat): (m: map<nat, BlockRound>)
    ensures forall h: nat :: h in m <==> target <= h < target + n
    ensures forall h: nat :: h in m ==> m[h] == NewBlockRound()
  {
    if n == 0 then map[] else EmptyBlockRounds(target, n - 1)[target + n - 1 := NewBlockRound()]
  }

  function NewRound(target: nat, maxBlocks: nat): Round {
    Round(RoundVoting, target, map[], map[], None, EmptyBlockRounds(target, maxBlocks), map[], 0)
  }

  function NewNode(p: Params, me: Key, ranks: seq<Rank>): Node {
    Node(me, [], ranks, 0, map[], NewRound(1, p.maxBlocks))
  }

  // Messages an observer builds.

  function SignedBlockVote(me: Key, gen: BlockGen, isReply: bool): Message {
    var vote := BlockVote(
                  gen.header.height, gen.header, gen.generatorSignature,
                  Signature(me, BlockSignContent(HashOf(gen.header), gen.generatorSignature), 0), isReply);
    BlockVoteMessage(vote, Signature(me, BlockVoteContent(vote), 0))
  }

  function Status(s: Node): Message { StatusMessage(|s.chain|, LastHash(s.chain)) }

  function SignedRoundVote(me: Key, vote: RoundVote): Message {
    RoundVoteMessage(vote, Signature(me, RoundVoteContent(vote), 0))
  }

  function SignedAck(me: Key, ack: RoundVoteAck): Message {
    RoundVoteAckMessage(ack, Signature(me, RoundVoteAckContent(ack), 0))
  }

  // A fresh vote for the best ranked formulator that is connected and not ignored.
  function FreshRoundVote(p: Params, s: Node, env: Env, isReply: bool): set<Message> {
    var top := TopRankIn(s.ranks, Active(s, env));
    if top.None? then {}
    else
      var r := s.ranks[top.value];
      {SignedRoundVote(s.me, RoundVote(p.chainID, LastHash(s.chain), |s.chain| + 1, top.value,
                                       r.address, r.publicHash, env.now, isReply))}
  }

  function RoundVoteReply(p: Params, s: Node, env: Env): set<Message> {
    if s.round.state != BlockVoting then FreshRoundVote(p, s, env, true)
    else if s.me !in s.round.votes then {}
    else
      var mine := s.round.votes[s.me].(isReply := true);
      if mine.targetHeight == |s.chain| + 1 then {SignedRoundVote(s.me, mine)}
      else {SignedRoundVote(s.me, mine.(timeoutCount := 0, targetHeight := |s.chain| + 1,
                                        lastHash := LastHash(s.chain), timestamp := env.now))}
  }

  function AckReply(s: Node, env: Env): set<Message> {
    if s.me !in s.round.acks then {}
    else
      var mine := s.round.acks[s.me].(isReply := true);
      if s.round.state != BlockVoting || mine.targetHeight == |s.chain| + 1 then {SignedAck(s.me, mine)}
      else {SignedAck(s.me, mine.(timeoutCount := 0, targetHeight := |s.chain| + 1,
                                  lastHash := LastHash(s.chain), timestamp := env.now))}
  }

  // The locked block is voted again for a peer that still asks about this height.
  function LockedVoteReply(s: Node): set<Message> {
    if s.round.state == BlockVoting && s.round.target in s.round.blocks
       && s.round.blocks[s.round.target].gen.Some?
    then {SignedBlockVote(s.me, s.round.blocks[s.round.target].gen.value, true)}
    else {}
  }
}
