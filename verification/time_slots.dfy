/** Time slots: how the chain keeps a transaction from being executed in two blocks while
    remembering only the last two five-second slots. */
module TimeSlots {
  import opened Basics

  const SLOT: nat := 5_000_000_000          // nanoseconds
  const U64: nat := 0x1_0000_0000_0000_0000

  type Time = t: nat | t < U64
  type Key = nat                            // a transaction hash

  datatype Tx = Tx(key: Key, timestamp: Time)
  datatype Block = Block(timestamp: Time, txs: seq<Tx>)
  datatype Error = Fine | InvalidTransactionTimeSlot | UsedTimeSlot

  type Slots = map<nat, set<Key>>

  function ToTimeSlot(t: Time): nat { (t / SLOT) % U32 }

  // The slot before, on 32-bit words.
  function Prev(slot: nat): nat { if slot == 0 then U32 - 1 else slot - 1 }

  predicate Marked(m: Slots, slot: nat, key: Key) { slot in m && key in m[slot] }

  function Mark(m: Slots, slot: nat, key: Key): Slots {
    m[slot := (if slot in m then m[slot] else {}) + {key}]
  }

  // The transaction's slot and key occur in the block, or in some block of the chain.
  predicate InBlock(b: Block, slot: nat, key: Key) {
    exists i :: 0 <= i < |b.txs| && ToTimeSlot(b.txs[i].timestamp) == slot && b.txs[i].key == key
  }

  predicate InChain(chain: seq<Block>, slot: nat, key: Key) {
    exists h :: 0 <= h < |chain| && InBlock(chain[h], slot, key)
  }

  predicate InWindow(slot: nat, cur: nat) { Prev(cur) <= slot <= cur }

  /** The window is the block's own slot and the one before. In slot 0 it is empty: the slot before wraps. */
  lemma WindowExactly(slot: nat, t: Time)
    ensures var cur := ToTimeSlot(t);
            InWindow(slot, cur) <==> cur != 0 && (slot == cur || slot + 1 == cur)
  {
  }

  // The slots of all transactions are within the block's window.
  predicate AllInWindow(b: Block) {
    forall i :: 0 <= i < |b.txs| ==> InWindow(ToTimeSlot(b.txs[i].timestamp), ToTimeSlot(b.timestamp))
  }

  // No transaction is marked in the store.
  predicate AllUnused(m: Slots, b: Block) {
    forall i :: 0 <= i < |b.txs| ==> !Marked(m, ToTimeSlot(b.txs[i].timestamp), b.txs[i].key)
  }

  // Chains the program can build: timestamps grow and every block keeps to its window.
  ghost predicate WellTimed(chain: seq<Block>) {
    && (forall h :: 0 <= h < |chain| ==> AllInWindow(chain[h]))
    && (forall g, h :: 0 <= g < h < |chain| ==> chain[g].timestamp < chain[h].timestamp)
  }

  // Every mark comes from the chain, and in the last two slots every transaction is marked.
  ghost predicate Remembers(m: Slots, chain: seq<Block>) {
    && (forall slot: nat, key :: Marked(m, slot, key) ==> InChain(chain, slot, key))
    && (chain != [] ==>
          forall slot: nat, key :: InChain(chain, slot, key) && Prev(ToTimeSlot(chain[|chain| - 1].timestamp)) <= slot
            ==> Marked(m, slot, key))
  }

  lemma SlotsGrow(a: Time, b: Time)
    ensures ToTimeSlot(a) == a / SLOT
    ensures a <= b ==> ToTimeSlot(a) <= ToTimeSlot(b)
  {
    assert a / SLOT <= U64 / SLOT < U32;
    assert b / SLOT <= U64 / SLOT < U32;
  }

  // The marks of the first n transactions of a block added to m.
  function MergedPrefix(m: Slots, b: Block, n: nat): Slots
    requires n <= |b.txs|
  {
    if n == 0 then m
    else Mark(MergedPrefix(m, b, n - 1), ToTimeSlot(b.txs[n - 1].timestamp), b.txs[n - 1].key)
  }

  predicate InPrefix(b: Block, n: nat, slot: nat, key: Key)
    requires n <= |b.txs|
  {
    exists i :: 0 <= i < n && ToTimeSlot(b.txs[i].timestamp) == slot && b.txs[i].key == key
  }

  lemma {:induction false} MergedMarks(m: Slots, b: Block, n: nat, slot: nat, key: Key)
    requires n <= |b.txs|
    ensures Marked(MergedPrefix(m, b, n), slot, key) <==> Marked(m, slot, key) || InPrefix(b, n, slot, key)
    ensures InPrefix(b, |b.txs|, slot, key) <==> InBlock(b, slot, key)
  {
    hide ToTimeSlot;
    if n > 0 {
      MergedMarks(m, b, n - 1, slot, key);
      var tx := b.txs[n - 1];
      MarkMarks(MergedPrefix(m, b, n - 1), ToTimeSlot(tx.timestamp), tx.key, slot, key);
      assert InPrefix(b, n, slot, key) <==>
             InPrefix(b, n - 1, slot, key) || (ToTimeSlot(tx.timestamp) == slot && tx.key == key);
    }
  }

  lemma MarkMarks(m: Slots, slot: nat, key: Key, slot': nat, key': Key)
    ensures Marked(Mark(m, slot, key), slot', key') <==> Marked(m, slot', key') || (slot == slot' && key == key')
  {
  }

  /** A store that remembers the last two slots answers for every slot of the next block's
      window exactly whether the transaction is in the chain. */
  lemma AnswersForNextBlock(m: Slots, chain: seq<Block>, t: Time, slot: nat, key: Key)
    requires WellTimed(chain) && Remembers(m, chain)
    requires chain != [] ==> chain[|chain| - 1].timestamp < t
    requires InWindow(slot, ToTimeSlot(t))
    ensures Marked(m, slot, key) <==> InChain(chain, slot, key)
  {
    if chain != [] {
      SlotsGrow(chain[|chain| - 1].timestamp, t);
      SlotsGrow(t, t);
    }
  }

  // The marks after a block is stored: merged, then only the last two slots kept.
  ghost predicate Stored(m: Slots, b: Block, m': Slots) {
    forall slot: nat, key :: Marked(m', slot, key) <==>
      (Marked(m, slot, key) || InBlock(b, slot, key)) && Prev(ToTimeSlot(b.timestamp)) <= slot
  }

  lemma InChainLast(chain: seq<Block>, b: Block, slot: nat, key: Key)
    ensures InChain(chain + [b], slot, key) <==> InChain(chain, slot, key) || InBlock(b, slot, key)
  {
    var all := chain + [b];
    if InBlock(b, slot, key) { assert InBlock(all[|chain|], slot, key); }
    if InChain(chain, slot, key) {
      var h :| 0 <= h < |chain| && InBlock(chain[h], slot, key);
      assert InBlock(all[h], slot, key);
    }
  }

  lemma StoringRemembers(m: Slots, chain: seq<Block>, b: Block, m': Slots)
    requires WellTimed(chain + [b]) && Remembers(m, chain) && Stored(m, b, m')
    ensures Remembers(m', chain + [b])
  {
    var all := chain + [b];
    forall slot: nat, key | Marked(m', slot, key) ensures InChain(all, slot, key) {
      InChainLast(chain, b, slot, key);
    }
    forall slot: nat, key | InChain(all, slot, key) && Prev(ToTimeSlot(b.timestamp)) <= slot
      ensures Marked(m', slot, key)
    {
      InChainLast(chain, b, slot, key);
      if InChain(chain, slot, key) && !InBlock(b, slot, key) {
        EarlierIsMarked(m, chain, b, slot, key);
      }
    }
  }

  lemma EarlierIsMarked(m: Slots, chain: seq<Block>, b: Block, slot: nat, key: Key)
    requires WellTimed(chain + [b]) && Remembers(m, chain) && InChain(chain, slot, key)
    requires Prev(ToTimeSlot(b.timestamp)) <= slot
    ensures Marked(m, slot, key)
  {
    var all := chain + [b];
    var last := chain[|chain| - 1];
    assert all[|chain| - 1] == last && all[|chain|] == b && last.timestamp < b.timestamp;
    assert forall h :: 0 <= h < |chain| ==> all[h] == chain[h];
    SlotsGrow(last.timestamp, b.timestamp);
    if ToTimeSlot(last.timestamp) == 0 {
      EmptyAtSlotZero(chain, slot, key);
    }
  }

  // While the chain is in slot 0 no transaction fits any window.
  lemma EmptyAtSlotZero(chain: seq<Block>, slot: nat, key: Key)
    requires WellTimed(chain) && chain != [] && ToTimeSlot(chain[|chain| - 1].timestamp) == 0
    ensures !InChain(chain, slot, key)
  {
    forall h | 0 <= h < |chain| ensures !InBlock(chain[h], slot, key) {
      SlotsGrow(chain[h].timestamp, chain[|chain| - 1].timestamp);
      assert chain[h].timestamp <= chain[|chain| - 1].timestamp;
      assert AllInWindow(chain[h]);
    }
  }

  // A restart. The marks are gone; the blocks that the stored state does not have yet are executed and
  // stored again, and then the last blocks are walked back to rebuild the marks.

  // The marks while the blocks from c on are stored again.
  ghost predicate Replayed(chain: seq<Block>, c: nat, ms: seq<Slots>) {
    && c <= |chain| && |ms| == |chain| - c + 1 && ms[0] == map[]
    && forall i :: 0 <= i < |chain| - c ==> Stored(ms[i], chain[c + i], ms[i + 1])
  }

  // Blocks with a slot no earlier than the one before the last block's.
  ghost predicate Recent(chain: seq<Block>, h: nat)
    requires h < |chain|
  {
    Prev(ToTimeSlot(chain[|chain| - 1].timestamp)) <= ToTimeSlot(chain[h].timestamp)
  }

  // The walk back from the last block ends before block h.
  ghost predicate WalkedTo(chain: seq<Block>, h: nat) {
    h <= |chain| && (forall g :: h <= g < |chain| ==> Recent(chain, g)) && (h > 0 ==> !Recent(chain, h - 1))
  }

  // The walk marks what is in its block's window.
  ghost predicate Seen(b: Block, slot: nat, key: Key) {
    InBlock(b, slot, key) && Prev(ToTimeSlot(b.timestamp)) <= slot
  }

  ghost predicate SeenFrom(chain: seq<Block>, h: nat, slot: nat, key: Key) {
    exists g :: h <= g < |chain| && Seen(chain[g], slot, key)
  }

  ghost predicate MarkedFrom(m: Slots, chain: seq<Block>, h: nat, m': Slots) {
    forall slot: nat, key :: Marked(m', slot, key) <==> Marked(m, slot, key) || SeenFrom(chain, h, slot, key)
  }

  // The marks after the walk.
  ghost predicate Rebuilt(m: Slots, chain: seq<Block>, m': Slots) {
    if chain == [] then m' == m else exists h: nat :: WalkedTo(chain, h) && MarkedFrom(m, chain, h, m')
  }

  ghost predicate Restarted(chain: seq<Block>, m': Slots) {
    exists c: nat, ms :: Replayed(chain, c, ms) && Rebuilt(ms[|chain| - c], chain, m')
  }

  // Every mark comes from the chain.
  ghost predicate Honest(m: Slots, chain: seq<Block>) {
    forall slot: nat, key :: Marked(m, slot, key) ==> InChain(chain, slot, key)
  }

  lemma {:induction false} ReplayedHonest(chain: seq<Block>, c: nat, ms: seq<Slots>, i: nat)
    requires Replayed(chain, c, ms) && i < |ms|
    ensures Honest(ms[i], chain)
    decreases i
  {
    if i > 0 {
      ReplayedHonest(chain, c, ms, i - 1);
      assert Stored(ms[i - 1], chain[c + i - 1], ms[i]);
    }
  }

  /** The walk makes the store remember the last two slots, whatever true marks were there. */
  lemma RebuiltRemembers(m: Slots, chain: seq<Block>, m': Slots)
    requires WellTimed(chain) && Honest(m, chain) && Rebuilt(m, chain, m')
    ensures Remembers(m', chain)
  {
    if chain != [] {
      var h: nat :| WalkedTo(chain, h) && MarkedFrom(m, chain, h, m');
      forall slot: nat, key | InChain(chain, slot, key) && Prev(ToTimeSlot(chain[|chain| - 1].timestamp)) <= slot
        ensures Marked(m', slot, key)
      {
        var g :| 0 <= g < |chain| && InBlock(chain[g], slot, key);
        if h > 0 { OlderAreForgotten(chain, h - 1); }
        assert AllInWindow(chain[g]) && Seen(chain[g], slot, key);
      }
    }
  }

  lemma RestartRemembers(chain: seq<Block>, m': Slots)
    requires WellTimed(chain) && Restarted(chain, m')
    ensures Remembers(m', chain)
  {
    hide Rebuilt;
    var c: nat, ms :| Replayed(chain, c, ms) && Rebuilt(ms[|chain| - c], chain, m');
    ReplayedHonest(chain, c, ms, |chain| - c);
    RebuiltRemembers(ms[|chain| - c], chain, m');
  }

  // Runs.

  ghost predicate Accepts(m: Slots, b: Block) { AllInWindow(b) && AllUnused(m, b) }

  ghost predicate IsRun(chain: seq<Block>, marks: seq<Slots>)
    requires |marks| == |chain| + 1
  {
    && marks[0] == map[]
    && (forall g, h :: 0 <= g < h < |chain| ==> chain[g].timestamp < chain[h].timestamp)
    && (forall h :: 0 <= h < |chain| ==> Accepted(chain, marks, h))
  }

  // Block h passes and is stored; a restart may follow, which loses the marks and rebuilds them.
  ghost predicate Accepted(chain: seq<Block>, marks: seq<Slots>, h: nat)
    requires |marks| == |chain| + 1 && h < |chain|
  {
    && Accepts(marks[h], chain[h])
    && (Stored(marks[h], chain[h], marks[h + 1]) || Restarted(chain[..h + 1], marks[h + 1]))
  }

  lemma {:induction false} RunRemembers(chain: seq<Block>, marks: seq<Slots>, n: nat)
    requires |marks| == |chain| + 1 && IsRun(chain, marks) && n <= |chain|
    ensures WellTimed(chain[..n]) && Remembers(marks[n], chain[..n])
    decreases n
  {
    if n > 0 {
      RunRemembers(chain, marks, n - 1);
      assert Accepted(chain, marks, n - 1);
      assert chain[..n] == chain[..n - 1] + [chain[n - 1]];
      if Stored(marks[n - 1], chain[n - 1], marks[n]) {
        StoringRemembers(marks[n - 1], chain[..n - 1], chain[n - 1], marks[n]);
      } else {
        RestartRemembers(chain[..n], marks[n]);
      }
    }
  }

  /** No transaction is in two blocks of a chain, though the store forgets all but two slots. */
  lemma NoReplay(chain: seq<Block>, marks: seq<Slots>, g: nat, h: nat, slot: nat, key: Key)
    requires |marks| == |chain| + 1 && IsRun(chain, marks) && g < h < |chain|
    requires InBlock(chain[g], slot, key)
    ensures !InBlock(chain[h], slot, key)
  {
    RunRemembers(chain, marks, h);
    assert Accepted(chain, marks, h);
    assert chain[..h][g] == chain[g] && InChain(chain[..h], slot, key);
    if InBlock(chain[h], slot, key) {
      AnswersForNextBlock(marks[h], chain[..h], chain[h].timestamp, slot, key);
    }
  }

  /** A block passes exactly when its transactions fit its window and none is in an earlier block:
      no transaction is refused because of what the store still remembers or has forgotten. */
  lemma AcceptsExactlyNew(chain: seq<Block>, marks: seq<Slots>, b: Block)
    requires |marks| == |chain| + 1 && IsRun(chain, marks)
    requires chain != [] ==> chain[|chain| - 1].timestamp < b.timestamp
    ensures Accepts(marks[|chain|], b) <==>
            forall slot: nat, key :: InBlock(b, slot, key) ==>
              && ToTimeSlot(b.timestamp) != 0
              && (slot == ToTimeSlot(b.timestamp) || slot + 1 == ToTimeSlot(b.timestamp))
              && !InChain(chain, slot, key)
  {
    AllWithin(b);
    AcceptsUnused(chain, marks, b);
  }

  lemma AllWithin(b: Block)
    ensures AllInWindow(b) <==>
            forall slot: nat, key :: InBlock(b, slot, key) ==>
              && ToTimeSlot(b.timestamp) != 0
              && (slot == ToTimeSlot(b.timestamp) || slot + 1 == ToTimeSlot(b.timestamp))
  {
    hide ToTimeSlot;
    forall slot: nat, key | InBlock(b, slot, key)
      ensures InWindow(slot, ToTimeSlot(b.timestamp)) <==>
              && ToTimeSlot(b.timestamp) != 0
              && (slot == ToTimeSlot(b.timestamp) || slot + 1 == ToTimeSlot(b.timestamp))
    {
      WindowExactly(slot, b.timestamp);
    }
    assert forall i :: 0 <= i < |b.txs| ==> InBlock(b, ToTimeSlot(b.txs[i].timestamp), b.txs[i].key);
  }

  lemma AcceptsUnused(chain: seq<Block>, marks: seq<Slots>, b: Block)
    requires |marks| == |chain| + 1 && IsRun(chain, marks)
    requires chain != [] ==> chain[|chain| - 1].timestamp < b.timestamp
    ensures Accepts(marks[|chain|], b) <==>
            AllInWindow(b) && forall slot: nat, key :: InBlock(b, slot, key) ==> !InChain(chain, slot, key)
  {
    var m := marks[|chain|];
    RunRemembers(chain, marks, |chain|);
    assert chain[..|chain|] == chain;
    if AllInWindow(b) {
      forall slot: nat, key | InBlock(b, slot, key) ensures Marked(m, slot, key) <==> InChain(chain, slot, key) {
        AnswersForNextBlock(m, chain, b.timestamp, slot, key);
      }
      if AllUnused(m, b) {
        assert forall slot: nat, key :: InBlock(b, slot, key) ==> !Marked(m, slot, key);
      } else {
        var i :| 0 <= i < |b.txs| && Marked(m, ToTimeSlot(b.txs[i].timestamp), b.txs[i].key);
        assert InBlock(b, ToTimeSlot(b.txs[i].timestamp), b.txs[i].key);
      }
    }
  }

  /** Within one block it is different: a block that carries an acceptable transaction twice is
      accepted just as well. */
  lemma SameBlockRepeatPasses(m: Slots, b: Block, i: nat)
    requires Accepts(m, b) && i < |b.txs|
    ensures Accepts(m, b.(txs := b.txs + [b.txs[i]]))
  {
    var c := b.(txs := b.txs + [b.txs[i]]);
    assert forall j :: 0 <= j < |c.txs| ==> c.txs[j] == b.txs[if j < |b.txs| then j else i];
  }

  class Store {
    var slots: Slots

    constructor ()
      ensures slots == map[]
    {
      slots := map[];
    }

    method HasTimeSlot(slot: nat, key: Key) returns (r: bool)
      ensures r == Marked(slots, slot, key)
    {
      if slot !in slots { return false; }
      return key in slots[slot];
    }

    /** Executes the slot checks of a block: each transaction in a snapshot of its own, merged
        into the block's context when it succeeds. */
    method UseTimeSlots(b: Block) returns (e: Error, used: Slots)
      ensures e == Fine <==> Accepts(slots, b)
      ensures e == Fine ==> forall slot: nat, key :: Marked(used, slot, key) <==> InBlock(b, slot, key)
      ensures e == InvalidTransactionTimeSlot ==> !AllInWindow(b)
      ensures e == UsedTimeSlot ==> !AllUnused(slots, b)
    {
      hide Mark, Marked, InBlock, ToTimeSlot;
      used := map[];
      var cur := ToTimeSlot(b.timestamp);
      var i := 0;
      while i < |b.txs|
        invariant 0 <= i <= |b.txs|
        invariant forall j :: 0 <= j < i ==> InWindow(ToTimeSlot(b.txs[j].timestamp), cur)
        invariant forall j :: 0 <= j < i ==> !Marked(slots, ToTimeSlot(b.txs[j].timestamp), b.txs[j].key)
        invariant used == MergedPrefix(map[], b, i)
      {
        var slot := ToTimeSlot(b.txs[i].timestamp);
        if slot < Prev(cur) { return InvalidTransactionTimeSlot, used; }
        if slot > cur { return InvalidTransactionTimeSlot, used; }
        NothingMarked(slot, b.txs[i].key);
        var layer, ok := UseTimeSlot(map[], slot, b.txs[i].key);
        if !ok { return UsedTimeSlot, used; }
        used := Commit(used, layer, slot, b.txs[i].key);
        i := i + 1;
      }
      forall slot: nat, key ensures Marked(used, slot, key) <==> InBlock(b, slot, key) {
        MergedMarks(map[], b, i, slot, key);
        NothingMarked(slot, key);
      }
      return Fine, used;
    }

    // UseTimeSlot on a layer: looks at the layer itself and at the store, not at the layers between.
    method UseTimeSlot(layer: Slots, slot: nat, key: Key) returns (layer': Slots, ok: bool)
      ensures ok <==> !Marked(layer, slot, key) && !Marked(slots, slot, key)
      ensures layer' == if Marked(layer, slot, key) then layer else Mark(layer, slot, key)
    {
      if slot in layer && key in layer[slot] { return layer, false; }
      var has := HasTimeSlot(slot, key);
      return Mark(layer, slot, key), !has;
    }

    // Commit of a snapshot that holds one mark.
    static method Commit(top: Slots, layer: Slots, slot: nat, key: Key) returns (r: Slots)
      requires layer == Mark(map[], slot, key)
      ensures r == Mark(top, slot, key)
    {
      assert layer[slot] == {key} && {} + {key} == {key};
      if slot in top {
        r := top[slot := top[slot] + layer[slot]];
      } else {
        r := top[slot := layer[slot]];
      }
    }

    /** Merges the block's marks and forgets every slot before the previous one. */
    method StoreBlock(b: Block, used: Slots)
      requires forall slot: nat, key :: Marked(used, slot, key) <==> InBlock(b, slot, key)
      modifies this
      ensures Stored(old(slots), b, slots)
    {
      var rest := used.Keys;
      while rest != {}
        invariant rest <= used.Keys
        invariant forall slot: nat, key :: Marked(slots, slot, key) <==>
                    old(Marked(slots, slot, key)) || (slot in used && slot !in rest && key in used[slot])
        decreases rest
      {
        var slot :| slot in rest;
        slots := slots[slot := (if slot in slots then slots[slot] else {}) + used[slot]];
        rest := rest - {slot};
      }
      assert forall slot: nat, key ::
               Marked(slots, slot, key) <==> old(Marked(slots, slot, key)) || Marked(used, slot, key);
      var cur := ToTimeSlot(b.timestamp);
      var deleteSlots := set slot | slot in slots && slot < Prev(cur);
      slots := slots - deleteSlots;
    }

    /** After a restart: walks back from the last block until a block is older than the previous
        slot. Whatever true marks were there, the store then remembers what it should. */
    method Rebuild(chain: seq<Block>)
      modifies this
      ensures Rebuilt(old(slots), chain, slots)
      ensures WellTimed(chain) && Honest(old(slots), chain) ==> Remembers(slots, chain)
    {
      hide Seen, Remembers, WellTimed, Honest;
      if |chain| > 0 {
        var lastSlot := ToTimeSlot(chain[|chain| - 1].timestamp);
        var h := |chain|;
        while h >= 1
          invariant 0 <= h <= |chain| && forall g :: h <= g < |chain| ==> Recent(chain, g)
          invariant MarkedFrom(old(slots), chain, h, slots)
        {
          if ToTimeSlot(chain[h - 1].timestamp) < Prev(lastSlot) { break; }
          ghost var was := slots;
          AddBlock(chain[h - 1]);
          OneMore(old(slots), chain, h - 1, was, slots);
          h := h - 1;
        }
        assert WalkedTo(chain, h);
      }
      if WellTimed(chain) && Honest(old(slots), chain) {
        RebuiltRemembers(old(slots), chain, slots);
      }
    }

    method AddBlock(b: Block)
      modifies this
      ensures forall slot: nat, key ::
                Marked(slots, slot, key) <==> old(Marked(slots, slot, key)) || Seen(b, slot, key)
    {
      hide ToTimeSlot, Marked, Mark;
      var cur := ToTimeSlot(b.timestamp);
      var i := 0;
      while i < |b.txs|
        invariant 0 <= i <= |b.txs|
        invariant forall slot: nat, key :: Marked(slots, slot, key) <==>
                    old(Marked(slots, slot, key)) || (InPrefix(b, i, slot, key) && Prev(cur) <= slot)
      {
        var tx := b.txs[i];
        var slot := ToTimeSlot(tx.timestamp);
        forall s: nat, k
          ensures Marked(Mark(slots, slot, tx.key), s, k) <==> Marked(slots, s, k) || (slot == s && tx.key == k)
          ensures InPrefix(b, i + 1, s, k) <==> InPrefix(b, i, s, k) || (slot == s && tx.key == k)
        {
          MarkMarks(slots, slot, tx.key, s, k);
        }
        if slot >= Prev(cur) {
          slots := Mark(slots, slot, tx.key);
        }
        i := i + 1;
      }
      assert forall slot: nat, key :: InPrefix(b, |b.txs|, slot, key) <==> InBlock(b, slot, key);
    }
  }

  lemma OneMore(m: Slots, chain: seq<Block>, h: nat, was: Slots, now: Slots)
    requires h < |chain| && MarkedFrom(m, chain, h + 1, was)
    requires forall slot: nat, key :: Marked(now, slot, key) <==> Marked(was, slot, key) || Seen(chain[h], slot, key)
    ensures MarkedFrom(m, chain, h, now)
  {
    hide Seen, Marked;
    forall slot: nat, key
      ensures SeenFrom(chain, h, slot, key) <==> SeenFrom(chain, h + 1, slot, key) || Seen(chain[h], slot, key)
    {
      if SeenFrom(chain, h, slot, key) {
        var g :| h <= g < |chain| && Seen(chain[g], slot, key);
        assert g > h ==> h + 1 <= g;
      }
    }
  }

  lemma NothingMarked(slot: nat, key: Key)
    ensures !Marked(map[], slot, key)
  {
  }

  // Nothing in blocks 0..h can matter once block h is older than the previous slot.
  ghost predicate Old(chain: seq<Block>, h: nat)
    requires h < |chain|
  {
    forall g, slot: nat, key :: 0 <= g <= h && InBlock(chain[g], slot, key) ==>
      slot < Prev(ToTimeSlot(chain[|chain| - 1].timestamp))
  }

  lemma OlderAreForgotten(chain: seq<Block>, h: nat)
    requires WellTimed(chain) && h < |chain| && !Recent(chain, h)
    ensures Old(chain, h)
  {
    forall g, slot: nat, key | 0 <= g <= h && InBlock(chain[g], slot, key)
      ensures slot < Prev(ToTimeSlot(chain[|chain| - 1].timestamp))
    {
      assert g < h ==> chain[g].timestamp < chain[h].timestamp;
      SlotsGrow(chain[g].timestamp, chain[h].timestamp);
      assert AllInWindow(chain[g]);
    }
  }
}
