/** The context overlay as values: a stack of layers of accounts and data, with tombstones, over
    a store. */
module Overlay {
  import opened Basics

  type Bytes = seq<nat>

  // Data kept per account and process, or per process.
  datatype Key = AccountData(addr: Address, pid: nat, name: Bytes) | ProcessData(pid: nat, name: Bytes)

  datatype State = State(name: string, balance: int)

  datatype Error = NotExistAccount | DeletedAccount | InvalidAddressHeight | NotAllowedEmptyAddress | ExistAccount
  datatype Result<T> = Ok(value: T) | Err(error: Error)

  // The store: an account is there, or a marker that it was deleted.
  datatype Entry = Live(state: State) | Marker
  datatype Store = Store(accounts: map<Address, Entry>, data: map<Key, Bytes>)

  datatype Layer = Layer(accounts: map<Address, State>, deletedAccounts: set<Address>,
                         data: map<Key, Bytes>, deletedData: set<Key>)

  type Stack = seq<Layer>

  const EMPTY: Layer := Layer(map[], {}, map[], {})

  function Last(st: Stack): Layer
    requires st != []
  {
    st[|st| - 1]
  }

  function Init(st: Stack): Stack
    requires st != []
  {
    st[..|st| - 1]
  }

  // Lookups; absent data is the empty value.

  function StoreAccount(base: Store, a: Address): Result<State> {
    if a !in base.accounts then Err(NotExistAccount)
    else match base.accounts[a] case Live(s) => Ok(s) case Marker => Err(DeletedAccount)
  }

  function StoreData(base: Store, k: Key): Bytes { if k in base.data then base.data[k] else [] }

  function FindAccount(base: Store, st: Stack, a: Address): Result<State>
    decreases |st|
  {
    if st == [] then StoreAccount(base, a)
    else if a in Last(st).deletedAccounts then Err(DeletedAccount)
    else if a in Last(st).accounts then Ok(Last(st).accounts[a])
    else FindAccount(base, Init(st), a)
  }

  function FindData(base: Store, st: Stack, k: Key): Bytes
    decreases |st|
  {
    if st == [] then StoreData(base, k)
    else if k in Last(st).deletedData then []
    else if k in Last(st).data then Last(st).data[k]
    else FindData(base, Init(st), k)
  }

  // HasAccount: a deleted account of a layer is absent, one of the store is an error.
  function HasAccount(base: Store, st: Stack, a: Address): Result<bool>
    decreases |st|
  {
    if st == [] then
      (if a !in base.accounts then Ok(false) else if base.accounts[a].Marker? then Err(DeletedAccount) else Ok(true))
    else if a in Last(st).deletedAccounts then Ok(false)
    else if a in Last(st).accounts then Ok(true)
    else HasAccount(base, Init(st), a)
  }

  // Operations on the top layer.

  function SetTop(st: Stack, l: Layer): Stack
    requires st != []
  {
    Init(st) + [l]
  }

  // Reading caches the value in the top layer.
  function ReadData(base: Store, st: Stack, k: Key): Stack
    requires st != []
  {
    var top := Last(st);
    var v := FindData(base, Init(st), k);
    if k in top.deletedData || k in top.data || v == [] then st else SetTop(st, top.(data := top.data[k := v]))
  }

  function WriteData(st: Stack, k: Key, v: Bytes): Stack
    requires st != []
  {
    var top := Last(st);
    SetTop(st, if v == [] then top.(data := top.data - {k}, deletedData := top.deletedData + {k})
               else top.(data := top.data[k := v], deletedData := top.deletedData - {k}))
  }

  function ReadAccount(base: Store, st: Stack, a: Address): Stack
    requires st != []
  {
    var top := Last(st);
    var r := FindAccount(base, Init(st), a);
    if a in top.deletedAccounts || a in top.accounts || r.Err? then st
    else SetTop(st, top.(accounts := top.accounts[a := r.value]))
  }

  // A change to the account object that a read returned.
  function ChangeAccount(base: Store, st: Stack, a: Address, s: State): Stack
    requires st != []
  {
    var st' := ReadAccount(base, st, a);
    if FindAccount(base, st, a).Err? then st' else SetTop(st', Last(st').(accounts := Last(st').accounts[a := s]))
  }

  // A change to the account object that layer i holds, made through a reference kept since it was read.
  function ChangeHeld(st: Stack, i: nat, a: Address, s: State): (r: Stack)
    ensures |r| == |st|
  {
    if i < |st| && a in st[i].accounts then st[i := st[i].(accounts := st[i].accounts[a := s])] else st
  }

  function CreateError(base: Store, st: Stack, a: Address, height: nat, target: nat): Result<()> {
    if height != target then Err(InvalidAddressHeight)
    else if a == 0 then Err(NotAllowedEmptyAddress)
    else match HasAccount(base, st, a)
         case Err(e) => if e != NotExistAccount then Err(e) else Ok(())
         case Ok(has) => if has then Err(ExistAccount) else Ok(())
  }

  function CreateAccount(base: Store, st: Stack, a: Address, s: State, height: nat, target: nat): Stack
    requires st != []
  {
    if CreateError(base, st, a, height, target).Err? then st
    else SetTop(st, Last(st).(accounts := Last(st).accounts[a := s]))
  }

  function DeleteAccount(base: Store, st: Stack, a: Address): Stack
    requires st != []
  {
    var st' := ReadAccount(base, st, a);
    if FindAccount(base, st, a).Err? then st'
    else
      var top := Last(st');
      SetTop(st', top.(accounts := top.accounts - {a}, deletedAccounts := top.deletedAccounts + {a}))
  }

  function Snapshot(st: Stack): Stack { st + [EMPTY] }

  function Revert(st: Stack, sn: nat): Stack
    requires sn >= 1
  {
    if |st| >= sn then st[..sn - 1] else st
  }

  // A layer merged into the one below it.
  function Merge(below: Layer, top: Layer): Layer {
    Layer((below.accounts + top.accounts) - top.deletedAccounts, below.deletedAccounts + top.deletedAccounts,
          (below.data + top.data) - top.deletedData, below.deletedData + top.deletedData)
  }

  function MergeTop(st: Stack): Stack
    requires |st| >= 2
  {
    st[..|st| - 2] + [Merge(st[|st| - 2], st[|st| - 1])]
  }

  function Commit(st: Stack, sn: nat): Stack
    requires sn >= 2
    decreases |st|
  {
    if |st| >= sn then Commit(MergeTop(st), sn) else st
  }

  // Reads and writes.

  ghost predicate SameView(base: Store, st: Stack, st': Stack) {
    && (forall k :: FindData(base, st', k) == FindData(base, st, k))
    && (forall a :: FindAccount(base, st', a) == FindAccount(base, st, a))
  }

  lemma SetTopFacts(st: Stack, l: Layer)
    requires st != []
    ensures |SetTop(st, l)| == |st| && Last(SetTop(st, l)) == l && Init(SetTop(st, l)) == Init(st)
  {
  }

  /** Caching on read is invisible: no lookup, of any key or account, changes. */
  lemma ReadsAreInvisible(base: Store, st: Stack, k: Key, a: Address)
    requires st != []
    ensures SameView(base, st, ReadData(base, st, k)) && SameView(base, st, ReadAccount(base, st, a))
  {
    var top := Last(st);
    SetTopFacts(st, top.(data := top.data[k := FindData(base, Init(st), k)]));
    var r := FindAccount(base, Init(st), a);
    if r.Ok? {
      SetTopFacts(st, top.(accounts := top.accounts[a := r.value]));
    }
  }

  lemma WriteDataReads(base: Store, st: Stack, k: Key, v: Bytes, k': Key)
    requires st != []
    ensures FindData(base, WriteData(st, k, v), k') == if k' == k then v else FindData(base, st, k')
  {
    SetTopFacts(st, Last(WriteData(st, k, v)));
  }

  // What the account operations leave to be read.

  // Only the accounts of the top layer differ, and only at a.
  ghost predicate OnlyAccount(st: Stack, st': Stack, a: Address)
    requires st != []
  {
    && |st'| == |st| && Init(st') == Init(st)
    && Last(st').data == Last(st).data && Last(st').deletedData == Last(st).deletedData
    && forall b :: b != a ==> (b in Last(st').deletedAccounts <==> b in Last(st).deletedAccounts)
                              && (b in Last(st').accounts <==> b in Last(st).accounts)
                              && (b in Last(st).accounts ==> Last(st').accounts[b] == Last(st).accounts[b])
  }

  lemma OthersReadSame(base: Store, st: Stack, st': Stack, a: Address)
    requires st != [] && OnlyAccount(st, st', a)
    ensures forall b :: b != a ==> FindAccount(base, st', b) == FindAccount(base, st, b)
    ensures forall k :: FindData(base, st', k) == FindData(base, st, k)
  {
  }

  lemma ReadAccountTop(base: Store, st: Stack, a: Address)
    requires st != []
    ensures OnlyAccount(st, ReadAccount(base, st, a), a)
    ensures Last(ReadAccount(base, st, a)).deletedAccounts == Last(st).deletedAccounts
    ensures FindAccount(base, ReadAccount(base, st, a), a) == FindAccount(base, st, a)
    ensures FindAccount(base, st, a).Ok? ==> a in Last(ReadAccount(base, st, a)).accounts
    ensures FindAccount(base, st, a).Ok? ==> a !in Last(st).deletedAccounts
  {
    var r := FindAccount(base, Init(st), a);
    if r.Ok? {
      SetTopFacts(st, Last(st).(accounts := Last(st).accounts[a := r.value]));
    }
  }

  /** Deleting a readable account makes it, and only it, read as deleted; deleting any other address changes
      no lookup. */
  lemma DeletedReads(base: Store, st: Stack, a: Address)
    requires st != []
    ensures var st' := DeleteAccount(base, st, a);
            && (forall b :: b != a ==> FindAccount(base, st', b) == FindAccount(base, st, b))
            && (forall k :: FindData(base, st', k) == FindData(base, st, k))
            && FindAccount(base, st', a)
               == if FindAccount(base, st, a).Ok? then Err(DeletedAccount) else FindAccount(base, st, a)
  {
    var st1, st' := ReadAccount(base, st, a), DeleteAccount(base, st, a);
    ReadAccountTop(base, st, a);
    SetTopFacts(st1, Last(st'));
    OthersReadSame(base, st, st', a);
  }

  /** Changing an account through a fresh read makes it read as the new state, and nothing else changes; an
      account that cannot be read is left alone. */
  lemma ChangedReads(base: Store, st: Stack, a: Address, s: State)
    requires st != []
    ensures var st' := ChangeAccount(base, st, a, s);
            && (forall b :: b != a ==> FindAccount(base, st', b) == FindAccount(base, st, b))
            && (forall k :: FindData(base, st', k) == FindData(base, st, k))
            && FindAccount(base, st', a) == if FindAccount(base, st, a).Ok? then Ok(s) else FindAccount(base, st, a)
  {
    var st1, st' := ReadAccount(base, st, a), ChangeAccount(base, st, a, s);
    ReadAccountTop(base, st, a);
    SetTopFacts(st1, Last(st'));
    OthersReadSame(base, st, st', a);
  }

  /** An account is there exactly when it can be read. For the rest, a deletion in some layer makes it absent,
      and one in the store is an error. */
  lemma {:induction false} HasIsReadable(base: Store, st: Stack, a: Address)
    ensures HasAccount(base, st, a) == Ok(true) <==> FindAccount(base, st, a).Ok?
    ensures HasAccount(base, st, a) == Err(DeletedAccount) <==>
              StoreAccount(base, a) == Err(DeletedAccount)
              && forall i :: 0 <= i < |st| ==> a !in st[i].deletedAccounts && a !in st[i].accounts
    ensures HasAccount(base, st, a).Err? ==> HasAccount(base, st, a) == Err(DeletedAccount)
    decreases |st|
  {
    if st != [] {
      HasIsReadable(base, Init(st), a);
      assert forall i :: 0 <= i < |st| - 1 ==> Init(st)[i] == st[i];
    }
  }

  /** Creating fails with the first of: a foreign height, the empty address, an account that can be read, an
      account that the store holds as deleted. After it succeeds the account reads as created if and only if
      the top layer has no tombstone for it, and nothing else changes. */
  lemma CreatedReads(base: Store, st: Stack, a: Address, s: State, height: nat, target: nat)
    requires st != []
    ensures var e := CreateError(base, st, a, height, target);
            && (e == Err(InvalidAddressHeight) <==> height != target)
            && (e == Err(NotAllowedEmptyAddress) <==> height == target && a == 0)
            && (e == Err(ExistAccount) <==> height == target && a != 0 && FindAccount(base, st, a).Ok?)
            && (e == Err(DeletedAccount) <==>
                  && height == target && a != 0 && StoreAccount(base, a) == Err(DeletedAccount)
                  && forall i :: 0 <= i < |st| ==> a !in st[i].deletedAccounts && a !in st[i].accounts)
    ensures var st' := CreateAccount(base, st, a, s, height, target);
            && (forall b :: b != a ==> FindAccount(base, st', b) == FindAccount(base, st, b))
            && (forall k :: FindData(base, st', k) == FindData(base, st, k))
            && (CreateError(base, st, a, height, target).Err? ==> st' == st)
            && (CreateError(base, st, a, height, target).Ok? ==>
                  (FindAccount(base, st', a) == Ok(s) <==> a !in Last(st).deletedAccounts))
  {
    HasIsReadable(base, st, a);
    var st' := CreateAccount(base, st, a, s, height, target);
    SetTopFacts(st, Last(st'));
    OthersReadSame(base, st, st', a);
  }

  /** A deletion made in any committed snapshot is still read as a deletion, whatever the layers above did to
      the account, and the store answers the same after the block is flushed. */
  lemma {:induction false} DeletionSurvives(base: Store, st: Stack, sn: nat, a: Address, i: nat)
    requires 2 <= sn && sn - 2 <= i < |st| && a in st[i].deletedAccounts
    ensures Commit(st, sn) != [] && a in Last(Commit(st, sn)).deletedAccounts
    ensures FindAccount(base, Commit(st, sn), a) == Err(DeletedAccount)
    ensures |Commit(st, sn)| == 1 ==> StoreAccount(Flush(base, Commit(st, sn)[0]), a) == Err(DeletedAccount)
    decreases |st|
  {
    if |st| >= sn {
      var m := MergeTop(st);
      var j := if i == |st| - 1 then i - 1 else i;
      assert a in m[j].deletedAccounts;
      DeletionSurvives(base, m, sn, a, j);
    } else {
      assert i == |st| - 1;
    }
  }

  // Commit.

  // A key is set in the upper layer over a tombstone of the lower one.
  predicate LosesData(below: Layer, top: Layer, k: Key) {
    k in top.data && k !in top.deletedData && k in below.deletedData
  }

  predicate LosesAccount(below: Layer, top: Layer, a: Address) {
    a in top.accounts && a !in top.deletedAccounts && a in below.deletedAccounts
  }

  // Layers never hold an empty value: writing one leaves a tombstone instead.
  predicate NonEmpty(l: Layer) { forall k :: k in l.data ==> l.data[k] != [] }

  /** Merging the top layer keeps a data read exactly when it does not set the key over a
      tombstone of the layer below: then the write is lost. */
  lemma MergeKeepsData(base: Store, st: Stack, k: Key)
    requires |st| >= 2 && NonEmpty(Last(st))
    ensures FindData(base, MergeTop(st), k) == FindData(base, st, k)
       <==> !LosesData(st[|st| - 2], st[|st| - 1], k)
    ensures LosesData(st[|st| - 2], st[|st| - 1], k) ==> FindData(base, MergeTop(st), k) == []
  {
    var m := MergeTop(st);
    assert Init(m) == st[..|st| - 2] == Init(Init(st));
    assert Last(Init(st)) == st[|st| - 2];
  }

  lemma MergeKeepsAccount(base: Store, st: Stack, a: Address)
    requires |st| >= 2
    ensures FindAccount(base, MergeTop(st), a) == FindAccount(base, st, a)
       <==> !LosesAccount(st[|st| - 2], st[|st| - 1], a)
    ensures LosesAccount(st[|st| - 2], st[|st| - 1], a) ==> FindAccount(base, MergeTop(st), a) == Err(DeletedAccount)
  {
    var m := MergeTop(st);
    assert Init(m) == st[..|st| - 2] == Init(Init(st));
    assert Last(Init(st)) == st[|st| - 2];
  }

  // The key is not set above a tombstone in any layer from the receiving one up.
  ghost predicate NoDataLost(st: Stack, sn: nat, k: Key) {
    forall i, j :: sn - 2 <= i < j < |st| && 0 <= i && k in st[i].deletedData ==>
      k !in st[j].data || KeyGoneAfter(st, j, k)
  }

  // A tombstone at layer j or above it.
  ghost predicate KeyGoneAfter(st: Stack, j: nat, k: Key) {
    exists m :: j <= m < |st| && k in st[m].deletedData
  }

  lemma MergeTopAt(st: Stack, j: nat)
    requires |st| >= 2 && j < |st| - 1
    ensures |MergeTop(st)| == |st| - 1
    ensures MergeTop(st)[j] == if j == |st| - 2 then Merge(st[j], st[j + 1]) else st[j]
  {
  }

  /** Committing several snapshots at once keeps the read of a key exactly when no layer sets it
      over a tombstone, of the receiving layer or above, without deleting it again higher up. */
  lemma CommitKeepsData(base: Store, st: Stack, sn: nat, k: Key)
    requires 2 <= sn && st != [] && forall i :: 0 <= i < |st| ==> NonEmpty(st[i])
    ensures FindData(base, Commit(st, sn), k) == FindData(base, st, k) <==> NoDataLost(st, sn, k)
  {
    hide FindData, Commit;
    if NoDataLost(st, sn, k) {
      CommitWithoutLoss(base, st, sn, k);
    } else {
      var i, j :| sn - 2 <= i < j < |st| && 0 <= i && k in st[i].deletedData && k in st[j].data
        && !KeyGoneAfter(st, j, k);
      FoundAbove(base, st, k, j);
      CommitTombstone(base, st, sn, k, i);
    }
  }

  lemma {:induction false} FoundAbove(base: Store, st: Stack, k: Key, j: nat)
    requires j < |st| && k in st[j].data && !KeyGoneAfter(st, j, k)
    requires forall i :: 0 <= i < |st| ==> NonEmpty(st[i])
    ensures FindData(base, st, k) != []
    decreases |st|
  {
    assert k !in Last(st).deletedData;
    if k !in Last(st).data {
      assert forall m :: j <= m < |Init(st)| ==> Init(st)[m] == st[m];
      FoundAbove(base, Init(st), k, j);
    }
  }

  lemma {:induction false} CommitTombstone(base: Store, st: Stack, sn: nat, k: Key, i: nat)
    requires 2 <= sn && sn - 2 <= i < |st| && k in st[i].deletedData
    ensures FindData(base, Commit(st, sn), k) == []
    decreases |st|
  {
    if |st| >= sn {
      var j := if i == |st| - 1 then i - 1 else i;
      MergeTopAt(st, j);
      CommitTombstone(base, MergeTop(st), sn, k, j);
    }
  }

  lemma {:induction false} CommitWithoutLoss(base: Store, st: Stack, sn: nat, k: Key)
    requires 2 <= sn && st != [] && NoDataLost(st, sn, k)
    requires forall i :: 0 <= i < |st| ==> NonEmpty(st[i])
    ensures FindData(base, Commit(st, sn), k) == FindData(base, st, k)
    decreases |st|
  {
    hide FindData, NoDataLost, NonEmpty, Merge;
    if |st| >= sn {
      TopNotLost(st, sn, k);
      MergeKeepsData(base, st, k);
      MergeNonEmpty(st);
      MergeLosesNone(st, sn, k);
      CommitWithoutLoss(base, MergeTop(st), sn, k);
    }
  }

  lemma TopNotLost(st: Stack, sn: nat, k: Key)
    requires 2 <= sn <= |st| && NoDataLost(st, sn, k)
    ensures !LosesData(st[|st| - 2], st[|st| - 1], k)
  {
    var n := |st|;
    assert LosesData(st[n - 2], st[n - 1], k) ==> KeyGoneAfter(st, n - 1, k);
  }

  lemma MergeNonEmpty(st: Stack)
    requires |st| >= 2 && forall i :: 0 <= i < |st| ==> NonEmpty(st[i])
    ensures forall i :: 0 <= i < |MergeTop(st)| ==> NonEmpty(MergeTop(st)[i])
  {
    forall i | 0 <= i < |MergeTop(st)| ensures NonEmpty(MergeTop(st)[i]) {
      MergeTopAt(st, i);
      assert NonEmpty(st[|st| - 2]) && NonEmpty(st[|st| - 1]);
    }
  }

  lemma MergeLosesNone(st: Stack, sn: nat, k: Key)
    requires 2 <= sn <= |st| && NoDataLost(st, sn, k)
    ensures NoDataLost(MergeTop(st), sn, k)
  {
    var m, n := MergeTop(st), |st|;
    forall i, j | sn - 2 <= i < j < |m| && 0 <= i && k in m[i].deletedData && k in m[j].data
      ensures KeyGoneAfter(m, j, k)
    {
      MergeTopAt(st, i);
      MergeTopAt(st, j);
      if j == n - 2 {
        assert k !in st[n - 1].deletedData;
        assert k in st[n - 1].data ==> KeyGoneAfter(st, n - 1, k);
        assert k in st[n - 2].data ==> KeyGoneAfter(st, n - 2, k);
        assert k in st[n - 2].deletedData ==> k in m[n - 2].deletedData;
      } else {
        var x :| j <= x < |st| && k in st[x].deletedData;
        MergeTopAt(st, if x == n - 1 then n - 2 else x);
        assert k in m[if x == n - 1 then n - 2 else x].deletedData;
      }
    }
  }

  /** In particular a write over a tombstone of the block, made in a snapshot and committed, is
      not read back. */
  lemma WriteOverTombstoneIsLost(base: Store, st: Stack, k: Key, v: Bytes)
    requires st != [] && k in Last(st).deletedData && v != []
    ensures FindData(base, WriteData(Snapshot(st), k, v), k) == v
    ensures FindData(base, Commit(WriteData(Snapshot(st), k, v), |st| + 1), k) == []
    ensures FindData(base, WriteData(st, k, v), k) == v
  {
    var up := WriteData(Snapshot(st), k, v);
    SetTopFacts(Snapshot(st), Last(up));
    assert up[|up| - 2] == Last(st) && NonEmpty(Last(up));
    WriteDataReads(base, Snapshot(st), k, v, k);
    WriteDataReads(base, st, k, v, k);
    MergeKeepsData(base, up, k);
    assert |MergeTop(up)| == |st|;
  }

  // Transactions as lists of commands.

  datatype Cmd =
    | GetData(k: Key) | PutData(k: Key, v: Bytes)
    | GetAccount(a: Address) | SetAccount(a: Address, s: State) | SetHeld(i: nat, a: Address, s: State)
    | NewAccount(a: Address, s: State, height: nat) | DropAccount(a: Address)
    | Push | Pop(sn: nat) | Squash(sn: nat)

  function Do(base: Store, target: nat, st: Stack, c: Cmd): Stack
    requires st != [] && (c.Pop? || c.Squash? ==> c.sn >= 2)
  {
    match c
    case GetData(k) => ReadData(base, st, k)
    case PutData(k, v) => WriteData(st, k, v)
    case GetAccount(a) => ReadAccount(base, st, a)
    case SetAccount(a, s) => ChangeAccount(base, st, a, s)
    case SetHeld(i, a, s) => ChangeHeld(st, i, a, s)
    case NewAccount(a, s, height) => CreateAccount(base, st, a, s, height, target)
    case DropAccount(a) => DeleteAccount(base, st, a)
    case Push => Snapshot(st)
    case Pop(sn) => Revert(st, sn)
    case Squash(sn) => Commit(st, sn)
  }

  // The commands revert and commit only their own snapshots, those above depth d.
  predicate StaysAbove(cmds: seq<Cmd>, d: nat) {
    forall i :: 0 <= i < |cmds| && (cmds[i].Pop? || cmds[i].Squash?) ==> cmds[i].sn >= d + 1
  }

  function Run(base: Store, target: nat, st: Stack, cmds: seq<Cmd>): Stack
    requires st != [] && StaysAbove(cmds, 1)
    decreases |cmds|
  {
    if cmds == [] then st
    else
      DoNonEmpty(base, target, st, cmds[0]);
      Run(base, target, Do(base, target, st, cmds[0]), cmds[1..])
  }

  lemma DoNonEmpty(base: Store, target: nat, st: Stack, c: Cmd)
    requires st != [] && (c.Pop? || c.Squash? ==> c.sn >= 2)
    ensures Do(base, target, st, c) != []
  {
    if c.Squash? {
      CommitAbove(st, c.sn, 1);
    }
  }

  lemma {:induction false} CommitAbove(st: Stack, sn: nat, d: nat)
    requires 1 <= d <= |st| && sn >= d + 1
    ensures |Commit(st, sn)| >= d && Commit(st, sn)[..d - 1] == st[..d - 1]
    ensures sn >= d + 2 ==> Commit(st, sn)[..d] == st[..d]
    decreases |st|
  {
    if |st| >= sn {
      var m := MergeTop(st);
      CommitAbove(m, sn, d);
      assert m[..|st| - 2] == st[..|st| - 2];
      if sn >= d + 2 {
        assert m[..d] == st[..d];
      }
    }
  }

  // What the commands change through objects of the layers of st.
  function Held(st: Stack, cmds: seq<Cmd>): (r: Stack)
    ensures |r| == |st|
    decreases |cmds|
  {
    if cmds == [] then st else Held(HeldOne(st, cmds[0]), cmds[1..])
  }

  function HeldOne(st: Stack, c: Cmd): Stack { if c.SetHeld? then ChangeHeld(st, c.i, c.a, c.s) else st }

  // One command changes the first d layers only through objects held from them, as long as there are
  // layers above them.
  lemma DoIsolated(base: Store, target: nat, st: Stack, c: Cmd, d: nat)
    requires 1 <= d < |st| && (c.Pop? || c.Squash? ==> c.sn >= d + 2)
    ensures |Do(base, target, st, c)| > d && Do(base, target, st, c)[..d] == HeldOne(st[..d], c)
  {
    var st' := Do(base, target, st, c);
    if c.Squash? {
      CommitAbove(st, c.sn, d + 1);
      assert st'[..d] == st[..d];
    } else if c.SetHeld? {
      assert st'[..d] == ChangeHeld(st[..d], c.i, c.a, c.s);
    } else if !c.Push? && !c.Pop? {
      DoTop(base, target, st, c);
      assert st'[..d] == Init(st')[..d] && Init(st)[..d] == st[..d];
    }
  }

  lemma DoTop(base: Store, target: nat, st: Stack, c: Cmd)
    requires st != [] && !c.Push? && !c.Pop? && !c.Squash? && !c.SetHeld?
    ensures var st' := Do(base, target, st, c); |st'| == |st| && Init(st') == Init(st)
  {
  }

  lemma {:induction false} RunIsolated(base: Store, target: nat, st: Stack, cmds: seq<Cmd>, d: nat)
    requires 1 <= d < |st| && StaysAbove(cmds, d + 1)
    ensures var st' := Run(base, target, st, cmds); |st'| > d && st'[..d] == Held(st[..d], cmds)
    decreases |cmds|
  {
    hide Do, HeldOne;
    if cmds != [] {
      DoIsolated(base, target, st, cmds[0], d);
      RunIsolated(base, target, Do(base, target, st, cmds[0]), cmds[1..], d);
    }
  }

  /** Whatever a transaction does between its snapshot and the revert, including nested snapshots,
      reverting undoes all of it but the changes through objects held from before the snapshot. */
  lemma RevertLeavesHeld(base: Store, target: nat, st: Stack, cmds: seq<Cmd>)
    requires st != [] && StaysAbove(cmds, |st| + 1)
    ensures Revert(Run(base, target, Snapshot(st), cmds), |st| + 1) == Held(st, cmds)
  {
    RunIsolated(base, target, Snapshot(st), cmds, |st|);
    assert Snapshot(st)[..|st|] == st;
  }

  // The last state set through the object of a in layer i, or s.
  function AfterHeld(s: State, i: nat, a: Address, cmds: seq<Cmd>): State
    decreases |cmds|
  {
    if cmds == [] then s
    else AfterHeld(if cmds[0].SetHeld? && cmds[0].i == i && cmds[0].a == a then cmds[0].s else s, i, a, cmds[1..])
  }

  lemma {:induction false} HeldStates(st: Stack, cmds: seq<Cmd>, i: nat)
    requires i < |st|
    ensures Held(st, cmds)[i] == st[i].(accounts := Held(st, cmds)[i].accounts)
    ensures Held(st, cmds)[i].accounts.Keys == st[i].accounts.Keys
    ensures forall a :: a in st[i].accounts ==>
              Held(st, cmds)[i].accounts[a] == AfterHeld(st[i].accounts[a], i, a, cmds)
    decreases |cmds|
  {
    if cmds != [] {
      HeldStates(HeldOne(st, cmds[0]), cmds[1..], i);
      assert HeldOne(st, cmds[0])[i].accounts.Keys == st[i].accounts.Keys;
    }
  }

  // No command changes an object of the first d layers.
  predicate HoldsAbove(cmds: seq<Cmd>, d: nat) {
    forall j :: 0 <= j < |cmds| && cmds[j].SetHeld? ==> cmds[j].i >= d
  }

  // Every object of st that was changed was last given back its state.
  ghost predicate GivenBack(st: Stack, cmds: seq<Cmd>) {
    forall i, a :: 0 <= i < |st| && a in st[i].accounts ==>
      AfterHeld(st[i].accounts[a], i, a, cmds) == st[i].accounts[a]
  }

  /** Reverting gives back the very stack that the snapshot was made of if and only if every object
      held from before the snapshot was last given its old state; in particular if none was changed. */
  lemma RevertRestores(base: Store, target: nat, st: Stack, cmds: seq<Cmd>)
    requires st != [] && StaysAbove(cmds, |st| + 1)
    ensures Revert(Run(base, target, Snapshot(st), cmds), |st| + 1) == st <==> GivenBack(st, cmds)
    ensures HoldsAbove(cmds, |st|) ==> GivenBack(st, cmds)
  {
    hide Run, Held, AfterHeld;
    RevertLeavesHeld(base, target, st, cmds);
    forall i | 0 <= i < |st|
      ensures Held(st, cmds)[i] == st[i] <==>
              forall a :: a in st[i].accounts ==> AfterHeld(st[i].accounts[a], i, a, cmds) == st[i].accounts[a]
    {
      HeldStates(st, cmds, i);
      assert Held(st, cmds)[i] == st[i] <==> Held(st, cmds)[i].accounts == st[i].accounts;
    }
    if HoldsAbove(cmds, |st|) {
      forall i, a | 0 <= i < |st| && a in st[i].accounts
        ensures AfterHeld(st[i].accounts[a], i, a, cmds) == st[i].accounts[a]
      {
        NotHeld(st[i].accounts[a], i, a, cmds);
      }
    }
  }

  lemma {:induction false} NotHeld(s: State, i: nat, a: Address, cmds: seq<Cmd>)
    requires HoldsAbove(cmds, i + 1)
    ensures AfterHeld(s, i, a, cmds) == s
    decreases |cmds|
  {
    if cmds != [] {
      NotHeld(s, i, a, cmds[1..]);
    }
  }

  /** A change through an object held from below the snapshot survives the revert. */
  lemma HeldChangeSurvives(base: Store, target: nat, st: Stack, i: nat, a: Address, s: State)
    requires i < |st| && a in st[i].accounts
    ensures Revert(Run(base, target, Snapshot(st), [SetHeld(i, a, s)]), |st| + 1) == ChangeHeld(st, i, a, s)
    ensures ChangeHeld(st, i, a, s) == st <==> st[i].accounts[a] == s
  {
    var cmds := [SetHeld(i, a, s)];
    assert cmds[1..] == [];
    RevertLeavesHeld(base, target, st, cmds);
    assert Held(st, cmds) == Held(ChangeHeld(st, i, a, s), []);
    if st[i].accounts[a] == s {
      assert st[i].accounts[a := s] == st[i].accounts;
      assert ChangeHeld(st, i, a, s) == st;
    } else {
      assert ChangeHeld(st, i, a, s)[i].accounts[a] == s;
    }
  }

  /** A change through an object held across a nested snapshot is what is read after the commit if and only
      if the snapshot itself has neither deleted the account nor a copy in another state. */
  lemma HeldChangeCommits(base: Store, st: Stack, a: Address, s: State)
    requires |st| >= 2 && a in st[|st| - 2].accounts && a !in st[|st| - 2].deletedAccounts
    ensures FindAccount(base, MergeTop(ChangeHeld(st, |st| - 2, a, s)), a) == Ok(s)
       <==> a !in Last(st).deletedAccounts && (a in Last(st).accounts ==> Last(st).accounts[a] == s)
  {
    var changed := ChangeHeld(st, |st| - 2, a, s);
    var m := MergeTop(changed);
    assert Last(m) == Merge(changed[|st| - 2], Last(st));
  }

  // Snapshot, writes and commit against writing directly.

  predicate DataOnly(cmds: seq<Cmd>) { forall i :: 0 <= i < |cmds| ==> cmds[i].GetData? || cmds[i].PutData? }

  // The last value written to k, or v.
  function AfterWrites(v: Bytes, k: Key, cmds: seq<Cmd>): Bytes
    decreases |cmds|
  {
    if cmds == [] then v
    else AfterWrites(if cmds[0].PutData? && cmds[0].k == k then cmds[0].v else v, k, cmds[1..])
  }

  lemma {:induction false} RunWrites(base: Store, target: nat, st: Stack, cmds: seq<Cmd>, k: Key)
    requires st != [] && DataOnly(cmds) && NonEmpty(Last(st))
    ensures var st' := Run(base, target, st, cmds);
            && |st'| == |st| && Init(st') == Init(st) && NonEmpty(Last(st'))
            && FindData(base, st', k) == AfterWrites(FindData(base, st, k), k, cmds)
    decreases |cmds|
  {
    if cmds != [] {
      var st1 := Do(base, target, st, cmds[0]);
      OneWrite(base, target, st, cmds[0], k);
      RunWrites(base, target, st1, cmds[1..], k);
    }
  }

  lemma OneWrite(base: Store, target: nat, st: Stack, c: Cmd, k: Key)
    requires st != [] && (c.GetData? || c.PutData?) && NonEmpty(Last(st))
    ensures var st' := Do(base, target, st, c);
            && |st'| == |st| && Init(st') == Init(st) && NonEmpty(Last(st'))
            && FindData(base, st', k) == if c.PutData? && c.k == k then c.v else FindData(base, st, k)
  {
    SetTopFacts(st, Last(Do(base, target, st, c)));
    if c.GetData? {
      ReadsAreInvisible(base, st, c.k, 0);
    } else {
      WriteDataReads(base, st, c.k, c.v, k);
    }
  }

  /** Writes in a snapshot that is committed are read exactly like the same writes made directly,
      for every key that the receiving layer does not hold as deleted. */
  lemma CommitIsDirect(base: Store, target: nat, st: Stack, cmds: seq<Cmd>, k: Key)
    requires st != [] && DataOnly(cmds) && NonEmpty(Last(st)) && k !in Last(st).deletedData
    ensures FindData(base, Commit(Run(base, target, Snapshot(st), cmds), |st| + 1), k)
            == FindData(base, Run(base, target, st, cmds), k)
  {
    var up := Run(base, target, Snapshot(st), cmds);
    assert Init(Snapshot(st)) == st;
    assert FindData(base, Snapshot(st), k) == FindData(base, st, k);
    RunWrites(base, target, Snapshot(st), cmds, k);
    RunWrites(base, target, st, cmds, k);
    assert up[|up| - 2] == Init(up)[|st| - 1] == Last(st);
    MergeKeepsData(base, up, k);
    assert |MergeTop(up)| == |st|;
  }

  // A transaction with a fee: the fee is taken in the transaction's snapshot, the rest runs in another one
  // on top, and both are committed.

  function WithFee(base: Store, target: nat, st: Stack, fee: seq<Cmd>, body: seq<Cmd>): Stack
    requires st != [] && DataOnly(fee) && DataOnly(body)
  {
    var paid := Run(base, target, Snapshot(st), fee);
    RunKeepsDepth(base, target, Snapshot(st), fee);
    var done := Run(base, target, Snapshot(paid), body);
    Commit(Commit(done, |st| + 2), |st| + 1)
  }

  // The last of the writes to k, if any, is empty.
  predicate Erases(cmds: seq<Cmd>, k: Key) { AfterWrites([0], k, cmds) == [] }

  lemma {:induction false} RunKeepsDepth(base: Store, target: nat, st: Stack, cmds: seq<Cmd>)
    requires st != [] && DataOnly(cmds)
    ensures |Run(base, target, st, cmds)| == |st| && Init(Run(base, target, st, cmds)) == Init(st)
    decreases |cmds|
  {
    if cmds != [] {
      DoTop(base, target, st, cmds[0]);
      RunKeepsDepth(base, target, Do(base, target, st, cmds[0]), cmds[1..]);
    }
  }

  lemma {:induction false} RunTombstones(base: Store, target: nat, st: Stack, cmds: seq<Cmd>, k: Key, v: Bytes)
    requires st != [] && DataOnly(cmds) && (k in Last(st).deletedData <==> v == [])
    ensures Run(base, target, st, cmds) != []
    ensures k in Last(Run(base, target, st, cmds)).deletedData <==> AfterWrites(v, k, cmds) == []
    decreases |cmds|
  {
    if cmds != [] {
      var c := cmds[0];
      SetTopFacts(st, Last(Do(base, target, st, c)));
      RunTombstones(base, target, Do(base, target, st, c), cmds[1..], k, if c.PutData? && c.k == k then c.v else v);
    }
  }

  lemma {:induction false} AfterWritesConcat(v: Bytes, k: Key, a: seq<Cmd>, b: seq<Cmd>)
    ensures AfterWrites(v, k, a + b) == AfterWrites(AfterWrites(v, k, a), k, b)
    decreases |a|
  {
    if a == [] {
      assert a + b == b;
    } else {
      AfterWritesConcat(if a[0].PutData? && a[0].k == k then a[0].v else v, k, a[1..], b);
      assert (a + b)[0] == a[0] && (a + b)[1..] == a[1..] + b;
    }
  }

  /** Committed like this, a key reads as if the transaction had run directly on the block's layer if and
      only if it is left empty, or neither the fee nor an earlier transaction of the block emptied it. */
  lemma WithFeeIsDirect(base: Store, target: nat, st: Stack, fee: seq<Cmd>, body: seq<Cmd>, k: Key)
    requires st != [] && DataOnly(fee) && DataOnly(body) && NonEmpty(Last(st))
    ensures var flat := FindData(base, Run(base, target, st, fee + body), k);
            FindData(base, WithFee(base, target, st, fee, body), k) == flat
            <==> flat == [] || (k !in Last(st).deletedData && !Erases(fee, k))
  {
    hide Run, AfterWrites, Commit;
    var up := Snapshot(st);
    var paid := Run(base, target, up, fee);
    RunKeepsDepth(base, target, up, fee);
    var done := Run(base, target, Snapshot(paid), body);
    assert Init(up) == st && Init(Snapshot(paid)) == paid;
    RunWrites(base, target, up, fee, k);
    RunWrites(base, target, Snapshot(paid), body, k);
    RunWrites(base, target, st, fee + body, k);
    AfterWritesConcat(FindData(base, st, k), k, fee, body);
    RunTombstones(base, target, up, fee, k, [0]);
    CommitOne(done, |st| + 2);
    CommitOne(MergeTop(done), |st| + 1);
    TwoMerges(base, st, paid, done, k);
  }

  lemma CommitOne(st: Stack, sn: nat)
    requires 2 <= sn == |st|
    ensures Commit(st, sn) == MergeTop(st)
  {
  }

  // Two layers above the block's, merged one after the other.
  lemma TwoMerges(base: Store, st: Stack, paid: Stack, done: Stack, k: Key)
    requires st != [] && |paid| == |st| + 1 && |done| == |st| + 2 && Init(paid) == st && Init(done) == paid
    requires NonEmpty(Last(paid)) && NonEmpty(Last(done))
    ensures var v := FindData(base, done, k);
            FindData(base, MergeTop(MergeTop(done)), k) == v
            <==> v == [] || (k !in Last(st).deletedData && k !in Last(paid).deletedData)
  {
    var once := MergeTop(done);
    assert done[|done| - 2] == Last(paid) && done[|done| - 1] == Last(done);
    assert once == st + [Merge(Last(paid), Last(done))];
    assert once[|once| - 2] == Last(st) && Last(once) == Merge(Last(paid), Last(done));
    MergeKeepsData(base, done, k);
    MergeKeepsData(base, once, k);
    assert Init(once) == st;
  }

  // Amounts as they are stored, and the merge of balances into a first account.

  function Stored(x: nat): Bytes { if x == 0 then [] else [x] }

  function MergeCmds(first: Key, balance: nat, others: seq<(Key, nat)>): seq<Cmd>
    decreases |others|
  {
    if others == [] then []
    else
      var sum := balance + others[0].1;
      [PutData(first, Stored(sum)), PutData(others[0].0, [])] + MergeCmds(first, sum, others[1..])
  }

  function SumOthers(others: seq<(Key, nat)>): nat {
    if others == [] then 0 else others[0].1 + SumOthers(others[1..])
  }

  lemma {:induction false} MergeCmdsWrite(first: Key, balance: nat, others: seq<(Key, nat)>)
    requires forall i :: 0 <= i < |others| ==> others[i].0 != first
    ensures DataOnly(MergeCmds(first, balance, others))
    ensures AfterWrites(Stored(balance), first, MergeCmds(first, balance, others))
            == Stored(balance + SumOthers(others))
    decreases |others|
  {
    if others != [] {
      var sum := balance + others[0].1;
      var two := [PutData(first, Stored(sum)), PutData(others[0].0, [])];
      MergeCmdsWrite(first, sum, others[1..]);
      AfterWritesConcat(Stored(balance), first, two, MergeCmds(first, sum, others[1..]));
      assert two[1..] == [PutData(others[0].0, [])] && two[1..][1..] == [];
    }
  }

  /** The balance that the first formulator of a CreateSigma gathers survives the commits if and only if it
      is nothing, or its own balance was not just the fee. */
  lemma GatheredBalanceSurvives(base: Store, target: nat, st: Stack, first: Key, balance: nat, fee: nat,
                                others: seq<(Key, nat)>)
    requires st != [] && NonEmpty(Last(st)) && fee <= balance && FindData(base, st, first) == Stored(balance)
    requires forall i :: 0 <= i < |others| ==> others[i].0 != first
    ensures DataOnly(MergeCmds(first, balance - fee, others))
    ensures var cmds := MergeCmds(first, balance - fee, others);
            var gathered := balance - fee + SumOthers(others);
            var after := WithFee(base, target, st, [PutData(first, Stored(balance - fee))], cmds);
            FindData(base, after, first) == Stored(gathered)
            <==> gathered == 0 || balance != fee
  {
    hide WithFee, FindData, MergeCmds, AfterWrites, Run, NonEmpty;
    DeletedReadsEmpty(base, st, first);
    var pay := [PutData(first, Stored(balance - fee))];
    var cmds := MergeCmds(first, balance - fee, others);
    MergeCmdsWrite(first, balance - fee, others);
    WithFeeIsDirect(base, target, st, pay, cmds, first);
    RunWrites(base, target, st, pay + cmds, first);
    AfterWritesConcat(Stored(balance), first, pay, cmds);
    OneWriteAfter(first, Stored(balance - fee), Stored(balance));
    OneWriteAfter(first, Stored(balance - fee), [0]);
  }

  lemma DeletedReadsEmpty(base: Store, st: Stack, k: Key)
    requires st != []
    ensures k in Last(st).deletedData ==> FindData(base, st, k) == []
  {
  }

  lemma OneWriteAfter(k: Key, v: Bytes, was: Bytes)
    ensures AfterWrites(was, k, [PutData(k, v)]) == v
  {
    assert [PutData(k, v)][1..] == [];
  }

  // Flushing the bottom layer into the store.

  function Flush(base: Store, l: Layer): Store {
    var accounts := (base.accounts + (map a | a in l.accounts :: Live(l.accounts[a])))
                    + (map a | a in l.deletedAccounts :: Marker);
    var written := base.data + l.data;
    var kept := map k | k in written && !(k.AccountData? && k.addr in l.deletedAccounts) :: written[k];
    Store(accounts, kept - l.deletedData)
  }

  /** After a block is stored, the store answers for every account what the block's context did. */
  lemma FlushKeepsAccounts(base: Store, l: Layer, a: Address)
    ensures StoreAccount(Flush(base, l), a) == FindAccount(base, [l], a)
  {
    assert Init([l]) == [];
  }

  /** For data it does so exactly when the data does not belong to an account deleted in the block,
      or the context no longer read any: the flush wipes that account's data, the context does not. */
  lemma FlushKeepsData(base: Store, l: Layer, k: Key)
    ensures StoreData(Flush(base, l), k) == FindData(base, [l], k)
       <==> !(k.AccountData? && k.addr in l.deletedAccounts) || FindData(base, [l], k) == []
  {
    assert Init([l]) == [];
  }
}
