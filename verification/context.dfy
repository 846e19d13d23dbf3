/** The context as the program runs it: layers and account objects that are changed in place. */
module Contexts {
  import opened Basics
  import opened Overlay

  class Account {
    const address: Address
    var state: State

    constructor (address: Address, state: State)
      ensures this.address == address && this.state == state
    {
      this.address, this.state := address, state;
    }

    method Clone() returns (c: Account)
      ensures fresh(c) && c.address == address && c.state == state
    {
      c := new Account(address, state);
    }
  }

  class ContextData {
    var accounts: map<Address, Account>
    var deletedAccounts: map<Address, Account>
    var data: map<Key, Bytes>
    var deletedData: set<Key>
    var isTop: bool

    constructor ()
      ensures accounts == map[] && deletedAccounts == map[] && data == map[] && deletedData == {} && isTop
    {
      accounts, deletedAccounts, data, deletedData, isTop := map[], map[], map[], {}, true;
    }

    // Takes over what the layer above holds, values first and deletions after.
    method Absorb(ctd: ContextData)
      requires ctd != this
      modifies this`accounts, this`deletedAccounts, this`data, this`deletedData
      ensures accounts == (old(accounts) + ctd.accounts) - ctd.deletedAccounts.Keys
      ensures deletedAccounts.Keys == old(deletedAccounts.Keys) + ctd.deletedAccounts.Keys
      ensures data == (old(data) + ctd.data) - ctd.deletedData
      ensures deletedData == old(deletedData) + ctd.deletedData
    {
      accounts := accounts + ctd.accounts;
      accounts := accounts - ctd.deletedAccounts.Keys;
      deletedAccounts := deletedAccounts + ctd.deletedAccounts;
      data := data + ctd.data;
      data := data - ctd.deletedData;
      deletedData := deletedData + ctd.deletedData;
    }
  }

  // What a layer holds.
  ghost function LayerOf(l: ContextData): Layer
    reads l`accounts, l`deletedAccounts, l`data, l`deletedData, l.accounts.Values
  {
    Layer(StatesOf(l), l.deletedAccounts.Keys, l.data, l.deletedData)
  }

  ghost function StatesOf(l: ContextData): map<Address, State>
    reads l`accounts, l.accounts.Values
  {
    map a | a in l.accounts :: l.accounts[a].state
  }

  type Objects = map<Address, Account>

  ghost predicate Owns(m: Objects, objs: set<Account>) {
    forall a :: a in m ==> m[a] in objs && m[a].address == a
  }

  // No account object is in both maps.
  ghost predicate Apart(m: Objects, n: Objects) {
    forall a :: a in m && a in n ==> m[a] != n[a]
  }

  lemma NewLayer(l: ContextData, objs: set<Account>)
    requires l.accounts == map[] && l.deletedAccounts == map[] && l.data == map[] && l.deletedData == {}
    ensures Owns(l.accounts, objs) && LayerOf(l) == EMPTY
  {
  }

  lemma NewApart(m: Objects)
    ensures Apart(m, map[])
  {
  }

  ghost function PutState(vs: Stack, a: Address, s: State): Stack
    requires vs != []
  {
    SetTop(vs, Last(vs).(accounts := Last(vs).accounts[a := s]))
  }

  class Context {
    const loader: Store
    const target: nat
    var stack: seq<ContextData>
    ghost var objs: set<Account>      // the account objects of all layers

    ghost predicate Inv()
      reads this, stack
    {
      && stack != []
      && (forall i :: 0 <= i < |stack| ==> Owns(stack[i].accounts, objs))
      && (forall i, j :: 0 <= i < j < |stack| ==> stack[i] != stack[j] && Apart(stack[i].accounts, stack[j].accounts))
    }

    ghost predicate Valid()
      reads this, stack
    {
      Inv() && forall i :: 0 <= i < |stack| ==> (stack[i].isTop <==> i == |stack| - 1)
    }

    ghost function Top(): ContextData
      requires stack != []
      reads this
    {
      stack[|stack| - 1]
    }

    ghost function Values(): (vs: Stack)
      requires Inv()
      reads this, stack, objs
      ensures |vs| == |stack| && forall i :: 0 <= i < |vs| ==> vs[i] == LayerOf(stack[i])
    {
      seq(|stack|, i requires 0 <= i < |stack| && Inv() reads this, stack, objs => LayerOf(stack[i]))
    }

    constructor (loader: Store, target: nat)
      ensures Valid() && fresh(stack) && objs == {} && Values() == [EMPTY]
      ensures this.loader == loader && this.target == target
    {
      this.loader, this.target := loader, target;
      var l := new ContextData();
      stack := [l];
      objs := {};
      new;
      assert LayerOf(stack[0]) == EMPTY;
    }

    method Snapshot() returns (sn: nat)
      requires Valid()
      modifies this`stack, stack
      ensures Valid() && Values() == Overlay.Snapshot(old(Values())) && objs == old(objs)
      ensures |stack| == |old(stack)| + 1 == sn && stack[..sn - 1] == old(stack) && fresh(stack[sn - 1])
      ensures forall l :: l in old(stack) ==> l.accounts == old(l.accounts)
    {
      hide Owns, Apart, LayerOf;
      var n := |stack|;
      var l := new ContextData();
      NewLayer(l, objs);
      stack[n - 1].isTop := false;
      stack := stack + [l];
      forall i | 0 <= i < n ensures Apart(stack[i].accounts, l.accounts) {
        NewApart(stack[i].accounts);
      }
      return n + 1;
    }

    method Revert(sn: nat)
      requires Valid() && 2 <= sn
      modifies this`stack, stack
      ensures Valid() && Values() == Overlay.Revert(old(Values()), sn) && objs == old(objs)
      ensures stack == if |old(stack)| >= sn then old(stack)[..sn - 1] else old(stack)
      ensures forall l :: l in old(stack) ==> l.accounts == old(l.accounts)
    {
      hide Owns, Apart, LayerOf;
      if |stack| >= sn {
        stack := stack[..sn - 1];
      }
      stack[|stack| - 1].isTop := true;
      assert forall i :: 0 <= i < |stack| ==> stack[i] == old(stack)[i] && LayerOf(stack[i]) == old(LayerOf(stack[i]));
    }

    // Looks a key up in the first n layers and the store, without caching: none of them is the top.
    method ParentData(n: nat, k: Key) returns (v: Bytes)
      requires Valid() && n < |stack|
      ensures v == FindData(loader, Values()[..n], k)
      decreases n
    {
      hide Owns, Apart;
      if n == 0 {
        return if k in loader.data then loader.data[k] else [];
      }
      var l := stack[n - 1];
      ghost var vs := Values()[..n];
      assert Last(vs) == LayerOf(l) && Init(vs) == Values()[..n - 1];
      if k in l.deletedData { return []; }
      if k in l.data { return l.data[k]; }
      v := ParentData(n - 1, k);
    }

    /** Account or process data, cached in the top layer. */
    method GetData(k: Key) returns (v: Bytes)
      requires Valid()
      modifies Top()`data, Top()`deletedData
      ensures Valid() && stack == old(stack) && objs == old(objs)
      ensures v == FindData(loader, old(Values()), k)
      ensures Values() == ReadData(loader, old(Values()), k)
    {
      hide Owns, Apart, FindData, StatesOf;
      var n := |stack|;
      ghost var vs := Values();
      assert Last(vs) == LayerOf(stack[n - 1]) && Init(vs) == Values()[..n - 1];
      var top := stack[n - 1];
      FindHere(loader, Values(), k);
      if k in top.deletedData { return []; }
      if k in top.data { return top.data[k]; }
      v := ParentData(n - 1, k);
      if |v| > 0 {
        if top.isTop {
          SetMaps(top.data[k := v], top.deletedData);
        }
      }
    }

    // Assigns the data maps of the top layer.
    method SetMaps(data: map<Key, Bytes>, deletedData: set<Key>)
      requires Valid()
      modifies Top()`data, Top()`deletedData
      ensures Valid() && stack == old(stack) && objs == old(objs)
      ensures Values() == SetTop(old(Values()), Last(old(Values())).(data := data, deletedData := deletedData))
    {
      hide Owns, Apart, StatesOf;
      var top := stack[|stack| - 1];
      top.data, top.deletedData := data, deletedData;
    }

    method SetData(k: Key, v: Bytes)
      requires Valid()
      modifies Top()`data, Top()`deletedData
      ensures Valid() && stack == old(stack) && objs == old(objs)
      ensures Values() == WriteData(old(Values()), k, v)
    {
      hide Owns, Apart, StatesOf;
      var top := stack[|stack| - 1];
      if |v| == 0 {
        SetMaps(top.data - {k}, top.deletedData + {k});
      } else {
        SetMaps(top.data[k := v], top.deletedData - {k});
      }
    }

    // Looks an account up in the first n layers and the store, without cloning or caching.
    method ParentAccount(n: nat, a: Address) returns (r: Result<Account>)
      requires Valid() && n < |stack|
      ensures var f := FindAccount(loader, Values()[..n], a);
              && (r.Ok? <==> f.Ok?) && (r.Err? ==> r.error == f.error)
              && (r.Ok? ==> r.value.state == f.value && r.value.address == a)
      decreases n
    {
      hide Apart;
      if n == 0 {
        if a !in loader.accounts { return Err(NotExistAccount); }
        if loader.accounts[a].Marker? { return Err(DeletedAccount); }
        var acc := new Account(a, loader.accounts[a].state);
        return Ok(acc);
      }
      var l := stack[n - 1];
      ghost var vs := Values()[..n];
      assert Last(vs) == LayerOf(l) && Init(vs) == Values()[..n - 1];
      if a in l.deletedAccounts { return Err(DeletedAccount); }
      if a in l.accounts { return Ok(l.accounts[a]); }
      r := ParentAccount(n - 1, a);
    }

    /** The account object of an address: the top layer's own, cloned from below if need be. */
    method GetAccount(a: Address) returns (r: Result<Account>)
      requires Valid()
      modifies this`objs, Top()`accounts
      ensures Valid() && stack == old(stack) && old(objs) <= objs && fresh(objs - old(objs))
      ensures Values() == ReadAccount(loader, old(Values()), a)
      ensures var f := FindAccount(loader, old(Values()), a);
              (r.Ok? <==> f.Ok?) && (r.Err? ==> r.error == f.error) && (r.Ok? ==> r.value.state == f.value)
      ensures r.Ok? ==> a in Top().accounts && r.value == Top().accounts[a] && a !in Top().deletedAccounts
      ensures r.Ok? ==> r.value.address == a && r.value in objs
    {
      hide Owns, Apart, FindAccount, StatesOf, LayerOf;
      var n := |stack|;
      var top := stack[n - 1];
      ghost var vs := Values();
      assert Last(vs) == LayerOf(top) && Init(vs) == vs[..n - 1];
      FindAccountHere(loader, vs, a);
      LayerHas(top, objs, a);
      if a in top.deletedAccounts { return Err(DeletedAccount); }
      if a in top.accounts { return Ok(top.accounts[a]); }
      r := ParentAccount(n - 1, a);
      if r.Ok? && top.isTop {
        var c := CacheClone(r.value);
        r := Ok(c);
      }
    }

    method CacheClone(acc: Account) returns (c: Account)
      requires Valid()
      modifies this`objs, Top()`accounts
      ensures Valid() && stack == old(stack) && objs == old(objs) + {c} && fresh(c)
      ensures c.address == acc.address && c.state == acc.state
      ensures Top().accounts == old(Top().accounts)[c.address := c]
      ensures Values() == PutState(old(Values()), c.address, c.state)
    {
      hide Owns, Apart, StatesOf, LayerOf, PutState;
      c := acc.Clone();
      Put(c);
    }

    // Puts an object that no layer holds into the top layer.
    method Put(c: Account)
      requires Valid() && c !in objs
      modifies this`objs, Top()`accounts
      ensures Valid() && stack == old(stack) && objs == old(objs) + {c}
      ensures Top().accounts == old(Top().accounts)[c.address := c]
      ensures Values() == PutState(old(Values()), c.address, c.state)
    {
      hide Owns, Apart, LayerOf, StatesOf;
      var n := |stack|;
      var top := stack[n - 1];
      ghost var was := top.accounts;
      forall i | 0 <= i < n - 1 ensures Apart(stack[i].accounts, was[c.address := c]) {
        PutApart(stack[i].accounts, was, objs, c);
      }
      TopStates(top);
      AddObject(c);
      PutStates(was, c, objs);
      SetAccounts(top.accounts[c.address := c]);
    }

    ghost method AddObject(c: Account)
      requires Valid()
      modifies this`objs
      ensures Valid() && objs == old(objs) + {c} && Values() == old(Values())
    {
      hide Owns, Apart, StatesOf;
      forall i | 0 <= i < |stack| ensures Owns(stack[i].accounts, objs + {c}) {
        OwnsMore(stack[i].accounts, objs, c);
      }
      objs := objs + {c};
    }

    // Assigns the account map of the top layer.
    method SetAccounts(m: Objects)
      requires Valid() && Owns(m, objs) && forall i :: 0 <= i < |stack| - 1 ==> Apart(stack[i].accounts, m)
      modifies Top()`accounts
      ensures Valid() && stack == old(stack) && objs == old(objs) && Top().accounts == m
      ensures Values() == SetTop(old(Values()), Last(old(Values())).(accounts := StatesIn(m)))
    {
      hide Owns, Apart, StatesOf;
      var top := stack[|stack| - 1];
      top.accounts := m;
      TopStates(top);
    }

    /** Changes an account through the object a read returns. */
    method ChangeState(a: Address, s: State)
      requires Valid()
      modifies this`objs, Top()`accounts, objs
      ensures Valid() && stack == old(stack) && old(objs) <= objs && fresh(objs - old(objs))
      ensures Values() == ChangeAccount(loader, old(Values()), a, s)
      ensures var was := FindAccount(loader, old(Values()), a);
              FindAccount(loader, Values(), a) == if was.Ok? then Ok(s) else was
    {
      hide Owns, Apart, FindAccount, FindData, ReadAccount, StatesOf, LayerOf;
      ChangedReads(loader, Values(), a, s);
      var r := GetAccount(a);
      if r.Ok? {
        ghost var vs := Values();
        LayerHas(Top(), objs, a);
        assert Last(vs) == LayerOf(Top());
        HeldOnTop(vs, a, s);
        AssignHeld(|stack| - 1, r.value, s);
      }
    }

    /** Sets the state of an account object that layer i holds, through a reference to it: no other layer
        and no other account changes. */
    method AssignHeld(ghost i: nat, acc: Account, s: State)
      requires Valid() && i < |stack| && acc.address in stack[i].accounts && stack[i].accounts[acc.address] == acc
      modifies acc
      ensures Valid() && stack == old(stack) && objs == old(objs)
      ensures Values() == ChangeHeld(old(Values()), i, acc.address, s)
    {
      hide Owns, Apart, StatesOf;
      forall j | 0 <= j < |stack| && j != i ensures acc !in stack[j].accounts.Values {
        if i < j { ApartBothWays(stack[i].accounts, stack[j].accounts); }
        ElsewhereNot(stack[j].accounts, stack[i].accounts, objs, acc);
      }
      ghost var states := StatesOf(stack[i]);
      StatesAre(stack[i]);
      OthersDiffer(stack[i].accounts, objs, acc);
      acc.state := s;
      AssignedLayer(stack[i], states, objs, acc);
    }

    method CreateAccount(acc: Account, height: nat) returns (r: Result<()>)
      requires Valid() && acc !in objs
      modifies this`objs, Top()`accounts
      ensures Valid() && stack == old(stack) && old(objs) <= objs <= old(objs) + {acc}
      ensures r == CreateError(loader, old(Values()), acc.address, height, target)
      ensures Values() == Overlay.CreateAccount(loader, old(Values()), acc.address, acc.state, height, target)
      ensures height == target && acc.address != 0 ==>
                (r == Err(ExistAccount) <==> FindAccount(loader, old(Values()), acc.address).Ok?)
      ensures r.Ok? ==> (FindAccount(loader, Values(), acc.address) == Ok(acc.state) <==>
                           acc.address !in Last(old(Values())).deletedAccounts)
    {
      hide Owns, Apart, StatesOf, Overlay.HasAccount, FindAccount, FindData;
      CreatedReads(loader, Values(), acc.address, acc.state, height, target);
      if height != target { return Err(InvalidAddressHeight); }
      if acc.address == 0 { return Err(NotAllowedEmptyAddress); }
      var has := HasAccount(|stack|, acc.address);
      assert Values()[..|stack|] == Values();
      if has.Err? {
        if has.error != NotExistAccount { return Err(has.error); }
      } else if has.value { return Err(ExistAccount); }
      Put(acc);
      return Ok(());
    }

    method HasAccount(n: nat, a: Address) returns (r: Result<bool>)
      requires Valid() && n <= |stack|
      ensures r == Overlay.HasAccount(loader, Values()[..n], a)
      decreases n
    {
      hide Owns, Apart;
      if n == 0 {
        if a !in loader.accounts { return Ok(false); }
        if loader.accounts[a].Marker? { return Err(DeletedAccount); }
        return Ok(true);
      }
      var l := stack[n - 1];
      ghost var vs := Values()[..n];
      assert Last(vs) == LayerOf(l) && Init(vs) == Values()[..n - 1];
      if a in l.deletedAccounts { return Ok(false); }
      if a in l.accounts { return Ok(true); }
      r := HasAccount(n - 1, a);
    }

    method DeleteAccount(a: Address)
      requires Valid()
      modifies this`objs, Top()`accounts, Top()`deletedAccounts
      ensures Valid() && stack == old(stack) && old(objs) <= objs && fresh(objs - old(objs))
      ensures Values() == Overlay.DeleteAccount(loader, old(Values()), a)
      ensures var was := FindAccount(loader, old(Values()), a);
              FindAccount(loader, Values(), a) == if was.Ok? then Err(DeletedAccount) else was
      ensures forall b :: b != a ==> FindAccount(loader, Values(), b) == FindAccount(loader, old(Values()), b)
      ensures forall k :: FindData(loader, Values(), k) == FindData(loader, old(Values()), k)
    {
      hide Owns, Apart, FindAccount, FindData, ReadAccount, StatesOf, LayerOf;
      DeletedReads(loader, Values(), a);
      var r := GetAccount(a);
      if r.Ok? {
        Drop(r.value);
      }
    }

    method Drop(acc: Account)
      requires Valid() && acc.address in Top().accounts
      modifies Top()`accounts, Top()`deletedAccounts
      ensures Valid() && stack == old(stack) && objs == old(objs)
      ensures Values() == DropState(old(Values()), acc.address)
    {
      hide Owns, Apart, StatesOf;
      var n := |stack|;
      var top := stack[n - 1];
      ghost var was, states := top.accounts, StatesOf(top);
      StatesAre(top);
      forall i | 0 <= i < n - 1 ensures Apart(stack[i].accounts, was - {acc.address}) {
        DropApart(stack[i].accounts, was, objs, acc.address);
      }
      top.deletedAccounts := top.deletedAccounts[acc.address := acc];
      top.accounts := top.accounts - {acc.address};
      assert top.deletedAccounts.Keys == old(top.deletedAccounts.Keys) + {acc.address};
      DropTop(top, was, states, objs, acc.address);
    }

    ghost function Below(): ContextData
      requires |stack| >= 2
      reads this
    {
      stack[|stack| - 2]
    }

    // One round of Commit: the top layer is merged into the one below it.
    method MergeOnce()
      requires Inv() && |stack| >= 2
      modifies this`stack, Below()`accounts, Below()`deletedAccounts, Below()`data, Below()`deletedData
      ensures Inv() && stack == old(stack)[..|old(stack)| - 1]
      ensures Values() == MergeTop(old(Values()))
    {
      hide Owns, Apart, LayerOf, Merge;
      var n := |stack|;
      var ctd := stack[n - 1];
      ghost var vs := Values();
      stack := stack[..n - 1];
      assert Values() == Init(vs) && ctd !in stack;
      AbsorbTop(ctd);
    }

    method AbsorbTop(ctd: ContextData)
      requires Inv() && ctd !in stack && Owns(ctd.accounts, objs)
      requires forall i :: 0 <= i < |stack| ==> Apart(stack[i].accounts, ctd.accounts)
      modifies Top()`accounts, Top()`deletedAccounts, Top()`data, Top()`deletedData
      ensures Inv() && Values() == SetTop(old(Values()), Merge(Last(old(Values())), old(LayerOf(ctd))))
    {
      hide Owns, Apart, LayerOf, Merge;
      var n := |stack|;
      var top := stack[n - 1];
      ghost var lower := top.accounts;
      ghost var merged := (lower + ctd.accounts) - ctd.deletedAccounts.Keys;
      ghost var vl, vu := LayerOf(top), LayerOf(ctd);
      LayerIs(top);
      LayerIs(ctd);
      forall i | 0 <= i < n - 1 ensures Apart(stack[i].accounts, merged) {
        MergeApart(stack[i].accounts, lower, ctd.accounts, ctd.deletedAccounts.Keys);
      }
      MergeOwns(lower, ctd.accounts, ctd.deletedAccounts.Keys, objs);
      top.Absorb(ctd);
      MergedLayer(top, ctd, lower, vl, vu);
    }

    method Commit(sn: nat)
      requires Valid() && 2 <= sn
      modifies this`stack, stack
      ensures Valid() && Values() == Overlay.Commit(old(Values()), sn)
      ensures stack <= old(stack)
      ensures forall i :: 0 <= i < sn - 2 && i < |stack| ==> stack[i].accounts == old(stack[i].accounts)
    {
      hide Owns, Apart, LayerOf, MergeTop, Overlay.Commit;
      CommitNone(Values(), sn);
      while |stack| >= sn
        invariant Inv() && stack <= old(stack)
        invariant Overlay.Commit(Values(), sn) == Overlay.Commit(old(Values()), sn)
        invariant forall i :: 0 <= i < |stack| ==> stack[i].isTop == old(stack[i].isTop)
        invariant forall i :: 0 <= i < sn - 2 && i < |stack| ==> stack[i].accounts == old(stack[i].accounts)
      {
        CommitStep(Values(), sn);
        MergeOnce();
      }
      CommitNone(Values(), sn);
      SetTopFlag();
    }

    // The last line of Commit and Revert.
    method SetTopFlag()
      requires Inv() && forall i :: 0 <= i < |stack| - 1 ==> !stack[i].isTop
      modifies Top()`isTop
      ensures Valid() && Values() == old(Values())
    {
      hide Owns, Apart, StatesOf;
      stack[|stack| - 1].isTop := true;
    }

    // A change through the object of a that layer i holds, if it holds one.
    method ChangeThrough(i: nat, a: Address, s: State)
      requires Valid()
      modifies objs
      ensures Valid() && stack == old(stack) && objs == old(objs)
      ensures Values() == ChangeHeld(old(Values()), i, a, s)
    {
      hide Owns, Apart, StatesOf, LayerOf;
      if i < |stack| {
        LayerHas(stack[i], objs, a);
        if a in stack[i].accounts {
          AssignHeld(i, stack[i].accounts[a], s);
        }
      }
    }

    // One command of a transaction that works above depth d.
    method Exec(c: Cmd, ghost d: nat)
      requires Valid() && 1 <= d < |stack| && (c.Pop? || c.Squash? ==> c.sn >= d + 2)
      modifies this`stack, this`objs, stack, objs
      ensures Valid() && Values() == Do(loader, target, old(Values()), c)
      ensures fresh(objs - old(objs)) && (forall l :: l in stack ==> l in old(stack) || fresh(l))
      ensures |stack| > d && stack[..d] == old(stack)[..d]
      ensures forall i :: 0 <= i < d ==> stack[i].accounts == old(stack[i].accounts)
    {
      hide Owns, Apart, LayerOf, ReadData, WriteData, ReadAccount, ChangeAccount, Overlay.Commit, Overlay.DeleteAccount,
           Overlay.CreateAccount, Overlay.Snapshot, FindAccount, FindData, ChangeHeld, HeldOne;
      DoIsolated(loader, target, Values(), c, d);
      match c {
        case Push => var _ := Snapshot();
        case Pop(sn) => Revert(sn);
        case Squash(sn) => Commit(sn);
        case _ => ExecHere(c);
      }
    }

    // A command that keeps the layers as they are.
    method ExecHere(c: Cmd)
      requires Valid() && !c.Push? && !c.Pop? && !c.Squash?
      modifies this`objs, Top()`accounts, Top()`deletedAccounts, Top()`data, Top()`deletedData, objs
      ensures Valid() && Values() == Do(loader, target, old(Values()), c)
      ensures stack == old(stack) && fresh(objs - old(objs))
    {
      hide Owns, Apart, LayerOf, ReadData, WriteData, ReadAccount, ChangeAccount, Overlay.DeleteAccount,
           Overlay.CreateAccount, FindAccount, FindData, ChangeHeld;
      match c {
        case GetData(k) => var _ := GetData(k);
        case PutData(k, v) => SetData(k, v);
        case GetAccount(a) => var _ := GetAccount(a);
        case SetAccount(a, s) => ChangeState(a, s);
        case SetHeld(i, a, s) => ChangeThrough(i, a, s);
        case NewAccount(a, s, height) =>
          var acc := new Account(a, s);
          var _ := CreateAccount(acc, height);
        case DropAccount(a) => DeleteAccount(a);
      }
    }

    method Execute(cmds: seq<Cmd>, ghost d: nat)
      requires Valid() && 1 <= d < |stack| && StaysAbove(cmds, d + 1)
      modifies this`stack, this`objs, stack, objs
      ensures Valid() && Values() == Run(loader, target, old(Values()), cmds)
      ensures forall l :: l in stack ==> l in old(stack) || fresh(l)
      ensures |stack| > d && stack[..d] == old(stack)[..d]
      ensures forall i :: 0 <= i < d ==> stack[i].accounts == old(stack[i].accounts)
    {
      hide Owns, Apart, LayerOf, Do;
      var i := 0;
      while i < |cmds|
        invariant 0 <= i <= |cmds| && Valid()
        invariant Run(loader, target, Values(), cmds[i..]) == Run(loader, target, old(Values()), cmds)
        invariant fresh(objs - old(objs)) && (forall l :: l in stack ==> l in old(stack) || fresh(l))
        invariant |stack| > d && stack[..d] == old(stack)[..d]
        invariant forall i :: 0 <= i < d ==> stack[i].accounts == old(stack[i].accounts)
      {
        assert cmds[i..][1..] == cmds[i + 1..];
        assert forall j :: 0 <= j < |stack| ==> stack[j] in old(stack) || fresh(stack[j]);
        Exec(cmds[i], d);
        i := i + 1;
      }
    }

    /** A transaction that fails: whatever it did in its snapshot, after the revert every layer is
        back, with the very account objects it held, and with every one of them in its old state if and
        only if those that were changed from below the snapshot were given it back. */
    method Attempt(cmds: seq<Cmd>)
      requires Valid() && StaysAbove(cmds, |stack| + 1)
      modifies this`stack, this`objs, stack, objs
      ensures Valid() && stack == old(stack) && Values() == Held(old(Values()), cmds)
      ensures forall l :: l in stack ==> l.accounts == old(l.accounts)
      ensures Values() == old(Values()) <==> GivenBack(old(Values()), cmds)
      ensures HoldsAbove(cmds, |stack|) ==> Values() == old(Values())
    {
      hide Owns, Apart, LayerOf, StatesOf, Run, Held, GivenBack, StaysAbove, HoldsAbove, Overlay.Snapshot,
           Overlay.Revert;
      ghost var vs := Values();
      RevertRestores(loader, target, vs, cmds);
      RevertLeavesHeld(loader, target, vs, cmds);
      var sn := Begin(cmds);
      assert forall j :: 0 <= j < |stack| ==> stack[j] in old(stack) || fresh(stack[j]);
      Revert(sn);
      assert stack == old(stack);
      assert forall l :: l in stack ==> l.accounts == old(l.accounts);
    }

    // The snapshot of a transaction and all it does in it.
    method Begin(cmds: seq<Cmd>) returns (sn: nat)
      requires Valid() && StaysAbove(cmds, |stack| + 1)
      modifies this`stack, this`objs, stack, objs
      ensures Valid() && sn == |old(stack)| + 1
      ensures Values() == Run(loader, target, Overlay.Snapshot(old(Values())), cmds)
      ensures forall l :: l in stack ==> l in old(stack) || fresh(l)
      ensures |stack| >= sn && stack[..sn - 1] == old(stack)
      ensures forall i :: 0 <= i < sn - 1 ==> stack[i].accounts == old(stack[i].accounts)
    {
      hide Owns, Apart, LayerOf, StatesOf, Run, StaysAbove, Overlay.Snapshot;
      ghost var d := |stack|;
      sn := Snapshot();
      assert forall j :: 0 <= j < |stack| ==> stack[j] in old(stack) || fresh(stack[j]);
      ghost var mid := stack;
      Execute(cmds, d);
      assert forall l :: l in mid ==> l in old(stack) || fresh(l);
    }
  }

  lemma ApartBothWays(m: Objects, n: Objects)
    requires Apart(m, n)
    ensures Apart(n, m)
  {
  }

  lemma HeldOnTop(vs: Stack, a: Address, s: State)
    requires vs != [] && a in Last(vs).accounts
    ensures ChangeHeld(vs, |vs| - 1, a, s) == PutState(vs, a, s)
  {
  }

  lemma CommitStep(vs: Stack, sn: nat)
    requires 2 <= sn <= |vs|
    ensures Overlay.Commit(vs, sn) == Overlay.Commit(MergeTop(vs), sn)
  {
  }

  lemma CommitNone(vs: Stack, sn: nat)
    requires 2 <= sn
    ensures |vs| < sn ==> Overlay.Commit(vs, sn) == vs
  {
  }

  lemma MergeApart(m: Objects, lower: Objects, upper: Objects, gone: set<Address>)
    requires Apart(m, lower) && Apart(m, upper)
    ensures Apart(m, (lower + upper) - gone)
  {
  }

  lemma MergeOwns(lower: Objects, upper: Objects, gone: set<Address>, objs: set<Account>)
    requires Owns(lower, objs) && Owns(upper, objs)
    ensures Owns((lower + upper) - gone, objs)
  {
  }

  lemma LayerIs(l: ContextData)
    ensures LayerOf(l)
            == Layer(map a | a in l.accounts :: l.accounts[a].state, l.deletedAccounts.Keys, l.data, l.deletedData)
  {
  }

  lemma MergedLayer(top: ContextData, ctd: ContextData, lower: Objects, vl: Layer, vu: Layer)
    requires vl.accounts == map a | a in lower :: lower[a].state
    requires vu == Layer(map a | a in ctd.accounts :: ctd.accounts[a].state, ctd.deletedAccounts.Keys, ctd.data,
                         ctd.deletedData)
    requires top.accounts == (lower + ctd.accounts) - ctd.deletedAccounts.Keys
    requires top.deletedAccounts.Keys == vl.deletedAccounts + ctd.deletedAccounts.Keys
    requires top.data == (vl.data + ctd.data) - ctd.deletedData && top.deletedData == vl.deletedData + ctd.deletedData
    ensures LayerOf(top) == Merge(vl, vu)
  {
    assert StatesOf(top) == (vl.accounts + vu.accounts) - vu.deletedAccounts;
  }

  ghost function DropState(vs: Stack, a: Address): Stack
    requires vs != []
  {
    var top := Last(vs);
    SetTop(vs, top.(accounts := top.accounts - {a}, deletedAccounts := top.deletedAccounts + {a}))
  }

  lemma StatesAre(l: ContextData)
    ensures StatesOf(l) == map a | a in l.accounts :: l.accounts[a].state
  {
  }

  lemma LayerHas(l: ContextData, objs: set<Account>, a: Address)
    requires Owns(l.accounts, objs)
    ensures a in LayerOf(l).deletedAccounts <==> a in l.deletedAccounts
    ensures a in LayerOf(l).accounts <==> a in l.accounts
    ensures a in l.accounts ==>
              LayerOf(l).accounts[a] == l.accounts[a].state && l.accounts[a].address == a && l.accounts[a] in objs
  {
  }

  lemma OthersDiffer(m: Objects, objs: set<Account>, acc: Account)
    requires Owns(m, objs)
    ensures forall a :: a in m && a != acc.address ==> m[a] != acc
  {
  }

  // An object of one layer is in no other: what is read after a snapshot is never held below it.
  lemma ElsewhereNot(m: Objects, top: Objects, objs: set<Account>, acc: Account)
    requires Owns(m, objs) && Apart(m, top) && acc.address in top && top[acc.address] == acc
    ensures acc !in m.Values
  {
  }

  lemma AssignedLayer(top: ContextData, states: map<Address, State>, objs: set<Account>, acc: Account)
    requires Owns(top.accounts, objs) && acc.address in top.accounts && top.accounts[acc.address] == acc
    requires states.Keys == top.accounts.Keys
    requires forall a :: a in states && a != acc.address ==> states[a] == top.accounts[a].state
    ensures StatesOf(top) == states[acc.address := acc.state]
  {
  }

  lemma DropApart(m: Objects, top: Objects, objs: set<Account>, a: Address)
    requires Apart(m, top)
    ensures Apart(m, top - {a})
  {
  }

  lemma DropTop(top: ContextData, was: Objects, states: map<Address, State>, objs: set<Account>, a: Address)
    requires Owns(was, objs) && top.accounts == was - {a} && states == map b | b in was :: was[b].state
    ensures Owns(top.accounts, objs) && StatesOf(top) == states - {a}
  {
  }

  lemma OwnsMore(m: Objects, objs: set<Account>, c: Account)
    requires Owns(m, objs)
    ensures Owns(m, objs + {c})
  {
  }

  lemma PutApart(m: Objects, top: Objects, objs: set<Account>, c: Account)
    requires Owns(m, objs) && c !in objs && Apart(m, top)
    ensures Apart(m, top[c.address := c])
  {
  }

  ghost function StatesIn(m: Objects): map<Address, State>
    reads m.Values
  {
    map a | a in m :: m[a].state
  }

  lemma TopStates(l: ContextData)
    ensures StatesOf(l) == StatesIn(l.accounts) == LayerOf(l).accounts
  {
  }

  lemma PutStates(was: Objects, c: Account, objs: set<Account>)
    requires Owns(was, objs) && c in objs
    ensures Owns(was[c.address := c], objs)
    ensures StatesIn(was[c.address := c]) == StatesIn(was)[c.address := c.state]
  {
  }

  lemma FindAccountHere(base: Store, st: Stack, a: Address)
    requires st != []
    ensures FindAccount(base, st, a) == if a in Last(st).deletedAccounts then Err(DeletedAccount)
                                        else if a in Last(st).accounts then Ok(Last(st).accounts[a])
                                        else FindAccount(base, Init(st), a)
  {
  }

  lemma FindHere(base: Store, st: Stack, k: Key)
    requires st != []
    ensures FindData(base, st, k) == if k in Last(st).deletedData then []
            else if k in Last(st).data then Last(st).data[k]
                                     else FindData(base, Init(st), k)
  {
  }
}
