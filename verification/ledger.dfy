/** The ledger of the vault and formulator processes, as a flat state: balances, the collected fee,
    formulator deposits, stakes at Hyper formulators with their enumerable index, and queued
    unstakings. */
module Ledgers {
  import opened Basics
  import opened Amounts
  import opened EnumIndex
  import opened UnstakingQueues

  datatype Kind = Alpha | Sigma | Omega | Hyper

  // A formulator account; `staking` is the total it believes is staked at it.
  datatype Formulator = Formulator(kind: Kind, revoked: bool, minimum: nat, staking: int)

  // The stakes at one Hyper formulator.
  ghost function StakesAt(stakes: map<StakeKey, nat>, h: Address): map<StakeKey, nat> {
    map k | k in stakes && k.0 == h :: stakes[k]
  }

  // Every index lists exactly the stakes that are not zero.
  ghost predicate IndexOk(indexes: map<Address, Index>, stakes: map<StakeKey, nat>) {
    && (forall h: Address :: Indexed(IndexOf(indexes, h)))
    && (forall h: Address, a: Address :: a in IndexOf(indexes, h).numbers <==> (h, a) in stakes)
    && (forall k :: k in stakes ==> stakes[k] > 0)
  }

  // Stakes are at Hyper formulators, and each knows the sum of its stakes.
  ghost predicate TotalsOk(formulators: map<Address, Formulator>, stakes: map<StakeKey, nat>) {
    && (forall k :: k in stakes ==> k.0 in formulators && formulators[k.0].kind == Hyper)
    && (forall h :: h in formulators && formulators[h].kind == Hyper ==>
        formulators[h].staking == Sum(StakesAt(stakes, h)))
  }

  // Changing one stake.

  lemma StakesAtPut(stakes: map<StakeKey, nat>, h: Address, a: Address, x: int, h': Address)
    ensures StakesAt(PutAmount(stakes, (h, a), x), h')
            == if h' == h then PutAmount(StakesAt(stakes, h), (h, a), x) else StakesAt(stakes, h')
  {
  }

  lemma StakeSum(stakes: map<StakeKey, nat>, h: Address, a: Address, x: int, h': Address)
    ensures Sum(StakesAt(PutAmount(stakes, (h, a), x), h'))
            == Sum(StakesAt(stakes, h')) + if h' == h then (if x < 0 then -x else x) - At(stakes, (h, a)) else 0
  {
    StakesAtPut(stakes, h, a, x, h');
    SumPut(StakesAt(stakes, h), (h, a), x);
    assert At(StakesAt(stakes, h), (h, a)) == At(stakes, (h, a));
  }

  /** Adding to a stake keeps the index exact if and only if the new stake is not zero. */
  lemma AddKeepsIndex(indexes: map<Address, Index>, stakes: map<StakeKey, nat>, h: Address, a: Address, am: int)
    requires IndexOk(indexes, stakes)
    ensures IndexOk(indexes[h := Register(IndexOf(indexes, h), a)], PutAmount(stakes, (h, a), At(stakes, (h, a)) + am))
       <==> At(stakes, (h, a)) + am != 0
  {
    var ix := IndexOf(indexes, h);
    RegisterOk(ix, a);
    var indexes' := indexes[h := Register(ix, a)];
    var stakes' := PutAmount(stakes, (h, a), At(stakes, (h, a)) + am);
    assert forall g :: g != h ==> IndexOf(indexes', g) == IndexOf(indexes, g);
    assert IndexOf(indexes', h) == Register(ix, a);
    if At(stakes, (h, a)) + am == 0 {
      assert a in IndexOf(indexes', h).numbers && (h, a) !in stakes';
    }
  }

  lemma DropKeepsIndex(indexes: map<Address, Index>, stakes: map<StakeKey, nat>, h: Address, a: Address)
    requires IndexOk(indexes, stakes) && (h, a) in stakes
    ensures a in IndexOf(indexes, h).numbers
    ensures IndexOk(indexes[h := Unregister(IndexOf(indexes, h), a)], stakes - {(h, a)})
  {
    var ix := IndexOf(indexes, h);
    UnregisterOk(ix, a);
    var indexes' := indexes[h := Unregister(ix, a)];
    assert forall g :: g != h ==> IndexOf(indexes', g) == IndexOf(indexes, g);
    assert IndexOf(indexes', h) == Unregister(ix, a);
  }

  // The formulators once the known total of stakes at h has changed by am.
  function Restacked(formulators: map<Address, Formulator>, h: Address, am: int): (r: map<Address, Formulator>)
    requires h in formulators
    ensures r.Keys == formulators.Keys && forall g :: g in r ==> r[g].kind == formulators[g].kind
  {
    formulators[h := formulators[h].(staking := formulators[h].staking + am)]
  }

  // The formulators after a merge: the first becomes a Sigma, unless it is among those that go.
  function Merged(formulators: map<Address, Formulator>, alphas: seq<Address>): map<Address, Formulator>
    requires alphas != []
  {
    var rest := formulators - Members(alphas[1..]);
    if alphas[0] in rest then rest[alphas[0] := rest[alphas[0]].(kind := Sigma)] else rest
  }

  // No more than the known totals of stakes have changed.
  ghost predicate OnlyTotals(was: map<Address, Formulator>, now: map<Address, Formulator>) {
    now.Keys == was.Keys && forall h :: h in was ==> now[h] == was[h].(staking := now[h].staking)
  }

  lemma OnlyTotalsHold(formulators: map<Address, Formulator>)
    ensures OnlyTotals(formulators, formulators)
  {
  }

  lemma OtherTotals(was: map<Address, Formulator>, now: map<Address, Formulator>, h: Address, am: int)
    requires OnlyTotals(was, now) && h in now
    ensures OnlyTotals(was, Restacked(now, h, am))
  {
  }

  lemma StakePut(stakes: map<StakeKey, nat>, h: Address, a: Address, x: nat)
    ensures var now := PutAmount(stakes, (h, a), x);
            At(now, (h, a)) == x && forall k: StakeKey :: k != (h, a) ==> At(now, k) == At(stakes, k)
  {
  }

  lemma TotalsPut(formulators: map<Address, Formulator>, stakes: map<StakeKey, nat>, h: Address, a: Address, x: nat)
    requires TotalsOk(formulators, stakes) && h in formulators && formulators[h].kind == Hyper
    ensures TotalsOk(Restacked(formulators, h, x - At(stakes, (h, a))), PutAmount(stakes, (h, a), x))
  {
    var fs := Restacked(formulators, h, x - At(stakes, (h, a)));
    var stakes' := PutAmount(stakes, (h, a), x);
    forall g | g in fs && fs[g].kind == Hyper ensures fs[g].staking == Sum(StakesAt(stakes', g)) {
      StakeSum(stakes, h, a, x, g);
    }
  }

  // A stake that would turn negative is stored without its sign, and the total no longer fits.
  lemma TotalsBroken(formulators: map<Address, Formulator>, stakes: map<StakeKey, nat>, h: Address, a: Address,
                     am: int)
    requires TotalsOk(formulators, stakes) && h in formulators && formulators[h].kind == Hyper
    requires At(stakes, (h, a)) + am < 0
    ensures !TotalsOk(Restacked(formulators, h, am), PutAmount(stakes, (h, a), At(stakes, (h, a)) + am))
  {
    hide Sum;
    StakeSum(stakes, h, a, At(stakes, (h, a)) + am, h);
    assert Restacked(formulators, h, am)[h].kind == Hyper;
  }

  // The balances once the fee is paid from them, if they cover it.
  function FeePaid(m: map<Address, nat>, payable: bool, from: Address, fee: nat): map<Address, nat> {
    if payable then PutAmount(m, from, At(m, from) - fee) else m
  }

  /** Paying the fee takes exactly it from the payer, and nothing if it is not payable. */
  lemma FeeTaken(m: map<Address, nat>, payable: bool, from: Address, fee: nat, x: Address)
    requires payable ==> At(m, from) >= fee
    ensures At(FeePaid(m, payable, from, fee), x) == At(m, x) - if payable && x == from then fee else 0
    ensures Sum(FeePaid(m, payable, from, fee)) == Sum(m) - if payable then fee else 0
  {
    hide Sum;
    SumPut(m, from, At(m, from) - fee);
  }

  /** Moving a stake takes the amount from one formulator and gives what is left of it to the other, in one
      place if they are the same; every other stake stays. */
  lemma RestakedMoves(stakes: map<StakeKey, nat>, hu: Address, hs: Address, a: Address, am: nat, rest: nat, k: StakeKey)
    requires At(stakes, (hu, a)) >= am
    ensures At(Restaked(stakes, hu, hs, a, am, rest), k)
            == At(stakes, k) - (if k == (hu, a) then am else 0) + if k == (hs, a) then rest else 0
  {
  }

  // A stake taken from one formulator, and what is left of it given to another.
  function Restaked(stakes: map<StakeKey, nat>, hu: Address, hs: Address, a: Address, am: nat,
                    rest: int): map<StakeKey, nat> {
    var mid := PutAmount(stakes, (hu, a), At(stakes, (hu, a)) - am);
    PutAmount(mid, (hs, a), At(mid, (hs, a)) + rest)
  }

  // What a transfer leaves at x.
  function Moved(b: nat, x: Address, from: Address, to: Address, am: nat, fee: nat): int {
    b - (if x == from then am + fee else 0) + (if x == to then am else 0)
  }

  lemma TransferMoves(m: map<Address, nat>, from: Address, to: Address, am: nat, fee: nat, x: Address)
    requires At(m, from) >= am + fee
    ensures var m1 := PutAmount(m, from, At(m, from) - fee);
            var m2 := PutAmount(m1, from, At(m1, from) - am);
            At(PutAmount(m2, to, At(m2, to) + am), x) == Moved(At(m, x), x, from, to, am, fee)
  {
  }

  class Ledger {
    var balances: map<Address, nat>
    var collectedFee: nat
    var accounts: set<Address>
    var formulators: map<Address, Formulator>
    var deposits: map<Address, nat>             // the Amount of each formulator account
    var indexes: map<Address, Index>
    var stakes: map<StakeKey, nat>
    var queue: Queue                            // unstakings waiting for their height

    ghost predicate Valid()
      reads this
    {
      && IndexOk(indexes, stakes) && TotalsOk(formulators, stakes) && QueueOk(queue)
      && deposits.Keys <= formulators.Keys <= accounts
    }

    // All value the ledger holds.
    ghost function Total(): nat
      reads this
    {
      Sum(balances) + collectedFee + Sum(deposits) + Sum(stakes) + Sum(Outstanding(queue))
    }

    predicate IsHyper(h: Address)
      reads this
    {
      h in formulators && formulators[h].kind == Hyper
    }

    // The vault.

    method AddBalance(a: Address, am: int) returns (ok: bool)
      modifies this`balances
      ensures ok <==> am >= 0
      ensures balances == if ok then PutAmount(old(balances), a, At(old(balances), a) + am) else old(balances)
      ensures ok ==> Sum(balances) == Sum(old(balances)) + am
    {
      if am < 0 { return false; }
      SumPut(balances, a, At(balances, a) + am);
      balances := PutAmount(balances, a, At(balances, a) + am);
      return true;
    }

    method SubBalance(a: Address, am: nat) returns (ok: bool)
      modifies this`balances
      ensures ok <==> At(old(balances), a) >= am
      ensures balances == if ok then PutAmount(old(balances), a, At(old(balances), a) - am) else old(balances)
      ensures ok ==> Sum(balances) == Sum(old(balances)) - am
    {
      var sum := At(balances, a);
      if sum < am { return false; }
      SumPut(balances, a, sum - am);
      sum := sum - am;
      if sum == 0 {
        balances := balances - {a};
      } else {
        balances := PutAmount(balances, a, sum);
      }
      return true;
    }

    predicate FeePayable(from: Address, fee: nat)
      reads this
    {
      from in accounts && At(balances, from) >= fee
    }

    // The fee part of WithFee.
    method PayFee(from: Address, fee: nat) returns (ok: bool)
      modifies this`balances, this`collectedFee
      ensures ok <==> At(old(balances), from) >= fee
      ensures !ok ==> balances == old(balances) && collectedFee == old(collectedFee)
      ensures ok ==> balances == PutAmount(old(balances), from, At(old(balances), from) - fee)
      ensures ok ==> collectedFee == old(collectedFee) + fee
      ensures ok ==> Sum(balances) + collectedFee == Sum(old(balances)) + old(collectedFee)
    {
      ok := SubBalance(from, fee);
      if ok {
        collectedFee := collectedFee + fee;
      }
    }

    /** Moves an amount and takes the fee from the sender; nothing is created or lost. */
    method Transfer(from: Address, to: Address, am: nat, fee: nat) returns (ok: bool)
      requires Valid()
      modifies this`balances, this`collectedFee
      ensures Valid()
      ensures ok <==> am >= COIN / 10 && to in accounts && from in accounts && At(old(balances), from) >= am + fee
      ensures ok ==> Total() == old(Total()) && collectedFee == old(collectedFee) + fee
      ensures ok ==> forall x: Address :: At(balances, x) == Moved(At(old(balances), x), x, from, to, am, fee)
      ensures !ok ==> balances == old(balances) && collectedFee == old(collectedFee)
    {
      hide IndexOk, TotalsOk, QueueOk, PutAmount;
      if am < COIN / 10 { return false; }
      if to !in accounts || from !in accounts { return false; }
      if At(balances, from) < am + fee { return false; }
      StoredAmount(balances, from, At(balances, from) - fee, from);
      ok := PayFee(from, fee);
      ok := SubBalance(from, am);
      ok := AddBalance(to, am);
      forall x: Address ensures At(balances, x) == Moved(At(old(balances), x), x, from, to, am, fee) {
        TransferMoves(old(balances), from, to, am, fee, x);
      }
    }

    // Stakes.

    method AddStakingAmount(h: Address, a: Address, am: int)
      modifies this`indexes, this`stakes
      ensures indexes == old(indexes)[h := Register(IndexOf(old(indexes), h), a)]
      ensures stakes == PutAmount(old(stakes), (h, a), At(old(stakes), (h, a)) + am)
    {
      indexes := indexes[h := Register(IndexOf(indexes, h), a)];
      stakes := PutAmount(stakes, (h, a), At(stakes, (h, a)) + am);
    }

    method SubStakingAmount(h: Address, a: Address, am: nat) returns (ok: bool)
      requires IndexOk(indexes, stakes)
      modifies this`indexes, this`stakes
      ensures IndexOk(indexes, stakes)
      ensures ok <==> At(old(stakes), (h, a)) >= am
      ensures stakes == if ok then PutAmount(old(stakes), (h, a), At(old(stakes), (h, a)) - am) else old(stakes)
      ensures !ok ==> indexes == old(indexes)
    {
      hide Indexed, Unregister;
      var total := At(stakes, (h, a));
      if total < am { return false; }
      total := total - am;
      if total == 0 {
        var ix := IndexOf(indexes, h);
        if a in ix.numbers {
          DropKeepsIndex(indexes, stakes, h, a);
          indexes := indexes[h := Unregister(ix, a)];
        }
        stakes := stakes - {(h, a)};
      } else {
        stakes := stakes[(h, a) := total];
      }
      return true;
    }

    /** All stakes at a Hyper formulator: exactly those that are not zero. */
    method GetStakingAmountMap(h: Address) returns (m: map<Address, nat>)
      requires IndexOk(indexes, stakes)
      ensures forall a :: a in m <==> (h, a) in stakes
      ensures forall a :: a in m ==> m[a] == stakes[(h, a)] > 0
    {
      var ix := IndexOf(indexes, h);
      m := map[];
      var i := 0;
      while i < ix.count
        invariant 0 <= i <= ix.count
        invariant m.Keys == FirstListed(ix, i)
        invariant forall a :: a in m ==> m[a] == At(stakes, (h, a))
      {
        ListedNext(ix, i);
        var a := ix.reverse[i];
        m := m[a := At(stakes, (h, a))];
        i := i + 1;
      }
      ListedAll(ix);
    }

    // Takes a stake away from a staker and from the formulator's total.
    method Unstake(h: Address, a: Address, am: nat) returns (ok: bool)
      requires Valid() && IsHyper(h)
      modifies this`indexes, this`stakes, this`formulators
      ensures Valid()
      ensures ok <==> At(old(stakes), (h, a)) >= am
      ensures stakes == if ok then PutAmount(old(stakes), (h, a), At(old(stakes), (h, a)) - am) else old(stakes)
      ensures ok ==> Sum(stakes) == Sum(old(stakes)) - am
      ensures ok ==> formulators == Restacked(old(formulators), h, -(am as int))
      ensures !ok ==> formulators == old(formulators)
    {
      hide IndexOk, TotalsOk, QueueOk, PutAmount, Sum, Restacked;
      ghost var was := stakes;
      ok := SubStakingAmount(h, a, am);
      if ok {
        TotalsPut(formulators, was, h, a, At(was, (h, a)) - am);
        SumPut(was, (h, a), At(was, (h, a)) - am);
        AddToTotal(h, -(am as int));
      }
    }

    /** Gives a stake to a staker and to the formulator's total. It keeps the index, the total and
        the value exactly when the staker ends up with a positive stake. */
    method Stake(h: Address, a: Address, am: int)
      requires Valid() && IsHyper(h)
      modifies this`indexes, this`stakes, this`formulators
      ensures stakes == PutAmount(old(stakes), (h, a), At(old(stakes), (h, a)) + am)
      ensures Valid() <==> At(old(stakes), (h, a)) + am > 0
      ensures Sum(stakes) == Sum(old(stakes)) - At(old(stakes), (h, a)) + Magnitude(At(old(stakes), (h, a)) + am)
      ensures formulators == Restacked(old(formulators), h, am)
    {
      hide IndexOk, TotalsOk, QueueOk, Restacked;
      ghost var x := At(stakes, (h, a)) + am;
      AddKeepsIndex(indexes, stakes, h, a, am);
      SumPut(stakes, (h, a), x);
      if x > 0 {
        TotalsPut(formulators, stakes, h, a, x);
      } else if x < 0 {
        TotalsBroken(formulators, stakes, h, a, am);
      }
      AddStakingAmount(h, a, am);
      AddToTotal(h, am);
    }

    method AddToTotal(h: Address, am: int)
      requires h in formulators
      modifies this`formulators
      ensures formulators == Restacked(old(formulators), h, am)
    {
      var f := formulators[h];
      formulators := formulators[h := f.(staking := f.staking + am)];
    }

    // Staking transactions.

    /** Stakes an amount: the sender pays it and the fee. */
    method Staking(h: Address, from: Address, am: nat, fee: nat) returns (ok: bool)
      requires Valid()
      modifies this`balances, this`collectedFee, this`indexes, this`stakes, this`formulators
      ensures Valid() && Total() == old(Total())
      ensures ok <==> old(am >= COIN / 10 && from != h && IsHyper(h) && !formulators[h].revoked
                          && am >= formulators[h].minimum && from in accounts && At(balances, from) >= am + fee)
      ensures ok ==> stakes == PutAmount(old(stakes), (h, from), At(old(stakes), (h, from)) + am)
      ensures ok ==> At(balances, from) == At(old(balances), from) - am - fee && collectedFee == old(collectedFee) + fee
      ensures ok ==> forall x: Address :: x != from ==> At(balances, x) == At(old(balances), x)
      ensures ok ==> formulators == Restacked(old(formulators), h, am)
      ensures !ok ==> unchanged(this)
    {
      hide IndexOk, TotalsOk, QueueOk, PutAmount, Sum, Restacked;
      if am < COIN / 10 { return false; }
      if from == h || !IsHyper(h) { return false; }
      if formulators[h].revoked { return false; }
      if formulators[h].minimum != 0 && am < formulators[h].minimum { return false; }
      if from !in accounts || At(balances, from) < am + fee { return false; }
      StoredAmount(balances, from, At(balances, from) - fee, from);
      ok := PayFee(from, fee);
      StoredAmount(balances, from, At(balances, from) - am, from);
      ghost var mid := balances;
      ok := SubBalance(from, am);
      Stake(h, from, am);
      forall x: Address | x != from ensures At(balances, x) == At(old(balances), x) {
        StoredAmount(old(balances), from, At(old(balances), from) - fee, x);
        StoredAmount(mid, from, At(mid, from) - am, x);
      }
    }

    // The fee of a transaction on staked value: from the balance if it covers it, else from `am`.
    method FeeOrFrom(from: Address, am: nat, fee: nat) returns (rest: int)
      modifies this`balances, this`collectedFee
      ensures rest == if from in accounts && At(old(balances), from) >= fee then am else am - fee
      ensures rest == if old(FeePayable(from, fee)) then am else am - fee
      ensures Sum(balances) + collectedFee + rest == Sum(old(balances)) + old(collectedFee) + am
      ensures collectedFee == old(collectedFee) + fee
      ensures balances == FeePaid(old(balances), old(FeePayable(from, fee)), from, fee)
    {
      if !FeePayable(from, fee) {
        collectedFee := collectedFee + fee;
        return am - fee;
      } else {
        var _ := PayFee(from, fee);
        return am;
      }
    }

    /** Moves a stake to the queue of its unlock height. Value is kept exactly when a fee that has to
        come out of the amount does not exceed what the entry then holds, and nothing stale is stored
        for the staker at that height. */
    method Unstaking(h: Address, from: Address, am: nat, fee: nat, height: nat) returns (ok: bool)
      requires Valid()
      modifies this`balances, this`collectedFee, this`indexes, this`stakes, this`formulators, this`queue
      ensures Valid()
      ensures ok <==> old(am >= COIN && IsHyper(h) && from in accounts && At(stakes, (h, from)) >= am
                          && formulators[h].staking >= am)
      ensures ok ==> (Total() == old(Total()) <==>
                        && (old(FeePayable(from, fee)) || At(old(queue).entries, (height, from, h)) + am >= fee)
                        && (Listed(old(queue), height, from) || Sum(Mine(old(queue), height, from)) == 0))
      ensures ok ==> stakes == PutAmount(old(stakes), (h, from), At(old(stakes), (h, from)) - am)
      ensures ok ==> collectedFee == old(collectedFee) + fee
      ensures ok ==> balances == FeePaid(old(balances), old(FeePayable(from, fee)), from, fee)
      ensures ok ==> queue == Added(old(queue), (height, from, h), if old(FeePayable(from, fee)) then am else am - fee)
      ensures ok ==> formulators == Restacked(old(formulators), h, -(am as int))
      ensures !ok ==> unchanged(this)
      ensures StalePairs(queue) <= old(StalePairs(queue))
    {
      hide IndexOk, TotalsOk, QueueOk, PutAmount, Added, Outstanding, Mine, Listed, StalePairs, Sum, FeePaid, Restacked;
      if am < COIN || !IsHyper(h) || from !in accounts { return false; }
      if At(stakes, (h, from)) < am || formulators[h].staking < am { return false; }
      ok := Unstake(h, from, am);
      var rest := FeeOrFrom(from, am, fee);
      var key := (height, from, h);
      AddedKeeps(queue, key, rest);
      AddedExactly(queue, key, rest);
      queue := Added(queue, key, rest);
    }

    /** Moves a stake from one Hyper formulator to another, or to the same one. Index, totals and value
        are all kept exactly when a fee that has to come out of the amount leaves a positive stake. */
    method ChangeStaking(hu: Address, hs: Address, from: Address, am: nat, fee: nat) returns (ok: bool)
      requires Valid()
      modifies this`balances, this`collectedFee, this`indexes, this`stakes, this`formulators
      ensures ok <==> old(am >= COIN / 10 && from != hs && IsHyper(hu) && At(stakes, (hu, from)) >= am
                          && formulators[hu].staking >= am && IsHyper(hs) && !formulators[hs].revoked
                          && am >= formulators[hs].minimum && from in accounts)
      ensures ok ==> (Valid() && Total() == old(Total()) <==>
                        old(FeePayable(from, fee))
                        || At(old(stakes), (hs, from)) - (if hu == hs then am else 0) + am > fee)
      ensures ok ==>
                stakes == Restaked(old(stakes), hu, hs, from, am, if old(FeePayable(from, fee)) then am else am - fee)
      ensures ok ==> collectedFee == old(collectedFee) + fee
      ensures ok ==> balances == FeePaid(old(balances), old(FeePayable(from, fee)), from, fee)
      ensures ok ==> formulators == Restacked(Restacked(old(formulators), hu, -(am as int)), hs,
                                              if old(FeePayable(from, fee)) then am else am - fee)
      ensures !ok ==> unchanged(this)
    {
      hide IndexOk, TotalsOk, QueueOk, PutAmount, Sum, Restaked, Restacked, FeePaid;
      if am < COIN / 10 || from == hs || !IsHyper(hu) { return false; }
      if At(stakes, (hu, from)) < am || formulators[hu].staking < am { return false; }
      if !IsHyper(hs) || formulators[hs].revoked { return false; }
      if formulators[hs].minimum != 0 && am < formulators[hs].minimum { return false; }
      if from !in accounts { return false; }
      MoveStake(hu, hs, from, am, fee);
      return true;
    }

    // The execution of a valid ChangeStaking.
    method MoveStake(hu: Address, hs: Address, from: Address, am: nat, fee: nat)
      requires Valid() && IsHyper(hu) && IsHyper(hs) && At(stakes, (hu, from)) >= am
      modifies this`balances, this`collectedFee, this`indexes, this`stakes, this`formulators
      ensures Valid() && Total() == old(Total()) <==>
                At(old(stakes), (hs, from)) - (if hu == hs then am else 0)
                + (if old(FeePayable(from, fee)) then am else am - fee) > 0
      ensures stakes == Restaked(old(stakes), hu, hs, from, am, if old(FeePayable(from, fee)) then am else am - fee)
      ensures collectedFee == old(collectedFee) + fee
      ensures formulators == Restacked(Restacked(old(formulators), hu, -(am as int)), hs,
                                       if old(FeePayable(from, fee)) then am else am - fee)
      ensures balances == FeePaid(old(balances), old(FeePayable(from, fee)), from, fee)
    {
      hide IndexOk, TotalsOk, QueueOk, PutAmount, Sum, FeePaid, Restacked;
      StoredAmount(stakes, (hu, from), At(stakes, (hu, from)) - am, (hs, from));
      var _ := Unstake(hu, from, am);
      var rest := FeeOrFrom(from, am, fee);
      Stake(hs, from, rest);
    }

    /** Takes an unstaking back from the queue and stakes it again. Index, totals and value are all kept
        exactly when the staker is listed at the height, and a fee that has to come out of the amount
        leaves a positive stake. */
    method RevertUnstaking(h: Address, from: Address, height: nat, am: nat, fee: nat) returns (ok: bool)
      requires Valid()
      modifies this`balances, this`collectedFee, this`indexes, this`stakes, this`formulators, this`queue
      ensures ok <==> old(am >= COIN && IsHyper(h) && from in accounts && Covers(queue, (height, from, h), am))
      ensures ok ==> (Valid() <==> old(FeePayable(from, fee)) || At(old(stakes), (h, from)) + am > fee)
      ensures ok ==> (Valid() && Total() == old(Total()) <==>
                        && (old(FeePayable(from, fee)) || At(old(stakes), (h, from)) + am > fee)
                        && Listed(old(queue), height, from))
      ensures ok ==> stakes == PutAmount(old(stakes), (h, from),
                       At(old(stakes), (h, from)) + if old(FeePayable(from, fee)) then am else am - fee)
      ensures ok ==> collectedFee == old(collectedFee) + fee
      ensures ok ==> balances == FeePaid(old(balances), old(FeePayable(from, fee)), from, fee)
      ensures ok ==> old(QueueOk(queue) && Covers(queue, (height, from, h), am))
                     && queue == Reduced(old(queue), (height, from, h), am)
      ensures ok ==> formulators == Restacked(old(formulators), h, if old(FeePayable(from, fee)) then am else am - fee)
      ensures !ok ==> unchanged(this)
      ensures StalePairs(queue) <= old(StalePairs(queue)) + {(height, from)}
    {
      hide IndexOk, TotalsOk, QueueOk, PutAmount, Reduced, Outstanding, Listed, StalePairs, Sum, FeePaid, Restacked;
      if am < COIN || !IsHyper(h) || from !in accounts { return false; }
      var key := (height, from, h);
      if !Covers(queue, key, am) { return false; }
      ReducedKeeps(queue, key, am);
      ReducedSum(queue, key, am);
      queue := Reduced(queue, key, am);
      var rest := FeeOrFrom(from, am, fee);
      Stake(h, from, rest);
      return true;
    }

    // flushUnstakingAmountMap: takes every outstanding entry of a height out of the queue.
    method FlushQueue(t: nat) returns (due: map<QueueKey, nat>)
      requires QueueOk(queue)
      modifies this`queue
      ensures due == DueAt(old(queue), t) && queue == Paid(old(queue), t, due)
    {
      var ix := IndexOf(queue.index, t);
      assert Indexed(ix);
      hide *;
      due := TakeListed(ix, t);
      ListedAll(ix);
      TakenAll(old(queue), t);
      queue := queue.(index := queue.index - {t});
      PaidIs(old(queue), t, due);
    }

    // The loop over the stakers of a height.
    method TakeListed(ix: Index, t: nat) returns (due: map<QueueKey, nat>)
      requires Indexed(ix)
      modifies this`queue
      ensures due == Taken(old(queue).entries, t, FirstListed(ix, ix.count))
      ensures queue == old(queue).(entries := old(queue).entries - due.Keys)
    {
      hide *;
      due := map[];
      var i := 0;
      NoneListed(ix);
      TakenNone(queue.entries, t);
      while i < ix.count
        invariant 0 <= i <= ix.count
        invariant due == Taken(old(queue).entries, t, FirstListed(ix, i))
        invariant queue == old(queue).(entries := old(queue).entries - due.Keys)
      {
        ListedNext(ix, i);
        IndexHas(ix, i);
        var a := ix.reverse[i];
        TakenNext(old(queue).entries, t, FirstListed(ix, i), a);
        var mine := map k | k in queue.entries && k.0 == t && k.1 == a :: queue.entries[k];
        due := due + mine;
        queue := queue.(entries := queue.entries - mine.Keys);
        i := i + 1;
      }
    }

    /** Pays every outstanding unstaking of a height to its staker, in any order; nothing else changes. */
    method PayUnstaked(t: nat)
      requires Valid()
      modifies this`balances, this`queue
      ensures Valid() && Total() == old(Total())
      ensures queue == Paid(old(queue), t, DueAt(old(queue), t)) && StalePairs(queue) <= old(StalePairs(queue))
      ensures forall a: Address :: At(balances, a) == At(old(balances), a) + Sum(QueueOf(DueAt(old(queue), t), a))
    {
      hide IndexOk, TotalsOk, QueueOk, DueAt, PaidSoFar, Outstanding, Paid, Sum, StalePairs;
      PaidKeeps(queue, t);
      var due := FlushQueue(t);
      PayAll(due);
      AllPaid(old(balances), balances, due);
    }

    // Adds every entry to the balance of its staker.
    method PayAll(entries: map<QueueKey, nat>)
      modifies this`balances
      ensures Sum(balances) == Sum(old(balances)) + Sum(entries)
      ensures PaidSoFar(old(balances), entries, balances, map[])
    {
      hide *;
      var rest := entries;
      NonePaid(balances, rest);
      while rest != map[]
        invariant Sum(balances) + Sum(rest) == Sum(old(balances)) + Sum(entries)
        invariant PaidSoFar(old(balances), entries, balances, rest)
        decreases |rest|
      {
        var k :| k in rest;
        SumWithout(rest, k);
        OnePaid(old(balances), entries, balances, rest, k);
        var ok := AddBalance(k.1, rest[k]);
        rest := rest - {k};
      }
      SumNone<QueueKey>();
    }

    /** Turns stakes at Hyper formulators into the deposit of a new Alpha formulator, as long as they
        add up to it exactly. `allowed` says that the name and the heights pass the policies. */
    method Transmute(from: Address, hypers: seq<Address>, amounts: seq<nat>, alpha: Address, creation: nat,
                     allowed: bool) returns (ok: bool)
      requires Valid()
      modifies this`accounts, this`formulators, this`deposits, this`indexes, this`stakes
      ensures Valid()
      ensures ok <==> allowed && old(CanTransmute(from, hypers, amounts, alpha, creation))
      ensures ok ==> Total() == old(Total()) && deposits == old(deposits)[alpha := creation]
      ensures ok ==> accounts == old(accounts) + {alpha} && formulators.Keys == old(formulators.Keys) + {alpha}
      ensures ok ==> formulators[alpha] == Formulator(Alpha, false, 0, 0)
      ensures ok ==> OnlyTotals(old(formulators), formulators - {alpha})
      ensures ok ==> forall h: Address ::
                At(stakes, (h, from)) == At(old(stakes), (h, from)) - SumFor(hypers, amounts, h)
      ensures ok ==> forall k: StakeKey :: k.1 != from ==> At(stakes, k) == At(old(stakes), k)
    {
      hide IndexOk, TotalsOk, QueueOk, PutAmount, Sum, Outstanding, SumFor, SumSeq;
      if !allowed { return false; }
      ok := ValidTransmute(from, hypers, amounts, alpha, creation);
      if !ok { return; }
      ok := UnstakeAll(from, hypers, amounts);
      if ok {
        NewFormulator(alpha, creation);
      }
    }

    // The validation of Transmute, which does not look at the stakes.
    method ValidTransmute(from: Address, hypers: seq<Address>, amounts: seq<nat>, alpha: Address, creation: nat)
      returns (ok: bool)
      ensures ok <==> && |amounts| <= 10 && |amounts| == |hypers| && SumSeq(amounts) == creation
                      && from in accounts && alpha !in accounts
                      && (forall j :: 0 <= j < |amounts| ==> amounts[j] >= COIN)
                      && forall j :: 0 <= j < |hypers| ==> IsHyper(hypers[j])
    {
      if |amounts| > 10 || |amounts| != |hypers| { return false; }
      var sum, i := 0, 0;
      while i < |amounts|
        invariant 0 <= i <= |amounts| && sum == SumSeq(amounts[..i])
        invariant forall j :: 0 <= j < i ==> amounts[j] >= COIN
      {
        if amounts[i] < COIN { return false; }
        SumSeqNext(amounts, i);
        sum := sum + amounts[i];
        i := i + 1;
      }
      assert amounts[..i] == amounts;
      if sum != creation || from !in accounts || alpha in accounts { return false; }
      i := 0;
      while i < |hypers|
        invariant 0 <= i <= |hypers|
        invariant forall j :: 0 <= j < i ==> IsHyper(hypers[j])
      {
        if !IsHyper(hypers[i]) { return false; }
        i := i + 1;
      }
      return true;
    }

    ghost predicate CanTransmute(from: Address, hypers: seq<Address>, amounts: seq<nat>, alpha: Address,
                                 creation: nat)
      reads this
    {
      && |amounts| <= 10 && |amounts| == |hypers| && SumSeq(amounts) == creation
      && from in accounts && alpha !in accounts
      && (forall j :: 0 <= j < |amounts| ==> amounts[j] >= COIN)
      && (forall j :: 0 <= j < |hypers| ==> IsHyper(hypers[j]))
      && (forall h: Address :: SumFor(hypers, amounts, h) <= At(stakes, (h, from)))
    }

    // The loop of Transmute; a formulator may be named more than once.
    method UnstakeAll(from: Address, hypers: seq<Address>, amounts: seq<nat>) returns (ok: bool)
      requires Valid() && |hypers| == |amounts| && forall j :: 0 <= j < |hypers| ==> IsHyper(hypers[j])
      modifies this`indexes, this`stakes, this`formulators
      ensures Valid() && formulators.Keys == old(formulators.Keys)
      ensures ok <==> forall h: Address :: SumFor(hypers, amounts, h) <= At(old(stakes), (h, from))
      ensures OnlyTotals(old(formulators), formulators)
      ensures forall k: StakeKey :: k.1 != from ==> At(stakes, k) == At(old(stakes), k)
      ensures ok ==> Sum(stakes) == Sum(old(stakes)) - SumSeq(amounts)
      ensures ok ==> forall h: Address ::
                At(stakes, (h, from)) == At(old(stakes), (h, from)) - SumFor(hypers, amounts, h)
    {
      hide IndexOk, TotalsOk, QueueOk, PutAmount, SumFor, Sum, Restacked, OnlyTotals;
      var i := 0;
      OnlyTotalsHold(formulators);
      NothingFor(hypers, amounts);
      while i < |hypers|
        invariant 0 <= i <= |hypers| && Valid() && formulators.Keys == old(formulators.Keys)
        invariant forall j :: 0 <= j < |hypers| ==> IsHyper(hypers[j])
        invariant OnlyTotals(old(formulators), formulators)
        invariant forall k: StakeKey :: k.1 != from ==> At(stakes, k) == At(old(stakes), k)
        invariant Sum(stakes) == Sum(old(stakes)) - SumSeq(amounts[..i])
        invariant forall h: Address ::
                    At(stakes, (h, from)) == At(old(stakes), (h, from)) - SumFor(hypers[..i], amounts[..i], h)
      {
        SumSeqNext(amounts, i);
        forall h: Address ensures SumFor(hypers[..i + 1], amounts[..i + 1], h)
                                  == SumFor(hypers[..i], amounts[..i], h) + (if hypers[i] == h then amounts[i] else 0) {
          SumForNext(hypers, amounts, i, h);
        }
        ghost var was := stakes;
        OtherTotals(old(formulators), formulators, hypers[i], -(amounts[i] as int));
        ok := Unstake(hypers[i], from, amounts[i]);
        if !ok {
          SumForGrows(hypers, amounts, i + 1, hypers[i]);
          return;
        }
        StakePut(was, hypers[i], from, At(was, (hypers[i], from)) - amounts[i]);
        i := i + 1;
      }
      assert hypers[..i] == hypers && amounts[..i] == amounts;
      ok := true;
    }

    method NewFormulator(a: Address, deposit: nat)
      requires Valid() && a !in accounts
      modifies this`accounts, this`formulators, this`deposits
      ensures Valid() && Sum(deposits) == Sum(old(deposits)) + deposit && At(deposits, a) == deposit
      ensures deposits == old(deposits)[a := deposit] && accounts == old(accounts) + {a}
      ensures formulators == old(formulators)[a := Formulator(Alpha, false, 0, 0)]
    {
      hide IndexOk, QueueOk;
      assert a !in formulators;
      SumSet(deposits, a, deposit);
      accounts := accounts + {a};
      formulators := formulators[a := Formulator(Alpha, false, 0, 0)];
      deposits := deposits[a := deposit];
    }

    /** Merges Alpha formulators into the first of them, which becomes a Sigma with all their deposits and
        balances. Value is kept exactly when the first is not named again or there is nothing to lose: if
        it is named again it is deleted with the others, and everything they held is gone. `allowed` says
        that the number, age and reward count of the formulators pass the policies. */
    method CreateSigma(alphas: seq<Address>, fee: nat, allowed: bool) returns (ok: bool)
      requires Valid() && alphas != []
      modifies this`balances, this`accounts, this`formulators, this`deposits, this`collectedFee
      ensures Valid()
      ensures ok <==> allowed && old(AllAlpha(alphas) && FeePayable(alphas[0], fee)) && Distinct(alphas[1..])
      ensures ok ==> collectedFee == old(collectedFee) + fee
      ensures ok ==> formulators == Merged(old(formulators), alphas)
                     && accounts == old(accounts) - Members(alphas[1..])
      ensures ok ==> forall x: Address :: x !in alphas ==>
                At(balances, x) == At(old(balances), x) && At(deposits, x) == At(old(deposits), x)
      ensures ok && alphas[0] !in alphas[1..] ==>
                && Total() == old(Total()) && alphas[0] in formulators && formulators[alphas[0]].kind == Sigma
                && At(deposits, alphas[0]) == SumAt(old(deposits), alphas)
                && At(balances, alphas[0]) == SumAt(old(balances), alphas) - fee
      ensures ok && alphas[0] in alphas[1..] ==>
                Total() == old(Total()) + fee - SumAt(old(deposits), alphas[1..]) - SumAt(old(balances), alphas[1..])
      ensures ok ==> (Total() == old(Total()) <==>
                        || alphas[0] !in alphas[1..]
                        || SumAt(old(deposits), alphas[1..]) + SumAt(old(balances), alphas[1..]) == fee)
    {
      hide IndexOk, TotalsOk, QueueOk, PutAmount, Sum, Outstanding, SumAt, Distinct, Members;
      if !allowed { return false; }
      var first := alphas[0];
      var i := 0;
      while i < |alphas|
        invariant 0 <= i <= |alphas| && unchanged(this)
        invariant forall j :: 0 <= j < i ==> alphas[j] in formulators && formulators[alphas[j]].kind == Alpha
      {
        if alphas[i] !in formulators || formulators[alphas[i]].kind != Alpha { return false; }
        i := i + 1;
      }
      if !FeePayable(first, fee) { return false; }
      FeeFromFirst(balances, alphas, fee);
      FeeFromMember(balances, first, alphas[1..], fee);
      ghost var was := balances;
      forall x: Address | x != first ensures At(PutAmount(was, first, At(was, first) - fee), x) == At(was, x) {
        StoredAmount(was, first, At(was, first) - fee, x);
      }
      ok := PayFee(first, fee);
      ok := MergeAll(alphas);
      if ok && first in formulators {
        BecomeSigma(first);
      }
    }

    ghost predicate AllAlpha(alphas: seq<Address>)
      reads this
    {
      forall j :: 0 <= j < |alphas| ==> alphas[j] in formulators && formulators[alphas[j]].kind == Alpha
    }

    // The loop of CreateSigma.
    method MergeAll(alphas: seq<Address>) returns (ok: bool)
      requires Valid() && alphas != [] && AllAlpha(alphas)
      modifies this`balances, this`accounts, this`formulators, this`deposits
      ensures Valid() && (ok <==> Distinct(alphas[1..]))
      ensures ok ==> formulators == old(formulators) - Members(alphas[1..])
                     && accounts == old(accounts) - Members(alphas[1..])
      ensures ok ==> forall x: Address :: x !in alphas ==>
                At(balances, x) == At(old(balances), x) && At(deposits, x) == At(old(deposits), x)
      ensures ok && alphas[0] !in alphas[1..] ==>
                && alphas[0] in formulators && Total() == old(Total())
                && At(deposits, alphas[0]) == SumAt(old(deposits), alphas)
                && At(balances, alphas[0]) == SumAt(old(balances), alphas)
      ensures ok && alphas[0] in alphas[1..] ==>
                && alphas[0] !in formulators
                && Total() == old(Total()) - SumAt(old(deposits), alphas[1..]) - SumAt(old(balances), alphas[1..])
    {
      hide IndexOk, TotalsOk, QueueOk, PutAmount, Sum, SumAt, Distinct, Members, Outstanding, Total;
      NoMembers(alphas);
      FirstAt(deposits, alphas);
      FirstAt(balances, alphas);
      var first := alphas[0];
      var i := 1;
      ghost var d, b := deposits, balances;
      while i < |alphas|
        invariant 1 <= i <= |alphas| && Valid() && Distinct(alphas[1..i])
        invariant formulators == old(formulators) - Members(alphas[1..i])
        invariant accounts == old(accounts) - Members(alphas[1..i])
        invariant forall a: Address :: a != first && a !in alphas[1..i] ==>
                    At(deposits, a) == At(d, a) && At(balances, a) == At(b, a)
        invariant first !in alphas[1..i] ==>
                    && first in formulators && Total() == old(Total())
                    && At(deposits, first) == SumAt(d, alphas[..i]) && At(balances, first) == SumAt(b, alphas[..i])
        invariant first in alphas[1..i] ==>
                    && first !in formulators && At(balances, first) == 0
                    && Total() == old(Total()) - SumAt(d, alphas[1..i]) - SumAt(b, alphas[1..i])
      {
        var a := alphas[i];
        NextMember(alphas, i);
        if a !in formulators { return false; }
        SumAtNext(d, alphas, i);
        SumAtNext(b, alphas, i);
        MergeInto(first, a);
        i := i + 1;
      }
      assert alphas[1..i] == alphas[1..] && alphas[..i] == alphas;
      return true;
    }

    // One round of the merge: balance and deposit move to the first formulator, then the account goes.
    // What moves to a first formulator that is itself deleted goes with it when the block is stored.
    method MergeInto(first: Address, a: Address)
      requires Valid() && a in formulators && formulators[a].kind == Alpha
      requires first !in formulators ==> At(balances, first) == 0
      modifies this`balances, this`accounts, this`formulators, this`deposits
      ensures Valid() && formulators == old(formulators) - {a} && accounts == old(accounts) - {a}
      ensures first != a && first in old(formulators) ==>
                && Total() == old(Total())
                && At(balances, first) == At(old(balances), first) + At(old(balances), a)
                && At(deposits, first) == At(old(deposits), first) + At(old(deposits), a)
      ensures first == a || first !in old(formulators) ==>
                && At(balances, first) == 0
                && Total() == old(Total()) - At(old(balances), a) - At(old(deposits), a)
      ensures forall x: Address :: x != first && x != a ==>
                At(deposits, x) == At(old(deposits), x) && At(balances, x) == At(old(balances), x)
    {
      hide IndexOk, QueueOk, TotalsOk, Sum, Outstanding;
      AlphaGone(formulators, stakes, a);
      MoveBalance(first, a);
      MoveDeposit(first, a);
      formulators := formulators - {a};
      accounts := accounts - {a};
      if first !in formulators {
        SumRemove(balances, first);
        balances := balances - {first};
      }
    }

    method MoveBalance(first: Address, a: Address)
      modifies this`balances
      ensures first != a ==> Sum(balances) == Sum(old(balances))
      ensures first != a ==> At(balances, first) == At(old(balances), first) + At(old(balances), a)
      ensures first == a ==> Sum(balances) == Sum(old(balances)) - At(old(balances), a) && At(balances, a) == 0
      ensures forall x: Address :: x != first && x != a ==> At(balances, x) == At(old(balances), x)
    {
      hide Sum;
      StoredAmount(balances, first, At(balances, first) + At(balances, a), a);
      StoredAmount(balances, first, At(balances, first) + At(balances, a), first);
      var ok := AddBalance(first, At(balances, a));
      SumRemove(balances, a);
      balances := balances - {a};
    }

    // The first formulator takes over the deposit, if it is still there.
    method MoveDeposit(first: Address, a: Address)
      modifies this`deposits
      ensures deposits.Keys <= (old(deposits.Keys) + if first in formulators then {first} else {}) - {a}
      ensures first != a && first in formulators ==>
                && Sum(deposits) == Sum(old(deposits))
                && At(deposits, first) == At(old(deposits), first) + At(old(deposits), a)
      ensures first == a || first !in formulators ==> Sum(deposits) == Sum(old(deposits)) - At(old(deposits), a)
      ensures forall x: Address :: x != first && x != a ==> At(deposits, x) == At(old(deposits), x)
    {
      hide Sum;
      if first in formulators {
        SumPut(deposits, first, At(deposits, first) + At(deposits, a));
        deposits := PutAmount(deposits, first, At(deposits, first) + At(deposits, a));
      }
      SumRemove(deposits, a);
      deposits := deposits - {a};
    }

    method BecomeSigma(a: Address)
      requires Valid() && a in formulators && formulators[a].kind == Alpha
      modifies this`formulators
      ensures Valid() && formulators == old(formulators)[a := old(formulators)[a].(kind := Sigma)]
    {
      hide IndexOk, QueueOk;
      formulators := formulators[a := formulators[a].(kind := Sigma)];
    }

    /** Closes a formulator: its deposit and balance go to the heritor if there is another account for it
        and are lost otherwise, and every other staker gets back exactly its stake, once. In a valid ledger
        neither of the two staking errors can come up. */
    method RevokeFormulator(h: Address, heritor: Address) returns (r: RevokeResult)
      requires Valid()
      modifies this`balances, this`accounts, this`formulators, this`deposits, this`indexes, this`stakes
      ensures r == if h in old(formulators) then Revoked else NoFormulator
      ensures Valid() && formulators == old(formulators) - {h}
      ensures r == Revoked ==> stakes == old(stakes) - StakesAt(old(stakes), h).Keys
      ensures r == Revoked ==> accounts == old(accounts) - {h} && deposits == old(deposits) - {h}
      ensures r == NoFormulator ==> unchanged(this)
      ensures r == Revoked ==> At(balances, h) == 0
      ensures r == Revoked ==> forall x: Address :: x != h ==>
                At(balances, x) == At(old(Inherited(h, heritor)), x) + At(old(stakes), (h, x))
      ensures r == Revoked ==>
                Total() == old(Total()) - At(old(stakes), (h, h))
                           - if heritor in old(accounts) && heritor != h then 0
                             else At(old(deposits), h) + At(old(balances), h)
    {
      hide IndexOk, TotalsOk, QueueOk, PutAmount, Sum, Outstanding;
      if h !in formulators { return NoFormulator; }
      Inherit(h, heritor);
      ghost var mid := balances;
      TotalsHere(formulators, stakes, h);
      if formulators[h].kind == Hyper {
        var m := GetStakingAmountMap(h);
        StakesSame(stakes, h, m);
        r := PayStakers(m, formulators[h].staking);
        if r != Revoked { return; }
        PaidStakers(stakes, h, m, mid, balances);
      }
      CloseAccount(h);
      return Revoked;
    }

    // The balances after the heritor's part.
    ghost function Inherited(h: Address, heritor: Address): map<Address, nat>
      reads this
    {
      if heritor !in accounts then balances
      else
        var b := PutAmount(balances, heritor, At(balances, heritor) + At(deposits, h));
        PutAmount(b, heritor, At(b, heritor) + At(b, h)) - {h}
    }

    method Inherit(h: Address, heritor: Address)
      modifies this`balances
      ensures balances == old(Inherited(h, heritor))
      ensures At(balances, h) == if heritor in accounts then 0 else At(old(balances), h)
      ensures Sum(balances) == Sum(old(balances)) + if heritor !in accounts then 0
                                 else if heritor == h then -(At(old(balances), h) as int) else At(deposits, h)
    {
      hide PutAmount, Sum;
      if heritor in accounts {
        StoredAmount(balances, heritor, At(balances, heritor) + At(deposits, h), h);
        var ok := AddBalance(heritor, At(deposits, h));
        StoredAmount(balances, heritor, At(balances, heritor) + At(balances, h), h);
        ok := AddBalance(heritor, At(balances, h));
        SumRemove(balances, h);
        balances := balances - {h};
      }
    }

    // Pays the stakers in any order, counting the formulator's total down to zero.
    method PayStakers(m: map<Address, nat>, staking: int) returns (r: RevokeResult)
      requires staking == Sum(m) && forall a :: a in m ==> m[a] > 0
      modifies this`balances
      ensures r == Revoked && Sum(balances) == Sum(old(balances)) + Sum(m)
      ensures forall x: Address :: At(balances, x) == At(old(balances), x) + At(m, x)
    {
      hide Sum, PutAmount;
      var rest, left := m, staking;
      while rest != map[]
        invariant rest.Keys <= m.Keys && left == Sum(rest) && forall a :: a in rest ==> rest[a] == m[a]
        invariant Sum(balances) == Sum(old(balances)) + Sum(m) - Sum(rest)
        invariant forall x: Address :: At(balances, x) + At(rest, x) == At(old(balances), x) + At(m, x)
        decreases |rest|
      {
        var a :| a in rest;
        SumWithout(rest, a);
        if rest[a] == 0 { return InvalidStakingAddress; }
        if left < rest[a] { return CriticalStakingAmount; }
        left := left - rest[a];
        ghost var was := balances;
        var ok := AddBalance(a, rest[a]);
        forall x: Address ensures At(balances, x) == At(was, x) + if x == a then rest[a] else 0 {
          StoredAmount(was, a, At(was, a) + rest[a], x);
        }
        rest := rest - {a};
      }
      SumNone<Address>();
      if left != 0 { return CriticalStakingAmount; }
      return Revoked;
    }

    // Deleting the account takes its deposit and everything stored under it along.
    method CloseAccount(h: Address)
      requires Valid() && h in formulators
      modifies this`accounts, this`formulators, this`deposits, this`stakes, this`indexes, this`balances
      ensures Valid() && formulators == old(formulators) - {h} && stakes == old(stakes) - StakesAt(old(stakes), h).Keys
      ensures accounts == old(accounts) - {h} && deposits == old(deposits) - {h}
      ensures balances == old(balances) - {h} && Sum(balances) == Sum(old(balances)) - At(old(balances), h)
      ensures Sum(deposits) == Sum(old(deposits)) - At(old(deposits), h)
      ensures Sum(stakes) == Sum(old(stakes)) - Sum(StakesAt(old(stakes), h))
    {
      hide QueueOk, IndexOk, TotalsOk;
      CloseKeeps(indexes, formulators, stakes, h);
      StakesSplit(stakes, h);
      SumRemove(deposits, h);
      SumRemove(balances, h);
      balances := balances - {h};
      stakes := map k | k in stakes && k.0 != h :: stakes[k];
      indexes := indexes - {h};
      deposits := deposits - {h};
      formulators := formulators - {h};
      accounts := accounts - {h};
    }

    method Execute(tx: Tx, fee: nat) returns (ok: bool)
      requires Valid() && FeeFits(tx, fee)
      modifies this
      ensures Valid() && StalePairs(queue) <= old(StalePairs(queue)) + Reverts(tx)
      ensures ok && KeepsValue(tx, fee) && Touches(tx) !! old(StalePairs(queue)) ==> Total() == old(Total())
    {
      hide IndexOk, TotalsOk, QueueOk, Sum, Total, Outstanding;
      if Touches(tx) !! StalePairs(queue) { PairsTouched(queue, tx); }
      match tx {
        case TransferTx(from, to, am) => ok := Transfer(from, to, am, fee);
        case StakingTx(h, from, am) => ok := Staking(h, from, am, fee);
        case UnstakingTx(h, from, am, height) => ok := Unstaking(h, from, am, fee, height);
        case ChangeStakingTx(hu, hs, from, am) => ok := ChangeStaking(hu, hs, from, am, fee);
        case RevertUnstakingTx(h, from, height, am) => ok := RevertUnstaking(h, from, height, am, fee);
        case TransmuteTx(from, hypers, amounts, alpha, creation, allowed) =>
          ok := Transmute(from, hypers, amounts, alpha, creation, allowed);
        case CreateSigmaTx(alphas, allowed) => ok := CreateSigma(alphas, fee, allowed);
        case UnlockTx(height) =>
          PayUnstaked(height);
          ok := true;
      }
    }

    /** Any sequence of these transactions keeps the index and the Hyper totals, so that a formulator can
        then be revoked without a staking error; and it keeps the value of the ledger as long as none
        fails, none overdraws, and no queue entry is used again after it was taken back. */
    method ExecuteAll(txs: seq<Tx>, fee: nat) returns (ok: bool)
      requires Valid() && forall i :: 0 <= i < |txs| ==> FeeFits(txs[i], fee)
      modifies this
      ensures Valid()
      ensures ok && old(StalePairs(queue)) == {} && NoReuse(txs)
              && (forall i :: 0 <= i < |txs| ==> KeepsValue(txs[i], fee))
              ==> Total() == old(Total())
    {
      hide IndexOk, TotalsOk, QueueOk, Sum, Total, StalePairs;
      var i := 0;
      ghost var done: set<(nat, Address)> := {};
      ghost var fit := StalePairs(queue) == {} && NoReuse(txs)
                       && forall i :: 0 <= i < |txs| ==> KeepsValue(txs[i], fee);
      while i < |txs|
        invariant 0 <= i <= |txs| && Valid()
        invariant fit ==> Total() == old(Total()) && StalePairs(queue) <= done
        invariant forall p :: p in done ==> exists j :: 0 <= j < i && p in Reverts(txs[j])
      {
        assert fit ==> Touches(txs[i]) !! done;
        ok := Execute(txs[i], fee);
        if !ok { return; }
        done := done + Reverts(txs[i]);
        i := i + 1;
      }
      return true;
    }
  }

  datatype Tx =
    | TransferTx(from: Address, to: Address, am: nat)
    | StakingTx(h: Address, from: Address, am: nat)
    | UnstakingTx(h: Address, from: Address, am: nat, height: nat)
    | ChangeStakingTx(hu: Address, hs: Address, from: Address, am: nat)
    | RevertUnstakingTx(h: Address, from: Address, height: nat, am: nat)
    | TransmuteTx(from: Address, hypers: seq<Address>, amounts: seq<nat>, alpha: Address, creation: nat, allowed: bool)
    | CreateSigmaTx(alphas: seq<Address>, allowed: bool)
    | UnlockTx(height: nat)

  // A fee that may come out of an amount to be staked is smaller than it.
  predicate FeeFits(tx: Tx, fee: nat) {
    match tx
    case ChangeStakingTx(_, _, _, am) => am > fee
    case RevertUnstakingTx(_, _, _, am) => am > fee
    case CreateSigmaTx(alphas, _) => alphas != []
    case _ => true
  }

  // A fee does not exceed an unstaked amount, and no formulator is merged into itself.
  predicate KeepsValue(tx: Tx, fee: nat) {
    match tx
    case UnstakingTx(_, _, am, _) => am >= fee
    case CreateSigmaTx(alphas, _) => alphas != [] && alphas[0] !in alphas[1..]
    case _ => true
  }

  // The height and staker whose queue entries a transaction adds to or takes from.
  function Touches(tx: Tx): set<(nat, Address)> {
    match tx
    case UnstakingTx(_, from, _, height) => {(height, from)}
    case RevertUnstakingTx(_, from, height, _) => {(height, from)}
    case _ => {}
  }

  function Reverts(tx: Tx): set<(nat, Address)> {
    match tx
    case RevertUnstakingTx(_, from, height, _) => {(height, from)}
    case _ => {}
  }

  // No transaction touches an entry that an earlier one took from.
  ghost predicate NoReuse(txs: seq<Tx>) {
    forall i, j :: 0 <= i < j < |txs| ==> Reverts(txs[i]) !! Touches(txs[j])
  }

  // Where nothing stale is stored, stored entries are listed.
  lemma PairsTouched(q: Queue, tx: Tx)
    requires Touches(tx) !! StalePairs(q)
    ensures tx.UnstakingTx? ==> Listed(q, tx.height, tx.from) || Sum(Mine(q, tx.height, tx.from)) == 0
    ensures tx.RevertUnstakingTx? && (tx.height, tx.from, tx.h) in q.entries ==> Listed(q, tx.height, tx.from)
  {
    if tx.UnstakingTx? && !Listed(q, tx.height, tx.from) {
      assert (tx.height, tx.from) in Touches(tx);
      assert forall k :: k in q.entries && k.0 == tx.height && k.1 == tx.from ==> (k.0, k.1) in StalePairs(q);
      assert Mine(q, tx.height, tx.from) == map[];
      SumNone<QueueKey>();
    }
    assert tx.RevertUnstakingTx? ==> (tx.height, tx.from) in Touches(tx);
    assert forall k :: k in q.entries && !Listed(q, k.0, k.1) ==> (k.0, k.1) in StalePairs(q);
  }

  datatype RevokeResult = Revoked | NoFormulator | InvalidStakingAddress | CriticalStakingAmount

  // A formulator that is not Hyper has no stakes; a Hyper one knows their sum.
  lemma TotalsHere(formulators: map<Address, Formulator>, stakes: map<StakeKey, nat>, h: Address)
    requires TotalsOk(formulators, stakes) && h in formulators
    ensures formulators[h].kind == Hyper ==> formulators[h].staking == Sum(StakesAt(stakes, h))
    ensures formulators[h].kind != Hyper ==>
              Sum(StakesAt(stakes, h)) == 0 && forall x: Address :: At(stakes, (h, x)) == 0
  {
    if formulators[h].kind != Hyper {
      assert StakesAt(stakes, h) == map[];
    }
  }

  // The map by staker and the map by key have the same sum.
  lemma {:induction false} StakesSame(stakes: map<StakeKey, nat>, h: Address, m: map<Address, nat>)
    requires forall a: Address :: a in m <==> (h, a) in stakes
    requires forall a :: a in m ==> m[a] == stakes[(h, a)]
    ensures Sum(m) == Sum(StakesAt(stakes, h))
    decreases |m|
  {
    var s := StakesAt(stakes, h);
    if m == map[] {
      assert s == map[];
    } else {
      var a := Pick(m);
      StakesSame(stakes - {(h, a)}, h, m - {a});
      assert StakesAt(stakes - {(h, a)}, h) == s - {(h, a)};
      SumWithout(s, (h, a));
    }
  }

  lemma PaidStakers(stakes: map<StakeKey, nat>, h: Address, m: map<Address, nat>, was: map<Address, nat>,
                    now: map<Address, nat>)
    requires forall a: Address :: a in m <==> (h, a) in stakes
    requires forall a :: a in m ==> m[a] == stakes[(h, a)]
    requires forall x: Address :: At(now, x) == At(was, x) + At(m, x)
    ensures forall x: Address :: At(now, x) == At(was, x) + At(stakes, (h, x))
  {
  }

  lemma StakesSplit(stakes: map<StakeKey, nat>, h: Address)
    ensures (map k | k in stakes && k.0 != h :: stakes[k]) == stakes - StakesAt(stakes, h).Keys
    ensures Sum(stakes - StakesAt(stakes, h).Keys) == Sum(stakes) - Sum(StakesAt(stakes, h))
  {
    var some := StakesAt(stakes, h);
    SumSplit(stakes, some.Keys);
    assert (map k | k in stakes && k in some.Keys :: stakes[k]) == some;
  }

  lemma CloseKeeps(indexes: map<Address, Index>, formulators: map<Address, Formulator>,
                   stakes: map<StakeKey, nat>, h: Address)
    requires IndexOk(indexes, stakes) && TotalsOk(formulators, stakes)
    ensures var rest := map k | k in stakes && k.0 != h :: stakes[k];
            IndexOk(indexes - {h}, rest) && TotalsOk(formulators - {h}, rest)
  {
    hide IndexOk, TotalsOk;
    CloseIndex(indexes, stakes, h);
    CloseTotals(formulators, stakes, h);
  }

  lemma CloseIndex(indexes: map<Address, Index>, stakes: map<StakeKey, nat>, h: Address)
    requires IndexOk(indexes, stakes)
    ensures IndexOk(indexes - {h}, map k | k in stakes && k.0 != h :: stakes[k])
  {
    hide Indexed;
    var rest := map k | k in stakes && k.0 != h :: stakes[k];
    NoEntries();
    forall g: Address ensures IndexOf(indexes - {h}, g) == if g == h then NO_ENTRIES else IndexOf(indexes, g) {
    }
    forall g: Address, a: Address ensures a in IndexOf(indexes - {h}, g).numbers <==> (g, a) in rest {
      assert a in IndexOf(indexes, g).numbers <==> (g, a) in stakes;
    }
  }

  lemma CloseTotals(formulators: map<Address, Formulator>, stakes: map<StakeKey, nat>, h: Address)
    requires TotalsOk(formulators, stakes)
    ensures TotalsOk(formulators - {h}, map k | k in stakes && k.0 != h :: stakes[k])
  {
    hide Sum;
    var rest := map k | k in stakes && k.0 != h :: stakes[k];
    forall g | g in formulators - {h} ensures StakesAt(rest, g) == StakesAt(stakes, g) {
    }
  }

  // Lists of addresses.

  function Members(xs: seq<Address>): set<Address> { set a | a in xs }

  lemma NoMembers(xs: seq<Address>)
    requires xs != []
    ensures Members(xs[1..1]) == {} && Distinct(xs[1..1])
  {
  }

  // Going on to the i-th address.
  lemma NextMember(xs: seq<Address>, i: nat)
    requires 1 <= i < |xs|
    ensures xs[1..i + 1] == xs[1..i] + [xs[i]] && xs[..i + 1] == xs[..i] + [xs[i]]
    ensures Members(xs[1..i + 1]) == Members(xs[1..i]) + {xs[i]}
    ensures forall a :: a in Members(xs[1..i]) <==> a in xs[1..i]
    ensures Distinct(xs[1..i]) ==> (Distinct(xs[1..i + 1]) <==> xs[i] !in xs[1..i])
    ensures Distinct(xs[1..]) ==> xs[i] !in xs[1..i]
  {
    assert xs[1..][..i - 1] == xs[1..i] && xs[1..][i - 1] == xs[i];
    if Distinct(xs[1..i]) { DistinctLast(xs[1..i], xs[i]); }
  }

  lemma DistinctLast(xs: seq<Address>, a: Address)
    requires Distinct(xs)
    ensures Distinct(xs + [a]) <==> a !in xs
  {
    var ys := xs + [a];
    if a in xs {
      var j :| 0 <= j < |xs| && xs[j] == a;
      assert ys[j] == ys[|xs|];
    } else {
      assert forall i, j :: 0 <= i < j < |ys| ==> ys[i] != ys[j];
    }
  }

  function SumAt(m: map<Address, nat>, xs: seq<Address>): nat {
    if xs == [] then 0 else SumAt(m, xs[..|xs| - 1]) + At(m, xs[|xs| - 1])
  }

  lemma SumAtLast(m: map<Address, nat>, xs: seq<Address>, a: Address)
    ensures SumAt(m, xs + [a]) == SumAt(m, xs) + At(m, a)
  {
    assert (xs + [a])[..|xs|] == xs;
  }

  // Going on to the i-th address, with and without the first.
  lemma SumAtNext(m: map<Address, nat>, xs: seq<Address>, i: nat)
    requires 1 <= i < |xs|
    ensures SumAt(m, xs[..i + 1]) == SumAt(m, xs[..i]) + At(m, xs[i])
    ensures SumAt(m, xs[1..i + 1]) == SumAt(m, xs[1..i]) + At(m, xs[i])
    ensures SumAt(m, xs[..i]) == At(m, xs[0]) + SumAt(m, xs[1..i])
  {
    assert xs[..i + 1] == xs[..i] + [xs[i]] && xs[1..i + 1] == xs[1..i] + [xs[i]];
    SumAtLast(m, xs[..i], xs[i]);
    SumAtLast(m, xs[1..i], xs[i]);
    SumAtFront(m, xs[..i]);
    assert xs[..i][1..] == xs[1..i];
  }

  lemma {:induction false} SumAtFront(m: map<Address, nat>, xs: seq<Address>)
    requires xs != []
    ensures SumAt(m, xs) == At(m, xs[0]) + SumAt(m, xs[1..])
    decreases |xs|
  {
    var n := |xs| - 1;
    if n > 0 {
      SumAtFront(m, xs[..n]);
      assert xs[..n][1..] == xs[1..][..n - 1];
    }
  }

  // A fee paid by one of distinct accounts lowers their sum by just that.
  lemma {:induction false} FeeFromMember(m: map<Address, nat>, a: Address, xs: seq<Address>, fee: nat)
    requires At(m, a) >= fee
    ensures Distinct(xs) ==> SumAt(PutAmount(m, a, At(m, a) - fee), xs) == SumAt(m, xs) - if a in xs then fee else 0
    decreases |xs|
  {
    if xs != [] {
      var n := |xs| - 1;
      FeeFromMember(m, a, xs[..n], fee);
      assert xs == xs[..n] + [xs[n]];
    }
  }

  // A fee paid by the first of distinct accounts lowers their sum by just that.
  lemma {:induction false} FeeFromFirst(m: map<Address, nat>, xs: seq<Address>, fee: nat)
    requires xs != [] && At(m, xs[0]) >= fee
    ensures xs[0] !in xs[1..] ==> SumAt(PutAmount(m, xs[0], At(m, xs[0]) - fee), xs) == SumAt(m, xs) - fee
    decreases |xs|
  {
    var m' := PutAmount(m, xs[0], At(m, xs[0]) - fee);
    if |xs| == 1 {
      FirstAt(m, xs);
      FirstAt(m', xs);
      assert xs[..1] == xs;
    } else {
      var n := |xs| - 1;
      FeeFromFirst(m, xs[..n], fee);
      assert xs[..n][1..] == xs[1..n];
      if xs[0] !in xs[1..] {
        assert xs[n] == xs[1..][n - 1];
        assert forall a :: a in xs[1..n] ==> a in xs[1..];
      }
    }
  }

  lemma FirstAt(m: map<Address, nat>, xs: seq<Address>)
    requires xs != []
    ensures SumAt(m, xs[..1]) == At(m, xs[0])
  {
    assert xs[..1] == [] + [xs[0]];
    SumAtLast(m, [], xs[0]);
  }

  // Sums over the lists of a transmutation.

  function SumSeq(xs: seq<nat>): nat {
    if xs == [] then 0 else SumSeq(xs[..|xs| - 1]) + xs[|xs| - 1]
  }

  // What is taken from one formulator.
  function SumFor(hypers: seq<Address>, amounts: seq<nat>, h: Address): nat
    requires |hypers| == |amounts|
  {
    if hypers == [] then 0
    else
      var n := |hypers| - 1;
      SumFor(hypers[..n], amounts[..n], h) + if hypers[n] == h then amounts[n] else 0
  }

  lemma SumSeqNext(xs: seq<nat>, i: nat)
    requires i < |xs|
    ensures SumSeq(xs[..i + 1]) == SumSeq(xs[..i]) + xs[i]
  {
    assert xs[..i + 1][..i] == xs[..i];
  }

  lemma SumForNext(hypers: seq<Address>, amounts: seq<nat>, i: nat, h: Address)
    requires |hypers| == |amounts| && i < |hypers|
    ensures SumFor(hypers[..i + 1], amounts[..i + 1], h)
            == SumFor(hypers[..i], amounts[..i], h) + if hypers[i] == h then amounts[i] else 0
  {
    assert hypers[..i + 1][..i] == hypers[..i] && amounts[..i + 1][..i] == amounts[..i];
  }

  lemma NothingFor(hypers: seq<Address>, amounts: seq<nat>)
    requires |hypers| == |amounts|
    ensures SumSeq(amounts[..0]) == 0
    ensures forall h: Address :: SumFor(hypers[..0], amounts[..0], h) == 0
  {
  }

  lemma {:induction false} SumForGrows(hypers: seq<Address>, amounts: seq<nat>, i: nat, h: Address)
    requires |hypers| == |amounts| && i <= |hypers|
    ensures SumFor(hypers[..i], amounts[..i], h) <= SumFor(hypers, amounts, h)
    decreases |hypers| - i
  {
    if i < |hypers| {
      SumForGrows(hypers, amounts, i + 1, h);
      SumForNext(hypers, amounts, i, h);
    } else {
      assert hypers[..i] == hypers && amounts[..i] == amounts;
    }
  }

  lemma AlphaGone(formulators: map<Address, Formulator>, stakes: map<StakeKey, nat>, a: Address)
    requires TotalsOk(formulators, stakes) && a in formulators && formulators[a].kind == Alpha
    ensures TotalsOk(formulators - {a}, stakes)
  {
  }

  // Of `entries`, all but `rest` have been added to the balances.
  ghost predicate PaidSoFar(was: map<Address, nat>, entries: map<QueueKey, nat>, now: map<Address, nat>,
                            rest: map<QueueKey, nat>) {
    forall a: Address :: At(now, a) + Sum(QueueOf(rest, a)) == At(was, a) + Sum(QueueOf(entries, a))
  }

  lemma NonePaid(was: map<Address, nat>, entries: map<QueueKey, nat>)
    ensures PaidSoFar(was, entries, was, entries)
  {
  }

  lemma OnePaid(was: map<Address, nat>, entries: map<QueueKey, nat>, now: map<Address, nat>,
                rest: map<QueueKey, nat>, k: QueueKey)
    requires PaidSoFar(was, entries, now, rest) && k in rest
    ensures PaidSoFar(was, entries, PutAmount(now, k.1, At(now, k.1) + rest[k]), rest - {k})
  {
    hide PutAmount, QueueOf;
    var now' := PutAmount(now, k.1, At(now, k.1) + rest[k]);
    forall a: Address ensures At(now', a) + Sum(QueueOf(rest - {k}, a)) == At(was, a) + Sum(QueueOf(entries, a)) {
      StoredAmount(now, k.1, At(now, k.1) + rest[k], a);
      QueueOfWithout(rest, k, a);
    }
  }

  lemma AllPaid(was: map<Address, nat>, now: map<Address, nat>, entries: map<QueueKey, nat>)
    requires PaidSoFar(was, entries, now, map[])
    ensures forall a: Address :: At(now, a) == At(was, a) + Sum(QueueOf(entries, a))
  {
    forall a: Address ensures At(now, a) == At(was, a) + Sum(QueueOf(entries, a)) {
      QueueOfNone(a);
    }
  }

  // The entries of one staker.
  ghost function QueueOf(queue: map<QueueKey, nat>, a: Address): map<QueueKey, nat> {
    map k | k in queue && k.1 == a :: queue[k]
  }

  ghost function Taken(entries: map<QueueKey, nat>, t: nat, s: set<Address>): map<QueueKey, nat> {
    map k | k in entries && k.0 == t && k.1 in s :: entries[k]
  }

  lemma NoneListed(ix: Index)
    requires Indexed(ix)
    ensures FirstListed(ix, 0) == {}
  {
  }

  lemma TakenNone(entries: map<QueueKey, nat>, t: nat)
    ensures Taken(entries, t, {}) == map[] && entries - {} == entries
  {
  }

  lemma IndexHas(ix: Index, i: nat)
    requires Indexed(ix) && i < ix.count
    ensures i in ix.reverse
  {
  }

  lemma TakenNext(entries: map<QueueKey, nat>, t: nat, s: set<Address>, a: Address)
    requires a !in s
    ensures var rest := entries - Taken(entries, t, s).Keys;
            var mine := map k | k in rest && k.0 == t && k.1 == a :: rest[k];
            && Taken(entries, t, s) + mine == Taken(entries, t, s + {a})
            && rest - mine.Keys == entries - Taken(entries, t, s + {a}).Keys
  {
  }

  lemma TakenAll(q: Queue, t: nat)
    ensures Taken(q.entries, t, IndexOf(q.index, t).numbers.Keys) == DueAt(q, t)
  {
  }

  lemma PaidIs(q: Queue, t: nat, due: map<QueueKey, nat>)
    ensures Queue(q.entries - due.Keys, q.index - {t}) == Paid(q, t, due)
  {
  }

  lemma QueueOfWithout(m: map<QueueKey, nat>, k: QueueKey, a: Address)
    requires k in m
    ensures Sum(QueueOf(m - {k}, a)) == Sum(QueueOf(m, a)) - if a == k.1 then m[k] else 0
  {
    if a == k.1 {
      SumWithout(QueueOf(m, a), k);
      assert QueueOf(m - {k}, a) == QueueOf(m, a) - {k};
    } else {
      assert QueueOf(m - {k}, a) == QueueOf(m, a);
    }
  }

  lemma QueueOfNone(a: Address)
    ensures Sum(QueueOf(map[], a)) == 0
  {
    assert QueueOf(map[], a) == map[];
  }
}
