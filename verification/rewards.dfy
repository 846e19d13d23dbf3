/** The periodic payout: block rewards and fees are shared out by power, stacked for the stakers of
    Hyper formulators, and paid on to them less a commission. */
module Rewards {
  import opened Basics
  import opened Amounts
  import opened Ledgers

  // A generator of blocks since the last payout; for a Hyper, the power of its stakers.
  datatype Generator = Generator(amount: nat, blocks: nat, efficiency: nat, hyper: bool, stakers: nat, revoked: bool)

  function Power(g: Generator): nat { g.amount * g.blocks * g.efficiency / 1000 }

  /** The power is amount times blocks times efficiency, which is given per thousand, rounded down. */
  lemma PowerBound(g: Generator)
    ensures 1000 * Power(g) <= g.amount * g.blocks * g.efficiency < 1000 * Power(g) + 1000
  {
  }

  function Times(x: nat, y: nat): nat { x * y }

  lemma TimesAdd(x: nat, y: nat, z: nat)
    ensures Times(x + y, z) == Times(x, z) + Times(y, z)
  {
  }

  // The powers of the generators that are not revoked, and of the stakers of those that are Hyper.
  ghost function PowersOf(gens: map<Address, Generator>): map<Address, nat> {
    map a | a in gens && !gens[a].revoked :: Power(gens[a])
  }

  ghost function StakersOf(gens: map<Address, Generator>): map<Address, nat> {
    map a | a in gens && !gens[a].revoked && gens[a].hyper :: gens[a].stakers
  }

  // The fixed-point share of a power.
  function Ratio(reward: nat, total: nat): nat
    requires total > 0
  {
    reward * COIN / total
  }

  function Share(power: nat, ratio: nat): nat { Times(power, ratio) / COIN }

  // The sum of all shares.
  ghost function Shares<K>(m: map<K, nat>, ratio: nat): nat
    decreases |m|
  {
    if m == map[] then 0 else Share(m[Pick(m)], ratio) + Shares(m - {Pick(m)}, ratio)
  }

  lemma {:induction false} SharesWithout<K>(m: map<K, nat>, ratio: nat, k: K)
    requires k in m
    ensures Shares(m, ratio) == Share(m[k], ratio) + Shares(m - {k}, ratio)
    decreases |m|
  {
    hide Share;
    var p := Pick(m);
    if p != k {
      SharesWithout(m - {p}, ratio, k);
      SharesWithout(m - {k}, ratio, p);
      assert (m - {p}) - {k} == (m - {k}) - {p};
    }
  }

  lemma {:induction false} SharesSplit<K>(m: map<K, nat>, ratio: nat, s: set<K>)
    ensures Shares(m, ratio) == Shares(map k | k in m && k in s :: m[k], ratio) + Shares(m - s, ratio)
    decreases |m|
  {
    hide Share;
    var some := map k | k in m && k in s :: m[k];
    if m == map[] {
      assert some == map[] && m - s == map[];
    } else {
      var p := Pick(m);
      var rest := m - {p};
      SharesSplit(rest, ratio, s);
      var fewer := map k | k in rest && k in s :: rest[k];
      if p in s {
        SharesWithout(some, ratio, p);
        assert fewer == some - {p} && rest - s == m - s;
      } else {
        SharesWithout(m - s, ratio, p);
        assert fewer == some && rest - s == (m - s) - {p};
      }
    }
  }

  // Rounding loses less than one unit per share.
  lemma ShareBound(power: nat, ratio: nat)
    ensures Share(power, ratio) * COIN <= Times(power, ratio) <= Share(power, ratio) * COIN + COIN - 1
  {
  }

  lemma {:induction false} SharesBound<K>(m: map<K, nat>, ratio: nat)
    ensures Shares(m, ratio) * COIN <= Times(Sum(m), ratio) <= Shares(m, ratio) * COIN + |m| * (COIN - 1)
    decreases |m|
  {
    hide Share, Times;
    if m == map[] {
      TimesZero(ratio);
    } else {
      var p := Pick(m);
      var rest := m - {p};
      SharesBound(rest, ratio);
      ShareBound(m[p], ratio);
      assert |rest| == |m| - 1;
      TimesAdd(m[p], Sum(rest), ratio);
    }
  }

  lemma TimesZero(x: nat)
    ensures Times(0, x) == 0
  {
  }

  lemma RatioBound(reward: nat, total: nat)
    requires total > 0
    ensures Times(total, Ratio(reward, total)) <= reward * COIN < Times(total, Ratio(reward, total)) + total
  {
    DivBound(reward * COIN, total);
  }

  lemma DivBound(x: nat, d: nat)
    requires d > 0
    ensures Times(d, x / d) <= x < Times(d, x / d) + d
  {
    assert x == d * (x / d) + x % d;
  }

  // What rounding may leave: less than one unit per receiver and one per coin of power.
  predicate SmallRest(left: int, power: nat, receivers: nat) { left * COIN < power + receivers * COIN }

  /** Sharing a reward out over some powers gives away at most the reward, and leaves less undivided
      than one unit per receiver and one per coin of power. */
  lemma DistributionBound<K, L>(reward: nat, a: map<K, nat>, b: map<L, nat>)
    requires Sum(a) + Sum(b) > 0
    ensures var total := Sum(a) + Sum(b);
            var given := Shares(a, Ratio(reward, total)) + Shares(b, Ratio(reward, total));
            given <= reward && SmallRest(reward - given, total, |a| + |b|)
  {
    hide Ratio, Shares, Sum, Times;
    var total := Sum(a) + Sum(b);
    var r := Ratio(reward, total);
    RatioBound(reward, total);
    SharesBound(a, r);
    SharesBound(b, r);
    TimesAdd(Sum(a), Sum(b), r);
  }

  // Each receiver in s, and nobody else, has got its share on top.
  ghost predicate SharesAdded(was: map<Address, nat>, now: map<Address, nat>, powers: map<Address, nat>,
                              ratio: nat, s: set<Address>) {
    forall a: Address :: At(now, a) == At(was, a) + if a in powers && a in s then Share(powers[a], ratio) else 0
  }

  function Commission(am: nat, per1000: nat): nat { am * per1000 / 1000 }

  lemma CommissionBound(am: nat, per1000: nat)
    requires per1000 <= 1000
    ensures Commission(am, per1000) <= am
  {
    assert am * per1000 <= am * 1000;
  }

  /** The commission is that many thousandths of the share, rounded down. */
  lemma CommissionExactly(am: nat, per1000: nat)
    ensures 1000 * Commission(am, per1000) <= am * per1000 < 1000 * Commission(am, per1000) + 1000
  {
  }

  // What a staker gets of a share.
  function Net(am: nat, per1000: nat): int { am - Commission(am, per1000) }

  // Of the stakers in `done`, each has its part: in its balance, or in its stake if it stakes rewards.
  ghost predicate PartsPaid(p: HyperPayout, ratio: nat, done: set<Address>, balances0: map<Address, nat>,
                            balances: map<Address, nat>, stakes0: map<StakeKey, nat>, stakes: map<StakeKey, nat>) {
    && (forall a: Address :: At(balances, a) == At(balances0, a) + PartOf(p, ratio, done - p.auto, a))
    && (forall a: Address :: At(stakes, (p.h, a)) == At(stakes0, (p.h, a)) + PartOf(p, ratio, done * p.auto, a))
    && (forall h: Address, a: Address :: h != p.h ==> At(stakes, (h, a)) == At(stakes0, (h, a)))
  }

  ghost function PartOf(p: HyperPayout, ratio: nat, s: set<Address>, a: Address): int {
    if a in p.powers && a in s then Net(Share(p.powers[a], ratio), p.per1000) else 0
  }

  // The payout of one Hyper formulator: whether it is due, the powers of its stakers that still have
  // an account, its commission, and the stakers who stake their rewards.
  datatype HyperPayout = HyperPayout(h: Address, due: bool, powers: map<Address, nat>, per1000: nat, auto: set<Address>)

  // What the stakers of m put back as stakes.
  ghost function AutoSum(p: HyperPayout, ratio: nat, m: map<Address, nat>): nat
    requires p.per1000 <= 1000
    decreases |m|
  {
    if m == map[] then 0 else AutoPart(p, ratio, Pick(m), m[Pick(m)]) + AutoSum(p, ratio, m - {Pick(m)})
  }

  ghost function AutoPart(p: HyperPayout, ratio: nat, a: Address, power: nat): nat
    requires p.per1000 <= 1000
  {
    CommissionBound(Share(power, ratio), p.per1000);
    if a in p.auto then Net(Share(power, ratio), p.per1000) else 0
  }

  lemma {:induction false} AutoWithout(p: HyperPayout, ratio: nat, m: map<Address, nat>, a: Address)
    requires p.per1000 <= 1000 && a in m
    ensures AutoSum(p, ratio, m) == AutoPart(p, ratio, a, m[a]) + AutoSum(p, ratio, m - {a})
    decreases |m|
  {
    hide AutoPart;
    var k := Pick(m);
    if k != a {
      AutoWithout(p, ratio, m - {k}, a);
      AutoWithout(p, ratio, m - {a}, k);
      assert (m - {k}) - {a} == (m - {a}) - {k};
    }
  }

  // What a payout of `reward` puts back as stakes at the formulator.
  ghost function AutoStaked(p: HyperPayout, reward: nat): nat
    requires p.per1000 <= 1000
  {
    if p.due && Sum(p.powers) > 0 then AutoSum(p, Ratio(reward, Sum(p.powers)), p.powers) else 0
  }

  lemma NothingStaked(p: HyperPayout)
    requires p.per1000 <= 1000
    ensures AutoStaked(p, 0) == 0
  {
    if p.due && Sum(p.powers) > 0 {
      assert Ratio(0, Sum(p.powers)) == 0;
      NoAutoSum(p, p.powers);
    }
  }

  lemma {:induction false} NoAutoSum(p: HyperPayout, m: map<Address, nat>)
    requires p.per1000 <= 1000
    ensures AutoSum(p, 0, m) == 0
    decreases |m|
  {
    if m != map[] {
      NoAutoSum(p, m - {Pick(m)});
      assert Share(m[Pick(m)], 0) == 0;
    }
  }

  // The stakes at h, and at no other formulator, have changed, by this much in all.
  ghost predicate OnlyAt(was: map<StakeKey, nat>, now: map<StakeKey, nat>, h: Address, gain: int) {
    && Sum(StakesAt(now, h)) == Sum(StakesAt(was, h)) + gain
    && forall g: Address :: g != h ==> StakesAt(now, g) == StakesAt(was, g)
  }

  lemma OnlyAtPlus(was: map<StakeKey, nat>, now: map<StakeKey, nat>, h: Address, gain: int, a: Address, am: nat)
    requires OnlyAt(was, now, h, gain)
    ensures OnlyAt(was, Plus(now, (h, a), am), h, gain + am)
  {
    hide Sum, PutAmount, StakesAt;
    if am != 0 {
      StakeSum(now, h, a, At(now, (h, a)) + am, h);
      forall g: Address | g != h ensures StakesAt(Plus(now, (h, a), am), g) == StakesAt(was, g) {
        StakesAtPut(now, h, a, At(now, (h, a)) + am, g);
      }
    }
  }

  // The stakes at a formulator whose stakers have no account any more.
  ghost function GoneStakes(stakes: map<StakeKey, nat>, h: Address, alive: set<Address>): map<StakeKey, nat> {
    map k | k in stakes && k.0 == h && k.1 !in alive :: stakes[k]
  }

  // An amount added to an entry, without touching it when there is nothing to add.
  function Plus<K>(m: map<K, nat>, k: K, am: int): map<K, nat> {
    if am == 0 then m else PutAmount(m, k, At(m, k) + am)
  }

  class RewardBook {
    var balances: map<Address, nat>
    var stakes: map<StakeKey, nat>
    var stacked: map<Address, nat>       // rewards waiting for the stakers of a Hyper formulator
    var collectedFee: nat

    ghost function Worth(): nat
      reads this
    {
      Sum(balances) + Sum(stakes) + Sum(stacked) + collectedFee
    }

    // Adds up the powers of the generators that are not revoked.
    static method Powers(gens: map<Address, Generator>)
      returns (powers: map<Address, nat>, stakers: map<Address, nat>, total: nat)
      ensures total == Sum(powers) + Sum(stakers)
      ensures powers == PowersOf(gens) && stakers == StakersOf(gens)
    {
      hide Power, Sum;
      powers, stakers, total := map[], map[], 0;
      SumNone<Address>();
      var rest := gens.Keys;
      while rest != {}
        invariant rest <= gens.Keys && total == Sum(powers) + Sum(stakers)
        invariant powers == map a | a in gens && a !in rest && !gens[a].revoked :: Power(gens[a])
        invariant stakers == map a | a in gens && a !in rest && !gens[a].revoked && gens[a].hyper :: gens[a].stakers
        decreases rest
      {
        var a :| a in rest;
        if !gens[a].revoked {
          SumSet(powers, a, Power(gens[a]));
          powers := powers[a := Power(gens[a])];
          total := total + Power(gens[a]);
          if gens[a].hyper {
            SumSet(stakers, a, gens[a].stakers);
            stakers := stakers[a := gens[a].stakers];
            total := total + gens[a].stakers;
          }
        }
        rest := rest - {a};
      }
    }

    // Pays each generator its share.
    method PayShares(powers: map<Address, nat>, ratio: nat)
      modifies this`balances
      ensures Sum(balances) == Sum(old(balances)) + Shares(powers, ratio)
      ensures SharesAdded(old(balances), balances, powers, ratio, powers.Keys)
    {
      hide *;
      NoShares<Address>(ratio);
      NoneAdded(balances, powers, ratio);
      var rest := powers;
      ghost var done: set<Address> := {};
      while rest != map[]
        invariant done == powers.Keys - rest.Keys && rest.Keys <= powers.Keys
        invariant forall a :: a in rest ==> rest[a] == powers[a]
        invariant Sum(balances) + Shares(rest, ratio) == Sum(old(balances)) + Shares(powers, ratio)
        invariant SharesAdded(old(balances), balances, powers, ratio, done)
        decreases |rest|
      {
        var a :| a in rest;
        SharesWithout(rest, ratio, a);
        OneAdded(old(balances), balances, powers, ratio, done, a);
        var am := Share(rest[a], ratio);
        if am != 0 {
          SumPut(balances, a, At(balances, a) + am);
          balances := PutAmount(balances, a, At(balances, a) + am);
        }
        rest, done := rest - {a}, done + {a};
      }
      assert done == powers.Keys;
    }

    // Adds to what is stacked for the stakers of one Hyper formulator.
    method Stack(h: Address, am: nat)
      modifies this`stacked
      ensures stacked == Stacked(old(stacked), h, am) && Sum(stacked) == Sum(old(stacked)) + am
    {
      hide Sum;
      SumSet(stacked, h, At(stacked, h) + am);
      stacked := stacked[h := At(stacked, h) + am];
    }

    // Stacks the shares of the stakers of each Hyper formulator that still has an account.
    method StackShares(stakers: map<Address, nat>, ratio: nat, alive: set<Address>)
      modifies this`stacked
      ensures Sum(stacked) == Sum(old(stacked)) + Shares(AliveOf(stakers, alive), ratio)
      ensures SharesAdded(old(stacked), stacked, stakers, ratio, stakers.Keys * alive)
    {
      hide *;
      NoShares<Address>(ratio);
      NoneAdded(stacked, stakers, ratio);
      NoneAlive(stakers, alive);
      var rest := stakers;
      ghost var done: set<Address> := {};
      while rest != map[]
        invariant AliveDone(stakers, rest, alive, done)
        invariant Sum(stacked) + Shares(AliveOf(rest, alive), ratio)
                  == Sum(old(stacked)) + Shares(AliveOf(stakers, alive), ratio)
        invariant SharesAdded(old(stacked), stacked, stakers, ratio, done)
        decreases |rest|
      {
        var a :| a in rest;
        OneAlive(rest, alive, ratio, a);
        OneDone(stakers, rest, alive, done, a);
        if a in alive {
          OneAdded(old(stacked), stacked, stakers, ratio, done, a);
          Stack(a, Share(rest[a], ratio));
          done := done + {a};
        }
        rest := rest - {a};
      }
      AllDone(stakers, alive, done);
    }

    /** The main distribution: the reward and the collected fee are shared out over all powers. What
        is not given away is below one unit per receiver plus one per coin of power. */
    method Distribute(minted: nat, powers: map<Address, nat>, stakers: map<Address, nat>, total: nat,
                      alive: set<Address>)
      requires total == Sum(powers) + Sum(stakers) && total > 0
      modifies this`balances, this`stacked, this`collectedFee
      ensures collectedFee == 0 && Worth() <= old(Worth()) + minted
      ensures var ratio := Ratio(minted + old(collectedFee), total);
              Worth() == old(Worth()) - old(collectedFee) + Shares(powers, ratio)
                         + Shares(AliveOf(stakers, alive), ratio)
      ensures stakers.Keys <= alive ==> SmallRest(old(Worth()) + minted - Worth(), total, |powers| + |stakers|)
      ensures SharesAdded(old(balances), balances, powers, Ratio(minted + old(collectedFee), total), powers.Keys)
      ensures SharesAdded(old(stacked), stacked, stakers, Ratio(minted + old(collectedFee), total),
                stakers.Keys * alive)
    {
      hide Share, Shares, Sum, Ratio, SmallRest, SharesAdded, AliveOf;
      var reward := minted + collectedFee;
      DistributionBound(reward, powers, stakers);
      AliveShares(stakers, alive, Ratio(reward, total));
      collectedFee := 0;
      Give(powers, stakers, Ratio(reward, total), alive);
    }

    method Give(powers: map<Address, nat>, stakers: map<Address, nat>, ratio: nat, alive: set<Address>)
      modifies this`balances, this`stacked
      ensures Worth() == old(Worth()) + Shares(powers, ratio) + Shares(AliveOf(stakers, alive), ratio)
      ensures SharesAdded(old(balances), balances, powers, ratio, powers.Keys)
      ensures SharesAdded(old(stacked), stacked, stakers, ratio, stakers.Keys * alive)
    {
      hide Share, Shares, Sum, SharesAdded, AliveOf;
      PayShares(powers, ratio);
      StackShares(stakers, ratio, alive);
    }

    // One staker's part of a Hyper payout, and the commission kept from it.
    method PayStaker(h: Address, a: Address, am: nat, per1000: nat, auto: bool) returns (commission: nat)
      requires per1000 <= 1000
      modifies this`balances, this`stakes
      ensures commission == Commission(am, per1000) <= am
      ensures Sum(balances) + Sum(stakes) + commission == Sum(old(balances)) + Sum(old(stakes)) + am
      ensures balances == if auto then old(balances) else Plus(old(balances), a, Net(am, per1000))
      ensures stakes == if auto then Plus(old(stakes), (h, a), Net(am, per1000)) else old(stakes)
    {
      hide Sum, Commission, PutAmount;
      CommissionBound(am, per1000);
      commission := 0;
      if per1000 > 0 {
        commission := Commission(am, per1000);
      } else {
        NoCommission(am);
      }
      var rest := am - commission;
      if rest != 0 {
        if auto {
          SumPut(stakes, (h, a), At(stakes, (h, a)) + rest);
          stakes := PutAmount(stakes, (h, a), At(stakes, (h, a)) + rest);
        } else {
          SumPut(balances, a, At(balances, a) + rest);
          balances := PutAmount(balances, a, At(balances, a) + rest);
        }
      }
    }

    /** Pays what is stacked for the stakers of a Hyper formulator, with the commission going to the
        formulator: no more than was stacked, and less only by rounding. */
    method PayHyper(p: HyperPayout)
      requires p.per1000 <= 1000 && p.h in stacked && p.due
      modifies this`balances, this`stakes, this`stacked
      ensures OnlyAt(old(stakes), stakes, p.h, AutoStaked(p, old(stacked)[p.h]))
      ensures stacked == old(stacked) - {p.h} && Worth() <= old(Worth())
      ensures Worth() == old(Worth()) - HyperRest(p, old(stacked)[p.h])
      ensures Sum(p.powers) > 0 ==> SmallRest(old(Worth()) - Worth(), Sum(p.powers), |p.powers|)
      ensures HyperPaidOut(p, old(stacked)[p.h], old(balances), balances, old(stakes), stakes)
    {
      hide *;
      UnchangedOnly(stakes, p.h);
      AutoStakedIs(p, stacked[p.h]);
      var reward := stacked[p.h];
      var total := SumOf(p.powers);
      SumWithout(stacked, p.h);
      WorthIs();
      RestIs(p, reward);
      NoPool(p, reward, balances, stakes);
      if total != 0 {
        SplitBound(reward, p.powers);
        PayPool(p, Ratio(reward, total));
        PoolIs(p, reward, old(balances), balances, old(stakes), stakes);
      }
      stacked := stacked - {p.h};
      WorthIs();
      assert total != 0 ==> old(Worth()) - Worth() == reward - Shares(p.powers, Ratio(reward, total));
    }

    lemma WorthIs()
      ensures Worth() == Sum(balances) + Sum(stakes) + Sum(stacked) + collectedFee
    {
    }

    // The stakers' parts and the commission of the formulator.
    method PayPool(p: HyperPayout, ratio: nat)
      requires p.per1000 <= 1000
      modifies this`balances, this`stakes
      ensures Sum(balances) + Sum(stakes) == Sum(old(balances)) + Sum(old(stakes)) + Shares(p.powers, ratio)
      ensures PoolPaid(p, ratio, old(balances), balances, old(stakes), stakes)
      ensures OnlyAt(old(stakes), stakes, p.h, AutoSum(p, ratio, p.powers))
    {
      hide PartsPaid, PoolPaid, Shares, Sum, PutAmount, OnlyAt, AutoSum, Commissions;
      var commission := PayAllStakers(p, ratio);
      ghost var mid := balances;
      WithCommission(p, ratio, old(balances), mid, old(stakes), stakes);
      if commission != 0 {
        SumPut(balances, p.h, At(balances, p.h) + commission);
        balances := PutAmount(balances, p.h, At(balances, p.h) + commission);
      }
      assert balances == Plus(mid, p.h, commission);
    }

    static method SumOf(m: map<Address, nat>) returns (s: nat)
      ensures s == Sum(m)
    {
      hide Sum;
      SumNone<Address>();
      s := 0;
      var rest := m;
      while rest != map[]
        invariant s + Sum(rest) == Sum(m)
        decreases |rest|
      {
        var a :| a in rest;
        SumWithout(rest, a);
        s := s + rest[a];
        rest := rest - {a};
      }
    }

    method PayAllStakers(p: HyperPayout, ratio: nat) returns (commission: nat)
      requires p.per1000 <= 1000
      modifies this`balances, this`stakes
      ensures Sum(balances) + Sum(stakes) + commission
           == Sum(old(balances)) + Sum(old(stakes)) + Shares(p.powers, ratio)
      ensures PartsPaid(p, ratio, p.powers.Keys, old(balances), balances, old(stakes), stakes)
      ensures OnlyAt(old(stakes), stakes, p.h, AutoSum(p, ratio, p.powers))
      ensures commission == Commissions(p, ratio, p.powers)
    {
      hide *;
      commission := 0;
      var rest := p.powers;
      NoStakerPaid(p, ratio, balances, stakes);
      while rest != map[]
        invariant PaidBut(p, ratio, rest, commission, old(balances), balances, old(stakes), stakes)
        decreases |rest|
      {
        var a :| a in rest;
        ghost var bal, was := balances, stakes;
        OneTaken(rest, a);
        var c := PayStaker(p.h, a, Share(rest[a], ratio), p.per1000, a in p.auto);
        OneStakerPaid(p, ratio, rest, commission, c, old(balances), bal, balances, old(stakes), was, stakes, a);
        commission := commission + c;
        rest := rest - {a};
      }
      AllStakersPaid(p, ratio, commission, old(balances), balances, old(stakes), stakes);
    }

    /** A whole payout. Every address gets its share of reward and collected fee if it is a generator that is
        not revoked, its net part at every due Hyper where it does not stake again, and the commission if it is
        such a Hyper, and nothing else; `mid` is what is stacked after the distribution. Stakes grow by the
        parts staked again, and those of stakers without an account go. The collected fee is used up exactly
        if there is any power. In all, the reward is created, less exactly what is named in the last clause. */
    method Payout(perBlock: nat, elapsed: nat, gens: map<Address, Generator>, gone: set<Address>, alive: set<Address>,
                  hypers: seq<HyperPayout>) returns (ghost mid: map<Address, nat>)
      requires forall i :: 0 <= i < |hypers| ==> hypers[i].per1000 <= 1000
      requires forall i, j :: 0 <= i < j < |hypers| ==> hypers[i].h != hypers[j].h
      modifies this
      ensures Worth() <= old(Worth()) + perBlock * elapsed
      ensures StackedAfter(old(stacked) - gone, mid, gens, perBlock * elapsed + old(collectedFee), alive)
      ensures stacked == mid - DueHypers(hypers, |hypers|)
      ensures StakesPaid(old(stakes), stakes, hypers, alive, mid)
      ensures BalancesAfter(old(balances), balances, gens, perBlock * elapsed + old(collectedFee), hypers, mid)
      ensures StakesAfter(old(stakes), stakes, hypers, alive, mid)
      ensures collectedFee == if TotalPower(gens) > 0 then 0 else old(collectedFee)
      ensures Worth() == old(Worth()) + (if TotalPower(gens) > 0 then perBlock * elapsed else 0)
                         - Sum(OnlyKeys(old(stacked), gone)) - Sum(DroppedStakes(old(stakes), hypers, alive))
                         - Undivided(gens, perBlock * elapsed + old(collectedFee), alive)
                         - RestsOf(hypers, mid, |hypers|)
    {
      hide *;
      var minted := perBlock * elapsed;
      ghost var reward := minted + collectedFee;
      ForgetGone(gone);
      DropStakers(hypers, alive);
      ghost var dropped := stakes;
      ShareOut(minted, gens, alive);
      mid := stacked;
      ghost var shared := balances;
      PayHypers(hypers);
      StakesCombined(old(stakes), dropped, stakes, hypers, alive, mid);
      BalancesCombined(old(balances), shared, balances, dropped, stakes, gens, reward, hypers, mid);
      StakesPointwise(old(stakes), dropped, stakes, shared, balances, hypers, alive, mid);
    }

    // The distribution, if there is any power.
    method ShareOut(minted: nat, gens: map<Address, Generator>, alive: set<Address>)
      modifies this`balances, this`stacked, this`collectedFee
      ensures Worth() <= old(Worth()) + minted
      ensures StackedAfter(old(stacked), stacked, gens, minted + old(collectedFee), alive)
      ensures SharesReceived(old(balances), balances, gens, minted + old(collectedFee))
      ensures collectedFee == if TotalPower(gens) > 0 then 0 else old(collectedFee)
      ensures Worth() == old(Worth()) + (if TotalPower(gens) > 0 then minted else 0)
                         - Undivided(gens, minted + old(collectedFee), alive)
    {
      hide *;
      ghost var reward := minted + collectedFee;
      var powers, stakers, total := Powers(gens);
      TotalIs(gens);
      UndividedIs(gens, reward, alive);
      if total != 0 {
        Distribute(minted, powers, stakers, total, alive);
      }
      StackedIs(old(stacked), stacked, gens, total, reward, alive);
      SharesAre(old(balances), balances, gens, reward);
    }

    // Takes the stakes of stakers without an account away, leaving the formulators' totals as they are.
    method DropStakers(hypers: seq<HyperPayout>, alive: set<Address>)
      modifies this`stakes
      ensures Worth() <= old(Worth()) && StakesDropped(old(stakes), stakes, hypers, |hypers|, alive)
      ensures Worth() == old(Worth()) - Sum(DroppedStakes(old(stakes), hypers, alive))
    {
      hide Sum, StakesDropped;
      var i := 0;
      NoneDropped(stakes, hypers, alive);
      while i < |hypers|
        invariant 0 <= i <= |hypers| && Worth() <= old(Worth())
        invariant StakesDropped(old(stakes), stakes, hypers, i, alive)
      {
        OneDropped(old(stakes), stakes, hypers, i, alive);
        SumSplit(stakes, GoneStakes(stakes, hypers[i].h, alive).Keys);
        stakes := stakes - (set k | k in stakes && k.0 == hypers[i].h && k.1 !in alive);
        i := i + 1;
      }
      DroppedSum(old(stakes), stakes, hypers, alive);
    }

    // Stacked rewards of formulators whose account is gone are dropped.
    method ForgetGone(gone: set<Address>)
      modifies this`stacked
      ensures stacked == old(stacked) - gone && Worth() <= old(Worth())
      ensures Worth() == old(Worth()) - Sum(OnlyKeys(old(stacked), gone))
    {
      hide Sum;
      SumSplit(stacked, gone);
      stacked := stacked - gone;
    }

    method PayHypers(hypers: seq<HyperPayout>)
      requires forall i :: 0 <= i < |hypers| ==> hypers[i].per1000 <= 1000
      requires forall i, j :: 0 <= i < j < |hypers| ==> hypers[i].h != hypers[j].h
      modifies this`balances, this`stakes, this`stacked
      ensures Worth() <= old(Worth()) && StakesGained(old(stakes), stakes, hypers, |hypers|, old(stacked))
      ensures stacked == old(stacked) - DueHypers(hypers, |hypers|)
      ensures Worth() == old(Worth()) - RestsOf(hypers, old(stacked), |hypers|)
      ensures HypersPaid(hypers, |hypers|, old(stacked), old(balances), balances, old(stakes), stakes)
    {
      hide *;
      var i := 0;
      NoneGained(stakes, hypers, stacked);
      NoHypers(hypers, stacked, balances, stakes);
      while i < |hypers|
        invariant 0 <= i <= |hypers| && Worth() <= old(Worth())
        invariant stacked == old(stacked) - DueHypers(hypers, i)
        invariant StakesGained(old(stakes), stakes, hypers, i, old(stacked))
        invariant Worth() == old(Worth()) - RestsOf(hypers, old(stacked), i)
        invariant HypersPaid(hypers, i, old(stacked), old(balances), balances, old(stakes), stakes)
      {
        ghost var was, bal := stakes, balances;
        StillStacked(hypers, i, old(stacked), stacked);
        NothingStaked(hypers[i]);
        UnchangedOnly(stakes, hypers[i].h);
        NothingPaid(hypers[i], At(stacked, hypers[i].h), balances, stakes);
        if hypers[i].h in stacked && hypers[i].due {
          PayHyper(hypers[i]);
        } else {
          NotDue(hypers[i], At(stacked, hypers[i].h));
        }
        OneGained(old(stakes), was, stakes, hypers, i, old(stacked));
        OneHyper(hypers, i, old(stacked), old(balances), bal, balances, old(stakes), was, stakes);
        i := i + 1;
      }
    }
  }

  // What a payout at one Hyper formulator does, in terms of what was stacked for its stakers.

  // The commissions kept from the shares of m.
  ghost function Commissions(p: HyperPayout, ratio: nat, m: map<Address, nat>): nat
    decreases |m|
  {
    if m == map[] then 0
    else Commission(Share(m[Pick(m)], ratio), p.per1000) + Commissions(p, ratio, m - {Pick(m)})
  }

  lemma {:induction false} CommissionsWithout(p: HyperPayout, ratio: nat, m: map<Address, nat>, a: Address)
    requires a in m
    ensures Commissions(p, ratio, m) == Commission(Share(m[a], ratio), p.per1000) + Commissions(p, ratio, m - {a})
    decreases |m|
  {
    hide Share, Commission;
    var k := Pick(m);
    if k != a {
      CommissionsWithout(p, ratio, m - {k}, a);
      CommissionsWithout(p, ratio, m - {a}, k);
      assert (m - {k}) - {a} == (m - {a}) - {k};
    }
  }

  lemma NoCommissions(p: HyperPayout, ratio: nat)
    ensures Commissions(p, ratio, map[]) == 0
  {
  }

  // What a gets into its balance: its net part if it does not stake it again, and the commissions if it is the
  // formulator.
  ghost function HyperPaid(p: HyperPayout, reward: nat, a: Address): int {
    if !p.due || Sum(p.powers) == 0 then 0
    else
      var ratio := Ratio(reward, Sum(p.powers));
      (if a in p.powers && a !in p.auto then Net(Share(p.powers[a], ratio), p.per1000) else 0)
      + (if a == p.h then Commissions(p, ratio, p.powers) else 0)
  }

  // What a gets into its stake: its net part if it stakes it again.
  ghost function HyperStaked(p: HyperPayout, reward: nat, a: Address): int {
    if p.due && Sum(p.powers) > 0 && a in p.powers && a in p.auto
    then Net(Share(p.powers[a], Ratio(reward, Sum(p.powers))), p.per1000) else 0
  }

  // What of the stacked reward goes to nobody: what rounding leaves, or all of it if nobody has any power.
  ghost function HyperRest(p: HyperPayout, reward: nat): int {
    if !p.due then 0
    else if Sum(p.powers) == 0 then reward
    else reward - Shares(p.powers, Ratio(reward, Sum(p.powers)))
  }

  lemma RestIs(p: HyperPayout, reward: nat)
    requires p.due
    ensures Sum(p.powers) == 0 ==> HyperRest(p, reward) == reward
    ensures Sum(p.powers) > 0 ==> HyperRest(p, reward) == reward - Shares(p.powers, Ratio(reward, Sum(p.powers)))
  {
    hide Sum, Shares, Ratio;
  }

  /** With any power, rounding leaves less than one unit per staker and one per coin of power. */
  lemma RestSmall(p: HyperPayout, reward: nat)
    ensures 0 <= HyperRest(p, reward) <= reward && (!p.due ==> HyperRest(p, reward) == 0)
    ensures p.due && Sum(p.powers) > 0 ==> SmallRest(HyperRest(p, reward), Sum(p.powers), |p.powers|)
  {
    hide Sum, Shares, Ratio, SmallRest;
    if Sum(p.powers) > 0 {
      SplitBound(reward, p.powers);
    }
  }

  ghost predicate HyperPaidOut(p: HyperPayout, reward: nat, balances0: map<Address, nat>, balances: map<Address, nat>,
                               stakes0: map<StakeKey, nat>, stakes: map<StakeKey, nat>) {
    && (forall a: Address :: At(balances, a) == At(balances0, a) + HyperPaid(p, reward, a))
    && (forall h: Address, a: Address ::
          At(stakes, (h, a)) == At(stakes0, (h, a)) + if h == p.h then HyperStaked(p, reward, a) else 0)
  }

  // The same with the ratio given.
  ghost predicate PoolPaid(p: HyperPayout, ratio: nat, balances0: map<Address, nat>, balances: map<Address, nat>,
                           stakes0: map<StakeKey, nat>, stakes: map<StakeKey, nat>) {
    && (forall a: Address ::
          At(balances, a) == At(balances0, a) + PartOf(p, ratio, p.powers.Keys - p.auto, a)
                             + if a == p.h then Commissions(p, ratio, p.powers) else 0)
    && (forall h: Address, a: Address ::
          At(stakes, (h, a)) == At(stakes0, (h, a))
                                + if h == p.h then PartOf(p, ratio, p.powers.Keys * p.auto, a) else 0)
  }

  lemma WithCommission(p: HyperPayout, ratio: nat, balances0: map<Address, nat>, mid: map<Address, nat>,
                       stakes0: map<StakeKey, nat>, stakes: map<StakeKey, nat>)
    requires PartsPaid(p, ratio, p.powers.Keys, balances0, mid, stakes0, stakes)
    ensures PoolPaid(p, ratio, balances0, Plus(mid, p.h, Commissions(p, ratio, p.powers)), stakes0, stakes)
  {
    hide Commissions, PartOf;
  }

  lemma PoolIs(p: HyperPayout, reward: nat, balances0: map<Address, nat>, balances: map<Address, nat>,
               stakes0: map<StakeKey, nat>, stakes: map<StakeKey, nat>)
    requires p.due && Sum(p.powers) > 0
    requires PoolPaid(p, Ratio(reward, Sum(p.powers)), balances0, balances, stakes0, stakes)
    ensures HyperPaidOut(p, reward, balances0, balances, stakes0, stakes)
  {
    hide Sum, Ratio, Share, Net, Commissions;
  }

  lemma NoPool(p: HyperPayout, reward: nat, balances: map<Address, nat>, stakes: map<StakeKey, nat>)
    ensures !p.due || Sum(p.powers) == 0 ==> HyperPaidOut(p, reward, balances, balances, stakes, stakes)
  {
    hide Sum, Ratio, Share, Net, Commissions;
    if !p.due || Sum(p.powers) == 0 {
      assert forall a: Address :: HyperPaid(p, reward, a) == 0;
      assert forall a: Address :: HyperStaked(p, reward, a) == 0;
    }
  }

  // Nothing stacked, nothing paid.
  lemma NothingPaid(p: HyperPayout, reward: nat, balances: map<Address, nat>, stakes: map<StakeKey, nat>)
    ensures !p.due || reward == 0 ==>
              HyperRest(p, reward) == 0 && HyperPaidOut(p, reward, balances, balances, stakes, stakes)
  {
    hide Sum;
    if !p.due || reward == 0 {
      if p.due && Sum(p.powers) > 0 {
        assert Ratio(0, Sum(p.powers)) == 0;
        NothingShared(p, p.powers);
      }
      assert forall a: Address :: HyperPaid(p, reward, a) == 0;
      assert forall a: Address :: HyperStaked(p, reward, a) == 0;
    }
  }

  lemma {:induction false} NothingShared(p: HyperPayout, m: map<Address, nat>)
    ensures Shares(m, 0) == 0 && Commissions(p, 0, m) == 0
    ensures forall a :: a in m ==> Share(m[a], 0) == 0
    decreases |m|
  {
    if m != map[] {
      NothingShared(p, m - {Pick(m)});
    }
  }

  // All Hyper formulators.

  ghost function PaidBy(hypers: seq<HyperPayout>, stacked: map<Address, nat>, n: nat, a: Address): int
    requires n <= |hypers|
  {
    if n == 0 then 0
    else PaidBy(hypers, stacked, n - 1, a) + HyperPaid(hypers[n - 1], At(stacked, hypers[n - 1].h), a)
  }

  ghost function StakedAt(hypers: seq<HyperPayout>, stacked: map<Address, nat>, n: nat, h: Address, a: Address): int
    requires n <= |hypers|
  {
    if n == 0 then 0
    else StakedAt(hypers, stacked, n - 1, h, a)
         + if hypers[n - 1].h == h then HyperStaked(hypers[n - 1], At(stacked, h), a) else 0
  }

  ghost function RestsOf(hypers: seq<HyperPayout>, stacked: map<Address, nat>, n: nat): int
    requires n <= |hypers|
  {
    if n == 0 then 0
    else RestsOf(hypers, stacked, n - 1) + HyperRest(hypers[n - 1], At(stacked, hypers[n - 1].h))
  }

  ghost function DueHypers(hypers: seq<HyperPayout>, n: nat): set<Address>
    requires n <= |hypers|
  {
    set i | 0 <= i < n && hypers[i].due :: hypers[i].h
  }

  ghost predicate HypersPaid(hypers: seq<HyperPayout>, n: nat, stacked: map<Address, nat>, balances0: map<Address, nat>,
                             balances: map<Address, nat>, stakes0: map<StakeKey, nat>, stakes: map<StakeKey, nat>)
    requires n <= |hypers|
  {
    && (forall a: Address :: At(balances, a) == At(balances0, a) + PaidBy(hypers, stacked, n, a))
    && (forall h: Address, a: Address ::
          At(stakes, (h, a)) == At(stakes0, (h, a)) + StakedAt(hypers, stacked, n, h, a))
  }

  lemma NoHypers(hypers: seq<HyperPayout>, stacked: map<Address, nat>, balances: map<Address, nat>,
                 stakes: map<StakeKey, nat>)
    ensures HypersPaid(hypers, 0, stacked, balances, balances, stakes, stakes) && RestsOf(hypers, stacked, 0) == 0
    ensures stacked - DueHypers(hypers, 0) == stacked
  {
    assert DueHypers(hypers, 0) == {};
  }

  lemma StillStacked(hypers: seq<HyperPayout>, i: nat, stacked0: map<Address, nat>, stacked: map<Address, nat>)
    requires i < |hypers| && stacked == stacked0 - DueHypers(hypers, i)
    requires forall j, k :: 0 <= j < k < |hypers| ==> hypers[j].h != hypers[k].h
    ensures hypers[i].h in stacked <==> hypers[i].h in stacked0
    ensures At(stacked, hypers[i].h) == At(stacked0, hypers[i].h)
    ensures hypers[i].h in stacked ==> At(stacked, hypers[i].h) == stacked[hypers[i].h]
    ensures hypers[i].h !in stacked ==> At(stacked, hypers[i].h) == 0
    ensures stacked0 - DueHypers(hypers, i + 1)
            == if hypers[i].due then stacked - {hypers[i].h} else stacked
    ensures hypers[i].h !in stacked ==> stacked - {hypers[i].h} == stacked
  {
    assert DueHypers(hypers, i + 1) == DueHypers(hypers, i) + if hypers[i].due then {hypers[i].h} else {};
    assert hypers[i].h !in DueHypers(hypers, i);
  }

  lemma OneHyper(hypers: seq<HyperPayout>, i: nat, stacked: map<Address, nat>, balances0: map<Address, nat>,
                 bal: map<Address, nat>, balances: map<Address, nat>, stakes0: map<StakeKey, nat>,
                 was: map<StakeKey, nat>, stakes: map<StakeKey, nat>)
    requires i < |hypers| && HypersPaid(hypers, i, stacked, balances0, bal, stakes0, was)
    requires HyperPaidOut(hypers[i], At(stacked, hypers[i].h), bal, balances, was, stakes)
    ensures HypersPaid(hypers, i + 1, stacked, balances0, balances, stakes0, stakes)
    ensures RestsOf(hypers, stacked, i + 1)
            == RestsOf(hypers, stacked, i) + HyperRest(hypers[i], At(stacked, hypers[i].h))
  {
    hide HyperPaid, HyperStaked, HyperRest, At;
  }

  // The whole payout.

  ghost function TotalPower(gens: map<Address, Generator>): nat { Sum(PowersOf(gens)) + Sum(StakersOf(gens)) }

  lemma TotalIs(gens: map<Address, Generator>)
    ensures TotalPower(gens) == Sum(PowersOf(gens)) + Sum(StakersOf(gens))
  {
  }

  ghost function AliveOf(m: map<Address, nat>, alive: set<Address>): map<Address, nat> {
    map a | a in m && a in alive :: m[a]
  }

  ghost function OnlyKeys(m: map<Address, nat>, s: set<Address>): map<Address, nat> {
    map k | k in m && k in s :: m[k]
  }

  // Of the stakers, those not in `rest` have been looked at, and `done` are those of them with an account.
  ghost predicate AliveDone(m: map<Address, nat>, rest: map<Address, nat>, alive: set<Address>, done: set<Address>) {
    && rest.Keys <= m.Keys && done == (m.Keys - rest.Keys) * alive
    && (forall a :: a in rest ==> rest[a] == m[a])
  }

  lemma NoneAlive(m: map<Address, nat>, alive: set<Address>)
    ensures AliveOf(map[], alive) == map[] && AliveDone(m, m, alive, {})
  {
  }

  lemma OneDone(m: map<Address, nat>, rest: map<Address, nat>, alive: set<Address>, done: set<Address>, a: Address)
    requires AliveDone(m, rest, alive, done) && a in rest
    ensures a in m && rest[a] == m[a] && a !in done
    ensures AliveDone(m, rest - {a}, alive, if a in alive then done + {a} else done)
  {
  }

  lemma AllDone(m: map<Address, nat>, alive: set<Address>, done: set<Address>)
    requires AliveDone(m, map[], alive, done)
    ensures done == m.Keys * alive
  {
  }

  lemma OneAlive(m: map<Address, nat>, alive: set<Address>, ratio: nat, a: Address)
    requires a in m
    ensures Shares(AliveOf(m, alive), ratio)
            == Shares(AliveOf(m - {a}, alive), ratio) + if a in alive then Share(m[a], ratio) else 0
  {
    hide Share, Shares;
    if a in alive {
      SharesWithout(AliveOf(m, alive), ratio, a);
      assert AliveOf(m, alive) - {a} == AliveOf(m - {a}, alive);
    } else {
      assert AliveOf(m, alive) == AliveOf(m - {a}, alive);
    }
  }

  lemma AliveShares(m: map<Address, nat>, alive: set<Address>, ratio: nat)
    ensures Shares(AliveOf(m, alive), ratio) <= Shares(m, ratio)
    ensures m.Keys <= alive ==> AliveOf(m, alive) == m
  {
    hide Share;
    SharesSplit(m, ratio, alive);
  }

  // The share of a generator that is not revoked.
  ghost function GeneratorShare(gens: map<Address, Generator>, reward: nat, a: Address): nat {
    if TotalPower(gens) > 0 && a in gens && !gens[a].revoked
    then Share(Power(gens[a]), Ratio(reward, TotalPower(gens))) else 0
  }

  // What the distribution leaves: by rounding, and for the stakers of formulators without an account.
  ghost function Undivided(gens: map<Address, Generator>, reward: nat, alive: set<Address>): int {
    if TotalPower(gens) == 0 then 0
    else
      var ratio := Ratio(reward, TotalPower(gens));
      reward - Shares(PowersOf(gens), ratio) - Shares(AliveOf(StakersOf(gens), alive), ratio)
  }

  lemma UndividedIs(gens: map<Address, Generator>, reward: nat, alive: set<Address>)
    ensures TotalPower(gens) == 0 ==> Undivided(gens, reward, alive) == 0
    ensures TotalPower(gens) > 0 ==>
              var ratio := Ratio(reward, TotalPower(gens));
              Undivided(gens, reward, alive)
              == reward - Shares(PowersOf(gens), ratio) - Shares(AliveOf(StakersOf(gens), alive), ratio)
  {
    hide Shares, Ratio, TotalPower, PowersOf, StakersOf, AliveOf;
  }

  /** If all Hyper generators have an account, rounding leaves less than one unit per receiver and one per coin
      of power. */
  lemma UndividedSmall(gens: map<Address, Generator>, reward: nat, alive: set<Address>)
    ensures 0 <= Undivided(gens, reward, alive) <= reward
    ensures TotalPower(gens) > 0 && StakersOf(gens).Keys <= alive ==>
              SmallRest(Undivided(gens, reward, alive), TotalPower(gens), |PowersOf(gens)| + |StakersOf(gens)|)
  {
    hide Sum, Shares, Ratio, SmallRest, PowersOf, StakersOf, AliveOf;
    if TotalPower(gens) > 0 {
      DistributionBound(reward, PowersOf(gens), StakersOf(gens));
      AliveShares(StakersOf(gens), alive, Ratio(reward, TotalPower(gens)));
    }
  }

  // The power and the number of the stakers that are paid.
  ghost function DuePower(hypers: seq<HyperPayout>, n: nat): nat
    requires n <= |hypers|
  {
    if n == 0 then 0 else DuePower(hypers, n - 1) + if hypers[n - 1].due then Sum(hypers[n - 1].powers) else 0
  }

  ghost function DueStakers(hypers: seq<HyperPayout>, n: nat): nat
    requires n <= |hypers|
  {
    if n == 0 then 0 else DueStakers(hypers, n - 1) + if hypers[n - 1].due then |hypers[n - 1].powers| else 0
  }

  lemma {:induction false} RestsSmall(hypers: seq<HyperPayout>, stacked: map<Address, nat>, n: nat)
    requires n <= |hypers|
    ensures RestsOf(hypers, stacked, n) >= 0
    ensures (forall i :: 0 <= i < n && hypers[i].due ==> Sum(hypers[i].powers) > 0) ==>
              RestsOf(hypers, stacked, n) * COIN <= DuePower(hypers, n) + DueStakers(hypers, n) * COIN
  {
    hide Sum, HyperRest;
    if n > 0 {
      RestsSmall(hypers, stacked, n - 1);
      var p := hypers[n - 1];
      RestSmall(p, At(stacked, p.h));
    }
  }

  /** What a whole payout leaves by rounding: if every Hyper generator has an account and every due Hyper formulator
      a staker with power, at most one unit per receiver and one per coin of power, over both shares. */
  lemma PayoutRest(gens: map<Address, Generator>, reward: nat, alive: set<Address>, hypers: seq<HyperPayout>,
                   mid: map<Address, nat>)
    ensures Undivided(gens, reward, alive) >= 0 && RestsOf(hypers, mid, |hypers|) >= 0
    ensures && StakersOf(gens).Keys <= alive
            && (forall i :: 0 <= i < |hypers| && hypers[i].due ==> Sum(hypers[i].powers) > 0) ==>
              (Undivided(gens, reward, alive) + RestsOf(hypers, mid, |hypers|)) * COIN
              <= TotalPower(gens) + DuePower(hypers, |hypers|)
                 + (|PowersOf(gens)| + |StakersOf(gens)| + DueStakers(hypers, |hypers|)) * COIN
  {
    hide Sum, Undivided, RestsOf, DuePower, DueStakers, TotalPower, PowersOf, StakersOf;
    UndividedSmall(gens, reward, alive);
    UndividedIs(gens, reward, alive);
    RestsSmall(hypers, mid, |hypers|);
  }

  ghost function DroppedStakes(stakes: map<StakeKey, nat>, hypers: seq<HyperPayout>,
                               alive: set<Address>): map<StakeKey, nat> {
    map k | k in stakes && Takes(hypers, |hypers|, k.0) && k.1 !in alive :: stakes[k]
  }

  lemma DroppedSum(was: map<StakeKey, nat>, now: map<StakeKey, nat>, hypers: seq<HyperPayout>, alive: set<Address>)
    requires StakesDropped(was, now, hypers, |hypers|, alive)
    ensures Sum(now) == Sum(was) - Sum(DroppedStakes(was, hypers, alive))
  {
    hide Sum, Takes;
    var gone := DroppedStakes(was, hypers, alive);
    SumSplit(was, gone.Keys);
    assert (map k | k in was && k in gone.Keys :: was[k]) == gone;
    assert was - gone.Keys == now;
  }

  ghost predicate SharesReceived(was: map<Address, nat>, now: map<Address, nat>, gens: map<Address, Generator>,
                                 reward: nat) {
    forall a: Address :: At(now, a) == At(was, a) + GeneratorShare(gens, reward, a)
  }

  lemma SharesAre(was: map<Address, nat>, now: map<Address, nat>, gens: map<Address, Generator>, reward: nat)
    requires TotalPower(gens) == 0 ==> now == was
    requires TotalPower(gens) > 0 ==>
               SharesAdded(was, now, PowersOf(gens), Ratio(reward, TotalPower(gens)), PowersOf(gens).Keys)
    ensures SharesReceived(was, now, gens, reward)
  {
    hide Share, Ratio, TotalPower, Power;
  }

  ghost predicate BalancesAfter(was: map<Address, nat>, now: map<Address, nat>, gens: map<Address, Generator>,
                                reward: nat, hypers: seq<HyperPayout>, mid: map<Address, nat>) {
    forall a: Address ::
      At(now, a) == At(was, a) + GeneratorShare(gens, reward, a) + PaidBy(hypers, mid, |hypers|, a)
  }

  ghost predicate StakesAfter(was: map<StakeKey, nat>, now: map<StakeKey, nat>, hypers: seq<HyperPayout>,
                              alive: set<Address>, mid: map<Address, nat>) {
    forall h: Address, a: Address ::
      At(now, (h, a)) == (if Takes(hypers, |hypers|, h) && a !in alive then 0 else At(was, (h, a)))
                         + StakedAt(hypers, mid, |hypers|, h, a)
  }

  lemma BalancesCombined(was: map<Address, nat>, shared: map<Address, nat>, now: map<Address, nat>,
                         dropped: map<StakeKey, nat>, stakes: map<StakeKey, nat>, gens: map<Address, Generator>,
                         reward: nat, hypers: seq<HyperPayout>, mid: map<Address, nat>)
    requires SharesReceived(was, shared, gens, reward)
    requires HypersPaid(hypers, |hypers|, mid, shared, now, dropped, stakes)
    ensures BalancesAfter(was, now, gens, reward, hypers, mid)
  {
    hide GeneratorShare, PaidBy, StakedAt, At;
  }

  lemma StakesPointwise(was: map<StakeKey, nat>, dropped: map<StakeKey, nat>, now: map<StakeKey, nat>,
                        shared: map<Address, nat>, balances: map<Address, nat>, hypers: seq<HyperPayout>,
                        alive: set<Address>, mid: map<Address, nat>)
    requires StakesDropped(was, dropped, hypers, |hypers|, alive)
    requires HypersPaid(hypers, |hypers|, mid, shared, balances, dropped, now)
    ensures StakesAfter(was, now, hypers, alive, mid)
  {
    hide Takes, PaidBy, StakedAt;
  }

  // What is stacked after a distribution, in terms of what the payout is given.
  ghost predicate StackedAfter(was: map<Address, nat>, now: map<Address, nat>, gens: map<Address, Generator>,
                               reward: nat, alive: set<Address>) {
    var total := Sum(PowersOf(gens)) + Sum(StakersOf(gens));
    if total == 0 then now == was
    else SharesAdded(was, now, StakersOf(gens), Ratio(reward, total), StakersOf(gens).Keys * alive)
  }

  lemma StackedIs(was: map<Address, nat>, now: map<Address, nat>, gens: map<Address, Generator>, total: nat,
                  reward: nat, alive: set<Address>)
    requires total == Sum(PowersOf(gens)) + Sum(StakersOf(gens))
    requires total == 0 ==> now == was
    requires total > 0 ==>
               SharesAdded(was, now, StakersOf(gens), Ratio(reward, total), StakersOf(gens).Keys * alive)
    ensures StackedAfter(was, now, gens, reward, alive)
  {
    hide Sum, PowersOf, StakersOf, SharesAdded, Ratio;
  }

  predicate Takes(hypers: seq<HyperPayout>, n: nat, h: Address)
    requires n <= |hypers|
  {
    exists i :: 0 <= i < n && hypers[i].h == h
  }

  // The first n formulators have lost the stakes of stakers without an account.
  ghost predicate StakesDropped(was: map<StakeKey, nat>, now: map<StakeKey, nat>, hypers: seq<HyperPayout>,
                                n: nat, alive: set<Address>)
    requires n <= |hypers|
  {
    now == map k | k in was && !(Takes(hypers, n, k.0) && k.1 !in alive) :: was[k]
  }

  lemma NoneDropped(stakes: map<StakeKey, nat>, hypers: seq<HyperPayout>, alive: set<Address>)
    ensures StakesDropped(stakes, stakes, hypers, 0, alive)
  {
  }

  lemma OneDropped(was: map<StakeKey, nat>, now: map<StakeKey, nat>, hypers: seq<HyperPayout>, i: nat,
                   alive: set<Address>)
    requires i < |hypers| && StakesDropped(was, now, hypers, i, alive)
    ensures var next := now - (set k | k in now && k.0 == hypers[i].h && k.1 !in alive);
            && StakesDropped(was, next, hypers, i + 1, alive)
            && next == now - GoneStakes(now, hypers[i].h, alive).Keys
  {
    var next := now - (set k | k in now && k.0 == hypers[i].h && k.1 !in alive);
    assert forall h: Address :: Takes(hypers, i + 1, h) <==> Takes(hypers, i, h) || h == hypers[i].h;
  }

  // The first n formulators have gained what their stakers put back.
  ghost predicate StakesGained(was: map<StakeKey, nat>, now: map<StakeKey, nat>, hypers: seq<HyperPayout>, n: nat,
                               stacked: map<Address, nat>)
    requires n <= |hypers| && forall i :: 0 <= i < |hypers| ==> hypers[i].per1000 <= 1000
  {
    && (forall i :: 0 <= i < n ==>
          Sum(StakesAt(now, hypers[i].h))
            == Sum(StakesAt(was, hypers[i].h)) + AutoStaked(hypers[i], At(stacked, hypers[i].h)))
    && (forall h: Address :: !Takes(hypers, n, h) ==> StakesAt(now, h) == StakesAt(was, h))
  }

  lemma NoneGained(stakes: map<StakeKey, nat>, hypers: seq<HyperPayout>, stacked: map<Address, nat>)
    requires forall i :: 0 <= i < |hypers| ==> hypers[i].per1000 <= 1000
    ensures StakesGained(stakes, stakes, hypers, 0, stacked)
  {
  }

  lemma NotDue(p: HyperPayout, reward: nat)
    requires p.per1000 <= 1000 && (!p.due || reward == 0)
    ensures AutoStaked(p, reward) == 0
  {
    NothingStaked(p);
  }

  lemma OneGained(was: map<StakeKey, nat>, mid: map<StakeKey, nat>, now: map<StakeKey, nat>,
                  hypers: seq<HyperPayout>, i: nat, stacked: map<Address, nat>)
    requires i < |hypers| && (forall j :: 0 <= j < |hypers| ==> hypers[j].per1000 <= 1000)
    requires forall j, k :: 0 <= j < k < |hypers| ==> hypers[j].h != hypers[k].h
    requires StakesGained(was, mid, hypers, i, stacked)
    requires OnlyAt(mid, now, hypers[i].h, AutoStaked(hypers[i], At(stacked, hypers[i].h)))
    ensures StakesGained(was, now, hypers, i + 1, stacked)
  {
    hide Sum, StakesAt, AutoStaked, Takes;
    TakesNext(hypers, i);
    forall h: Address | !Takes(hypers, i + 1, h) ensures StakesAt(now, h) == StakesAt(was, h) {
      assert !Takes(hypers, i, h) && h != hypers[i].h;
    }
    forall j | 0 <= j < i + 1
      ensures Sum(StakesAt(now, hypers[j].h))
              == Sum(StakesAt(was, hypers[j].h)) + AutoStaked(hypers[j], At(stacked, hypers[j].h))
    {
      if j < i { assert hypers[j].h != hypers[i].h; }
    }
  }

  lemma TakesNext(hypers: seq<HyperPayout>, i: nat)
    requires i < |hypers| && forall j, k :: 0 <= j < k < |hypers| ==> hypers[j].h != hypers[k].h
    ensures !Takes(hypers, i, hypers[i].h)
    ensures forall h: Address :: Takes(hypers, i + 1, h) <==> Takes(hypers, i, h) || h == hypers[i].h
  {
  }

  lemma AutoStakedIs(p: HyperPayout, reward: nat)
    requires p.per1000 <= 1000
    ensures p.due && Sum(p.powers) == 0 ==> AutoStaked(p, reward) == 0
    ensures p.due && Sum(p.powers) > 0 ==>
              AutoStaked(p, reward) == AutoSum(p, Ratio(reward, Sum(p.powers)), p.powers)
  {
    hide Sum, AutoSum, Ratio;
  }

  // One of the powers still to be paid is paid.
  lemma OneTaken(rest: map<Address, nat>, a: Address)
    requires a in rest
    ensures |rest - {a}| < |rest|
  {
    assert (rest - {a}).Keys == rest.Keys - {a};
    assert |(rest - {a}).Keys| == |rest - {a}| && |rest.Keys| == |rest|;
  }

  // All stakers of a Hyper formulator but those in `rest` have been paid.
  ghost predicate PaidBut(p: HyperPayout, ratio: nat, rest: map<Address, nat>, commission: nat,
                          balances0: map<Address, nat>, balances: map<Address, nat>, stakes0: map<StakeKey, nat>,
                          stakes: map<StakeKey, nat>)
    requires p.per1000 <= 1000
  {
    && rest.Keys <= p.powers.Keys && (forall a :: a in rest ==> rest[a] == p.powers[a])
    && Sum(balances) + Sum(stakes) + commission + Shares(rest, ratio)
       == Sum(balances0) + Sum(stakes0) + Shares(p.powers, ratio)
    && PartsPaid(p, ratio, p.powers.Keys - rest.Keys, balances0, balances, stakes0, stakes)
    && OnlyAt(stakes0, stakes, p.h, AutoSum(p, ratio, p.powers) - AutoSum(p, ratio, rest))
    && commission + Commissions(p, ratio, rest) == Commissions(p, ratio, p.powers)
  }

  lemma NoStakerPaid(p: HyperPayout, ratio: nat, balances: map<Address, nat>, stakes: map<StakeKey, nat>)
    requires p.per1000 <= 1000
    ensures PaidBut(p, ratio, p.powers, 0, balances, balances, stakes, stakes)
  {
    hide Sum, Shares, PartsPaid, OnlyAt, AutoSum, Commissions;
    NoParts(p, ratio, balances, stakes);
    NoAuto(p, ratio, stakes);
    assert p.powers.Keys - p.powers.Keys == {};
  }

  lemma OneStakerPaid(p: HyperPayout, ratio: nat, rest: map<Address, nat>, commission: nat, c: nat,
                      balances0: map<Address, nat>, bal: map<Address, nat>, balances: map<Address, nat>,
                      stakes0: map<StakeKey, nat>, was: map<StakeKey, nat>, stakes: map<StakeKey, nat>, a: Address)
    requires p.per1000 <= 1000 && a in rest && c == Commission(Share(rest[a], ratio), p.per1000)
    requires PaidBut(p, ratio, rest, commission, balances0, bal, stakes0, was)
    requires Sum(balances) + Sum(stakes) + c == Sum(bal) + Sum(was) + Share(rest[a], ratio)
    requires var am := Net(Share(rest[a], ratio), p.per1000);
             && balances == (if a in p.auto then bal else Plus(bal, a, am))
             && stakes == if a in p.auto then Plus(was, (p.h, a), am) else was
    ensures PaidBut(p, ratio, rest - {a}, commission + c, balances0, balances, stakes0, stakes)
  {
    hide Sum, Shares, Share, Commission, Net, Plus, PartsPaid, OnlyAt, AutoSum, AutoPart, Commissions;
    var done := p.powers.Keys - rest.Keys;
    SharesWithout(rest, ratio, a);
    CommissionsWithout(p, ratio, rest, a);
    OnePart(p, ratio, done, balances0, bal, stakes0, was, a);
    OneAuto(p, ratio, rest, stakes0, was, AutoSum(p, ratio, p.powers) - AutoSum(p, ratio, rest), a);
    assert p.powers.Keys - (rest - {a}).Keys == done + {a};
  }

  lemma AllStakersPaid(p: HyperPayout, ratio: nat, commission: nat, balances0: map<Address, nat>,
                       balances: map<Address, nat>, stakes0: map<StakeKey, nat>, stakes: map<StakeKey, nat>)
    requires p.per1000 <= 1000 && PaidBut(p, ratio, map[], commission, balances0, balances, stakes0, stakes)
    ensures Sum(balances) + Sum(stakes) + commission == Sum(balances0) + Sum(stakes0) + Shares(p.powers, ratio)
    ensures PartsPaid(p, ratio, p.powers.Keys, balances0, balances, stakes0, stakes)
    ensures OnlyAt(stakes0, stakes, p.h, AutoSum(p, ratio, p.powers))
    ensures commission == Commissions(p, ratio, p.powers)
  {
    hide Sum, Shares, PartsPaid, OnlyAt, AutoSum, Commissions;
    NoShares<Address>(ratio);
    NoCommissions(p, ratio);
    NoAuto(p, ratio, stakes);
    var none: map<Address, nat> := map[];
    assert p.powers.Keys - none.Keys == p.powers.Keys;
  }

  // What a payout does to the stakes.
  ghost predicate StakesPaid(was: map<StakeKey, nat>, now: map<StakeKey, nat>, hypers: seq<HyperPayout>,
                             alive: set<Address>, mid: map<Address, nat>)
    requires forall i :: 0 <= i < |hypers| ==> hypers[i].per1000 <= 1000
  {
    && (forall i :: 0 <= i < |hypers| ==>
          Sum(StakesAt(now, hypers[i].h)) == Sum(StakesAt(was, hypers[i].h)) - Sum(GoneStakes(was, hypers[i].h, alive))
                                             + AutoStaked(hypers[i], At(mid, hypers[i].h)))
    && (forall h: Address :: !Takes(hypers, |hypers|, h) ==> StakesAt(now, h) == StakesAt(was, h))
  }

  lemma StakesCombined(was: map<StakeKey, nat>, dropped: map<StakeKey, nat>, now: map<StakeKey, nat>,
                       hypers: seq<HyperPayout>, alive: set<Address>, mid: map<Address, nat>)
    requires forall i :: 0 <= i < |hypers| ==> hypers[i].per1000 <= 1000
    requires StakesDropped(was, dropped, hypers, |hypers|, alive) && StakesGained(dropped, now, hypers, |hypers|, mid)
    ensures StakesPaid(was, now, hypers, alive, mid)
  {
    hide Sum, AutoStaked;
    forall i | 0 <= i < |hypers|
      ensures Sum(StakesAt(dropped, hypers[i].h))
              == Sum(StakesAt(was, hypers[i].h)) - Sum(GoneStakes(was, hypers[i].h, alive))
    {
      var h := hypers[i].h;
      assert Takes(hypers, |hypers|, h);
      var all, gone := StakesAt(was, h), GoneStakes(was, h, alive);
      SumSplit(all, gone.Keys);
      assert (map k | k in all && k in gone.Keys :: all[k]) == gone;
      assert all - gone.Keys == StakesAt(dropped, h);
    }
    forall h: Address | !Takes(hypers, |hypers|, h) ensures StakesAt(dropped, h) == StakesAt(was, h) {
    }
  }

  /** A payout keeps the totals of the Hyper formulators exactly when each of those taking part loses as
      much to stakers without an account as its other stakers put back. */
  lemma PayoutKeepsTotals(formulators: map<Address, Formulator>, was: map<StakeKey, nat>, now: map<StakeKey, nat>,
                          hypers: seq<HyperPayout>, alive: set<Address>, mid: map<Address, nat>)
    requires forall i :: 0 <= i < |hypers| ==>
               hypers[i].per1000 <= 1000 && hypers[i].h in formulators && formulators[hypers[i].h].kind == Hyper
    requires TotalsOk(formulators, was) && StakesPaid(was, now, hypers, alive, mid)
    ensures TotalsOk(formulators, now) <==>
            forall i :: 0 <= i < |hypers| ==>
              Sum(GoneStakes(was, hypers[i].h, alive)) == AutoStaked(hypers[i], At(mid, hypers[i].h))
  {
    hide Sum, AutoStaked, GoneStakes;
    forall k | k in now ensures k.0 in formulators && formulators[k.0].kind == Hyper {
      if !Takes(hypers, |hypers|, k.0) {
        assert k in StakesAt(now, k.0) && k in StakesAt(was, k.0);
      }
    }
  }

  /** One staker whose account is gone and nothing staked again: the payout drops the stake, and the Hyper
      formulator goes on counting it. */
  lemma GoneStakerBreaksTotals(h: Address, a: Address, am: nat)
    requires a != h && am > 0
    ensures var formulators := map[h := Formulator(Hyper, false, 0, am)]; var was := map[(h, a) := am];
            var hypers := [HyperPayout(h, false, map[], 0, {})];
            && TotalsOk(formulators, was) && StakesPaid(was, map[], hypers, {h}, map[])
            && !TotalsOk(formulators, map[])
  {
    var was: map<StakeKey, nat> := map[(h, a) := am];
    var hypers := [HyperPayout(h, false, map[], 0, {})];
    assert StakesAt(was, h) == was && GoneStakes(was, h, {h}) == was && StakesAt(map[], h) == map[];
    SumOne((h, a), am);
    SumNone<StakeKey>();
    NotDue(hypers[0], 0);
    assert Takes(hypers, 1, h);
    forall g: Address | !Takes(hypers, 1, g) ensures StakesAt(map[], g) == StakesAt(was, g) {
      assert g != h;
    }
  }

  lemma UnchangedOnly(stakes: map<StakeKey, nat>, h: Address)
    ensures OnlyAt(stakes, stakes, h, 0)
  {
  }

  lemma NoAuto(p: HyperPayout, ratio: nat, stakes: map<StakeKey, nat>)
    requires p.per1000 <= 1000
    ensures AutoSum(p, ratio, map[]) == 0 && OnlyAt(stakes, stakes, p.h, 0)
  {
  }

  lemma OneAuto(p: HyperPayout, ratio: nat, rest: map<Address, nat>, was: map<StakeKey, nat>, now: map<StakeKey, nat>,
                gain: int, a: Address)
    requires p.per1000 <= 1000 && a in rest && OnlyAt(was, now, p.h, gain)
    ensures AutoSum(p, ratio, rest) == AutoPart(p, ratio, a, rest[a]) + AutoSum(p, ratio, rest - {a})
    ensures OnlyAt(was, if a in p.auto then Plus(now, (p.h, a), Net(Share(rest[a], ratio), p.per1000)) else now, p.h,
                   gain + AutoPart(p, ratio, a, rest[a]))
  {
    hide OnlyAt, Plus, Share, Commission, AutoSum;
    AutoWithout(p, ratio, rest, a);
    if a in p.auto {
      OnlyAtPlus(was, now, p.h, gain, a, AutoPart(p, ratio, a, rest[a]));
    }
  }

  lemma NoParts(p: HyperPayout, ratio: nat, balances: map<Address, nat>, stakes: map<StakeKey, nat>)
    ensures PartsPaid(p, ratio, {}, balances, balances, stakes, stakes)
  {
  }

  lemma OnePart(p: HyperPayout, ratio: nat, done: set<Address>, balances0: map<Address, nat>,
                balances: map<Address, nat>, stakes0: map<StakeKey, nat>, stakes: map<StakeKey, nat>, a: Address)
    requires PartsPaid(p, ratio, done, balances0, balances, stakes0, stakes)
    requires a in p.powers && a !in done && p.per1000 <= 1000
    ensures var am := Net(Share(p.powers[a], ratio), p.per1000);
            PartsPaid(p, ratio, done + {a}, balances0, if a in p.auto then balances else Plus(balances, a, am),
                      stakes0, if a in p.auto then Plus(stakes, (p.h, a), am) else stakes)
  {
    hide Share, Commission;
    CommissionBound(Share(p.powers[a], ratio), p.per1000);
  }

  lemma NoneAdded(m: map<Address, nat>, powers: map<Address, nat>, ratio: nat)
    ensures SharesAdded(m, m, powers, ratio, {})
  {
  }

  ghost function Stacked(m: map<Address, nat>, h: Address, am: nat): map<Address, nat> { m[h := At(m, h) + am] }

  lemma OneAdded(was: map<Address, nat>, now: map<Address, nat>, powers: map<Address, nat>, ratio: nat,
                 s: set<Address>, a: Address)
    requires SharesAdded(was, now, powers, ratio, s) && a in powers && a !in s
    ensures var am := Share(powers[a], ratio);
            && SharesAdded(was, Stacked(now, a, am), powers, ratio, s + {a})
            && SharesAdded(was, PutAmount(now, a, At(now, a) + am), powers, ratio, s + {a})
            && (am == 0 ==> SharesAdded(was, now, powers, ratio, s + {a}))
  {
    hide Share;
  }

  lemma NoShares<K>(ratio: nat)
    ensures Shares<K>(map[], ratio) == 0
  {
  }

  lemma NoCommission(am: nat)
    ensures Commission(am, 0) == 0
  {
  }

  lemma SplitBound(reward: nat, m: map<Address, nat>)
    requires Sum(m) > 0
    ensures var given := Shares(m, Ratio(reward, Sum(m)));
            given <= reward && SmallRest(reward - given, Sum(m), |m|)
  {
    hide Ratio, Shares, Sum;
    NoShares<Address>(Ratio(reward, Sum(m)));
    SumNone<Address>();
    DistributionBound<Address, Address>(reward, m, map[]);
  }
}
