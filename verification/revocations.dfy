/** Revocations waiting for their height: which formulators they are for, and who inherits. */
module Revocations {
  import opened Basics
  import opened Amounts
  import opened EnumIndex

  // The index of each height lists exactly the formulators revoked at it, each with a heritor.
  ghost predicate Consistent(revokedAt: map<Address, nat>, indexes: map<nat, Index>,
                             heritors: map<(nat, Address), Address>) {
    && (forall t: nat :: Indexed(IndexOf(indexes, t)))
    && (forall t: nat, a: Address :: a in IndexOf(indexes, t).numbers <==> a in revokedAt && revokedAt[a] == t)
    && (forall a :: a in revokedAt ==> (revokedAt[a], a) in heritors)
  }

  lemma AddKeeps(revokedAt: map<Address, nat>, indexes: map<nat, Index>, heritors: map<(nat, Address), Address>,
                 a: Address, t: nat, heir: Address)
    requires Consistent(revokedAt, indexes, heritors) && a !in revokedAt
    ensures Consistent(revokedAt[a := t], indexes[t := Register(IndexOf(indexes, t), a)], heritors[(t, a) := heir])
  {
    hide Indexed, Register;
    RegisterOk(IndexOf(indexes, t), a);
    var ixs := indexes[t := Register(IndexOf(indexes, t), a)];
    assert forall u: nat :: IndexOf(ixs, u) == if u == t then Register(IndexOf(indexes, t), a) else IndexOf(indexes, u);
  }

  lemma RemoveKeeps(revokedAt: map<Address, nat>, indexes: map<nat, Index>,
                    heritors: map<(nat, Address), Address>, a: Address)
    requires Consistent(revokedAt, indexes, heritors) && a in revokedAt
    ensures a in IndexOf(indexes, revokedAt[a]).numbers
    ensures var t := revokedAt[a];
            Consistent(revokedAt - {a}, indexes[t := Unregister(IndexOf(indexes, t), a)], heritors)
  {
    hide Indexed, Unregister;
    var t := revokedAt[a];
    var ix := IndexOf(indexes, t);
    UnregisterOk(ix, a);
    var ixs := indexes[t := Unregister(ix, a)];
    assert forall u: nat :: IndexOf(ixs, u) == if u == t then Unregister(ix, a) else IndexOf(indexes, u);
  }

  // What is due at a height.
  ghost function Due(revokedAt: map<Address, nat>, heritors: map<(nat, Address), Address>, t: nat): map<Address,
                     Address>
    requires forall a :: a in revokedAt ==> (revokedAt[a], a) in heritors
  {
    map a | a in revokedAt && revokedAt[a] == t :: heritors[(t, a)]
  }

  class RevocationQueue {
    var revokedAt: map<Address, nat>
    var indexes: map<nat, Index>
    var heritors: map<(nat, Address), Address>

    ghost predicate Valid()
      reads this
    {
      Consistent(revokedAt, indexes, heritors)
    }

    constructor ()
      ensures Valid() && revokedAt == map[]
    {
      revokedAt, indexes, heritors := map[], map[], map[];
    }

    method Add(a: Address, t: nat, heir: Address) returns (ok: bool)
      requires Valid()
      modifies this
      ensures Valid() && (ok <==> a !in old(revokedAt))
      ensures !ok ==> unchanged(this)
      ensures ok ==> revokedAt == old(revokedAt)[a := t] && heritors == old(heritors)[(t, a) := heir]
    {
      if a in revokedAt { return false; }
      AddKeeps(revokedAt, indexes, heritors, a, t, heir);
      revokedAt := revokedAt[a := t];
      indexes := indexes[t := Register(IndexOf(indexes, t), a)];
      heritors := heritors[(t, a) := heir];
      return true;
    }

    method Remove(a: Address) returns (ok: bool)
      requires Valid()
      modifies this
      ensures Valid() && (ok <==> a in old(revokedAt))
      ensures revokedAt == old(revokedAt) - {a} && heritors == old(heritors)
    {
      if a !in revokedAt { return false; }
      RemoveKeeps(revokedAt, indexes, heritors, a);
      var t := revokedAt[a];
      revokedAt := revokedAt - {a};
      indexes := indexes[t := Unregister(IndexOf(indexes, t), a)];
      return true;
    }

    /** At its height, exactly the revocations that are still outstanding come out, each with its
        heritor, and no others are touched. */
    method Flush(t: nat) returns (ok: bool, due: map<Address, Address>)
      requires Valid()
      modifies this
      ensures Valid() && ok && due == Due(old(revokedAt), old(heritors), t)
      ensures revokedAt == old(revokedAt) - due.Keys
    {
      var ix := IndexOf(indexes, t);
      assert Indexed(ix);
      hide *;
      ok, due := TakeListed(ix, t);
      ListedAll(ix);
      AllDue(old(revokedAt), old(indexes), old(heritors), t, due, revokedAt, heritors);
      indexes := indexes - {t};
    }

    // The loop over the formulators of a height.
    method TakeListed(ix: Index, t: nat) returns (ok: bool, due: map<Address, Address>)
      requires Consistent(revokedAt, indexes, heritors) && ix == IndexOf(indexes, t) && Indexed(ix)
      modifies this`revokedAt, this`heritors
      ensures ok && Partial(old(revokedAt), old(heritors), t, FirstListed(ix, ix.count), due, revokedAt, heritors)
    {
      hide *;
      due := map[];
      var i := 0;
      NoneDue(revokedAt, heritors, ix, t);
      while i < ix.count
        invariant 0 <= i <= ix.count
        invariant Partial(old(revokedAt), old(heritors), t, FirstListed(ix, i), due, revokedAt, heritors)
      {
        ListedNext(ix, i);
        ListedWithin(ix, i);
        var a := ix.reverse[i];
        StillThere(old(revokedAt), indexes, old(heritors), t, FirstListed(ix, i), due, revokedAt, heritors, a);
        PartialNext(old(revokedAt), old(heritors), t, FirstListed(ix, i), due, revokedAt, heritors, a);
        if (t, a) !in heritors { return false, due; }
        due := due[a := heritors[(t, a)]];
        revokedAt := revokedAt - {a};
        heritors := heritors - {(t, a)};
        i := i + 1;
      }
      return true, due;
    }
  }

  // The formulators in s have been taken out.
  ghost predicate Partial(at0: map<Address, nat>, her0: map<(nat, Address), Address>, t: nat, s: set<Address>,
                          due: map<Address, Address>, at: map<Address, nat>, her: map<(nat, Address), Address>) {
    && (forall a :: a in s ==> (t, a) in her0)
    && due == (map a | a in s && (t, a) in her0 :: her0[(t, a)])
    && at == at0 - s
    && her == map k | k in her0 && !(k.0 == t && k.1 in s) :: her0[k]
  }

  lemma NoneDue(at: map<Address, nat>, her: map<(nat, Address), Address>, ix: Index, t: nat)
    requires Indexed(ix)
    ensures Partial(at, her, t, FirstListed(ix, 0), map[], at, her)
  {
    assert FirstListed(ix, 0) == {};
  }

  lemma ListedWithin(ix: Index, i: nat)
    requires Indexed(ix) && i < ix.count
    ensures i in ix.reverse && ix.reverse[i] in ix.numbers
  {
  }

  lemma StillThere(at0: map<Address, nat>, indexes: map<nat, Index>, her0: map<(nat, Address), Address>, t: nat,
                   s: set<Address>,
                   due: map<Address, Address>, at: map<Address, nat>, her: map<(nat, Address), Address>, a: Address)
    requires Consistent(at0, indexes, her0) && Partial(at0, her0, t, s, due, at, her)
    requires a !in s && a in IndexOf(indexes, t).numbers
    ensures (t, a) in her
  {
    assert a in at0 && at0[a] == t;
    assert (at0[a], a) in her0;
  }

  lemma PartialNext(at0: map<Address, nat>, her0: map<(nat, Address), Address>, t: nat, s: set<Address>,
                    due: map<Address, Address>, at: map<Address, nat>, her: map<(nat, Address), Address>, a: Address)
    requires Partial(at0, her0, t, s, due, at, her) && a !in s && (t, a) in her
    ensures Partial(at0, her0, t, s + {a}, due[a := her[(t, a)]], at - {a}, her - {(t, a)})
  {
  }

  lemma AllDue(at0: map<Address, nat>, indexes: map<nat, Index>, her0: map<(nat, Address), Address>, t: nat,
               due: map<Address, Address>, at: map<Address, nat>, her: map<(nat, Address), Address>)
    requires Consistent(at0, indexes, her0)
    requires Partial(at0, her0, t, IndexOf(indexes, t).numbers.Keys, due, at, her)
    ensures due == Due(at0, her0, t) && at == at0 - due.Keys && Consistent(at, indexes - {t}, her)
  {
    hide Indexed, IndexOf;
    assert due.Keys == IndexOf(indexes, t).numbers.Keys;
    DueConsistent(at0, indexes, her0, t, at, her);
  }

  lemma DueConsistent(at0: map<Address, nat>, indexes: map<nat, Index>, her0: map<(nat, Address), Address>, t: nat,
                      at: map<Address, nat>, her: map<(nat, Address), Address>)
    requires Consistent(at0, indexes, her0)
    requires at == at0 - IndexOf(indexes, t).numbers.Keys
    requires her == map k | k in her0 && !(k.0 == t && k.1 in IndexOf(indexes, t).numbers.Keys) :: her0[k]
    ensures Consistent(at, indexes - {t}, her)
  {
    hide Indexed;
    NoEntries();
    assert NO_ENTRIES.numbers == map[];
    assert forall u: nat :: IndexOf(indexes - {t}, u) == if u == t then NO_ENTRIES else IndexOf(indexes, u);
    assert forall a: Address :: a in at <==> a in at0 && at0[a] != t;
    forall a | a in at ensures (at[a], a) in her {
      assert (at0[a], a) in her0;
    }
    forall u: nat, a: Address ensures a in IndexOf(indexes - {t}, u).numbers <==> a in at && at[a] == u {
      assert a in IndexOf(indexes, u).numbers <==> a in at0 && at0[a] == u;
    }
  }
}
