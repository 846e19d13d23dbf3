/** The enumerable index kept in the key-value state: a number for each address, the address of
    each number, and a count. */
module EnumIndex {
  import opened Basics
  import opened Amounts

  datatype Index = Index(numbers: map<Address, nat>, reverse: map<nat, Address>, count: nat)

  const NO_ENTRIES: Index := Index(map[], map[], 0)

  // The index kept under a key: a formulator or a height.
  function IndexOf(indexes: map<nat, Index>, k: nat): Index {
    if k in indexes then indexes[k] else NO_ENTRIES
  }

  // Number and reverse entries are inverse to each other on 0..count-1.
  ghost predicate Indexed(ix: Index) {
    && (forall i :: i in ix.reverse <==> 0 <= i < ix.count)
    && (forall a :: a in ix.numbers ==> ix.numbers[a] in ix.reverse && ix.reverse[ix.numbers[a]] == a)
    && (forall i :: i in ix.reverse ==> ix.reverse[i] in ix.numbers && ix.numbers[ix.reverse[i]] == i)
  }

  function Register(ix: Index, a: Address): Index {
    if a in ix.numbers then ix
    else Index(ix.numbers[a := ix.count], ix.reverse[ix.count := a], ix.count + 1)
  }

  // Removal moves the last entry into the gap.
  function Unregister(ix: Index, a: Address): Index
    requires Indexed(ix) && a in ix.numbers
  {
    var n, last := ix.numbers[a], ix.count - 1;
    var moved := if n == last then ix
                 else Index(ix.numbers[ix.reverse[last] := n], ix.reverse[n := ix.reverse[last]], ix.count);
    Index(moved.numbers - {a}, moved.reverse - {last}, last)
  }

  lemma NoEntries()
    ensures Indexed(NO_ENTRIES)
  {
  }

  lemma RegisterOk(ix: Index, a: Address)
    requires Indexed(ix)
    ensures Indexed(Register(ix, a)) && Register(ix, a).numbers.Keys == ix.numbers.Keys + {a}
  {
  }

  /** Swap-remove drops exactly the one address and keeps the two tables inverse. */
  lemma UnregisterOk(ix: Index, a: Address)
    requires Indexed(ix) && a in ix.numbers
    ensures Indexed(Unregister(ix, a)) && Unregister(ix, a).numbers.Keys == ix.numbers.Keys - {a}
  {
    var n, last, r := ix.numbers[a], ix.count - 1, Unregister(ix, a);
    assert last in ix.reverse;
    var s := ix.reverse[last];
    assert n != last ==> s != a;
    forall b | b in r.numbers ensures r.numbers[b] in r.reverse && r.reverse[r.numbers[b]] == b {
      if b != s {
        assert ix.numbers[b] != n && ix.numbers[b] != last;
      }
    }
  }

  // The first i addresses, and that enumerating finds every member.
  ghost function FirstListed(ix: Index, i: nat): set<Address>
    requires Indexed(ix) && i <= ix.count
  {
    set j: nat | j < i && j in ix.reverse :: ix.reverse[j]
  }

  lemma ListedAll(ix: Index)
    requires Indexed(ix)
    ensures FirstListed(ix, ix.count) == ix.numbers.Keys
  {
    forall a | a in ix.numbers ensures a in FirstListed(ix, ix.count) {
      assert ix.numbers[a] in ix.reverse;
    }
  }

  lemma ListedNext(ix: Index, i: nat)
    requires Indexed(ix) && i < ix.count
    ensures FirstListed(ix, i + 1) == FirstListed(ix, i) + {ix.reverse[i]} && ix.reverse[i] !in FirstListed(ix, i)
  {
    assert i in ix.reverse;
  }
}
