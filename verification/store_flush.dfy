/** Writing a block's context into the store, entry by entry and in any order within each map. */
module StoreFlush {
  import opened Basics
  import opened Overlay

  class StoreWriter {
    var accounts: map<Address, Entry>
    var data: map<Key, Bytes>

    constructor (accounts: map<Address, Entry>, data: map<Key, Bytes>)
      ensures this.accounts == accounts && this.data == data
    {
      this.accounts, this.data := accounts, data;
    }

    ghost function Value(): Store
      reads this
    {
      Store(accounts, data)
    }

    /** The store after the flush is exactly the function of the layer that the lemmas about
        flushing speak of, whatever the order in which the maps are walked. */
    method ApplyContextData(l: Layer)
      modifies this
      ensures Value() == Flush(old(Value()), l)
    {
      ghost var base := Value();
      SetAccounts(l.accounts);
      SetData(l.data);
      MarkDeleted(l.deletedAccounts);
      DeleteData(l.deletedData);
      FlushIs(base, l, Value());
    }

    method SetAccounts(m: map<Address, State>)
      modifies this`accounts
      ensures accounts == old(accounts) + map a | a in m :: Live(m[a])
    {
      var rest := m.Keys;
      while rest != {}
        invariant rest <= m.Keys && accounts == old(accounts) + map a | a in m && a !in rest :: Live(m[a])
        decreases rest
      {
        var a :| a in rest;
        accounts := accounts[a := Live(m[a])];
        rest := rest - {a};
      }
      assert (map a | a in m && a !in rest :: Live(m[a])) == map a | a in m :: Live(m[a]);
    }

    method SetData(m: map<Key, Bytes>)
      modifies this`data
      ensures data == old(data) + m
    {
      var rest := m.Keys;
      while rest != {}
        invariant rest <= m.Keys && data == old(data) + map k | k in m && k !in rest :: m[k]
        decreases rest
      {
        var k :| k in rest;
        data := data[k := m[k]];
        rest := rest - {k};
      }
      assert (map k | k in m && k !in rest :: m[k]) == m;
    }

    // Marks each account and deletes everything stored under its prefix.
    method MarkDeleted(s: set<Address>)
      modifies this
      ensures accounts == Marked(old(accounts), s) && data == Without(old(data), s)
    {
      hide Marked, Without;
      var rest := s;
      NoneMarked(accounts, data);
      assert s - rest == {};
      while rest != {}
        invariant rest <= s && accounts == Marked(old(accounts), s - rest) && data == Without(old(data), s - rest)
        decreases rest
      {
        var a :| a in rest;
        OneMarked(old(accounts), old(data), s - rest, a);
        accounts := accounts[a := Marker];
        var deletes := set k | k in data && k.AccountData? && k.addr == a;
        data := data - deletes;
        assert s - (rest - {a}) == s - rest + {a};
        rest := rest - {a};
      }
      assert s - rest == s;
    }

    method DeleteData(s: set<Key>)
      modifies this`data
      ensures data == old(data) - s
    {
      var rest := s;
      while rest != {}
        invariant rest <= s && data == old(data) - (s - rest)
        decreases rest
      {
        var k :| k in rest;
        data := data - {k};
        rest := rest - {k};
      }
      assert s - rest == s;
    }
  }

  ghost function Marked(accounts: map<Address, Entry>, s: set<Address>): map<Address, Entry> {
    accounts + map a | a in s :: Marker
  }

  // The data of all other accounts.
  ghost function Without(data: map<Key, Bytes>, s: set<Address>): map<Key, Bytes> {
    map k | k in data && !(k.AccountData? && k.addr in s) :: data[k]
  }

  lemma NoneMarked(accounts: map<Address, Entry>, data: map<Key, Bytes>)
    ensures Marked(accounts, {}) == accounts && Without(data, {}) == data
  {
  }

  lemma OneMarked(accounts: map<Address, Entry>, data: map<Key, Bytes>, s: set<Address>, a: Address)
    ensures Marked(accounts, s)[a := Marker] == Marked(accounts, s + {a})
    ensures var now := Without(data, s);
            now - (set k | k in now && k.AccountData? && k.addr == a) == Without(data, s + {a})
  {
  }

  lemma FlushIs(base: Store, l: Layer, r: Store)
    requires r.accounts == (base.accounts + (map a | a in l.accounts :: Live(l.accounts[a])))
             + map a | a in l.deletedAccounts :: Marker
    requires var written := base.data + l.data;
             r.data
             == (map k | k in written && !(k.AccountData? && k.addr in l.deletedAccounts) :: written[k]) - l.deletedData
    ensures r == Flush(base, l)
  {
  }
}
