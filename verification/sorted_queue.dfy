/** A queue sorted by priority, kept in a window of a slice that slides, shifts and is compacted. */
module SortedQueues {
  import opened Basics

  datatype Item<V> = Item(value: Option<V>, priority: nat)

  // A place of the slice: nothing yet, or an item.
  type Slot<V> = Option<Item<V>>

  ghost predicate Sorted<V>(c: seq<Item<V>>) {
    forall i, j :: 0 <= i < j < |c| ==> c[i].priority <= c[j].priority
  }

  // How many items come before a new one of priority p: all that are not above it.
  ghost predicate IsPlace<V>(c: seq<Item<V>>, p: nat, k: nat) {
    && k <= |c|
    && (forall i :: 0 <= i < k ==> c[i].priority <= p)
    && (forall i :: k <= i < |c| ==> p < c[i].priority)
  }

  ghost predicate IsFirst<V>(c: seq<Item<V>>, p: nat, i: nat) {
    i < |c| && c[i].priority == p && forall j :: 0 <= j < i ==> c[j].priority != p
  }

  /** There is a first item of a priority exactly when there is any. */
  lemma {:induction false} FirstThere<V>(c: seq<Item<V>>, p: nat)
    ensures (exists i: nat :: IsFirst(c, p, i)) <==> exists i :: 0 <= i < |c| && c[i].priority == p
    decreases |c|
  {
    if c != [] {
      var n := |c| - 1;
      FirstThere(c[..n], p);
      if exists i :: 0 <= i < n && c[i].priority == p {
        var i :| 0 <= i < n && c[i].priority == p;
        assert c[..n][i].priority == p;
        var k: nat :| IsFirst(c[..n], p, k);
        assert IsFirst(c, p, k);
      } else if c[n].priority == p {
        assert IsFirst(c, p, n);
      }
    }
  }

  function Placed<T>(c: seq<T>, x: T, k: nat): seq<T>
    requires k <= |c|
  {
    c[..k] + [x] + c[k..]
  }

  /** Inserting at its place keeps the order, goes after all items of equal priority, and loses
      nothing. */
  lemma PlacedSorted<V>(c: seq<Item<V>>, x: Item<V>, k: nat)
    requires Sorted(c) && IsPlace(c, x.priority, k)
    ensures Sorted(Placed(c, x, k)) && multiset(Placed(c, x, k)) == multiset(c) + multiset{x}
    ensures |Placed(c, x, k)| == |c| + 1 && forall i :: k < i <= |c| ==> Placed(c, x, k)[i].priority > x.priority
  {
    hide Placed;
    var r := Placed(c, x, k);
    PlacedCounts(c, x, k);
    forall i, j | 0 <= i < j < |r| ensures r[i].priority <= r[j].priority {
      PlacedAt(c, x, k, i);
      PlacedAt(c, x, k, j);
    }
    forall i | k < i < |c| + 1 ensures r[i].priority > x.priority {
      PlacedAt(c, x, k, i);
    }
  }

  lemma PlacedAt<T>(c: seq<T>, x: T, k: nat, i: nat)
    requires k <= |c| && i <= |c|
    ensures |Placed(c, x, k)| == |c| + 1
    ensures Placed(c, x, k)[i] == if i < k then c[i] else if i == k then x else c[i - 1]
  {
  }

  lemma PlacedCounts<V>(c: seq<Item<V>>, x: Item<V>, k: nat)
    requires k <= |c|
    ensures |Placed(c, x, k)| == |c| + 1 && multiset(Placed(c, x, k)) == multiset(c) + multiset{x}
  {
    assert c == c[..k] + c[k..];
  }

  // Go's copy(items[at:], src): as much of src as fits.
  function CopyInto<T>(items: seq<T>, at: nat, src: seq<T>): (r: seq<T>)
    requires at <= |items|
    ensures |r| == |items|
  {
    seq(|items|, i requires 0 <= i < |items| => if at <= i < at + |src| then src[i - at] else items[i])
  }

  ghost predicate AllItems<V>(w: seq<Slot<V>>) { forall i :: 0 <= i < |w| ==> w[i].Some? }

  // The items of a window of the slice.
  ghost function Unwrap<V>(w: seq<Slot<V>>): (c: seq<Item<V>>)
    requires AllItems(w)
    ensures |c| == |w| && forall i :: 0 <= i < |w| ==> c[i] == w[i].value
  {
    seq(|w|, i requires 0 <= i < |w| => w[i].value)
  }

  lemma DropFirst<V>(w: seq<Slot<V>>)
    requires AllItems(w) && w != []
    ensures AllItems(w[1..]) && Unwrap(w)[1..] == Unwrap(w[1..]) && w[0].Some? && Unwrap(w)[0] == w[0].value
    ensures Sorted(Unwrap(w)) ==> Sorted(Unwrap(w[1..]))
  {
  }

  // The three ways of opening a gap in the window that starts at head.

  lemma GapAppended<T>(items: seq<T>, k: nat, x: T)
    requires k <= |items|
    ensures var w := items + [x]; CopyInto(w, k + 1, w[k..])[k := x] == Placed(items, x, k)
  {
  }

  lemma GapShifted<T>(items: seq<T>, head: nat, last: nat, k: nat, x: T)
    requires head + k <= last < |items|
    ensures CopyInto(items, head + k + 1, items[head + k..last])[head + k := x][head..last + 1]
            == Placed(items[head..last], x, k)
  {
    var copied := CopyInto(items, head + k + 1, items[head + k..last]);
    var l, r := copied[head + k := x][head..last + 1], Placed(items[head..last], x, k);
    assert |l| == |r|;
    forall i | 0 <= i < |l| ensures l[i] == r[i] {
      PlacedAt(items[head..last], x, k, i);
      if i > k {
        assert copied[head + i] == items[head + k..last][i - k - 1] == items[head + i - 1];
      }
    }
  }

  // The whole window moved one place to the left.
  lemma Slid<T>(items: seq<T>, head: nat)
    requires 0 < head <= |items|
    ensures CopyInto(items, head - 1, items[head..])[head - 1..|items| - 1] == items[head..]
  {
  }

  // Copying past the end copies only what fits.
  lemma CopyFits<T>(items: seq<T>, at: nat, src: seq<T>)
    requires at <= |items| < at + |src|
    ensures CopyInto(items, at, src) == CopyInto(items, at, src[..|items| - at])
  {
  }

  lemma GapSlid<T>(items: seq<T>, head: nat, k: nat, x: T)
    requires 0 < head && head + k <= |items|
    ensures var n := |items|; var idx := head + k - 1;
            var w := CopyInto(items, head - 1, items[head..]);
            var v := if idx != n - 1 then CopyInto(w, idx + 1, w[idx..n]) else w;
            v[idx := x][head - 1..] == Placed(items[head..], x, k)
  {
    hide CopyInto;
    var n, idx := |items|, head + k - 1;
    var w := CopyInto(items, head - 1, items[head..]);
    Slid(items, head);
    if idx != n - 1 {
      CopyFits(w, idx + 1, w[idx..n]);
      assert w[idx..n][..n - idx - 1] == w[idx..n - 1];
    } else {
      CopyNothing(w, idx + 1);
      assert w[idx..n - 1] == [];
    }
    GapShifted(w, head - 1, n - 1, k, x);
    var v := CopyInto(w, idx + 1, w[idx..n - 1])[idx := x];
    assert v[head - 1..n] == v[head - 1..];
  }

  lemma CopyNothing<T>(items: seq<T>, at: nat)
    requires at <= |items|
    ensures CopyInto(items, at, []) == items
  {
  }

  // What PopUntil leaves and returns.
  function PopUntilOf<V>(c: seq<Item<V>>, p: nat): (seq<Item<V>>, Option<V>) {
    if c == [] || c[0].value.None? then (c, None)
    else if c[0].priority < p then PopUntilOf(c[1..], p)
    else if c[0].priority == p then (c[1..], c[0].value)
    else (c, None)
  }

  /** Without nil values, PopUntil drops exactly the items below p and takes the first item at p, if
      there is one. */
  lemma {:induction false} PopUntilMeans<V>(c: seq<Item<V>>, p: nat, k: nat)
    requires Sorted(c) && (forall i :: 0 <= i < |c| ==> c[i].value.Some?)
    requires k <= |c| && (forall i :: 0 <= i < k ==> c[i].priority < p)
             && (forall i :: k <= i < |c| ==> c[i].priority >= p)
    ensures PopUntilOf(c, p) == if k < |c| && c[k].priority == p then (c[k + 1..], c[k].value) else (c[k..], None)
    decreases |c|
  {
    if k > 0 {
      PopUntilMeans(c[1..], p, k - 1);
    }
  }

  class SortedQueue<V> {
    var items: seq<Slot<V>>
    var head: nat
    var size: nat

    ghost predicate Shaped()
      reads this
    {
      head + size <= |items| && AllItems(items[head..head + size])
    }

    ghost function Contents(): (c: seq<Item<V>>)
      requires Shaped()
      reads this
    {
      Unwrap(items[head..head + size])
    }

    ghost predicate Valid()
      reads this
    {
      Shaped() && Sorted(Contents())
    }

    constructor ()
      ensures Valid() && Contents() == []
    {
      items, head, size := [], 0, 0;
    }

    // sort.Search: the first place whose item is above p.
    method Search(p: nat) returns (k: nat)
      requires Valid()
      ensures IsPlace(Contents(), p, k)
    {
      var i, j := 0, size;
      while i < j
        invariant 0 <= i <= j <= size
        invariant forall x :: 0 <= x < i ==> Contents()[x].priority <= p
        invariant forall x :: j <= x < size ==> p < Contents()[x].priority
      {
        var h := (i + j) / 2;
        assert items[head + h] == items[head..head + size][h] && Contents()[h] == items[head + h].value;
        if !(p < items[head + h].value.priority) {
          i := h + 1;
        } else {
          j := h;
        }
      }
      return i;
    }

    /** Inserts after every item of the same or a lower priority. */
    method Insert(value: Option<V>, p: nat)
      requires Valid()
      modifies this
      ensures Valid()
      ensures exists k :: IsPlace(old(Contents()), p, k) && Contents() == Placed(old(Contents()), Item(value, p), k)
    {
      var k := Search(p);
      ghost var c := Contents();
      PlacedSorted(c, Item(value, p), k);
      assert k < size ==> c[k].priority != p;   // so the branch that would replace an item is never taken
      OpenGap(k, Some(Item(value, p)));
      assert Contents() == Placed(c, Item(value, p), k);
    }

    // Makes room before the k-th item, on the side the slice allows, and fills it.
    method OpenGap(k: nat, x: Slot<V>)
      requires Shaped() && k <= size && x.Some?
      modifies this
      ensures Shaped() && Contents() == Placed(old(Contents()), x.value, k)
    {
      hide Unwrap, AllItems, Placed;
      ghost var w := items[head..head + size];
      if size == |items| {
        GrowRight(k, x);
      } else if head + size == |items| {
        SlideLeft(k, x);
      } else {
        ShiftRight(k, x);
      }
      WindowGrown(w, items[head..head + size], x, k);
    }

    method GrowRight(k: nat, x: Slot<V>)
      requires head == 0 && size == |items| && k <= size
      modifies this
      ensures head == 0 && size == old(size) + 1 == |items|
      ensures items[head..head + size] == Placed(old(items[head..head + size]), x, k)
    {
      hide Placed, CopyInto;
      assert items[head..head + size] == items;
      GapAppended(items, k, x);
      items := items + [x];
      items := CopyInto(items, k + 1, items[k..]);
      items := items[k := x];
      size := size + 1;
      assert items[head..head + size] == items;
    }

    method ShiftRight(k: nat, x: Slot<V>)
      requires head + size < |items| && k <= size
      modifies this
      ensures head == old(head) && size == old(size) + 1 && head + size <= |items|
      ensures items[head..head + size] == Placed(old(items[head..head + size]), x, k)
    {
      hide Placed, CopyInto;
      var idx, last := head + k, head + size;
      GapShifted(items, head, last, k, x);
      items := CopyInto(items, idx + 1, items[idx..last]);
      items := items[idx := x];
      size := size + 1;
    }

    method SlideLeft(k: nat, x: Slot<V>)
      requires head > 0 && head + size == |items| && k <= size
      modifies this
      ensures head == old(head) - 1 && size == old(size) + 1 && head + size == |items|
      ensures items[head..head + size] == Placed(old(items[head..head + size]), x, k)
    {
      hide Placed, CopyInto;
      GapSlid(items, head, k, x);
      assert items[head..head + size] == items[head..];
      var last := head + size;
      items := CopyInto(items, head - 1, items[head..]);
      head := head - 1;
      var idx := head + k;
      if idx != last - 1 {
        items := CopyInto(items, idx + 1, items[idx..last]);
      }
      items := items[idx := x];
      size := size + 1;
      assert items[head..head + size] == items[head..];
    }

    // The value of the first item of priority p.
    method Find(p: nat) returns (r: Option<V>)
      requires Valid()
      ensures (forall i :: 0 <= i < size ==> Contents()[i].priority != p) ==> r == None
      ensures forall i: nat :: IsFirst(Contents(), p, i) ==> r == Contents()[i].value
    {
      hide Unwrap;
      ghost var c := Contents();
      var i := head;
      while i < head + size
        invariant head <= i <= head + size
        invariant forall j :: 0 <= j < i - head ==> c[j].priority < p
      {
        assert items[i] == items[head..head + size][i - head] && c[i - head] == items[i].value;
        if items[i].value.priority == p {
          assert forall j: nat :: IsFirst(c, p, j) ==> j == i - head;
          return items[i].value.value;
        }
        if items[i].value.priority > p { break; }
        i := i + 1;
      }
      return None;
    }

    method FindOrInsert(value: Option<V>, p: nat) returns (r: Option<V>)
      requires Valid()
      modifies this
      ensures Valid()
      ensures forall i: nat :: IsFirst(old(Contents()), p, i) ==> r == old(Contents())[i].value
      ensures (forall i :: 0 <= i < |old(Contents())| ==> old(Contents())[i].priority != p) ==> r == None
      ensures r.Some? ==> Contents() == old(Contents())
      ensures r.None? ==> exists k ::
                IsPlace(old(Contents()), p, k) && Contents() == Placed(old(Contents()), Item(value, p), k)
    {
      r := Find(p);
      if r.None? {
        Insert(value, p);
      }
    }

    method Peek() returns (value: Option<V>, p: nat)
      requires Valid()
      ensures size == 0 ==> value == None && p == 0
      ensures size > 0 ==> value == Contents()[0].value && p == Contents()[0].priority
    {
      if size == 0 { return None, 0; }
      assert items[head] == items[head..head + size][0];
      return items[head].value.value, items[head].value.priority;
    }

    /** Removes the first item; the slice may be compacted, which changes nothing else. */
    method Pop() returns (r: Option<V>)
      requires Valid()
      modifies this
      ensures Valid()
      ensures old(size) == 0 ==> r == None && Contents() == []
      ensures old(size) > 0 ==> r == old(Contents())[0].value && Contents() == old(Contents())[1..]
    {
      hide Unwrap, AllItems;
      if size == 0 { return None; }
      DropFirst(items[head..head + size]);
      assert items[head] == items[head..head + size][0];
      r := items[head].value.value;
      ghost var w := items[head + 1..head + size];
      assert w == items[head..head + size][1..];
      items := items[head := None];
      head := head + 1;
      size := size - 1;
      assert items[head..head + size] == w;
      Compact();
    }

    // Large slices are copied into a small one, or moved down when more than half is unused.
    method Compact()
      requires Shaped()
      modifies this
      ensures Shaped() && Contents() == old(Contents())
    {
      ghost var w := items[head..head + size];
      if |items| > 4096 {
        if size < 1024 {
          var small := seq(2048, _ => None);
          items := CopyInto(small, 0, items[head..head + size]);
          head := 0;
        } else if head > |items| / 2 + 1 {
          items := CopyInto(items, 0, items[head..head + size]);
          head := 0;
        }
      }
      assert items[head..head + size] == w;
    }

    method PopUntil(p: nat) returns (r: Option<V>)
      requires Valid()
      modifies this
      ensures Valid() && (Contents(), r) == PopUntilOf(old(Contents()), p)
    {
      while true
        invariant Valid() && PopUntilOf(Contents(), p) == PopUntilOf(old(Contents()), p)
        decreases size
      {
        var value, q := Peek();
        if value.None? { return None; }
        if q < p {
          var _ := Pop();
        } else if q == p {
          r := Pop();
          return r;
        } else {
          return None;
        }
      }
    }
  }

  lemma WindowGrown<V>(w: seq<Slot<V>>, now: seq<Slot<V>>, x: Slot<V>, k: nat)
    requires AllItems(w) && x.Some? && k <= |w| && now == Placed(w, x, k)
    ensures AllItems(now) && Unwrap(now) == Placed(Unwrap(w), x.value, k)
  {
    assert forall i :: 0 <= i < |now| ==> now[i] == if i < k then w[i] else if i == k then x else w[i - 1];
  }
}
