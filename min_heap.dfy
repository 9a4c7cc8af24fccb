/**
 * The event queue (`MinHeap<T>`, instantiated with sweep events): a binary
 * min-heap over the prefix `items[0..count)` of a fixed-capacity array.
 */
module Heap {
  import opened Wrappers
  import opened Events

  type Slots = seq<Option<FortuneEvent>>

  /**
   * The parent slot `(i - 1) / 2` with C#'s division, which truncates toward
   * zero: slot 0 is its own parent.
   */
  function Parent(i: nat): (p: nat)
    ensures i == 0 ==> p == 0
    ensures i > 0 ==> p < i && (i == 2 * p + 1 || i == 2 * p + 2)
  {
    if i == 0 then 0 else (i - 1) / 2
  }

  /** The first `n` slots hold events (no C# null). */
  ghost predicate Live(s: Slots, n: int)
  {
    0 <= n <= |s| && forall i :: 0 <= i < n ==> s[i].Some?
  }

  /** Heap order on the live prefix: no event is less than its parent. */
  ghost predicate HeapOrdered(s: Slots, n: int)
  {
    Live(s, n) && forall i {:trigger Parent(i)} :: 0 < i < n ==> !Less(s[i].value, s[Parent(i)].value)
  }

  /**
   * Heap order except that slot `k` may be less than its parent; the
   * children of `k` are not less than that parent (what percolating up keeps).
   */
  ghost predicate UpHole(s: Slots, n: int, k: nat)
  {
    && Live(s, n)
    && (forall i {:trigger Parent(i)} :: 0 < i < n && i != k ==> !Less(s[i].value, s[Parent(i)].value))
    && (forall c {:trigger Parent(c)} :: 0 < c < n && 0 < k < n && Parent(c) == k ==> !Less(s[c].value, s[Parent(k)].value))
  }

  /**
   * Heap order except that the children of slot `k` may be less than it;
   * they are not less than its parent (what percolating down keeps).
   */
  ghost predicate DownHole(s: Slots, n: int, k: nat)
  {
    && Live(s, n)
    && (forall i {:trigger Parent(i)} :: 0 < i < n && Parent(i) != k ==> !Less(s[i].value, s[Parent(i)].value))
    && (forall c {:trigger Parent(c)} :: 0 < c < n && 0 < k < n && Parent(c) == k ==> !Less(s[c].value, s[Parent(k)].value))
  }

  /** `e` is a live event and no live event is less than it. */
  ghost predicate IsMinimum(e: FortuneEvent, s: Slots)
  {
    Some(e) in s && forall j :: 0 <= j < |s| && s[j].Some? ==> !Less(s[j].value, e)
  }

  /** The swap of two slots. */
  function Swapped(s: Slots, i: nat, j: nat): (t: Slots)
    requires i < |s| && j < |s|
    ensures |t| == |s| && t[i] == s[j] && t[j] == s[i]
    ensures forall k :: 0 <= k < |s| && k != i && k != j ==> t[k] == s[k]
  {
    s[i := s[j]][j := s[i]]
  }

  /** In an ordered heap the root is a minimum of the live prefix. */
  lemma {:induction false} RootIsMinimum(s: Slots, n: int, j: nat)
    requires HeapOrdered(s, n) && j < n
    ensures !Less(s[j].value, s[0].value)
    decreases j
  {
    if j == 0 {
      CompareToReflexive(s[0].value);
    } else {
      RootIsMinimum(s, n, Parent(j));
      LessTransitive(s[0].value, s[Parent(j)].value, s[j].value);
    }
  }

  /** The root of a non-empty ordered heap is its minimum. */
  lemma RootIsMinimumOfPrefix(s: Slots, n: int)
    requires HeapOrdered(s, n) && 0 < n
    ensures IsMinimum(s[0].value, s[..n])
  {
    forall j | 0 <= j < n ensures !Less(s[j].value, s[0].value) {
      RootIsMinimum(s, n, j);
    }
  }

  /** Swapping two live slots does not change the live multiset. */
  lemma SwapKeepsMultiset(s: Slots, n: int, i: nat, j: nat)
    requires i < n <= |s| && j < n
    ensures multiset(Swapped(s, i, j)[..n]) == multiset(s[..n])
  {
    assert Swapped(s, i, j)[..n] == Swapped(s[..n], i, j);
  }

  /** Slots from `n` on are untouched by a swap of two live slots. */
  lemma SwapKeepsTail(s: Slots, n: int, i: nat, j: nat)
    requires i < n <= |s| && j < n
    ensures Swapped(s, i, j)[n..] == s[n..]
  {
  }

  /** Up hole with nothing left to fix is heap order. */
  lemma UpHoleDone(s: Slots, n: int, k: nat)
    requires UpHole(s, n, k)
    requires k == 0 || k >= n || !Less(s[k].value, s[Parent(k)].value)
    ensures HeapOrdered(s, n)
  {
  }

  /** One step of percolating up: swap `k` with its parent, the hole moves up. */
  lemma UpStep(s: Slots, n: int, k: nat)
    requires UpHole(s, n, k) && 0 < k < n
    requires !Less(s[Parent(k)].value, s[k].value)
    ensures UpHole(Swapped(s, k, Parent(k)), n, Parent(k))
  {
    var p := Parent(k);
    var t := Swapped(s, k, p);
    forall i | 0 < i < n && i != p
      ensures !Less(t[i].value, t[Parent(i)].value)
    {
      if i == k {
      } else if Parent(i) == k {
      } else if Parent(i) == p {
        LessTransitive(s[k].value, s[p].value, s[i].value);
      }
    }
    forall c | 0 < c < n && 0 < p && Parent(c) == p
      ensures !Less(t[c].value, t[Parent(p)].value)
    {
      if c != k {
        LessTransitive(s[Parent(p)].value, s[p].value, s[c].value);
      }
    }
  }

  /** Down hole whose children are not less than it is heap order. */
  lemma DownHoleDone(s: Slots, n: int, k: nat)
    requires DownHole(s, n, k) && k <= n
    requires 2 * k + 1 < n ==> !Less(s[2 * k + 1].value, s[k].value)
    requires 2 * k + 2 < n ==> !Less(s[2 * k + 2].value, s[k].value)
    ensures HeapOrdered(s, n)
  {
  }

  /** One step of percolating down: swap `k` with its least child `m`. */
  lemma DownStep(s: Slots, n: int, k: nat, m: nat)
    requires DownHole(s, n, k) && m < n && (m == 2 * k + 1 || m == 2 * k + 2)
    requires Less(s[m].value, s[k].value)
    requires 2 * k + 1 < n ==> !Less(s[2 * k + 1].value, s[m].value)
    requires 2 * k + 2 < n ==> !Less(s[2 * k + 2].value, s[m].value)
    ensures DownHole(Swapped(s, k, m), n, m)
  {
    var t := Swapped(s, k, m);
    forall i | 0 < i < n && Parent(i) != m
      ensures !Less(t[i].value, t[Parent(i)].value)
    {
      if i == k {
        assert Parent(m) == k;
        assert t[i] == s[m] && t[Parent(i)] == s[Parent(k)];
      } else if i == m {
        assert t[i] == s[k] && t[Parent(i)] == s[m];
        CompareToAntisymmetric(s[m].value, s[k].value);
      } else if Parent(i) == k {
        assert t[i] == s[i] && t[Parent(i)] == s[m];
        if i == 2 * k + 1 {
          assert !Less(s[2 * k + 1].value, s[m].value);
        } else {
          assert i == 2 * k + 2;
          assert !Less(s[2 * k + 2].value, s[m].value);
        }
      } else {
        assert t[i] == s[i] && t[Parent(i)] == s[Parent(i)];
      }
    }
    forall c | 0 < c < n && Parent(c) == m
      ensures !Less(t[c].value, t[Parent(m)].value)
    {
      assert t[c] == s[c] && t[Parent(m)] == s[m];
    }
  }

  /** Taking the last live slot into the root leaves a hole at the root. */
  lemma PopHole(s: Slots, n: int)
    requires HeapOrdered(s, n) && 1 < n
    ensures DownHole(s[0 := s[n - 1]], n - 1, 0)
    ensures multiset(s[0 := s[n - 1]][..n - 1]) == multiset(s[..n]) - multiset{s[0]}
  {
    var t := s[0 := s[n - 1]];
    assert s[..n] == [s[0]] + s[1..n - 1] + [s[n - 1]];
    assert t[..n - 1] == [s[n - 1]] + s[1..n - 1];
  }

  /** Moving the removed slot past the shrunken live prefix leaves the other live events. */
  lemma RemoveSwap(s: Slots, c: nat, i: nat, item: FortuneEvent)
    requires Live(s, c + 1) && i <= c < |s| && s[i] == Some(item)
    ensures multiset(Swapped(s, i, c)[..c]) == multiset(s[..c + 1]) - multiset{Some(item)}
    ensures Live(Swapped(s, i, c), c + 1)
  {
    RemoveKeepsRest(s, c, i);
  }

  /**
   * Removing slot `i` by swapping it with the last live slot `c` (the new
   * count) leaves the live multiset short of exactly that slot.
   */
  lemma RemoveKeepsRest(s: Slots, c: nat, i: nat)
    requires i <= c < |s|
    ensures multiset(Swapped(s, i, c)[..c]) == multiset(s[..c + 1]) - multiset{s[i]}
  {
    var t := Swapped(s, i, c);
    if i == c {
      assert t == s;
      assert s[..c + 1] == s[..c] + [s[c]];
    } else {
      assert s[..c + 1] == s[..i] + [s[i]] + s[i + 1..c] + [s[c]];
      assert t[..c] == s[..i] + [s[c]] + s[i + 1..c];
    }
  }

  /** After that swap, an event less than its parent leaves an up hole. */
  lemma RemoveUpHole(s: Slots, c: nat, i: nat)
    requires HeapOrdered(s, c + 1) && i <= c
    requires Less(Swapped(s, i, c)[i].value, Swapped(s, i, c)[Parent(i)].value)
    ensures UpHole(Swapped(s, i, c), c, i)
  {
    var t := Swapped(s, i, c);
    if i < c {
      var p := Parent(i);
      forall j | 0 < j < c && j != i
        ensures !Less(t[j].value, t[Parent(j)].value)
      {
        if Parent(j) == i {
          LessTransitive(s[p].value, s[i].value, s[j].value);
        }
      }
      forall j | 0 < j < c && 0 < i && Parent(j) == i
        ensures !Less(t[j].value, t[p].value)
      {
        LessTransitive(s[p].value, s[i].value, s[j].value);
      }
    }
  }

  /** After that swap, an event not less than its parent leaves a down hole. */
  lemma RemoveDownHole(s: Slots, c: nat, i: nat)
    requires HeapOrdered(s, c + 1) && i <= c
    requires !Less(Swapped(s, i, c)[i].value, Swapped(s, i, c)[Parent(i)].value)
    ensures DownHole(Swapped(s, i, c), c, i)
  {
    var t := Swapped(s, i, c);
    if i < c {
      var p := Parent(i);
      forall j | 0 < j < c && 0 < i && Parent(j) == i
        ensures !Less(t[j].value, t[p].value)
      {
        LessTransitive(s[p].value, s[i].value, s[j].value);
      }
    }
  }

  class MinHeap {
    var items: array<Option<FortuneEvent>>
    var capacity: int
    var count: int

    /** The queue invariant: capacity is the array's length and the live prefix is a heap. */
    ghost predicate Valid()
      reads this, items
    {
      items.Length == capacity && 0 <= count <= capacity && HeapOrdered(items[..], count)
    }

    /** The live events, as a multiset of slots. */
    ghost function Elements(): multiset<Option<FortuneEvent>>
      reads this, items
      requires 0 <= count <= items.Length
    {
      multiset(items[..count])
    }

    /**
     * A heap fresh from the pool, before `Init`: no capacity; the empty
     * array stands for the null `Items`.
     */
    constructor ()
      ensures Valid() && capacity == 0 && count == 0 && Elements() == multiset{}
    {
      items := new Option<FortuneEvent>[0];
      capacity := 0;
      count := 0;
    }

    method Init(capacity: int)
      requires Valid()
      modifies this
      ensures Valid() && count == 0
      ensures var wanted := if capacity < 2 then 2 else capacity;
        && this.capacity == (if old(this.capacity) < wanted then wanted else old(this.capacity))
        && (old(this.capacity) < wanted ==> fresh(items) && forall i :: 0 <= i < items.Length ==> items[i] == None)
        && (old(this.capacity) >= wanted ==> items == old(items) && items[..] == old(items[..]))
      ensures this.capacity >= 2 && this.capacity >= old(this.capacity)
    {
      var wanted := capacity;
      if wanted < 2 {
        wanted := 2;
      }
      if this.capacity < wanted {
        this.capacity := wanted;
        items := new Option<FortuneEvent>[wanted](_ => None);
      }
      count := 0;
    }

    /** Empties the queue and nulls every slot. */
    method Clear()
      requires Valid()
      modifies this, items
      ensures Valid() && items == old(items) && capacity == old(capacity)
      ensures count == 0 && Elements() == multiset{}
      ensures forall i :: 0 <= i < items.Length ==> items[i] == None
    {
      forall i | 0 <= i < items.Length {
        items[i] := None;
      }
      count := 0;
    }

    method Insert(obj: FortuneEvent) returns (ok: bool)
      requires Valid()
      modifies this, items
      ensures Valid() && items == old(items) && capacity == old(capacity)
      ensures ok <==> old(count) < capacity
      ensures !ok ==> count == old(count) && items[..] == old(items[..])
      ensures ok ==> count == old(count) + 1 && Elements() == old(Elements()) + multiset{Some(obj)}
    {
      if count == capacity {
        return false;
      }
      items[count] := Some(obj);
      count := count + 1;
      assert items[..count] == old(items[..count]) + [Some(obj)];
      PercolateUp(count - 1);
      return true;
    }

    /** Removes and returns a minimum; `None` is the "Min heap is empty" exception. */
    method Pop() returns (r: Option<FortuneEvent>)
      requires Valid()
      modifies this, items
      ensures Valid() && items == old(items) && capacity == old(capacity)
      ensures old(count) == 0 ==> r == None && count == 0 && items[..] == old(items[..])
      ensures old(count) > 0 ==> r.Some? && IsMinimum(r.value, old(items[..count]))
      ensures old(count) > 0 ==> count == old(count) - 1 && Elements() == old(Elements()) - multiset{r}
    {
      if count == 0 {
        return None;
      }
      RootIsMinimumOfPrefix(items[..], count);
      if count == 1 {
        count := count - 1;
        assert old(items[..1]) == [items[0]];
        return items[count];
      }
      var min := items[0];
      ghost var s := items[..];
      assert s[..count] == old(items[..count]);
      PopHole(s, count);
      items[0] := items[count - 1];
      count := count - 1;
      assert items[..] == s[0 := s[count]];
      assert items[..count] == s[0 := s[count]][..count];
      PercolateDown(0);
      assert Elements() == multiset(s[..count + 1]) - multiset{min};
      return min;
    }

    /** A minimum without removing it; `None` is the "Min heap is empty" exception. */
    method Peek() returns (r: Option<FortuneEvent>)
      requires Valid()
      ensures r.None? <==> count == 0
      ensures r.Some? ==> IsMinimum(r.value, items[..count])
    {
      if count == 0 {
        return None;
      }
      RootIsMinimumOfPrefix(items[..], count);
      return items[0];
    }

    /** Removes the first live slot equal to `item`, if there is one. */
    method Remove(item: FortuneEvent) returns (ok: bool)
      requires Valid()
      modifies this, items
      ensures Valid() && items == old(items) && capacity == old(capacity)
      ensures ok <==> Some(item) in old(items[..count])
      ensures !ok ==> count == old(count) && items[..] == old(items[..])
      ensures ok ==> count == old(count) - 1 && Elements() == old(Elements()) - multiset{Some(item)}
    {
      var index := IndexOf(item);
      if index == -1 {
        return false;
      }
      ghost var s := items[..];
      count := count - 1;
      RemoveSwap(s, count, index, item);
      Swap(index, count);
      if LeftLessThanRight(index, Parent(index)) {
        RemoveUpHole(s, count, index);
        PercolateUp(index);
      } else {
        RemoveDownHole(s, count, index);
        PercolateDown(index);
      }
      return true;
    }

    /** The search loop of `Remove`: the first live slot holding `item`, or -1. */
    method IndexOf(item: FortuneEvent) returns (index: int)
      requires Valid()
      ensures index == -1 <==> Some(item) !in items[..count]
      ensures index != -1 ==> 0 <= index < count && items[index] == Some(item)
      ensures index != -1 ==> Some(item) !in items[..index]
    {
      index := -1;
      for i := 0 to count
        invariant index == -1
        invariant Some(item) !in items[..i]
      {
        if items[i] == Some(item) {
          index := i;
          break;
        }
      }
    }

    /** Moves the event at `index` down until neither child is less than it. */
    method PercolateDown(index: nat)
      requires items.Length == capacity && 0 <= count <= capacity && index <= count
      requires DownHole(items[..], count, index)
      modifies items
      ensures Valid()
      ensures Elements() == old(Elements())
      ensures items[count..] == old(items[count..])
    {
      var i := index;
      while true
        invariant i <= count
        invariant DownHole(items[..], count, i)
        invariant Elements() == old(Elements())
        invariant items[count..] == old(items[count..])
        decreases count - i
      {
        var left := 2 * i + 1;
        var right := 2 * i + 2;
        var largest := i;
        if left < count && LeftLessThanRight(left, largest) {
          largest := left;
        }
        if right < count && LeftLessThanRight(right, largest) {
          largest := right;
        }
        if largest == i {
          DownHoleDone(items[..], count, i);
          return;
        }
        DownStep(items[..], count, i, largest);
        SwapKeepsMultiset(items[..], count, i, largest);
        SwapKeepsTail(items[..], count, i, largest);
        Swap(i, largest);
        i := largest;
      }
    }

    /** Moves the event at `index` up until its parent is less than it. */
    method PercolateUp(index: nat)
      requires items.Length == capacity && 0 <= count <= capacity
      requires UpHole(items[..], count, index)
      modifies items
      ensures Valid()
      ensures Elements() == old(Elements())
      ensures items[count..] == old(items[count..])
    {
      var i: nat := index;
      while true
        invariant UpHole(items[..], count, i)
        invariant Elements() == old(Elements())
        invariant items[count..] == old(items[count..])
        decreases i
      {
        if i >= count || i <= 0 {
          UpHoleDone(items[..], count, i);
          return;
        }
        var parent := (i - 1) / 2;
        if LeftLessThanRight(parent, i) {
          CompareToAntisymmetric(items[parent].value, items[i].value);
          UpHoleDone(items[..], count, i);
          return;
        }
        UpStep(items[..], count, i);
        SwapKeepsMultiset(items[..], count, i, parent);
        SwapKeepsTail(items[..], count, i, parent);
        Swap(i, parent);
        i := parent;
      }
    }

    /** `Items[left].CompareTo(Items[right]) < 0`: strictly earlier in (y, x) order. */
    function LeftLessThanRight(left: int, right: int): (b: bool)
      reads this, items
      requires 0 <= left < items.Length && 0 <= right < items.Length
      requires items[left].Some? && items[right].Some?
      ensures b <==> LexLess(items[left].value, items[right].value)
    {
      Less(items[left].value, items[right].value)
    }

    method Swap(left: int, right: int)
      requires 0 <= left < items.Length && 0 <= right < items.Length
      modifies items
      ensures items[..] == Swapped(old(items[..]), left, right)
    {
      var temp := items[left];
      items[left] := items[right];
      items[right] := temp;
    }
  }
}
