/** The bounded min-heap of top queries (src/k_heap.c): it keeps the greatest nodes it was offered, and is then sorted
    in place. The keys are fields of the nodes it points to. */
module Heaps {
  import opened Ewma
  import opened XNodes
  import opened Ordering

  /** A k_node with its numbers at one moment. */
  datatype Item = Item(node: KNode, key: Flow)

  predicate Le(s: Spec, a: Item, b: Item) {
    Cmp(s, a.key, b.key) <= 0
  }

  // ---------- heaps as sequences ----------

  ghost predicate Above(s: Spec, v: seq<Item>, j: nat)
    requires 0 < j < |v|
  {
    Le(s, v[(j - 1) / 2], v[j])
  }

  /** The first n entries form a min-heap. */
  ghost predicate IsHeap(s: Spec, v: seq<Item>, n: nat)
    requires n <= |v|
  {
    forall j {:trigger Above(s, v, j)} :: 0 < j < n ==> Above(s, v, j)
  }

  ghost predicate Bridged(s: Spec, v: seq<Item>, i: nat, j: nat)
    requires 0 < i && i < |v| && j < |v|
  {
    Le(s, v[(i - 1) / 2], v[j])
  }

  /** A heap but for the entry at i, which may be too great for its place. */
  ghost predicate HeavyAt(s: Spec, v: seq<Item>, n: nat, i: nat)
    requires i < n <= |v|
  {
    && (forall j {:trigger Above(s, v, j)} :: 0 < j < n && (j - 1) / 2 != i ==> Above(s, v, j))
    && (i > 0 ==> forall j {:trigger Bridged(s, v, i, j)} :: 0 < j < n && (j - 1) / 2 == i ==> Bridged(s, v, i, j))
  }

  /** A heap but for the entry at i, which may be too small for its place. */
  ghost predicate LightAt(s: Spec, v: seq<Item>, n: nat, i: nat)
    requires i < n <= |v|
  {
    && (forall j {:trigger Above(s, v, j)} :: 0 < j < n && j != i ==> Above(s, v, j))
    && (i > 0 ==> forall j {:trigger Bridged(s, v, i, j)} :: 0 < j < n && (j - 1) / 2 == i ==> Bridged(s, v, i, j))
  }

  function Swap(v: seq<Item>, i: nat, j: nat): seq<Item>
    requires i < |v| && j < |v|
  {
    v[i := v[j]][j := v[i]]
  }

  lemma SwapPermutes(v: seq<Item>, i: nat, j: nat)
    requires i < |v| && j < |v|
    ensures multiset(Swap(v, i, j)) == multiset(v)
  {
  }

  /** One step of sifting down: the lesser child c of i moves up. */
  lemma SwapDown(s: Spec, v: seq<Item>, n: nat, i: nat, c: nat)
    requires i < c < n <= |v| && (c - 1) / 2 == i && HeavyAt(s, v, n, i)
    requires forall j :: 0 < j < n && (j - 1) / 2 == i ==> Le(s, v[c], v[j])
    requires Le(s, v[c], v[i])
    ensures HeavyAt(s, Swap(v, i, c), n, c)
  {
    var w := Swap(v, i, c);
    forall j | 0 < j < n && (j - 1) / 2 != c ensures Above(s, w, j) {
      if (j - 1) / 2 == i {
        if j == c {
        } else {
          assert Le(s, v[c], v[j]);
        }
      } else if j == i {
        assert Bridged(s, v, i, c);
      } else {
        assert Above(s, v, j);
      }
    }
    forall j | 0 < j < n && (j - 1) / 2 == c ensures Bridged(s, w, c, j) {
      assert Above(s, v, j);
    }
  }

  lemma HeavyFits(s: Spec, v: seq<Item>, n: nat, i: nat)
    requires i < n <= |v| && HeavyAt(s, v, n, i)
    requires forall j :: 0 < j < n && (j - 1) / 2 == i ==> Le(s, v[i], v[j])
    ensures IsHeap(s, v, n)
  {
    forall j | 0 < j < n ensures Above(s, v, j) {
      if (j - 1) / 2 == i {
        assert Le(s, v[i], v[j]);
      } else {
        assert Above(s, v, j);
      }
    }
  }

  /** One step of sifting up: the parent of i moves down. */
  lemma SwapUp(s: Spec, v: seq<Item>, n: nat, i: nat)
    requires 0 < i < n <= |v| && LightAt(s, v, n, i) && !Le(s, v[(i - 1) / 2], v[i])
    ensures LightAt(s, Swap(v, i, (i - 1) / 2), n, (i - 1) / 2)
  {
    var p := (i - 1) / 2;
    var w := Swap(v, i, p);
    CmpTotal(s, v[p].key, v[i].key);
    forall j | 0 < j < n && j != p ensures Above(s, w, j) {
      if (j - 1) / 2 == i {
        assert Bridged(s, v, i, j);
      } else if j == i {
      } else if (j - 1) / 2 == p {
        assert Above(s, v, j);
        CmpTrans(s, v[i].key, v[p].key, v[j].key);
      } else {
        assert Above(s, v, j);
      }
    }
    if p > 0 {
      assert Above(s, v, p);
      forall j | 0 < j < n && (j - 1) / 2 == p ensures Bridged(s, w, p, j) {
        if j != i {
          assert Above(s, v, j);
          CmpTrans(s, v[(p - 1) / 2].key, v[p].key, v[j].key);
        }
      }
    }
  }

  lemma LightFits(s: Spec, v: seq<Item>, n: nat, i: nat)
    requires i < n <= |v| && LightAt(s, v, n, i) && (i > 0 ==> Le(s, v[(i - 1) / 2], v[i]))
    ensures IsHeap(s, v, n)
  {
    forall j | 0 < j < n ensures Above(s, v, j) {
      if j != i {
        assert Above(s, v, j);
      }
    }
  }

  lemma {:induction false} RootIsLeast(s: Spec, v: seq<Item>, n: nat, j: nat)
    requires j < n <= |v| && IsHeap(s, v, n)
    ensures Le(s, v[0], v[j])
  {
    if j == 0 {
      CmpTotal(s, v[0].key, v[0].key);
    } else {
      RootIsLeast(s, v, n, (j - 1) / 2);
      assert Above(s, v, j);
      CmpTrans(s, v[0].key, v[(j - 1) / 2].key, v[j].key);
    }
  }

  // ---------- what the heap is for ----------

  /** `items` are the greatest `limit` of the candidates, and every candidate left out compares at most equal
      to each. */
  ghost predicate TopOf(s: Spec, limit: nat, items: seq<Item>, cands: seq<Item>) {
    && |items| == (if |cands| <= limit then |cands| else limit)
    && multiset(items) <= multiset(cands)
    && forall d, e :: d in multiset(cands) - multiset(items) && e in items ==> Le(s, d, e)
  }

  /** No entry compares greater than one before it. */
  ghost predicate NonIncreasing(s: Spec, v: seq<Item>) {
    forall i, j :: 0 <= i < j < |v| ==> Le(s, v[j], v[i])
  }

  lemma TopOfReorder(s: Spec, limit: nat, items: seq<Item>, items': seq<Item>, cands: seq<Item>)
    requires TopOf(s, limit, items, cands) && multiset(items') == multiset(items)
    ensures TopOf(s, limit, items', cands)
  {
    assert |items'| == |multiset(items')| && |items| == |multiset(items)|;
    forall d, e | d in multiset(cands) - multiset(items') && e in items' ensures Le(s, d, e) {
      assert e in multiset(items');
    }
  }

  /** Room left: the new candidate is kept. */
  lemma TopOfKeep(s: Spec, limit: nat, items: seq<Item>, items': seq<Item>, cands: seq<Item>, x: Item)
    requires TopOf(s, limit, items, cands) && |items| < limit && multiset(items') == multiset(items) + multiset{x}
    ensures TopOf(s, limit, items', cands + [x])
  {
    assert |items'| == |multiset(items')| && |items| == |multiset(items)|;
    assert multiset(cands) - multiset(items) == multiset{} by {
      assert |multiset(cands) - multiset(items)| == |multiset(cands)| - |multiset(items)|;
    }
    assert multiset(cands + [x]) - multiset(items') == multiset{};
  }

  /** Full, and the new candidate is no greater than the root: it is left out. */
  lemma TopOfSkip(s: Spec, limit: nat, items: seq<Item>, cands: seq<Item>, x: Item)
    requires TopOf(s, limit, items, cands) && |items| == limit && IsHeap(s, items, limit)
    requires limit == 0 || Le(s, x, items[0])
    ensures TopOf(s, limit, items, cands + [x])
  {
    forall d, e | d in multiset(cands + [x]) - multiset(items) && e in items ensures Le(s, d, e) {
      if d !in multiset(cands) - multiset(items) {
        assert d == x;
        var j :| 0 <= j < |items| && items[j] == e;
        RootIsLeast(s, items, limit, j);
        CmpTrans(s, x.key, items[0].key, e.key);
      }
    }
  }

  /** Full, and the new candidate is greater than the root: it takes the root's place. */
  lemma TopOfReplace(s: Spec, limit: nat, items: seq<Item>, items': seq<Item>, cands: seq<Item>, x: Item)
    requires TopOf(s, limit, items, cands) && |items| == limit > 0 && IsHeap(s, items, limit)
    requires !Le(s, x, items[0]) && multiset(items') == multiset(items[0 := x])
    ensures TopOf(s, limit, items', cands + [x])
  {
    assert |items'| == |multiset(items')| && |items| == |multiset(items[0 := x])|;
    var r := items[0];
    CmpTotal(s, x.key, r.key);
    forall d, e | d in multiset(cands + [x]) - multiset(items') && e in items' ensures Le(s, d, e) {
      assert e in multiset(items[0 := x]);
      assert Le(s, r, e) by {
        if e != x {
          var j :| 0 <= j < |items| && items[j] == e;
          RootIsLeast(s, items, limit, j);
        }
      }
      if d != r {
        assert d in multiset(cands) - multiset(items);
        assert Le(s, d, r);
        CmpTrans(s, d.key, r.key, e.key);
      }
    }
  }

  lemma ChildOf(i: nat, j: nat)
    requires 0 < j && (j - 1) / 2 == i
    ensures j == 2 * i + 1 || j == 2 * i + 2
  {
  }

  lemma PrefixPermuted(v: seq<Item>, w: seq<Item>, n: nat)
    requires n <= |v| == |w| && v[n..] == w[n..] && multiset(v) == multiset(w)
    ensures multiset(v[..n]) == multiset(w[..n])
  {
    assert v == v[..n] + v[n..] && w == w[..n] + w[n..];
    assert multiset(v[..n]) == multiset(v) - multiset(v[n..]);
    assert multiset(w[..n]) == multiset(w) - multiset(w[n..]);
  }

  ghost predicate LeastChild(s: Spec, v: seq<Item>, n: nat, i: nat, c: nat)
    requires i < c < n <= |v|
  {
    forall j :: 0 < j < n && (j - 1) / 2 == i ==> Le(s, v[c], v[j])
  }

  lemma LeastOfTwo(s: Spec, v: seq<Item>, n: nat, i: nat, c: nat)
    requires n <= |v| && (c == 2 * i + 1 || c == 2 * i + 2) && c < n
    requires Le(s, v[c], v[2 * i + 1]) && (2 * i + 2 < n ==> Le(s, v[c], v[2 * i + 2]))
    ensures LeastChild(s, v, n, i, c) && (c - 1) / 2 == i
  {
    forall j | 0 < j < n && (j - 1) / 2 == i ensures Le(s, v[c], v[j]) {
      ChildOf(i, j);
    }
  }

  lemma NoChildFits(s: Spec, v: seq<Item>, n: nat, i: nat)
    requires i < n <= 2 * i + 1 && n <= |v| && HeavyAt(s, v, n, i)
    ensures IsHeap(s, v, n)
  {
    HeavyFits(s, v, n, i);
  }

  lemma SinkStep(s: Spec, v: seq<Item>, n: nat, i: nat, c: nat)
    requires i < c < n <= |v| && (c - 1) / 2 == i && LeastChild(s, v, n, i, c) && HeavyAt(s, v, n, i)
    requires !Le(s, v[i], v[c])
    ensures HeavyAt(s, Swap(v, i, c), n, c) && multiset(Swap(v, i, c)) == multiset(v) && Swap(v, i, c)[n..] == v[n..]
  {
    CmpTotal(s, v[i].key, v[c].key);
    SwapDown(s, v, n, i, c);
    SwapPermutes(v, i, c);
  }

  lemma RiseStep(s: Spec, v: seq<Item>, n: nat, i: nat)
    requires 0 < i < n <= |v| && LightAt(s, v, n, i) && !Le(s, v[(i - 1) / 2], v[i])
    ensures var p, w := (i - 1) / 2, Swap(v, i, (i - 1) / 2);
      && LightAt(s, w, n, p) && multiset(w) == multiset(v) && |w| == |v| && w[p] == v[i] && w[i] == v[p]
      && forall j :: 0 <= j < |v| && j != i && j != p ==> w[j] == v[j]
  {
    SwapUp(s, v, n, i);
    SwapPermutes(v, i, (i - 1) / 2);
  }

  lemma FitsOver(s: Spec, v: seq<Item>, n: nat, i: nat, c: nat)
    requires i < c < n <= |v| && LeastChild(s, v, n, i, c) && Le(s, v[i], v[c]) && HeavyAt(s, v, n, i)
    ensures IsHeap(s, v, n)
  {
    forall j | 0 < j < n && (j - 1) / 2 == i ensures Le(s, v[i], v[j]) {
      CmpTrans(s, v[i].key, v[c].key, v[j].key);
    }
    HeavyFits(s, v, n, i);
  }

  lemma RootReplaced(s: Spec, v: seq<Item>, n: nat, x: Item)
    requires 0 < n <= |v| && IsHeap(s, v, n)
    ensures HeavyAt(s, v[0 := x], n, 0)
  {
    var w := v[0 := x];
    forall j {:trigger Above(s, w, j)} | 0 < j < n && (j - 1) / 2 != 0 ensures Above(s, w, j) {
      assert Above(s, v, j);
    }
  }

  lemma AppendedLight(s: Spec, v: seq<Item>, x: Item)
    requires IsHeap(s, v, |v|)
    ensures LightAt(s, v + [x], |v| + 1, |v|)
  {
    forall j | 0 < j < |v| + 1 && j != |v| ensures Above(s, v + [x], j) {
      assert Above(s, v, j);
    }
  }

  /** The entries from n on are in final order and none exceeds an entry before them. */
  ghost predicate SortedFrom(s: Spec, v: seq<Item>, n: nat)
    requires n <= |v|
  {
    forall i, j :: 0 <= i < j < |v| && n <= j ==> Le(s, v[j], v[i])
  }

  lemma AllSorted(s: Spec, v: seq<Item>)
    ensures SortedFrom(s, v, |v|) && (SortedFrom(s, v, 0) ==> NonIncreasing(s, v))
    ensures IsHeap(s, v, 0)
  {
  }

  lemma RootTaken(s: Spec, v: seq<Item>, n: nat)
    requires n < |v| && IsHeap(s, v, n + 1) && SortedFrom(s, v, n + 1)
    ensures SortedFrom(s, Swap(v, n, 0), n) && (n > 0 ==> HeavyAt(s, Swap(v, n, 0), n, 0))
  {
    var w := Swap(v, n, 0);
    forall i, j | 0 <= i < j < |v| && n <= j ensures Le(s, w[j], w[i]) {
      if j == n {
        RootIsLeast(s, v, n + 1, if i == 0 then n else i);
      } else {
        assert w[j] == v[j] && w[i] == v[if i == 0 then n else if i == n then 0 else i];
      }
    }
    if n > 0 {
      forall j | 0 < j < n && (j - 1) / 2 != 0 ensures Above(s, w, j) {
        assert Above(s, v, j);
      }
    }
  }

  /** Permuting the first n entries keeps the rest in order. */
  lemma SortedStays(s: Spec, v: seq<Item>, w: seq<Item>, n: nat)
    requires n <= |v| == |w| && SortedFrom(s, v, n) && v[n..] == w[n..] && multiset(v) == multiset(w)
    ensures SortedFrom(s, w, n)
  {
    PrefixPermuted(v, w, n);
    forall i, j | 0 <= i < j < |w| && n <= j ensures Le(s, w[j], w[i]) {
      assert w[j] == w[n..][j - n] == v[j];
      if i < n {
        assert w[..n][i] in multiset(w[..n]);
        assert w[i] in multiset(v[..n]);
        var m :| 0 <= m < n && v[..n][m] == w[i];
        assert v[m] == w[i];
      } else {
        assert w[i] == w[n..][i - n] == v[i];
      }
    }
  }

  class KHeap {
    const limit: nat
    const k: array<KNode?>
    var count: nat
    ghost var items: seq<Item>

    /** Places of `k` other than `hole` hold the nodes of `items`. */
    ghost predicate Holds(hole: int)
      reads this, k
    {
      && k.Length == limit && count == |items| && count <= limit
      && forall i :: 0 <= i < count && i != hole ==> k[i] == items[i].node
    }

    ghost predicate Valid()
      reads this, k
    {
      Holds(-1)
    }

    /** The keys are what the nodes show now. */
    ghost predicate Current()
      reads `items, (set i | 0 <= i < |items| :: items[i].node)`flow
    {
      forall i :: 0 <= i < |items| ==> items[i].node.flow == items[i].key
    }

    /** k_heap_init */
    constructor (limit: nat)
      ensures Valid() && Current() && items == [] && this.limit == limit && fresh(k)
    {
      this.limit := limit;
      k := new KNode?[limit];
      count := 0;
      items := [];
    }

    /** The index of the lesser child of i among the first n places. */
    method LesserChild(spec: Spec, n: nat, i: nat) returns (c: nat)
      requires 2 * i + 1 < n <= count && Holds(i) && Current()
      ensures i < c < n && (c - 1) / 2 == i && LeastChild(spec, items, n, i, c)
    {
      c := 2 * i + 1;
      var r := 2 * i + 2;
      CmpTotal(spec, items[c].key, items[c].key);
      if r < n {
        var less := KTopCmp(spec, k[r], k[c]);
        CmpTotal(spec, items[r].key, items[c].key);
        CmpTotal(spec, items[r].key, items[r].key);
        if less < 0 {
          c := r;
        }
      }
      LeastOfTwo(spec, items, n, i, c);
    }

    /** The sifting loop of k_heap_add_full and k_heap_order: `x` belongs at index 0 of the first n places, moves down
        past lesser children, and is put where none is less. */
    method SiftDown(spec: Spec, x: KNode, n: nat)
      requires 0 < n <= count && Holds(0) && Current() && items[0].node == x && HeavyAt(spec, items, n, 0)
      modifies k, `items
      ensures Valid() && Current() && IsHeap(spec, items, n)
      ensures |items| == |old(items)| && items[n..] == old(items)[n..] && multiset(items) == multiset(old(items))
    {
      hide HeavyAt, IsHeap, LeastChild, Cmp;
      var i: nat := 0;
      while true
        invariant i < n <= count && Holds(i) && Current() && items[i].node == x && HeavyAt(spec, items, n, i)
        invariant |items| == |old(items)| && items[n..] == old(items)[n..] && multiset(items) == multiset(old(items))
        decreases n - i
      {
        if 2 * i + 1 >= n {
          NoChildFits(spec, items, n, i);
          break;
        }
        var c := LesserChild(spec, n, i);
        var fits := KTopCmp(spec, x, k[c]);
        if fits <= 0 {
          FitsOver(spec, items, n, i, c);
          break;
        }
        SinkStep(spec, items, n, i, c);
        k[i] := k[c];
        items := Swap(items, i, c);
        i := c;
      }
      k[i] := x;
    }

    /** k_heap_add_full: the new node takes the root's place, or is left out. */
    method AddFull(spec: Spec, x: KNode)
      requires Valid() && Current() && count == limit > 0 && IsHeap(spec, items, count)
      modifies k, `items
      ensures Valid() && Current() && IsHeap(spec, items, count)
      ensures if Le(spec, Item(x, x.flow), old(items)[0]) then items == old(items)
              else multiset(items) == multiset(old(items)[0 := Item(x, x.flow)])
    {
      var c := KTopCmp(spec, x, k[0]);
      if c <= 0 {
        return;
      }
      RootReplaced(spec, items, count, Item(x, x.flow));
      items := items[0 := Item(x, x.flow)];
      SiftDown(spec, x, count);
    }

    /** The sifting loop of k_heap_add: `x` belongs at the last place and moves up past greater parents. */
    method SiftUp(spec: Spec, x: KNode, ghost e: Item)
      requires 0 < count && Holds(count - 1) && Current() && LightAt(spec, items, count, count - 1)
      requires items[count - 1] == e && e.node == x
      modifies k, `items
      ensures Valid() && Current() && IsHeap(spec, items, count) && multiset(items) == multiset(old(items))
    {
      hide LightAt, IsHeap, Cmp, Swap;
      var i: nat := count - 1;
      while i != 0
        invariant i < count && Holds(i) && Current() && items[i] == e && LightAt(spec, items, count, i)
        invariant multiset(items) == multiset(old(items))
        decreases i
      {
        var p: nat := (i - 1) / 2;
        var c := KTopCmp(spec, k[p], x);
        if c <= 0 {
          break;
        }
        RiseStep(spec, items, count, i);
        k[i] := k[p];
        items := Swap(items, i, p);
        i := p;
      }
      LightFits(spec, items, count, i);
      k[i] := x;
    }

    /** k_heap_add: whatever was offered before, the heap goes on holding the greatest of all candidates. */
    method Add(spec: Spec, x: KNode, ghost cands: seq<Item>)
      requires Valid() && Current() && IsHeap(spec, items, count) && TopOf(spec, limit, items, cands)
      modifies k, `items, `count
      ensures Valid() && Current() && IsHeap(spec, items, count)
      ensures TopOf(spec, limit, items, cands + [Item(x, x.flow)])
    {
      hide IsHeap, TopOf, LightAt;
      ghost var was, e := items, Item(x, x.flow);
      if limit == 0 {
        TopOfSkip(spec, limit, items, cands, e);
        return;
      }
      if count == limit {
        AddFull(spec, x);
        if Le(spec, e, was[0]) {
          TopOfSkip(spec, limit, was, cands, e);
        } else {
          TopOfReplace(spec, limit, was, items, cands, e);
        }
        return;
      }
      AppendedLight(spec, was, e);
      count := count + 1;
      items := items + [e];
      SiftUp(spec, x, e);
      TopOfKeep(spec, limit, was, items, cands, e);
    }

    /** k_heap_order: sort the heap in place, greatest first. */
    method Order(spec: Spec)
      requires Valid() && Current() && IsHeap(spec, items, count)
      modifies k, `items
      ensures Valid() && Current() && NonIncreasing(spec, items) && multiset(items) == multiset(old(items))
    {
      hide IsHeap, HeavyAt, SortedFrom, NonIncreasing, Le;
      var n: nat := count;
      AllSorted(spec, items);
      while n > 0
        invariant Valid() && n <= count && Current() && IsHeap(spec, items, n) && SortedFrom(spec, items, n)
        invariant multiset(items) == multiset(old(items))
      {
        n := n - 1;
        ghost var was := items;
        var x := k[n];
        k[n] := k[0];
        items := Swap(items, n, 0);
        SwapPermutes(was, n, 0);
        RootTaken(spec, was, n);
        AllSorted(spec, items);
        if n > 0 {
          SiftDown(spec, x, n);
          SortedStays(spec, Swap(was, n, 0), items, n);
        } else {
          k[0] := x;
        }
      }
      AllSorted(spec, items);
    }
  }
}
