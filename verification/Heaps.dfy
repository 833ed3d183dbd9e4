/** The in-place binary and four-way heaps, as one heap over its arity. */
module Heaps {
  import opened Runs

  /** A key with its value.  Pairs are compared by key alone. */
  datatype Pair<+V> = Pair(key: int, value: V)

  function Parent(d: nat, i: nat): (p: nat)
    requires d > 0 && i > 0
    ensures p < i
  {
    DivBelow(i - 1, d);
    (i - 1) / d
  }

  lemma DivBelow(x: nat, d: nat)
    requires d > 0
    ensures x / d <= x
  {
    var q: nat := x / d;
    TimesAtLeast(q, d);
    assert x == q * d + x % d;
  }

  lemma {:induction false} TimesAtLeast(q: nat, d: nat)
    requires d > 0
    ensures q * d >= q
  {
    if q > 0 {
      TimesAtLeast(q - 1, d);
      assert q * d == (q - 1) * d + d;
    }
  }

  /** The `k`-th child of `i`, for `k` from 1 to `d`. */
  function Child(d: nat, i: nat, k: nat): nat {
    i * d + k
  }

  function Swap<V>(h: seq<Pair<V>>, i: nat, j: nat): (r: seq<Pair<V>>)
    requires i < |h| && j < |h|
    ensures |r| == |h|
  {
    h[i := h[j]][j := h[i]]
  }

  function SiftUp<V>(d: nat, h: seq<Pair<V>>, i: nat): (r: seq<Pair<V>>)
    requires d > 0 && i < |h|
    ensures |r| == |h|
    decreases i
  {
    if i > 0 && h[i].key < h[Parent(d, i)].key
    then SiftUp(d, Swap(h, i, Parent(d, i)), Parent(d, i))
    else h
  }

  /** The place the scan over `i` and its first `k` children settles on. */
  function Least<V>(d: nat, h: seq<Pair<V>>, i: nat, k: nat): (m: nat)
    requires d > 0 && i < |h| && k <= d
    ensures m < |h| && i <= m
  {
    if k == 0 then i
    else
      var m, c := Least(d, h, i, k - 1), Child(d, i, k);
      if c < |h| && h[c].key < h[m].key then c else m
  }

  function SiftDown<V>(d: nat, h: seq<Pair<V>>, i: nat): (r: seq<Pair<V>>)
    requires d > 0 && i < |h|
    ensures |r| == |h|
    decreases |h| - i
  {
    var m := Least(d, h, i, d);
    if m != i then SiftDown(d, Swap(h, i, m), m) else h
  }

  function Push<V>(d: nat, h: seq<Pair<V>>, p: Pair<V>): (r: seq<Pair<V>>)
    requires d > 0
    ensures |r| == |h| + 1
  {
    SiftUp(d, h + [p], |h|)
  }

  /** The heap after removing its first pair. */
  function RemoveMin<V>(d: nat, h: seq<Pair<V>>): (r: seq<Pair<V>>)
    requires d > 0 && |h| > 0
    ensures |r| == |h| - 1
  {
    var n := |h| - 1;
    if n == 0 then [] else SiftDown(d, h[..n][0 := h[n]], 0)
  }

  // ----- index arithmetic -----

  lemma ParentOfChild(d: nat, i: nat, k: nat)
    requires d > 0 && 1 <= k <= d
    ensures Child(d, i, k) > 0 && Parent(d, Child(d, i, k)) == i
  {
    assert Child(d, i, k) - 1 == i * d + (k - 1);
    DivUnique(d, i, k - 1);
  }

  lemma DivUnique(d: nat, q: nat, r: nat)
    requires r < d
    ensures (q * d + r) / d == q
  {
    var x := (q * d + r) / d;
    assert q * d + r == x * d + (q * d + r) % d;
    NextMultiple(x, q, d);
    NextMultiple(q, x, d);
  }

  lemma NextMultiple(a: nat, b: nat, d: nat)
    ensures a < b ==> (a + 1) * d <= b * d
  {
    if a < b {
      assert (b - (a + 1)) * d >= 0;
    }
  }

  /** Every place but the root is one of its parent's `d` children. */
  lemma ChildOfParent(d: nat, j: nat) returns (k: nat)
    requires d > 0 && j > 0
    ensures 1 <= k <= d && Child(d, Parent(d, j), k) == j
  {
    k := (j - 1) % d + 1;
    assert (j - 1) / d * d + (j - 1) % d == j - 1;
  }

  // ----- heap order -----

  ghost predicate HeapOrdered<V>(d: nat, h: seq<Pair<V>>)
    requires d > 0
  {
    forall j :: 0 < j < |h| ==> Above(d, h, j)
  }

  ghost predicate Above<V>(d: nat, h: seq<Pair<V>>, j: nat)
    requires d > 0 && 0 < j < |h|
  {
    Parent(d, j) < |h| && h[Parent(d, j)].key <= h[j].key
  }

  /** Heap order but for the link above `i`, and `i`'s children do not sink below `i`'s parent. */
  ghost predicate OrderedButAbove<V>(d: nat, h: seq<Pair<V>>, i: nat)
    requires d > 0 && i < |h|
  {
    && (forall j :: 0 < j < |h| && j != i ==> Above(d, h, j))
    && (i > 0 ==> Grandchildren(d, h, i))
  }

  /** Heap order but for the links below `i`, and `i`'s children do not sink below `i`'s parent. */
  ghost predicate OrderedButBelow<V>(d: nat, h: seq<Pair<V>>, i: nat)
    requires d > 0 && i < |h|
  {
    && (forall j :: 0 < j < |h| && Parent(d, j) != i ==> Above(d, h, j))
    && (i > 0 ==> Grandchildren(d, h, i))
  }

  ghost predicate Grandchildren<V>(d: nat, h: seq<Pair<V>>, i: nat)
    requires d > 0 && 0 < i < |h|
  {
    && Parent(d, i) < |h|
    && forall j :: 0 < j < |h| && Parent(d, j) == i ==> h[Parent(d, i)].key <= h[j].key
  }

  lemma SwapUpKeepsOrder<V>(d: nat, h: seq<Pair<V>>, i: nat)
    requires d > 0 && 0 < i < |h| && OrderedButAbove(d, h, i)
    requires h[i].key < h[Parent(d, i)].key
    ensures OrderedButAbove(d, Swap(h, i, Parent(d, i)), Parent(d, i))
  {
    var p := Parent(d, i);
    var t := Swap(h, i, p);
    forall j | 0 < j < |t| && j != p
      ensures Above(d, t, j)
    {
      if j != i { assert Above(d, h, j); }
    }
    if p > 0 {
      assert Above(d, h, p);
      forall j | 0 < j < |t| && Parent(d, j) == p
        ensures t[Parent(d, p)].key <= t[j].key
      {
        if j != i { assert Above(d, h, j); }
      }
    }
  }

  lemma {:induction false} SiftUpOrders<V>(d: nat, h: seq<Pair<V>>, i: nat)
    requires d > 0 && i < |h| && OrderedButAbove(d, h, i)
    ensures HeapOrdered(d, SiftUp(d, h, i))
    decreases i
  {
    if i > 0 {
      if h[i].key < h[Parent(d, i)].key {
        SwapUpKeepsOrder(d, h, i);
        SiftUpOrders(d, Swap(h, i, Parent(d, i)), Parent(d, i));
      } else {
        forall j | 0 < j < |h|
          ensures Above(d, h, j)
        {
          if j == i { assert Above(d, h, i); }
        }
      }
    }
  }

  /** The scan finds a least key among `i` and its children, and stays on `i` or a child. */
  lemma {:induction false} LeastIsLeast<V>(d: nat, h: seq<Pair<V>>, i: nat, k: nat)
    requires d > 0 && i < |h| && k <= d
    ensures var m := Least(d, h, i, k);
            && h[m].key <= h[i].key && (m != i ==> h[m].key < h[i].key && m > 0 && Parent(d, m) == i)
            && forall c :: 1 <= c <= k && Child(d, i, c) < |h| ==> h[m].key <= h[Child(d, i, c)].key
  {
    if k > 0 {
      LeastIsLeast(d, h, i, k - 1);
      ParentOfChild(d, i, k);
    }
  }

  lemma LeastBoundsChildren<V>(d: nat, h: seq<Pair<V>>, i: nat, j: nat)
    requires d > 0 && i < |h| && 0 < j < |h| && Parent(d, j) == i
    ensures h[Least(d, h, i, d)].key <= h[j].key
  {
    LeastIsLeast(d, h, i, d);
    var k := ChildOfParent(d, j);
  }

  lemma SwapDownKeepsOrder<V>(d: nat, h: seq<Pair<V>>, i: nat)
    requires d > 0 && i < |h| && OrderedButBelow(d, h, i) && Least(d, h, i, d) != i
    ensures OrderedButBelow(d, Swap(h, i, Least(d, h, i, d)), Least(d, h, i, d))
  {
    var m := Least(d, h, i, d);
    LeastIsLeast(d, h, i, d);
    var t := Swap(h, i, m);
    forall j | 0 < j < |t| && Parent(d, j) != m
      ensures Above(d, t, j)
    {
      if Parent(d, j) == i {
        LeastBoundsChildren(d, h, i, j);
      } else {
        assert Above(d, h, j);
      }
    }
    forall j | 0 < j < |t| && Parent(d, j) == m
      ensures t[Parent(d, m)].key <= t[j].key
    {
      assert Above(d, h, j);
    }
  }

  lemma {:induction false} SiftDownOrders<V>(d: nat, h: seq<Pair<V>>, i: nat)
    requires d > 0 && i < |h| && OrderedButBelow(d, h, i)
    ensures HeapOrdered(d, SiftDown(d, h, i))
    decreases |h| - i
  {
    var m := Least(d, h, i, d);
    if m != i {
      SwapDownKeepsOrder(d, h, i);
      SiftDownOrders(d, Swap(h, i, m), m);
    } else {
      forall j | 0 < j < |h|
        ensures Above(d, h, j)
      {
        if Parent(d, j) == i { LeastBoundsChildren(d, h, i, j); }
      }
    }
  }

  // ----- conservation -----

  lemma SwapConserves<V>(h: seq<Pair<V>>, i: nat, j: nat)
    requires i < |h| && j < |h|
    ensures multiset(Swap(h, i, j)) == multiset(h)
  {
  }

  lemma {:induction false} SiftUpConserves<V>(d: nat, h: seq<Pair<V>>, i: nat)
    requires d > 0 && i < |h|
    ensures multiset(SiftUp(d, h, i)) == multiset(h)
    decreases i
  {
    if i > 0 && h[i].key < h[Parent(d, i)].key {
      SwapConserves(h, i, Parent(d, i));
      SiftUpConserves(d, Swap(h, i, Parent(d, i)), Parent(d, i));
    }
  }

  lemma {:induction false} SiftDownConserves<V>(d: nat, h: seq<Pair<V>>, i: nat)
    requires d > 0 && i < |h|
    ensures multiset(SiftDown(d, h, i)) == multiset(h)
    decreases |h| - i
  {
    var m := Least(d, h, i, d);
    if m != i {
      SwapConserves(h, i, m);
      SiftDownConserves(d, Swap(h, i, m), m);
    }
  }

  /** A push keeps heap order and adds exactly its pair. */
  lemma PushCorrect<V>(d: nat, h: seq<Pair<V>>, p: Pair<V>)
    requires d > 0 && HeapOrdered(d, h)
    ensures HeapOrdered(d, Push(d, h, p))
    ensures multiset(Push(d, h, p)) == multiset(h) + multiset{p}
  {
    var t := h + [p];
    forall j | 0 < j < |t|
      ensures (j != |h| ==> Above(d, t, j)) && Parent(d, j) != |h|
    {
      if j != |h| { assert Above(d, h, j); }
    }
    SiftUpOrders(d, t, |h|);
    SiftUpConserves(d, t, |h|);
  }

  lemma {:induction false} RootIsLeast<V>(d: nat, h: seq<Pair<V>>, j: nat)
    requires d > 0 && j < |h| && HeapOrdered(d, h)
    ensures h[0].key <= h[j].key
    decreases j
  {
    if j > 0 {
      assert Above(d, h, j);
      RootIsLeast(d, h, Parent(d, j));
    }
  }

  /** An extraction returns a pair of least key, removes exactly it, and keeps heap order. */
  lemma RemoveMinCorrect<V>(d: nat, h: seq<Pair<V>>)
    requires d > 0 && |h| > 0 && HeapOrdered(d, h)
    ensures HeapOrdered(d, RemoveMin(d, h))
    ensures multiset(RemoveMin(d, h)) + multiset{h[0]} == multiset(h)
    ensures forall p :: p in h ==> h[0].key <= p.key
  {
    forall p | p in h ensures h[0].key <= p.key {
      var j :| 0 <= j < |h| && h[j] == p;
      RootIsLeast(d, h, j);
    }
    var n := |h| - 1;
    assert h == h[..n] + [h[n]];
    if n > 0 {
      var t := h[..n][0 := h[n]];
      assert h[..n] == [h[0]] + h[1..n] && t == [h[n]] + h[1..n];
      forall j | 0 < j < |t| && Parent(d, j) != 0
        ensures Above(d, t, j)
      {
        assert Above(d, h, j);
      }
      SiftDownOrders(d, t, 0);
      SiftDownConserves(d, t, 0);
    }
  }

  // ----- the same keys from every arity -----

  /** The keys stored, with their multiplicities. */
  function KeyBag<V>(h: seq<Pair<V>>): multiset<int> {
    if h == [] then multiset{} else multiset{h[0].key} + KeyBag(h[1..])
  }

  lemma {:induction false} KeyBagConcat<V>(a: seq<Pair<V>>, b: seq<Pair<V>>)
    ensures KeyBag(a + b) == KeyBag(a) + KeyBag(b)
  {
    if a == [] {
      assert a + b == b;
    } else {
      assert (a + b)[1..] == a[1..] + b;
      KeyBagConcat(a[1..], b);
    }
  }

  /** Taking one pair out of the middle takes its key out of the bag. */
  lemma KeyBagWithout<V>(h: seq<Pair<V>>, j: nat)
    requires j < |h|
    ensures KeyBag(h) == KeyBag(h[..j] + h[j + 1..]) + multiset{h[j].key}
  {
    var a, b := h[..j], h[j + 1..];
    assert h == a + ([h[j]] + b);
    KeyBagConcat(a, [h[j]] + b);
    KeyBagConcat(a, b);
    assert ([h[j]] + b)[1..] == b;
  }

  lemma DropFirst<V>(a: seq<Pair<V>>, b: seq<Pair<V>>) returns (j: nat)
    requires a != [] && multiset(a) == multiset(b)
    ensures j < |b| && b[j] == a[0]
    ensures multiset(a[1..]) == multiset(b[..j] + b[j + 1..])
  {
    assert a[0] in multiset(a);
    j := IndexOf(b, a[0]);
    Without(b, j);
    Without(a, 0);
    assert a[..0] + a[1..] == a[1..];
    Cancel(multiset(a[1..]), multiset(b[..j] + b[j + 1..]), a[0]);
  }

  lemma Without<X>(h: seq<X>, j: nat)
    requires j < |h|
    ensures multiset(h) == multiset(h[..j] + h[j + 1..]) + multiset{h[j]}
  {
    assert h == h[..j] + [h[j]] + h[j + 1..];
  }

  lemma IndexOf<V>(b: seq<Pair<V>>, p: Pair<V>) returns (j: nat)
    requires p in multiset(b)
    ensures j < |b| && b[j] == p
  {
    assert p in b;
    var i :| 0 <= i < |b| && b[i] == p;
    j := i;
  }

  lemma Cancel<X>(x: multiset<X>, y: multiset<X>, e: X)
    requires x + multiset{e} == y + multiset{e}
    ensures x == y
  {
    assert x == (x + multiset{e}) - multiset{e};
    assert y == (y + multiset{e}) - multiset{e};
  }

  lemma {:induction false} SamePairsSameKeys<V>(a: seq<Pair<V>>, b: seq<Pair<V>>)
    requires multiset(a) == multiset(b)
    ensures KeyBag(a) == KeyBag(b)
    decreases |a|
  {
    if a == [] {
      assert |multiset(b)| == 0;
    } else {
      var j := DropFirst(a, b);
      SamePairsSameKeys(a[1..], b[..j] + b[j + 1..]);
      KeyBagWithout(b, j);
    }
  }

  lemma {:induction false} KeyInBag<V>(h: seq<Pair<V>>, k: int)
    ensures k in KeyBag(h) <==> exists p :: p in h && p.key == k
  {
    if h != [] {
      KeyInBag(h[1..], k);
      assert h == [h[0]] + h[1..];
    }
  }

  lemma PushKeys<V>(d: nat, h: seq<Pair<V>>, p: Pair<V>)
    requires d > 0 && HeapOrdered(d, h)
    ensures KeyBag(Push(d, h, p)) == KeyBag(h) + multiset{p.key}
  {
    PushCorrect(d, h, p);
    SamePairsSameKeys(Push(d, h, p), h + [p]);
    KeyBagConcat(h, [p]);
    assert KeyBag([p]) == multiset{p.key} + KeyBag([p][1..]);
  }

  lemma RemoveMinKeys<V>(d: nat, h: seq<Pair<V>>)
    requires d > 0 && |h| > 0 && HeapOrdered(d, h)
    ensures KeyBag(RemoveMin(d, h)) + multiset{h[0].key} == KeyBag(h)
  {
    RemoveMinCorrect(d, h);
    var r := RemoveMin(d, h);
    SamePairsSameKeys(r + [h[0]], h);
    KeyBagConcat(r, [h[0]]);
    assert KeyBag([h[0]]) == multiset{h[0].key} + KeyBag([h[0]][1..]);
  }

  lemma SameKeysSameMin<V>(d: nat, g: seq<Pair<V>>, e: nat, h: seq<Pair<V>>)
    requires d > 0 && e > 0 && HeapOrdered(d, g) && HeapOrdered(e, h)
    requires KeyBag(g) == KeyBag(h) && g != [] && h != []
    ensures g[0].key == h[0].key
  {
    RemoveMinCorrect(d, g);
    RemoveMinCorrect(e, h);
    assert g[0] in g && h[0] in h;
    KeyInBag(g, h[0].key);
    KeyInBag(h, h[0].key);
    KeyInBag(g, g[0].key);
    KeyInBag(h, g[0].key);
  }

  datatype Op<V> = Insert(p: Pair<V>) | Extract

  /** The heap after a sequence of operations, and the keys its extractions returned. */
  function Run<V>(d: nat, h: seq<Pair<V>>, ops: seq<Op<V>>): (seq<Pair<V>>, seq<Option<int>>)
    requires d > 0
    decreases |ops|
  {
    if ops == [] then (h, [])
    else if ops[0].Insert? then Run(d, Push(d, h, ops[0].p), ops[1..])
    else if h == [] then var (t, out) := Run(d, h, ops[1..]); (t, [None] + out)
    else var (t, out) := Run(d, RemoveMin(d, h), ops[1..]); (t, [Some(h[0].key)] + out)
  }

  /** For every sequence of pushes and extractions, heaps of any two arities stay heaps over the
      same keys and return the same keys. */
  lemma {:induction false} ArityDoesNotShow<V>(
      d: nat, g: seq<Pair<V>>, e: nat, h: seq<Pair<V>>, ops: seq<Op<V>>)
    requires d > 0 && e > 0 && HeapOrdered(d, g) && HeapOrdered(e, h) && KeyBag(g) == KeyBag(h)
    ensures Run(d, g, ops).1 == Run(e, h, ops).1
    ensures HeapOrdered(d, Run(d, g, ops).0) && HeapOrdered(e, Run(e, h, ops).0)
    ensures KeyBag(Run(d, g, ops).0) == KeyBag(Run(e, h, ops).0)
    decreases |ops|
  {
    if ops != [] {
      if ops[0].Insert? {
        PushCorrect(d, g, ops[0].p);
        PushCorrect(e, h, ops[0].p);
        PushKeys(d, g, ops[0].p);
        PushKeys(e, h, ops[0].p);
        ArityDoesNotShow(d, Push(d, g, ops[0].p), e, Push(e, h, ops[0].p), ops[1..]);
      } else if g == [] {
        assert h == [];
        ArityDoesNotShow(d, g, e, h, ops[1..]);
      } else {
        assert h != [];
        SameKeysSameMin(d, g, e, h);
        ExtractBoth(d, g, e, h);
        ArityDoesNotShow(d, RemoveMin(d, g), e, RemoveMin(e, h), ops[1..]);
      }
    }
  }

  lemma ExtractBoth<V>(d: nat, g: seq<Pair<V>>, e: nat, h: seq<Pair<V>>)
    requires d > 0 && e > 0 && HeapOrdered(d, g) && HeapOrdered(e, h) && KeyBag(g) == KeyBag(h)
    requires g != [] && h != []
    ensures HeapOrdered(d, RemoveMin(d, g)) && HeapOrdered(e, RemoveMin(e, h))
    ensures KeyBag(RemoveMin(d, g)) == KeyBag(RemoveMin(e, h))
  {
    RemoveMinCorrect(d, g);
    RemoveMinCorrect(e, h);
    SameKeysSameMin(d, g, e, h);
    RemoveMinKeys(d, g);
    RemoveMinKeys(e, h);
    assert KeyBag(RemoveMin(d, g)) == KeyBag(g) - multiset{g[0].key};
    assert KeyBag(RemoveMin(e, h)) == KeyBag(h) - multiset{h[0].key};
  }

  /** The binary and the four-way heap, both starting empty. */
  lemma BinaryAndFourWayAgree<V>(ops: seq<Op<V>>)
    ensures Run(2, [], ops).1 == Run(4, [], ops).1
  {
    ArityDoesNotShow(2, [], 4, [], ops);
  }

  // ----- how many swaps -----

  function UpSwaps<V>(d: nat, h: seq<Pair<V>>, i: nat): nat
    requires d > 0 && i < |h|
    decreases i
  {
    if i > 0 && h[i].key < h[Parent(d, i)].key
    then 1 + UpSwaps(d, Swap(h, i, Parent(d, i)), Parent(d, i))
    else 0
  }

  function DownSwaps<V>(d: nat, h: seq<Pair<V>>, i: nat): nat
    requires d > 0 && i < |h|
    decreases |h| - i
  {
    var m := Least(d, h, i, d);
    if m != i then 1 + DownSwaps(d, Swap(h, i, m), m) else 0
  }

  function Power(d: nat, k: nat): nat {
    if k == 0 then 1 else d * Power(d, k - 1)
  }

  /** One more than `d - 1` times the index: at least `d` times larger at a child. */
  function Weight(d: nat, i: nat): nat
    requires d > 0
  {
    if i == 0 then 1 else Weight(d, i - 1) + (d - 1)
  }

  lemma {:induction false} WeightFormula(d: nat, i: nat)
    requires d > 0
    ensures Weight(d, i) == (d - 1) * i + 1
  {
    if i > 0 {
      WeightFormula(d, i - 1);
      assert (d - 1) * i == (d - 1) * (i - 1) + (d - 1);
    }
  }

  lemma {:induction false} WeightMonotone(d: nat, i: nat, j: nat)
    requires d > 0 && i <= j
    ensures 1 <= Weight(d, i) <= Weight(d, j)
    decreases j
  {
    if i < j {
      WeightMonotone(d, i, j - 1);
    } else if i > 0 {
      WeightMonotone(d, i - 1, i - 1);
    }
  }

  lemma ChildWeighsMore(d: nat, j: nat)
    requires d > 0 && j > 0
    ensures Weight(d, j) >= d * Weight(d, Parent(d, j))
  {
    var p := Parent(d, j);
    var k := ChildOfParent(d, j);
    WeightFormula(d, j);
    WeightFormula(d, p);
    ChildArithmetic(d, p, k);
  }

  lemma ChildArithmetic(d: nat, p: nat, k: nat)
    requires d > 0 && k > 0
    ensures (d - 1) * (p * d + k) + 1 >= d * ((d - 1) * p + 1)
  {
    assert (d - 1) * (p * d + k) == (d - 1) * (p * d) + (d - 1) * k;
    assert (d - 1) * (p * d) == d * ((d - 1) * p);
    TimesMonotone(1, k, d - 1);
  }

  lemma TimesMonotone(a: nat, b: nat, c: nat)
    requires a <= b
    ensures c * a <= c * b
  {
    assert c * b - c * a == c * (b - a);
  }

  lemma {:induction false} UpSwapsBound<V>(d: nat, h: seq<Pair<V>>, i: nat)
    requires d > 0 && i < |h|
    ensures Power(d, UpSwaps(d, h, i)) <= Weight(d, i)
    decreases i
  {
    WeightMonotone(d, i, i);
    if i > 0 && h[i].key < h[Parent(d, i)].key {
      var p := Parent(d, i);
      UpSwapsBound(d, Swap(h, i, p), p);
      ChildWeighsMore(d, i);
      TimesMonotone(Power(d, UpSwaps(d, Swap(h, i, p), p)), Weight(d, p), d);
    }
  }

  lemma {:induction false} DownSwapsBound<V>(d: nat, h: seq<Pair<V>>, i: nat)
    requires d > 0 && i < |h|
    ensures Power(d, DownSwaps(d, h, i)) * Weight(d, i) <= Weight(d, |h| - 1)
    decreases |h| - i
  {
    var m := Least(d, h, i, d);
    if m != i {
      LeastIsLeast(d, h, i, d);
      var t := Swap(h, i, m);
      DownSwapsBound(d, t, m);
      ChildWeighsMore(d, m);
      DownArithmetic(d, Power(d, DownSwaps(d, t, m)), Weight(d, i), Weight(d, m), Weight(d, |h| - 1));
    } else {
      WeightMonotone(d, i, |h| - 1);
    }
  }

  lemma DownArithmetic(d: nat, power: nat, upper: nat, lower: nat, bound: nat)
    requires d * upper <= lower && power * lower <= bound
    ensures (d * power) * upper <= bound
  {
    TimesMonotone(d * upper, lower, power);
    assert (d * power) * upper == power * (d * upper);
  }

  /** `k` swaps in a push that gives `n` elements imply `d^k <= (d - 1) n - (d - 2)`. */
  lemma PushSwapsLogarithmic<V>(d: nat, h: seq<Pair<V>>, p: Pair<V>)
    requires d > 0
    ensures var n, k := |h| + 1, UpSwaps(d, h + [p], |h|);
            && Power(d, k) <= (d - 1) * n - (d - 2)
            && (d == 2 ==> Power(2, k) <= n)
            && (d == 4 ==> Power(4, k) <= 3 * n - 2)
  {
    UpSwapsBound(d, h + [p], |h|);
    LastWeight(d, |h| + 1);
    assert d == 2 ==> (d - 1) * (|h| + 1) == |h| + 1;
    assert d == 4 ==> (d - 1) * (|h| + 1) == 3 * (|h| + 1);
  }

  /** The same bound for the swaps of an extraction that leaves `n` elements. */
  lemma ExtractSwapsLogarithmic<V>(d: nat, h: seq<Pair<V>>)
    requires d > 0 && |h| > 1
    ensures var n := |h| - 1;
            Power(d, DownSwaps(d, h[..n][0 := h[n]], 0)) <= (d - 1) * n - (d - 2)
  {
    var n: nat := |h| - 1;
    DownSwapsBound(d, h[..n][0 := h[n]], 0);
    LastWeight(d, n);
  }

  lemma LastWeight(d: nat, n: nat)
    requires d > 0 && n > 0
    ensures Weight(d, 0) == 1 && Weight(d, n - 1) == (d - 1) * n - (d - 2)
  {
    WeightFormula(d, n - 1);
    assert (d - 1) * n == (d - 1) * (n - 1) + (d - 1);
  }

  // ----- the containers as they are coded -----

  /** A heap over a vector; arity 2 is the binary heap, arity 4 the four-way heap. */
  class MinHeap<V> {
    const arity: nat
    var data: seq<Pair<V>>

    ghost predicate Valid()
      reads this
    {
      arity > 0 && HeapOrdered(arity, data)
    }

    constructor (arity: nat)
      requires arity > 0
      ensures Valid() && data == [] && this.arity == arity
    {
      this.arity := arity;
      data := [];
    }

    method PushPair(p: Pair<V>)
      requires Valid()
      modifies this
      ensures Valid() && data == Push(arity, old(data), p)
      ensures multiset(data) == multiset(old(data)) + multiset{p}
    {
      PushCorrect(arity, data, p);
      data := data + [p];
      var swaps := SiftUpFrom(|data| - 1);
    }

    method SiftUpFrom(start: nat) returns (swaps: nat)
      requires arity > 0 && start < |data|
      modifies this
      ensures data == SiftUp(arity, old(data), start)
      ensures swaps == UpSwaps(arity, old(data), start)
    {
      var i: nat := start;
      swaps := 0;
      while i > 0 && data[i].key < data[Parent(arity, i)].key
        invariant i < |data|
        invariant SiftUp(arity, data, i) == SiftUp(arity, old(data), start)
        invariant swaps + UpSwaps(arity, data, i) == UpSwaps(arity, old(data), start)
        decreases i
      {
        var p := Parent(arity, i);
        data := Swap(data, i, p);
        i := p;
        swaps := swaps + 1;
      }
    }

    method MinPair() returns (r: Option<Pair<V>>)
      requires Valid()
      ensures r == if data == [] then None else Some(data[0])
      ensures forall p :: p in data ==> r.Some? && r.value.key <= p.key
    {
      if |data| > 0 {
        RemoveMinCorrect(arity, data);
        return Some(data[0]);
      }
      return None;
    }

    method ExtractMinPair() returns (r: Option<Pair<V>>)
      requires Valid()
      modifies this
      ensures Valid()
      ensures old(data) == [] ==> r == None && data == []
      ensures old(data) != [] ==>
                && r == Some(old(data)[0]) && data == RemoveMin(arity, old(data))
                && multiset(data) + multiset{r.value} == multiset(old(data))
                && forall p :: p in old(data) ==> r.value.key <= p.key
    {
      if |data| <= 0 {
        return None;
      }
      RemoveMinCorrect(arity, data);
      r := Some(data[0]);
      var last := data[|data| - 1];
      data := data[..|data| - 1];
      if |data| > 0 {
        data := data[0 := last];
        var swaps := SiftDownFrom(0);
      }
    }

    method SiftDownFrom(start: nat) returns (swaps: nat)
      requires arity > 0 && start < |data|
      modifies this
      ensures data == SiftDown(arity, old(data), start)
      ensures swaps == DownSwaps(arity, old(data), start)
    {
      var i: nat := start;
      swaps := 0;
      while true
        invariant i < |data|
        invariant SiftDown(arity, data, i) == SiftDown(arity, old(data), start)
        invariant swaps + DownSwaps(arity, data, i) == DownSwaps(arity, old(data), start)
        decreases |data| - i
      {
        var mi: nat;
        if arity == 2 {
          mi := LeastOfTwo(i);
        } else {
          mi := LeastChild(i);
        }
        if i == mi {
          break;
        }
        data := Swap(data, i, mi);
        i := mi;
        swaps := swaps + 1;
      }
    }

    /** The child scan of the four-way heap. */
    method LeastChild(i: nat) returns (mi: nat)
      requires arity > 0 && i < |data|
      ensures mi == Least(arity, data, i, arity)
    {
      mi := i;
      for k := 1 to arity + 1
        invariant mi == Least(arity, data, i, k - 1)
      {
        var ci := Child(arity, i, k);
        if ci < |data| && data[ci].key < data[mi].key {
          mi := ci;
        }
      }
    }

    /** The child scan of the binary heap, written out for its two children. */
    method LeastOfTwo(i: nat) returns (mi: nat)
      requires arity == 2 && i < |data|
      ensures mi == Least(arity, data, i, arity)
    {
      mi := i;
      var li, ri := i * 2 + 1, i * 2 + 2;
      if li < |data| && data[li].key < data[mi].key {
        mi := li;
      }
      assert mi == Least(2, data, i, 1);
      if ri < |data| && data[ri].key < data[mi].key {
        mi := ri;
      }
    }
  }
}
