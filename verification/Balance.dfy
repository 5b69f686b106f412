/** Balancing tensors over output files by size (hf/consolidation.py). */
module Balance {
  import opened Wrappers
  import opened Sorting

  // The largest first, each to the least loaded owner (_assign_items_to_owners_by_size).

  type Item = (string, nat)

  // ----- the order in which items are placed

  /** Lexicographic order of names. */
  predicate NameLeq(a: string, b: string) {
    a == [] || (b != [] && (a[0] < b[0] || (a[0] == b[0] && NameLeq(a[1..], b[1..]))))
  }

  /** Larger sizes first, equal sizes by name. */
  predicate Leq(a: Item, b: Item) {
    a.1 > b.1 || (a.1 == b.1 && NameLeq(a.0, b.0))
  }

  lemma {:induction false} NameOrder(a: string, b: string, c: string)
    ensures NameLeq(a, b) || NameLeq(b, a)
    ensures NameLeq(a, b) && NameLeq(b, a) ==> a == b
    ensures NameLeq(a, b) && NameLeq(b, c) ==> NameLeq(a, c)
  {
    if a != [] && b != [] {
      NameOrder(a[1..], b[1..], if c == [] then [] else c[1..]);
      if NameLeq(a, b) && NameLeq(b, a) {
        assert a == [a[0]] + a[1..] && b == [b[0]] + b[1..];
      }
    }
  }

  lemma PlacementOrder()
    ensures TotalOrder(Leq)
  {
    forall a: Item, b: Item
      ensures (Leq(a, b) || Leq(b, a)) && (Leq(a, b) && Leq(b, a) ==> a == b)
    {
      NameOrder(a.0, b.0, a.0);
    }
    forall a: Item, b: Item, c: Item | Leq(a, b) && Leq(b, c) ensures Leq(a, c) {
      NameOrder(a.0, b.0, c.0);
    }
  }

  /** The order in which items are placed. */
  function Placement(items: seq<Item>): seq<Item> {
    Sort(items, Leq)
  }

  /** No two items have the same name, as in a dictionary. */
  predicate DistinctNames(s: seq<Item>) {
    forall i, j :: 0 <= i < j < |s| ==> s[i].0 != s[j].0
  }

  lemma PlacementKeepsNames(s: seq<Item>)
    requires DistinctNames(s)
    ensures DistinctNames(Placement(s)) && |Placement(s)| == |s|
    ensures forall y :: y in Placement(s) <==> y in s
  {
    PlacementOrder();
    SortSorts(s, Leq);
    SortKeepsElements(s, Leq);
    var r := Placement(s);
    PermutationKeepsDistinct(s, r);
    forall i, j | 0 <= i < j < |r| ensures r[i].0 != r[j].0 {
      NamesAreUnique(s, r[i], r[j]);
    }
  }

  lemma NamesAreUnique(s: seq<Item>, x: Item, y: Item)
    requires DistinctNames(s) && x in s && y in s
    ensures x.0 == y.0 ==> x == y
  {
  }

  // ----- greedy placement

  /** The least loaded owner, the first one if several are. */
  function ArgMin(loads: seq<nat>): (q: nat)
    requires loads != []
    ensures q < |loads|
    ensures forall i :: 0 <= i < |loads| ==> loads[q] <= loads[i]
    ensures forall i :: 0 <= i < q ==> loads[q] < loads[i]
  {
    if |loads| == 1 then 0
    else
      var n := |loads| - 1;
      var q := ArgMin(loads[..n]);
      if loads[n] < loads[q] then n else q
  }

  /** Owners of the items in placement order. */
  function Owners(sizes: seq<nat>, m: nat): (a: seq<nat>)
    requires m > 0
    ensures |a| == |sizes| && forall i :: 0 <= i < |a| ==> a[i] < m
  {
    if sizes == [] then []
    else
      var before := Owners(sizes[..|sizes| - 1], m);
      before + [ArgMin(Loads(sizes[..|sizes| - 1], before, m))]
  }

  /** Total size of the items an assignment gives to owner q. */
  function Load(sizes: seq<nat>, a: seq<nat>, q: nat): nat
    requires |a| == |sizes|
  {
    if sizes == [] then 0
    else
      var n := |sizes| - 1;
      Load(sizes[..n], a[..n], q) + if a[n] == q then sizes[n] else 0
  }

  function Loads(sizes: seq<nat>, a: seq<nat>, m: nat): seq<nat>
    requires |a| == |sizes|
  {
    seq(m, q requires 0 <= q < m => Load(sizes, a, q))
  }

  function Sizes(items: seq<Item>): seq<nat> {
    Seconds(items)
  }

  /** The owners recorded in a dictionary, in placement order. */
  ghost predicate Records(owner: map<string, nat>, order: seq<Item>, owners: seq<nat>) {
    && |owners| == |order|
    && (forall i :: 0 <= i < |order| ==> order[i].0 in owner && owner[order[i].0] == owners[i])
    && (forall k :: k in owner ==> exists i :: 0 <= i < |order| && order[i].0 == k)
  }

  lemma LoadsNext(sizes: seq<nat>, size: nat, m: nat, owners: seq<nat>, q: nat, loads: seq<nat>)
    requires |owners| == |sizes| && q < m == |loads| && loads == Loads(sizes, owners, m)
    ensures loads[q := loads[q] + size] == Loads(sizes + [size], owners + [q], m)
  {
    assert (sizes + [size])[..|sizes|] == sizes;
    assert (owners + [q])[..|sizes|] == owners;
    var next := loads[q := loads[q] + size];
    forall i | 0 <= i < m ensures next[i] == Load(sizes + [size], owners + [q], i) {
      assert loads[i] == Load(sizes, owners, i);
    }
  }

  lemma OwnersNext(sizes: seq<nat>, size: nat, m: nat)
    requires m > 0
    ensures Owners(sizes + [size], m) == Owners(sizes, m) + [ArgMin(Loads(sizes, Owners(sizes, m), m))]
  {
    assert (sizes + [size])[..|sizes|] == sizes;
  }

  /** The greedy owners of these sizes, and their loads. */
  ghost predicate GreedyState(sizes: seq<nat>, m: nat, owners: seq<nat>, loads: seq<nat>) {
    m > 0 && owners == Owners(sizes, m) && loads == Loads(sizes, owners, m)
  }

  lemma GreedyNext(sizes: seq<nat>, size: nat, m: nat, owners: seq<nat>, loads: seq<nat>, q: nat)
    requires GreedyState(sizes, m, owners, loads) && |loads| == m && q == ArgMin(loads)
    ensures GreedyState(sizes + [size], m, owners + [q], loads[q := loads[q] + size])
  {
    OwnersNext(sizes, size, m);
    LoadsNext(sizes, size, m, owners, q, loads);
  }

  lemma SizesNext(order: seq<Item>, n: nat)
    requires n < |order|
    ensures order[..n + 1] == order[..n] + [order[n]]
    ensures Sizes(order[..n + 1]) == Sizes(order[..n]) + [order[n].1]
  {
  }

  /** Largest item first, each to the least loaded owner. */
  method AssignItemsToOwnersBySize(items: seq<Item>, numOwners: nat) returns (owner: map<string, nat>)
    requires numOwners >= 1 && DistinctNames(items)
    ensures Records(owner, Placement(items), Owners(Sizes(Placement(items)), numOwners))
  {
    var order := Placement(items);
    PlacementKeepsNames(items);
    var loads: seq<nat> := seq(numOwners, _ => 0);
    owner := map[];
    ghost var owners, sizes: seq<nat> := [], [];
    for n := 0 to |order|
      invariant |loads| == numOwners && sizes == Sizes(order[..n])
      invariant GreedyState(sizes, numOwners, owners, loads) && Records(owner, order[..n], owners)
    {
      var q := ArgMin(loads);
      SizesNext(order, n);
      GreedyNext(sizes, order[n].1, numOwners, owners, loads, q);
      RecordNext(owner, order, n, owners, q);
      owners, sizes := owners + [q], sizes + [order[n].1];
      owner := owner[order[n].0 := q];
      loads := loads[q := loads[q] + order[n].1];
    }
    assert order[..|order|] == order;
  }

  lemma RecordNext(owner: map<string, nat>, order: seq<Item>, n: nat, owners: seq<nat>, q: nat)
    requires n < |order| && DistinctNames(order) && Records(owner, order[..n], owners)
    ensures Records(owner[order[n].0 := q], order[..n + 1], owners + [q])
  {
    var placed, next, name := order[..n], order[..n + 1], order[n].0;
    var after := owner[name := q];
    forall k | k in after ensures exists i :: 0 <= i < |next| && next[i].0 == k {
      if k == name {
        assert next[n].0 == k;
      } else {
        var i :| 0 <= i < n && placed[i].0 == k;
        assert next[i].0 == k;
      }
    }
    forall i | 0 <= i < n ensures order[i].0 != name && after[order[i].0] == owners[i] {
      assert placed[i] == order[i];
    }
  }

  // ----- sums over owners

  function Total(s: seq<nat>): nat {
    if s == [] then 0 else Total(s[..|s| - 1]) + s[|s| - 1]
  }

  function SumLoads(sizes: seq<nat>, a: seq<nat>, m: nat): nat
    requires |a| == |sizes|
  {
    if m == 0 then 0 else SumLoads(sizes, a, m - 1) + Load(sizes, a, m - 1)
  }

  predicate IsAssignment(a: seq<nat>, n: nat, m: nat) {
    |a| == n && forall i :: 0 <= i < n ==> a[i] < m
  }

  lemma {:induction false} SumLoadsStep(sizes: seq<nat>, a: seq<nat>, m: nat)
    requires |a| == |sizes| > 0
    ensures var n := |sizes| - 1;
      SumLoads(sizes, a, m) == SumLoads(sizes[..n], a[..n], m) + if a[n] < m then sizes[n] else 0
  {
    if m > 0 { SumLoadsStep(sizes, a, m - 1); }
  }

  /** The loads of all owners add up to the total. */
  lemma {:induction false} SumLoadsIsTotal(sizes: seq<nat>, a: seq<nat>, m: nat)
    requires IsAssignment(a, |sizes|, m)
    ensures SumLoads(sizes, a, m) == Total(sizes)
  {
    if sizes == [] {
      SumLoadsOfNothing(m);
    } else {
      var n := |sizes| - 1;
      SumLoadsStep(sizes, a, m);
      SumLoadsIsTotal(sizes[..n], a[..n], m);
    }
  }

  lemma {:induction false} SumLoadsOfNothing(m: nat)
    ensures SumLoads([], [], m) == 0
  {
    if m > 0 { SumLoadsOfNothing(m - 1); }
  }

  /** If every owner has at least c, the total is at least m times c. */
  lemma {:induction false} SumLoadsAtLeast(sizes: seq<nat>, a: seq<nat>, m: nat, c: nat)
    requires |a| == |sizes| && forall q :: 0 <= q < m ==> Load(sizes, a, q) >= c
    ensures SumLoads(sizes, a, m) >= m * c
  {
    if m > 0 {
      SumLoadsAtLeast(sizes, a, m - 1, c);
      assert m * c == (m - 1) * c + c;
    }
  }

  lemma {:induction false} SumLoadsAtMost(sizes: seq<nat>, a: seq<nat>, m: nat, c: nat)
    requires |a| == |sizes| && forall q :: 0 <= q < m ==> Load(sizes, a, q) <= c
    ensures SumLoads(sizes, a, m) <= m * c
  {
    if m > 0 {
      SumLoadsAtMost(sizes, a, m - 1, c);
      assert m * c == (m - 1) * c + c;
    }
  }

  // ----- counting large and small items per owner

  /** Indicators of the first t of n items, and of the others. */
  function Early(n: nat, t: nat): seq<nat> { seq(n, i => if i < t then 1 else 0) }
  function Late(n: nat, t: nat): seq<nat> { seq(n, i => if i < t then 0 else 1) }

  lemma {:induction false} TotalOfIndicators(n: nat, t: nat)
    requires t <= n
    ensures Total(Early(n, t)) == t && Total(Late(n, t)) == n - t
  {
    if n > 0 {
      assert Early(n, t)[..n - 1] == Early(n - 1, t) && Late(n, t)[..n - 1] == Late(n - 1, t);
      if t < n {
        TotalOfIndicators(n - 1, t);
      } else {
        assert Early(n - 1, t) == Early(n - 1, n - 1) && Late(n - 1, t) == Late(n - 1, n - 1);
        TotalOfIndicators(n - 1, n - 1);
      }
    }
  }

  predicate Descending(s: seq<nat>) {
    forall i, j :: 0 <= i < j < |s| ==> s[i] >= s[j]
  }

  lemma IndicatorLoads(a: seq<nat>, q: nat, t: nat)
    requires a != []
    ensures var n := |a| - 1;
      && Load(Early(|a|, t), a, q) == Load(Early(n, t), a[..n], q) + (if a[n] == q && n < t then 1 else 0)
      && Load(Late(|a|, t), a, q) == Load(Late(n, t), a[..n], q) + (if a[n] == q && n >= t then 1 else 0)
  {
    var n := |a| - 1;
    assert Early(n + 1, t)[..n] == Early(n, t) && Late(n + 1, t)[..n] == Late(n, t);
  }

  lemma OneMore(x: nat, e: nat)
    ensures x * (e + 1) == x * e + x
  {
  }

  /** An owner's load is at least x per early item and y per late one. */
  lemma {:induction false} LoadAtLeast(sizes: seq<nat>, a: seq<nat>, q: nat, t: nat, x: nat, y: nat)
    requires |a| == |sizes|
    requires forall i :: 0 <= i < |sizes| ==> sizes[i] >= if i < t then x else y
    ensures Load(sizes, a, q) >= x * Load(Early(|sizes|, t), a, q) + y * Load(Late(|sizes|, t), a, q)
  {
    if sizes != [] {
      var n := |sizes| - 1;
      IndicatorLoads(a, q, t);
      LoadAtLeast(sizes[..n], a[..n], q, t, x, y);
      OneMore(x, Load(Early(n, t), a[..n], q));
      OneMore(y, Load(Late(n, t), a[..n], q));
    }
  }

  /** An owner without early items has at most y per late one. */
  lemma {:induction false} LoadAtMost(sizes: seq<nat>, a: seq<nat>, q: nat, t: nat, y: nat)
    requires |a| == |sizes|
    requires forall i :: t <= i < |sizes| ==> sizes[i] <= y
    requires Load(Early(|sizes|, t), a, q) == 0
    ensures Load(sizes, a, q) <= y * Load(Late(|sizes|, t), a, q)
  {
    if sizes != [] {
      var n := |sizes| - 1;
      IndicatorLoads(a, q, t);
      LoadAtMost(sizes[..n], a[..n], q, t, y);
      OneMore(y, Load(Late(n, t), a[..n], q));
    }
  }

  /** Twice the early items plus the late ones of one owner. */
  function Weight(a: seq<nat>, t: nat, q: nat): nat {
    2 * Load(Early(|a|, t), a, q) + Load(Late(|a|, t), a, q)
  }

  lemma {:induction false} SumOfWeights(a: seq<nat>, m: nat, t: nat)
    ensures (forall q :: 0 <= q < m ==> Weight(a, t, q) <= 2) ==>
      2 * SumLoads(Early(|a|, t), a, m) + SumLoads(Late(|a|, t), a, m) <= 2 * m
    ensures (forall q :: 0 <= q < m ==> Weight(a, t, q) >= 2) ==>
      2 * SumLoads(Early(|a|, t), a, m) + SumLoads(Late(|a|, t), a, m) >= 2 * m
  {
    if m > 0 {
      SumOfWeights(a, m - 1, t);
      var last := Weight(a, t, m - 1);
    }
  }

  /** Weights at most (at least) two everywhere bound the number of items. */
  lemma WeightsBoundItems(a: seq<nat>, m: nat, t: nat)
    requires IsAssignment(a, |a|, m) && t <= |a|
    ensures (forall q :: 0 <= q < m ==> Weight(a, t, q) <= 2) ==> |a| + t <= 2 * m
    ensures (forall q :: 0 <= q < m ==> Weight(a, t, q) >= 2) ==> |a| + t >= 2 * m
  {
    SumLoadsIsTotal(Early(|a|, t), a, m);
    SumLoadsIsTotal(Late(|a|, t), a, m);
    TotalOfIndicators(|a|, t);
    SumOfWeights(a, m, t);
  }

  lemma ThreeExceed(k: nat, y: nat, cap: nat)
    requires y * k <= cap < 3 * y
    ensures k <= 2
  {
  }

  lemma PairsExceed(e: nat, l: nat, x: nat, y: nat, cap: nat)
    requires x >= y && x * e + y * l <= cap && x + y > cap && 3 * y > cap
    ensures 2 * e + l <= 2
  {
    Twice(x, e);
    Twice(y, l);
    if e == 0 {
      ThreeExceed(l, y, cap);
    }
  }

  lemma Twice(x: nat, n: nat)
    ensures n >= 1 ==> x * n >= x
    ensures n >= 2 ==> x * n >= x + x
  {
    if n >= 2 {
      MulMonotone(2, n, x);
    }
  }

  /** Early items of size x and late ones of size y, of which neither x + y nor three y
      fit, weigh at most two on any owner within cap. */
  lemma WeightWithinCap(sizes: seq<nat>, b: seq<nat>, q: nat, t: nat, x: nat, y: nat, cap: nat)
    requires |b| == |sizes| && Load(sizes, b, q) <= cap
    requires forall i :: 0 <= i < |sizes| ==> sizes[i] >= if i < t then x else y
    requires x >= y && x + y > cap && 3 * y > cap
    ensures Weight(b, t, q) <= 2
  {
    LoadAtLeast(sizes, b, q, t, x, y);
    PairsExceed(Load(Early(|b|, t), b, q), Load(Late(|b|, t), b, q), x, y, cap);
  }

  ghost predicate WithinCap(sizes: seq<nat>, b: seq<nat>, m: nat, cap: nat) {
    IsAssignment(b, |sizes|, m) && forall q :: 0 <= q < m ==> Load(sizes, b, q) <= cap
  }

  lemma AtMostTwoEach(sizes: seq<nat>, b: seq<nat>, m: nat, cap: nat)
    requires Descending(sizes) && sizes != [] && WithinCap(sizes, b, m, cap) && 3 * sizes[|sizes| - 1] > cap
    ensures |sizes| <= 2 * m
  {
    var y := sizes[|sizes| - 1];
    forall q | 0 <= q < m ensures Weight(b, 0, q) <= 2 {
      WeightWithinCap(sizes, b, q, 0, cap + y, y, cap);
    }
    WeightsBoundItems(b, m, 0);
  }

  /** When every item is larger than a third of cap, an assignment within cap puts at most
      two items on an owner, so two of the larger ones share: the 2m+1-n largest items
      and the smallest cannot all be kept apart. */
  lemma PairFitsInCap(sizes: seq<nat>, b: seq<nat>, m: nat, cap: nat)
    requires Descending(sizes) && WithinCap(sizes, b, m, cap)
    requires |sizes| > m && 3 * sizes[|sizes| - 1] > cap
    ensures |sizes| <= 2 * m
    ensures sizes[2 * m - |sizes|] + sizes[|sizes| - 1] <= cap
  {
    AtMostTwoEach(sizes, b, m, cap);
    var t := 2 * m + 1 - |sizes|;
    var x, y := sizes[t - 1], sizes[|sizes| - 1];
    if x + y > cap {
      forall q | 0 <= q < m ensures Weight(b, t, q) <= 2 {
        WeightWithinCap(sizes, b, q, t, x, y, cap);
      }
      WeightsBoundItems(b, m, t);
      assert false;
    }
  }

  lemma TwoNeeded(k: nat, bound: nat)
    requires bound * k > bound
    ensures k >= 2
  {
  }

  /** With fewer than 2m items placed, at least m of them, some owner's load is at most
      the size of item 2m-1-n: owners above it hold an earlier item or two later ones. */
  lemma SomeOwnerIsLight(sizes: seq<nat>, a: seq<nat>, m: nat)
    requires Descending(sizes) && IsAssignment(a, |sizes|, m)
    requires m <= |sizes| < 2 * m
    ensures exists q :: 0 <= q < m && Load(sizes, a, q) <= sizes[2 * m - 1 - |sizes|]
  {
    var t := 2 * m - 1 - |sizes|;
    var bound := sizes[t];
    if forall q :: 0 <= q < m ==> Load(sizes, a, q) > bound {
      forall q | 0 <= q < m ensures Weight(a, t, q) >= 2 {
        if Load(Early(|a|, t), a, q) == 0 {
          LoadAtMost(sizes, a, q, t, bound);
          TwoNeeded(Load(Late(|a|, t), a, q), bound);
        }
      }
      WeightsBoundItems(a, m, t);
      assert false;
    }
  }

  // ----- the bounds

  lemma {:induction false} DescendingPrefix(sizes: seq<nat>, n: nat)
    requires Descending(sizes) && n <= |sizes|
    ensures Descending(sizes[..n])
  {
  }

  /** The least loaded owner has no more than any other. */
  lemma LeastLoad(sizes: seq<nat>, m: nat, q: nat)
    requires q < m
    ensures var a := Owners(sizes, m);
      Load(sizes, a, ArgMin(Loads(sizes, a, m))) <= Load(sizes, a, q)
  {
    var loads := Loads(sizes, Owners(sizes, m), m);
    assert loads[ArgMin(loads)] <= loads[q];
  }

  /** The least load is zero while there are fewer items than owners. */
  lemma FewItemsLeaveRoom(sizes: seq<nat>, m: nat)
    requires |sizes| < m
    ensures var a := Owners(sizes, m); Load(sizes, a, ArgMin(Loads(sizes, a, m))) == 0
  {
    var a := Owners(sizes, m);
    var least := Load(sizes, a, ArgMin(Loads(sizes, a, m)));
    if least > 0 {
      forall q | 0 <= q < m ensures Load(Late(|a|, 0), a, q) >= 1 {
        LeastLoad(sizes, m, q);
        LoadNeedsItems(sizes, a, q);
      }
      SumLoadsAtLeast(Late(|a|, 0), a, m, 1);
      SumLoadsIsTotal(Late(|a|, 0), a, m);
      TotalOfIndicators(|a|, 0);
      assert false;
    }
  }

  lemma {:induction false} LoadNeedsItems(sizes: seq<nat>, a: seq<nat>, q: nat)
    requires |a| == |sizes|
    ensures Load(Late(|a|, 0), a, q) == 0 ==> Load(sizes, a, q) == 0
  {
    if sizes != [] {
      var n := |sizes| - 1;
      assert Late(n + 1, 0)[..n] == Late(n, 0);
      LoadNeedsItems(sizes[..n], a[..n], q);
    }
  }

  lemma {:induction false} LoadContainsItem(sizes: seq<nat>, a: seq<nat>, i: nat)
    requires |a| == |sizes| && i < |sizes|
    ensures Load(sizes, a, a[i]) >= sizes[i]
  {
    var n := |sizes| - 1;
    if i < n { LoadContainsItem(sizes[..n], a[..n], i); }
  }

  /** The least greedy load, before the last item is placed. */
  function LeastBefore(sizes: seq<nat>, m: nat): nat
    requires sizes != [] && m > 0
  {
    var before := sizes[..|sizes| - 1];
    Load(before, Owners(before, m), ArgMin(Loads(before, Owners(before, m), m)))
  }

  /** A small item fits because the least load is at most the average. */
  lemma SmallItemIsBounded(sizes: seq<nat>, m: nat, b: seq<nat>, cap: nat)
    requires sizes != [] && WithinCap(sizes, b, m, cap) && m > 0 && 3 * sizes[|sizes| - 1] <= cap
    ensures 3 * m * (LeastBefore(sizes, m) + sizes[|sizes| - 1]) <= (4 * m - 1) * cap
  {
    var before := sizes[..|sizes| - 1];
    var a := Owners(before, m);
    var least := LeastBefore(sizes, m);
    forall q | 0 <= q < m ensures Load(before, a, q) >= least { LeastLoad(before, m, q); }
    SumLoadsAtLeast(before, a, m, least);
    SumLoadsIsTotal(before, a, m);
    SumLoadsAtMost(sizes, b, m, cap);
    SumLoadsIsTotal(sizes, b, m);
    SmallItemBound(m, least, sizes[|sizes| - 1], cap);
  }

  /** A large item fits within cap itself. */
  lemma LargeItemFits(sizes: seq<nat>, m: nat, b: seq<nat>, cap: nat)
    requires Descending(sizes) && sizes != [] && WithinCap(sizes, b, m, cap) && m > 0 && 3 * sizes[|sizes| - 1] > cap
    ensures LeastBefore(sizes, m) + sizes[|sizes| - 1] <= cap
  {
    if |sizes| <= m {
      LoadContainsItem(sizes, b, |sizes| - 1);
      FewItemsLeaveRoom(sizes[..|sizes| - 1], m);
    } else {
      PairFitsInCap(sizes, b, m, cap);
      LeastBeforeIsLight(sizes, m);
    }
  }

  lemma LeastBeforeIsLight(sizes: seq<nat>, m: nat)
    requires Descending(sizes) && 0 < m < |sizes| <= 2 * m
    ensures LeastBefore(sizes, m) <= sizes[2 * m - |sizes|]
  {
    var before := sizes[..|sizes| - 1];
    DescendingPrefix(sizes, |sizes| - 1);
    LeastIsLight(before, m);
    assert before[2 * m - |sizes|] == sizes[2 * m - |sizes|];
  }

  lemma LeastIsLight(sizes: seq<nat>, m: nat)
    requires Descending(sizes) && m <= |sizes| < 2 * m
    ensures var a := Owners(sizes, m); Load(sizes, a, ArgMin(Loads(sizes, a, m))) <= sizes[2 * m - 1 - |sizes|]
  {
    var a := Owners(sizes, m);
    SomeOwnerIsLight(sizes, a, m);
    var q :| 0 <= q < m && Load(sizes, a, q) <= sizes[2 * m - 1 - |sizes|];
    LeastLoad(sizes, m, q);
  }

  /** Placing the smallest item so far on the least loaded owner keeps that owner within
      4/3 - 1/(3m) of any assignment of the same items. */
  lemma PlacedLoadIsBounded(sizes: seq<nat>, m: nat, b: seq<nat>, cap: nat)
    requires Descending(sizes) && sizes != [] && WithinCap(sizes, b, m, cap) && m > 0
    ensures 3 * m * (LeastBefore(sizes, m) + sizes[|sizes| - 1]) <= (4 * m - 1) * cap
  {
    if 3 * sizes[|sizes| - 1] <= cap {
      SmallItemIsBounded(sizes, m, b, cap);
    } else {
      LargeItemFits(sizes, m, b, cap);
      LargeItemBound(m, LeastBefore(sizes, m) + sizes[|sizes| - 1], cap);
    }
  }

  lemma Distributes(a: nat, b: nat, c: nat)
    ensures (a + b) * c == a * c + b * c && c * (a + b) == c * a + c * b
  {
  }

  lemma MulMonotone(a: nat, b: nat, c: nat)
    requires a <= b
    ensures c * a <= c * b
  {
  }

  lemma TimesThree(m: nat, x: nat)
    ensures 3 * m * x == 3 * (m * x) && m * (3 * x) == 3 * (m * x)
  {
  }

  lemma SplitFactor(m: nat, cap: nat)
    requires m > 0
    ensures (4 * m - 1) * cap == 3 * (m * cap) + (m - 1) * cap
  {
    Distributes(3 * m, m - 1, cap);
    TimesThree(m, cap);
  }

  lemma SmallItemBound(m: nat, least: nat, p: nat, cap: nat)
    requires m > 0 && m * least + p <= m * cap && 3 * p <= cap
    ensures 3 * m * (least + p) <= (4 * m - 1) * cap
  {
    TimesThree(m, least + p);
    Distributes(least, p, m);
    Distributes(m - 1, 1, p);
    MulMonotone(3 * p, cap, m - 1);
    TimesThree(m - 1, p);
    SplitFactor(m, cap);
  }

  lemma LargeItemBound(m: nat, load: nat, cap: nat)
    requires m > 0 && load <= cap
    ensures 3 * m * load <= (4 * m - 1) * cap
  {
    TimesThree(m, load);
    MulMonotone(load, cap, m);
    SplitFactor(m, cap);
    MulMonotone(0, m - 1, cap);
    LinearStep(3 * m * load, m * load, m * cap, cap * (m - 1));
  }

  lemma LinearStep(a: int, x: int, y: int, z: int)
    requires a == 3 * x && x <= y && z >= 0
    ensures a <= 3 * y + z
  {
  }

  lemma {:induction false} WithinCapPrefix(sizes: seq<nat>, b: seq<nat>, m: nat, cap: nat)
    requires sizes != [] && WithinCap(sizes, b, m, cap)
    ensures WithinCap(sizes[..|sizes| - 1], b[..|sizes| - 1], m, cap)
  {
    var before, a := sizes[..|sizes| - 1], b[..|sizes| - 1];
    forall q | 0 <= q < m ensures Load(before, a, q) <= cap {
      assert Load(sizes, b, q) <= cap;
    }
  }

  /** Largest-first greedy placement is within 4/3 - 1/(3m) of every assignment: if some
      assignment of the same items keeps all m loads within cap, then every greedy load
      is at most (4m - 1) / 3m times cap. */
  lemma {:induction false} GreedyWithinFourThirds(sizes: seq<nat>, m: nat, b: seq<nat>, cap: nat, q: nat)
    requires Descending(sizes) && m > 0 && WithinCap(sizes, b, m, cap) && q < m
    ensures 3 * m * Load(sizes, Owners(sizes, m), q) <= (4 * m - 1) * cap
  {
    if sizes == [] {
      LargeItemBound(m, 0, cap);
    } else {
      var n := |sizes|;
      var before := sizes[..n - 1];
      DescendingPrefix(sizes, n - 1);
      WithinCapPrefix(sizes, b, m, cap);
      GreedyWithinFourThirds(before, m, b[..n - 1], cap, q);
      PlacedLoadIsBounded(sizes, m, b, cap);
      assert Owners(sizes, m)[..n - 1] == Owners(before, m);
    }
  }

  /** Loads differ by at most the largest item. */
  lemma {:induction false} GreedySpread(sizes: seq<nat>, m: nat, largest: nat, q: nat, r: nat)
    requires m > 0 && q < m && r < m && forall i :: 0 <= i < |sizes| ==> sizes[i] <= largest
    ensures Load(sizes, Owners(sizes, m), q) <= Load(sizes, Owners(sizes, m), r) + largest
  {
    if sizes != [] {
      var n := |sizes|;
      var before := sizes[..n - 1];
      GreedySpread(before, m, largest, q, r);
      LeastLoad(before, m, r);
      assert Owners(sizes, m)[..n - 1] == Owners(before, m);
    }
  }

  /** With positive sizes and no more owners than items, every owner gets an item. */
  lemma {:induction false} EveryOwnerIsUsed(sizes: seq<nat>, m: nat, q: nat)
    requires m > 0 && q < m && forall i :: 0 <= i < |sizes| ==> sizes[i] > 0
    ensures Load(sizes, Owners(sizes, m), q) > 0 <==> q < |sizes|
  {
    if sizes != [] {
      var n := |sizes|;
      var before := sizes[..n - 1];
      EveryOwnerIsUsed(before, m, q);
      assert Owners(sizes, m)[..n - 1] == Owners(before, m);
      if n - 1 < m {
        forall i: nat | i < m ensures IsLoaded(before, m, i) <==> i < n - 1 {
          EveryOwnerIsUsed(before, m, i);
        }
        FirstIdleOwner(before, m);
      }
    }
  }

  predicate IsLoaded(sizes: seq<nat>, m: nat, q: nat)
    requires m > 0
  {
    Load(sizes, Owners(sizes, m), q) > 0
  }

  lemma FirstIdleOwner(sizes: seq<nat>, m: nat)
    requires |sizes| < m && forall i: nat :: i < m ==> (IsLoaded(sizes, m, i) <==> i < |sizes|)
    ensures ArgMin(Loads(sizes, Owners(sizes, m), m)) == |sizes|
  {
    var loads := Loads(sizes, Owners(sizes, m), m);
    assert !IsLoaded(sizes, m, |sizes|) && loads[|sizes|] == 0;
    forall i | 0 <= i < |sizes| ensures loads[i] > 0 {
      assert IsLoaded(sizes, m, i);
    }
  }

  // ----- what the bounds say about the returned dictionary

  /** Total size of the items a dictionary gives to owner q. */
  function LoadOf(items: seq<Item>, owner: map<string, nat>, q: nat): nat
    requires forall x :: x in items ==> x.0 in owner
  {
    if items == [] then 0
    else
      var n := |items| - 1;
      LoadOf(items[..n], owner, q) + if owner[items[n].0] == q then items[n].1 else 0
  }

  lemma {:induction false} LoadOfConcat(a: seq<Item>, b: seq<Item>, owner: map<string, nat>, q: nat)
    requires forall x :: x in a || x in b ==> x.0 in owner
    ensures LoadOf(a + b, owner, q) == LoadOf(a, owner, q) + LoadOf(b, owner, q)
  {
    if b == [] {
      assert a + b == a;
    } else {
      var n := |b| - 1;
      assert (a + b)[..|a + b| - 1] == a + b[..n];
      LoadOfConcat(a, b[..n], owner, q);
    }
  }

  lemma {:induction false} LoadOfInsert(x: Item, s: seq<Item>, owner: map<string, nat>, q: nat)
    requires x.0 in owner && forall y :: y in s ==> y.0 in owner
    ensures forall y :: y in Insert(x, s, Leq) ==> y.0 in owner
    ensures LoadOf(Insert(x, s, Leq), owner, q) == LoadOf([x] + s, owner, q)
  {
    if s != [] && !Leq(x, s[0]) {
      LoadOfInsert(x, s[1..], owner, q);
      LoadOfConcat([s[0]], Insert(x, s[1..], Leq), owner, q);
      LoadOfConcat([x], s[1..], owner, q);
      LoadOfConcat([s[0]], s[1..], owner, q);
      LoadOfConcat([x], s, owner, q);
      assert s == [s[0]] + s[1..];
    }
  }

  lemma {:induction false} LoadOfPlacement(s: seq<Item>, owner: map<string, nat>, q: nat)
    requires forall y :: y in s ==> y.0 in owner
    ensures forall y :: y in Placement(s) ==> y.0 in owner
    ensures LoadOf(Placement(s), owner, q) == LoadOf(s, owner, q)
  {
    if s != [] {
      LoadOfPlacement(s[1..], owner, q);
      LoadOfInsert(s[0], Placement(s[1..]), owner, q);
      LoadOfConcat([s[0]], Placement(s[1..]), owner, q);
      LoadOfConcat([s[0]], s[1..], owner, q);
      assert s == [s[0]] + s[1..];
    }
  }

  function OwnersIn(order: seq<Item>, owner: map<string, nat>): (a: seq<nat>)
    requires forall x :: x in order ==> x.0 in owner
    ensures |a| == |order|
  {
    seq(|order|, i requires 0 <= i < |order| => assert order[i] in order; owner[order[i].0])
  }

  lemma {:induction false} LoadOfIsLoad(order: seq<Item>, owner: map<string, nat>, q: nat)
    requires forall x :: x in order ==> x.0 in owner
    ensures LoadOf(order, owner, q) == Load(Sizes(order), OwnersIn(order, owner), q)
  {
    if order != [] {
      var n := |order| - 1;
      assert Sizes(order)[..n] == Sizes(order[..n]) && OwnersIn(order, owner)[..n] == OwnersIn(order[..n], owner);
      LoadOfIsLoad(order[..n], owner, q);
    }
  }

  lemma PlacementIsDescending(items: seq<Item>)
    ensures Descending(Sizes(Placement(items)))
  {
    PlacementOrder();
    SortSorts(items, Leq);
  }

  /** The order in which items are placed, whatever order they come in: by size downwards,
      and items of one size by name upwards. */
  lemma PlacedBySizeThenName(items: seq<Item>, i: nat, j: nat)
    requires i < j < |Placement(items)|
    ensures var a, b := Placement(items)[i], Placement(items)[j];
      a.1 >= b.1 && (a.1 == b.1 ==> NameLeq(a.0, b.0))
    ensures multiset(Placement(items)) == multiset(items)
  {
    PlacementOrder();
    SortSorts(items, Leq);
    assert Leq(Placement(items)[i], Placement(items)[j]);
  }

  /** The dictionary that AssignItemsToOwnersBySize returns for these items. */
  ghost predicate Balanced(items: seq<Item>, m: nat, owner: map<string, nat>) {
    m >= 1 && DistinctNames(items) && Records(owner, Placement(items), Owners(Sizes(Placement(items)), m))
  }

  lemma BalancedLoads(items: seq<Item>, m: nat, owner: map<string, nat>, q: nat)
    requires Balanced(items, m, owner)
    ensures forall x :: x in items ==> x.0 in owner && owner[x.0] < m
    ensures LoadOf(items, owner, q) == Load(Sizes(Placement(items)), Owners(Sizes(Placement(items)), m), q)
  {
    var order := Placement(items);
    PlacementKeepsNames(items);
    forall x | x in items ensures x.0 in owner && owner[x.0] < m {
      assert x in order;
      var i :| 0 <= i < |order| && order[i] == x;
    }
    LoadOfPlacement(items, owner, q);
    LoadOfIsLoad(order, owner, q);
    assert OwnersIn(order, owner) == Owners(Sizes(order), m);
  }

  /** No dictionary that gives every item to one of m owners keeps all loads within cap
      unless the greedy loads are within (4m - 1) / 3m of cap. */
  lemma AssignmentWithinFourThirds(items: seq<Item>, m: nat, owner: map<string, nat>, other: map<string, nat>, cap: nat, q: nat)
    requires Balanced(items, m, owner) && q < m
    requires forall x :: x in items ==> x.0 in other && other[x.0] < m
    requires forall k :: 0 <= k < m ==> LoadOf(items, other, k) <= cap
    ensures forall x :: x in items ==> x.0 in owner
    ensures 3 * m * LoadOf(items, owner, q) <= (4 * m - 1) * cap
  {
    var order := Placement(items);
    PlacementKeepsNames(items);
    PlacementIsDescending(items);
    var b := OwnersIn(order, other);
    forall k | 0 <= k < m ensures Load(Sizes(order), b, k) <= cap {
      LoadOfPlacement(items, other, k);
      LoadOfIsLoad(order, other, k);
    }
    forall i | 0 <= i < |b| ensures b[i] < m { assert order[i] in items; }
    BalancedLoads(items, m, owner, q);
    GreedyWithinFourThirds(Sizes(order), m, b, cap, q);
  }

  /** Any two owners' loads differ by at most the largest item. */
  lemma AssignmentSpread(items: seq<Item>, m: nat, owner: map<string, nat>, largest: nat, q: nat, r: nat)
    requires Balanced(items, m, owner) && q < m && r < m
    requires forall x :: x in items ==> x.1 <= largest
    ensures forall x :: x in items ==> x.0 in owner
    ensures LoadOf(items, owner, q) <= LoadOf(items, owner, r) + largest
  {
    BalancedLoads(items, m, owner, q);
    BalancedLoads(items, m, owner, r);
    PlacementKeepsNames(items);
    var sizes := Sizes(Placement(items));
    forall i | 0 <= i < |sizes| ensures sizes[i] <= largest { assert Placement(items)[i] in items; }
    GreedySpread(sizes, m, largest, q, r);
  }

  /** Ranks that hold the same items, in whatever dictionary order, compute the same
      assignment. */
  lemma AssignmentIgnoresOrder(a: seq<Item>, b: seq<Item>, m: nat, ownerA: map<string, nat>, ownerB: map<string, nat>)
    requires Balanced(a, m, ownerA) && Balanced(b, m, ownerB) && multiset(a) == multiset(b)
    ensures ownerA == ownerB
  {
    PlacementOrder();
    SortSorts(a, Leq);
    SortSorts(b, Leq);
    SortedIsUnique(Placement(a), Placement(b), Leq);
    forall k ensures k in ownerA <==> k in ownerB { }
  }

  // ----- default output files

  lemma {:induction false} LoadHasItem(sizes: seq<nat>, a: seq<nat>, q: nat)
    requires |a| == |sizes| && Load(sizes, a, q) > 0
    ensures exists i :: 0 <= i < |a| && a[i] == q
  {
    var n := |sizes| - 1;
    if a[n] != q {
      LoadHasItem(sizes[..n], a[..n], q);
      var i :| 0 <= i < n && a[..n][i] == q;
      assert a[i] == q;
    }
  }

  predicate IsKey(items: seq<Item>, k: string) {
    exists x :: x in items && x.0 == k
  }

  predicate IsUsed(owner: map<string, nat>, q: nat) {
    exists k :: k in owner && owner[k] == q
  }

  predicate AllPositive(items: seq<Item>) {
    forall x :: x in items ==> x.1 > 0
  }

  /** One output file per rank, but no more files than tensors; files are numbered from
      one, and with positive sizes none stays empty. Without tensors (or ranks) there is
      no owner to assign to and the code's assertion fails. */
  method DefaultFqnToIndexMapping(fqnToNumBytes: seq<Item>, worldSize: nat) returns (r: Option<map<string, nat>>)
    requires DistinctNames(fqnToNumBytes)
    ensures r.None? <==> worldSize == 0 || fqnToNumBytes == []
    ensures r.Some? ==> forall k :: k in r.value <==> IsKey(fqnToNumBytes, k)
    ensures r.Some? ==> forall k :: k in r.value ==> 1 <= r.value[k] <= Smaller(worldSize, |fqnToNumBytes|)
    ensures r.Some? && AllPositive(fqnToNumBytes) ==>
      forall f: nat :: 1 <= f <= Smaller(worldSize, |fqnToNumBytes|) ==> IsUsed(r.value, f)
  {
    var files := Smaller(worldSize, |fqnToNumBytes|);
    if files == 0 {
      return None;
    }
    var owner := AssignItemsToOwnersBySize(fqnToNumBytes, files);
    var index := map k | k in owner :: owner[k] + 1;
    KeysAreItems(fqnToNumBytes, files, owner);
    if AllPositive(fqnToNumBytes) {
      forall f: nat | 1 <= f <= files ensures IsUsed(index, f) {
        FileIsUsed(fqnToNumBytes, files, owner, f - 1);
        var k :| k in owner && owner[k] == f - 1;
        assert index[k] == f;
      }
    }
    return Some(index);
  }

  function Smaller(a: nat, b: nat): nat { if a < b then a else b }

  lemma KeysAreItems(items: seq<Item>, m: nat, owner: map<string, nat>)
    requires Balanced(items, m, owner)
    ensures forall k :: k in owner <==> IsKey(items, k)
    ensures forall k :: k in owner ==> owner[k] < m
  {
    var order := Placement(items);
    PlacementKeepsNames(items);
    BalancedLoads(items, m, owner, 0);
    forall k | k in owner ensures IsKey(items, k) {
      var i :| 0 <= i < |order| && order[i].0 == k;
      assert order[i] in items;
    }
  }

  lemma FileIsUsed(items: seq<Item>, m: nat, owner: map<string, nat>, q: nat)
    requires Balanced(items, m, owner) && q < m <= |items| && AllPositive(items)
    ensures IsUsed(owner, q)
  {
    var order := Placement(items);
    PlacementKeepsNames(items);
    var sizes := Sizes(order);
    forall i | 0 <= i < |sizes| ensures sizes[i] > 0 { assert order[i] in items; }
    EveryOwnerIsUsed(sizes, m, q);
    LoadHasItem(sizes, Owners(sizes, m), q);
    var i :| 0 <= i < |sizes| && Owners(sizes, m)[i] == q;
    assert owner[order[i].0] == q;
  }
}
