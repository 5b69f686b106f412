/**
 Helpers shared by resharders (resharding_utils.py): fully qualified names, choosing
 one source per target chunk, and dropping targets that alias another target.
 */
module ReshardingUtils {
  import opened Wrappers
  import opened Geometry
  import opened LoadPlans

  // ----- fully qualified names

  function Decimal(n: nat): string {
    if n < 10 then [('0' as int + n) as char]
    else Decimal(n / 10) + [('0' as int + n % 10) as char]
  }

  function Text(c: Component): string {
    match c case Key(name) => name case Position(i) => Decimal(i)
  }

  /** The components joined with dots; the empty path is the root name. */
  function FqnOf(path: NestedPath): string {
    if |path| == 0 then ""
    else if |path| == 1 then Text(path[0])
    else Text(path[0]) + "." + FqnOf(path[1..])
  }

  predicate IsDigit(c: char) { '0' <= c <= '9' }

  /** The number a sequence of digits stands for. */
  function ValueOf(s: string): int {
    if s == "" then 0 else 10 * ValueOf(s[..|s| - 1]) + (s[|s| - 1] as int - '0' as int)
  }

  /** Positions have texts of their own: the number can be read back from its digits. */
  lemma {:induction false} DecimalRoundTrip(n: nat)
    ensures Decimal(n) != "" && ValueOf(Decimal(n)) == n && forall i :: 0 <= i < |Decimal(n)| ==> IsDigit(Decimal(n)[i])
  {
    if n >= 10 {
      DecimalRoundTrip(n / 10);
      var s := Decimal(n);
      assert s[..|s| - 1] == Decimal(n / 10);
    } else {
      assert Decimal(n)[..0] == "";
    }
  }

  /** Neither empty nor with a dot in it. */
  predicate IsPlain(name: string) {
    name != "" && forall i :: 0 <= i < |name| ==> name[i] != '.'
  }

  lemma DecimalIsPlain(n: nat)
    ensures IsPlain(Decimal(n))
  {
    DecimalRoundTrip(n);
    forall i | 0 <= i < |Decimal(n)| ensures Decimal(n)[i] != '.' { assert IsDigit(Decimal(n)[i]); }
  }

  /** The text starts with this name, and ends or has a dot right after it. */
  predicate StartsWith(text: string, name: string) {
    |name| <= |text| && text[..|name|] == name && (|name| < |text| ==> text[|name|] == '.')
  }

  /** The text up to its first dot. */
  function FirstPart(text: string): string {
    if text == "" || text[0] == '.' then "" else [text[0]] + FirstPart(text[1..])
  }

  lemma {:induction false} StartIsFirstPart(text: string, name: string)
    requires StartsWith(text, name) && forall i :: 0 <= i < |name| ==> name[i] != '.'
    ensures FirstPart(text) == name
  {
    if name != "" {
      assert text[0] == text[..|name|][0] == name[0];
      assert text[1..][..|name| - 1] == text[..|name|][1..] == name[1..];
      StartIsFirstPart(text[1..], name[1..]);
    }
  }

  lemma PlainStartIsUnique(text: string, a: string, b: string)
    requires IsPlain(a) && IsPlain(b) && StartsWith(text, a) && StartsWith(text, b)
    ensures a == b
  {
    StartIsFirstPart(text, a);
    StartIsFirstPart(text, b);
  }

  predicate PlainPath(path: NestedPath) {
    forall i :: 0 <= i < |path| ==> IsPlain(Text(path[i]))
  }

  lemma FqnStarts(path: NestedPath)
    requires path != [] && PlainPath(path)
    ensures StartsWith(FqnOf(path), Text(path[0]))
    ensures |path| > 1 ==> FqnOf(path)[|Text(path[0])| + 1..] == FqnOf(path[1..]) && |FqnOf(path)| > |Text(path[0])|
    ensures |path| == 1 ==> FqnOf(path) == Text(path[0])
  {
  }

  /** Joining loses nothing but the kind of a component: paths with plain components that
      join to the same name have the same texts. */
  lemma {:induction false} FqnDeterminesTexts(p: NestedPath, q: NestedPath)
    requires PlainPath(p) && PlainPath(q) && FqnOf(p) == FqnOf(q)
    ensures |p| == |q| && forall i :: 0 <= i < |p| ==> Text(p[i]) == Text(q[i])
  {
    if p != [] { FqnStarts(p); }
    if q != [] { FqnStarts(q); }
    if p != [] && q != [] {
      PlainStartIsUnique(FqnOf(p), Text(p[0]), Text(q[0]));
      if |p| > 1 && |q| > 1 {
        FqnDeterminesTexts(p[1..], q[1..]);
        forall i | 0 <= i < |p| ensures Text(p[i]) == Text(q[i]) {
          if i > 0 { assert p[i] == p[1..][i - 1] && q[i] == q[1..][i - 1]; }
        }
      }
    }
  }

  predicate SameKinds(p: NestedPath, q: NestedPath) {
    forall c :: 0 <= c < |p| && c < |q| ==> (p[c].Key? <==> q[c].Key?)
  }

  lemma PlainFqnIsInjective(p: NestedPath, q: NestedPath)
    requires PlainPath(p) && PlainPath(q) && SameKinds(p, q) && FqnOf(p) == FqnOf(q)
    ensures p == q
  {
    FqnDeterminesTexts(p, q);
    forall c | 0 <= c < |p| ensures p[c] == q[c] {
      SameTextSameComponent(p[c], q[c]);
    }
  }

  /** So names of distinct paths are distinct, if the components are plain and of one kind. */
  lemma PlainNamesAreDistinct<V>(d: seq<(NestedPath, V)>)
    requires DistinctKeys(d) && forall i :: 0 <= i < |d| ==> PlainPath(d[i].0)
    requires forall i, j :: 0 <= i < |d| && 0 <= j < |d| ==> SameKinds(d[i].0, d[j].0)
    ensures AllDistinct(Names(d))
  {
    forall i, j | 0 <= i < j < |d| ensures Names(d)[i] != Names(d)[j] {
      if FqnOf(d[i].0) == FqnOf(d[j].0) {
        PlainFqnIsInjective(d[i].0, d[j].0);
      }
    }
  }

  lemma SameTextSameComponent(a: Component, b: Component)
    requires Text(a) == Text(b) && (a.Key? <==> b.Key?)
    ensures a == b
  {
    if a.Position? {
      DecimalRoundTrip(a.index);
      DecimalRoundTrip(b.index);
    }
  }

  /** The names of a dictionary's keys, in order. */
  function Names<V>(d: seq<(NestedPath, V)>): (r: seq<string>)
    ensures |r| == |d|
  {
    seq(|d|, i requires 0 <= i < |d| => FqnOf(d[i].0))
  }

  ghost predicate AllDistinct<T>(s: seq<T>) {
    forall i, j :: 0 <= i < j < |s| ==> s[i] != s[j]
  }

  /** Succeeds exactly when no two paths share a name; then the named dictionary is the
      given one with its keys renamed in place, and the second result inverts the
      renaming. */
  method ConvertNestedPathDictToFqn<V>(d: seq<(NestedPath, V)>)
    returns (r: Result<(seq<(string, V)>, map<string, NestedPath>), PlanError>)
    requires DistinctKeys(d)
    ensures r.Ok? <==> AllDistinct(Names(d))
    ensures r.Ok? ==>
      && |r.value.0| == |d|
      && DistinctKeys(r.value.0)
      && (forall i :: 0 <= i < |d| ==> r.value.0[i] == (Names(d)[i], d[i].1))
      && (forall i :: 0 <= i < |d| ==> Names(d)[i] in r.value.1 && r.value.1[Names(d)[i]] == d[i].0)
  {
    var names := Names(d);
    var named: seq<(string, V)> := [];
    var toPath: map<string, NestedPath> := map[];
    for n := 0 to |d|
      invariant |named| == n
      invariant forall i :: 0 <= i < n ==> named[i] == (names[i], d[i].1)
      invariant forall i :: 0 <= i < n ==> names[i] in toPath && toPath[names[i]] == d[i].0
      invariant forall f :: f in toPath ==> f in names[..n]
      invariant AllDistinct(names[..n])
    {
      var fqn := names[n];
      if fqn in toPath {
        return Err(FqnCollision(fqn));
      }
      assert fqn !in names[..n];
      toPath := toPath[fqn := d[n].0];
      named := named + [(fqn, d[n].1)];
      assert names[..n + 1] == names[..n] + [fqn];
    }
    assert names[..|d|] == names;
    return Ok((named, toPath));
  }

  // ----- deduplicate_source_chunks

  /** Plan i reads this chunk from this rank and no later plan does. */
  ghost predicate LastAt(plans: seq<LoadPlan>, i: nat, offsets: Dims, rank: Rank)
    requires i < |plans|
  {
    && plans[i].offsets == offsets && plans[i].srcRank == rank
    && forall j :: i < j < |plans| ==> !(plans[j].offsets == offsets && plans[j].srcRank == rank)
  }

  ghost predicate Offered(plans: seq<LoadPlan>, offsets: Dims, rank: Rank) {
    exists i :: 0 <= i < |plans| && plans[i].offsets == offsets && plans[i].srcRank == rank
  }

  ghost predicate LastOf(plans: seq<LoadPlan>, offsets: Dims, rank: Rank, plan: LoadPlan) {
    exists i :: 0 <= i < |plans| && plans[i] == plan && LastAt(plans, i, offsets, rank)
  }

  /** One plan is kept for each target offset: of those that read from the lowest source
      rank offered for that offset, the last listed. */
  ghost predicate Selects(sel: seq<LoadPlan>, plans: seq<LoadPlan>) {
    && (forall s :: s in sel ==> Chosen(s, plans))
    && (forall i, j :: 0 <= i < j < |sel| ==> sel[i].offsets != sel[j].offsets)
    && (forall p :: p in plans ==> HasSource(sel, p.offsets))
  }

  ghost predicate Chosen(s: LoadPlan, plans: seq<LoadPlan>) {
    && LastOf(plans, s.offsets, s.srcRank, s)
    && forall p :: p in plans && p.offsets == s.offsets ==> s.srcRank <= p.srcRank
  }

  ghost predicate HasSource(sel: seq<LoadPlan>, offsets: Dims) {
    exists s :: s in sel && s.offsets == offsets
  }

  /** The dictionaries of step 1 for one name: source ranks by offset, and the plan by
      offset and rank, with the offsets in insertion order. */
  datatype Chunks = Chunks(keys: seq<Dims>, ranks: map<Dims, set<Rank>>, plans: map<(Dims, Rank), LoadPlan>)

  ghost predicate Describes(c: Chunks, done: seq<LoadPlan>) {
    && AllDistinct(c.keys)
    && (forall k :: k in c.keys <==> k in c.ranks)
    && (forall k :: k in c.ranks ==> c.ranks[k] != {})
    && (forall k, r: Rank :: (k in c.ranks && r in c.ranks[k]) <==> Offered(done, k, r))
    && (forall k, r: Rank :: Offered(done, k, r) ==> (k, r) in c.plans && LastOf(done, k, r, c.plans[(k, r)]))
  }

  function AddPlan(c: Chunks, plan: LoadPlan): Chunks {
    var key := plan.offsets;
    Chunks(if key in c.ranks then c.keys else c.keys + [key],
           c.ranks[key := (if key in c.ranks then c.ranks[key] else {}) + {plan.srcRank}],
           c.plans[(key, plan.srcRank) := plan])
  }

  lemma OfferedAfter(done: seq<LoadPlan>, p: LoadPlan, k: Dims, r: Rank)
    ensures Offered(done + [p], k, r) <==> Offered(done, k, r) || (p.offsets == k && p.srcRank == r)
  {
    var all := done + [p];
    if i :| 0 <= i < |done| && done[i].offsets == k && done[i].srcRank == r {
      assert all[i].offsets == k && all[i].srcRank == r;
    }
    if p.offsets == k && p.srcRank == r {
      assert all[|done|].offsets == k && all[|done|].srcRank == r;
    }
  }

  lemma LastAfter(done: seq<LoadPlan>, p: LoadPlan, k: Dims, r: Rank, plan: LoadPlan)
    ensures p.offsets == k && p.srcRank == r && p == plan ==> LastOf(done + [p], k, r, plan)
    ensures !(p.offsets == k && p.srcRank == r) && LastOf(done, k, r, plan) ==> LastOf(done + [p], k, r, plan)
  {
    var all := done + [p];
    if p.offsets == k && p.srcRank == r && p == plan {
      assert all[|done|] == plan && LastAt(all, |done|, k, r);
    }
    if !(p.offsets == k && p.srcRank == r) && LastOf(done, k, r, plan) {
      var i :| 0 <= i < |done| && done[i] == plan && LastAt(done, i, k, r);
      assert all[i] == plan && LastAt(all, i, k, r);
    }
  }

  lemma AddPlanDescribes(c: Chunks, done: seq<LoadPlan>, p: LoadPlan)
    requires Describes(c, done)
    ensures Describes(AddPlan(c, p), done + [p])
  {
    var c' := AddPlan(c, p);
    assert forall k :: k in c'.keys <==> k in c.keys || k == p.offsets;
    forall k, r: Rank
      ensures (k in c'.ranks && r in c'.ranks[k]) <==> Offered(done + [p], k, r)
      ensures Offered(done + [p], k, r) ==> (k, r) in c'.plans && LastOf(done + [p], k, r, c'.plans[(k, r)])
    {
      OfferedAfter(done, p, k, r);
      if Offered(done + [p], k, r) {
        if k == p.offsets && r == p.srcRank {
          LastAfter(done, p, k, r, p);
        } else {
          LastAfter(done, p, k, r, c.plans[(k, r)]);
        }
      }
    }
  }

  lemma LeastOf(s: set<nat>) returns (m: nat)
    requires s != {}
    ensures m in s && forall x :: x in s ==> m <= x
  {
    var x :| x in s;
    m := x;
    if s - {x} != {} {
      var least := LeastOf(s - {x});
      m := if least < x then least else x;
    }
    forall y | y in s ensures m <= y {
      assert y == x || y in s - {x};
    }
  }

  lemma MinExists(s: set<nat>)
    requires s != {}
    ensures exists m :: m in s && forall x :: x in s ==> m <= x
  {
    var m := LeastOf(s);
  }

  function MinOf(s: set<nat>): (m: nat)
    requires s != {}
    ensures m in s && forall x :: x in s ==> m <= x
  {
    MinExists(s);
    var m :| m in s && forall x :: x in s ==> m <= x;
    m
  }

  lemma DescribesNext(c: Chunks, plans: seq<LoadPlan>, i: nat)
    requires i < |plans| && Describes(c, plans[..i])
    ensures Describes(AddPlan(c, plans[i]), plans[..i + 1])
  {
    assert plans[..i + 1] == plans[..i] + [plans[i]];
    AddPlanDescribes(c, plans[..i], plans[i]);
  }

  method CollectChunks(plans: seq<LoadPlan>) returns (c: Chunks)
    ensures Describes(c, plans)
  {
    c := Chunks([], map[], map[]);
    for i := 0 to |plans|
      invariant Describes(c, plans[..i])
    {
      DescribesNext(c, plans, i);
      c := AddPlan(c, plans[i]);
    }
    assert plans[..|plans|] == plans;
  }

  /** The plan kept for a chunk: the one recorded for its lowest rank. */
  function Assigned(c: Chunks, key: Dims): LoadPlan
    requires key in c.ranks && c.ranks[key] != {} && (key, MinOf(c.ranks[key])) in c.plans
  {
    c.plans[(key, MinOf(c.ranks[key]))]
  }

  lemma AssignedIsChosen(c: Chunks, plans: seq<LoadPlan>, key: Dims)
    requires Describes(c, plans) && key in c.ranks
    ensures (key, MinOf(c.ranks[key])) in c.plans
    ensures var s := Assigned(c, key);
      s.offsets == key && s.srcRank == MinOf(c.ranks[key]) && Chosen(s, plans)
  {
    var rank := MinOf(c.ranks[key]);
    assert Offered(plans, key, rank);
    forall p | p in plans && p.offsets == key ensures rank <= p.srcRank {
      assert Offered(plans, key, p.srcRank);
    }
  }

  lemma RanksAppend(sel: seq<LoadPlan>, p: LoadPlan)
    ensures SourceRanks(sel + [p]) == SourceRanks(sel) + {p.srcRank}
  {
    assert forall s :: s in sel + [p] <==> s in sel || s == p;
  }

  method ChooseSources(plans: seq<LoadPlan>) returns (sel: seq<LoadPlan>, ranks: set<Rank>)
    ensures Selects(sel, plans)
    ensures ranks == SourceRanks(sel)
  {
    var c := CollectChunks(plans);
    sel, ranks := [], {};
    for n := 0 to |c.keys|
      invariant |sel| == n
      invariant forall i :: 0 <= i < n ==> sel[i].offsets == c.keys[i] && Chosen(sel[i], plans)
      invariant ranks == SourceRanks(sel)
    {
      assert c.keys[n] in c.keys;
      AssignedIsChosen(c, plans, c.keys[n]);
      var plan := Assigned(c, c.keys[n]);
      RanksAppend(sel, plan);
      ranks := ranks + {MinOf(c.ranks[c.keys[n]])};
      sel := sel + [plan];
    }
    forall p | p in plans ensures HasSource(sel, p.offsets) {
      assert Offered(plans, p.offsets, p.srcRank);
      var i :| 0 <= i < |c.keys| && c.keys[i] == p.offsets;
      assert sel[i] in sel;
    }
  }

  function NonEmpty(d: seq<(string, seq<LoadPlan>)>): seq<(string, seq<LoadPlan>)> {
    if d == [] then []
    else NonEmpty(d[..|d| - 1]) + if d[|d| - 1].1 == [] then [] else [d[|d| - 1]]
  }

  /** Per name, one source for each target chunk; names keep their order, and names
      without plans disappear. */
  method DeduplicateSourceChunks(input: seq<(string, seq<LoadPlan>)>)
    returns (out: seq<(string, seq<LoadPlan>)>, selected: set<Rank>)
    ensures |out| == |NonEmpty(input)|
    ensures forall i :: 0 <= i < |out| ==> out[i].0 == NonEmpty(input)[i].0 && Selects(out[i].1, NonEmpty(input)[i].1)
    ensures selected == AllRanks(out)
  {
    out, selected := [], {};
    for n := 0 to |input|
      invariant |out| == |NonEmpty(input[..n])|
      invariant forall i :: 0 <= i < |out| ==> out[i].0 == NonEmpty(input[..n])[i].0 && Selects(out[i].1, NonEmpty(input[..n])[i].1)
      invariant selected == AllRanks(out)
    {
      assert input[..n + 1][..n] == input[..n];
      var sel, ranks := ChooseSources(input[n].1);
      if input[n].1 != [] {
        ghost var before := out;
        out := out + [(input[n].0, sel)];
        assert out[..|out| - 1] == before;
        selected := selected + ranks;
      }
    }
    assert input[..|input|] == input;
  }

  function AllRanks(d: seq<(string, seq<LoadPlan>)>): set<Rank> {
    if d == [] then {} else AllRanks(d[..|d| - 1]) + SourceRanks(d[|d| - 1].1)
  }

  function SourceRanks(plans: seq<LoadPlan>): set<Rank> {
    set s | s in plans :: s.srcRank
  }

  // ----- dedupe_aliased_targets

  /** Targets with the address of their storage, or None for values that are not tensors
      or hold no elements, which cannot alias. */
  type Targets<K, A> = seq<(K, Option<A>)>

  /** A later target has the same address. */
  ghost predicate Superseded<K, A>(targets: Targets<K, A>, i: nat)
    requires i < |targets|
  {
    targets[i].1.Some? && exists j :: i < j < |targets| && targets[j].1 == targets[i].1
  }

  /** `key` is the last one with this address. */
  ghost predicate LastKey<K, A>(targets: Targets<K, A>, address: A, key: K) {
    exists i :: 0 <= i < |targets| && targets[i] == (key, Some(address)) && !Superseded(targets, i)
  }

  ghost predicate IsDropped<K, A>(targets: Targets<K, A>, key: K) {
    exists i :: 0 <= i < |targets| && targets[i].0 == key && Superseded(targets, i)
  }

  ghost predicate AliasPair<K, A>(targets: Targets<K, A>, dropped: K, kept: K) {
    exists i :: 0 <= i < |targets| && targets[i].0 == dropped && Superseded(targets, i)
      && LastKey(targets, targets[i].1.value, kept)
  }

  function Without<K(==), V>(d: seq<(K, V)>, dropped: set<K>): seq<(K, V)> {
    if d == [] then []
    else (if d[0].0 in dropped then [] else [d[0]]) + Without(d[1..], dropped)
  }

  lemma {:induction false} WithoutKeeps<K, V>(d: seq<(K, V)>, dropped: set<K>, e: (K, V))
    ensures e in Without(d, dropped) <==> e in d && e.0 !in dropped
  {
    if d != [] { WithoutKeeps(d[1..], dropped, e); }
  }

  /** The address dictionary after the first n targets: each address maps to its last key. */
  ghost predicate LastSoFar<K, A>(targets: Targets<K, A>, n: nat, keyFor: map<A, K>)
    requires n <= |targets|
  {
    && (forall i :: 0 <= i < n && targets[i].1.Some? ==> targets[i].1.value in keyFor)
    && (forall a :: a in keyFor ==> LastBefore(targets, n, a, keyFor[a]))
  }

  ghost predicate LastBefore<K, A>(targets: Targets<K, A>, n: nat, a: A, key: K)
    requires n <= |targets|
  {
    exists i :: 0 <= i < n && targets[i] == (key, Some(a)) && (forall j :: i < j < n ==> targets[j].1 != Some(a))
  }

  method CollectLastKeys<K, A(==)>(targets: Targets<K, A>) returns (keyFor: map<A, K>)
    ensures LastSoFar(targets, |targets|, keyFor)
  {
    keyFor := map[];
    for n := 0 to |targets|
      invariant LastSoFar(targets, n, keyFor)
    {
      if targets[n].1.Some? {
        keyFor := keyFor[targets[n].1.value := targets[n].0];
      }
    }
  }

  lemma LastSoFarIsLastKey<K, A>(targets: Targets<K, A>, keyFor: map<A, K>, i: nat)
    requires DistinctKeys(targets) && LastSoFar(targets, |targets|, keyFor)
    requires i < |targets| && targets[i].1.Some?
    ensures LastKey(targets, targets[i].1.value, keyFor[targets[i].1.value])
    ensures keyFor[targets[i].1.value] != targets[i].0 <==> Superseded(targets, i)
    ensures forall k :: LastKey(targets, targets[i].1.value, k) ==> k == keyFor[targets[i].1.value]
  {
    var a := targets[i].1.value;
    var l :| 0 <= l < |targets| && targets[l] == (keyFor[a], Some(a)) && forall j :: l < j < |targets| ==> targets[j].1 != Some(a);
    assert !Superseded(targets, l);
    if i != l { assert targets[l].1 == targets[i].1; }
  }

  ghost predicate DroppedBefore<K, A>(targets: Targets<K, A>, n: nat, d: K)
    requires n <= |targets|
  {
    exists i :: 0 <= i < n && targets[i].0 == d && Superseded(targets, i)
  }

  ghost predicate PairBefore<K, A>(targets: Targets<K, A>, n: nat, d: K, k: K)
    requires n <= |targets|
  {
    exists i :: 0 <= i < n && targets[i].0 == d && Superseded(targets, i) && LastKey(targets, targets[i].1.value, k)
  }

  ghost predicate PairsAre<K(!new), A>(targets: Targets<K, A>, n: nat, pairs: seq<(K, K)>)
    requires n <= |targets|
  {
    forall d, k :: (d, k) in pairs <==> PairBefore(targets, n, d, k)
  }

  ghost predicate DroppedAre<K(!new), A>(targets: Targets<K, A>, n: nat, dropped: set<K>)
    requires n <= |targets|
  {
    forall d :: d in dropped <==> DroppedBefore(targets, n, d)
  }

  lemma NextPair<K, A>(targets: Targets<K, A>, n: nat, d: K, k: K)
    requires n < |targets|
    ensures PairBefore(targets, n + 1, d, k) <==>
      (PairBefore(targets, n, d, k) || (targets[n].0 == d && Superseded(targets, n) && LastKey(targets, targets[n].1.value, k)))
    ensures DroppedBefore(targets, n + 1, d) <==>
      (DroppedBefore(targets, n, d) || (targets[n].0 == d && Superseded(targets, n)))
  {
  }

  lemma NothingDropped<K(!new), A>(targets: Targets<K, A>, n: nat, pairs: seq<(K, K)>, dropped: set<K>)
    requires n < |targets| && PairsAre(targets, n, pairs) && DroppedAre(targets, n, dropped) && !Superseded(targets, n)
    ensures PairsAre(targets, n + 1, pairs) && DroppedAre(targets, n + 1, dropped)
  {
    forall d, k
      ensures (d, k) in pairs <==> PairBefore(targets, n + 1, d, k)
      ensures d in dropped <==> DroppedBefore(targets, n + 1, d)
    {
      NextPair(targets, n, d, k);
    }
  }

  lemma OneDropped<K(!new), A>(targets: Targets<K, A>, n: nat, pairs: seq<(K, K)>, dropped: set<K>, kept: K)
    requires n < |targets| && PairsAre(targets, n, pairs) && DroppedAre(targets, n, dropped)
    requires Superseded(targets, n) && forall k :: LastKey(targets, targets[n].1.value, k) <==> k == kept
    ensures PairsAre(targets, n + 1, pairs + [(targets[n].0, kept)]) && DroppedAre(targets, n + 1, dropped + {targets[n].0})
  {
    forall d, k
      ensures (d, k) in pairs + [(targets[n].0, kept)] <==> PairBefore(targets, n + 1, d, k)
      ensures d in dropped + {targets[n].0} <==> DroppedBefore(targets, n + 1, d)
    {
      NextPair(targets, n, d, k);
    }
  }

  method CollectAliases<K(==,!new), A(==)>(targets: Targets<K, A>) returns (pairs: seq<(K, K)>, dropped: set<K>)
    requires DistinctKeys(targets)
    ensures forall d, k :: (d, k) in pairs <==> AliasPair(targets, d, k)
    ensures forall d :: d in dropped <==> IsDropped(targets, d)
    ensures pairs == [] ==> dropped == {}
  {
    var keyFor := CollectLastKeys(targets);
    pairs, dropped := [], {};
    for n := 0 to |targets|
      invariant PairsAre(targets, n, pairs) && DroppedAre(targets, n, dropped)
      invariant pairs == [] ==> dropped == {}
    {
      if targets[n].1.Some? {
        LastSoFarIsLastKey(targets, keyFor, n);
        var kept := keyFor[targets[n].1.value];
        if kept != targets[n].0 {
          OneDropped(targets, n, pairs, dropped, kept);
          pairs := pairs + [(targets[n].0, kept)];
          dropped := dropped + {targets[n].0};
        } else {
          NothingDropped(targets, n, pairs, dropped);
        }
      } else {
        NothingDropped(targets, n, pairs, dropped);
      }
    }
    forall d, k ensures AliasPair(targets, d, k) <==> PairBefore(targets, |targets|, d, k) { }
    forall d ensures IsDropped(targets, d) <==> DroppedBefore(targets, |targets|, d) { }
  }

  /** Every key whose target has a later target at the same address is dropped from both
      dictionaries, and paired with the last key at that address. */
  method DedupeAliasedTargets<K(==,!new), A(==), V>(targets: Targets<K, A>, plans: seq<(K, V)>)
    returns (keptTargets: Targets<K, A>, keptPlans: seq<(K, V)>, pairs: seq<(K, K)>)
    requires DistinctKeys(targets)
    ensures forall d, k :: (d, k) in pairs <==> AliasPair(targets, d, k)
    ensures forall e :: e in keptTargets <==> e in targets && !IsDropped(targets, e.0)
    ensures forall e :: e in keptPlans <==> e in plans && !IsDropped(targets, e.0)
    ensures pairs == [] ==> keptTargets == targets && keptPlans == plans
  {
    var dropped;
    pairs, dropped := CollectAliases(targets);
    if pairs == [] {
      keptTargets, keptPlans := targets, plans;
    } else {
      keptTargets, keptPlans := Without(targets, dropped), Without(plans, dropped);
      forall e ensures e in keptTargets <==> e in targets && e.0 !in dropped { WithoutKeeps(targets, dropped, e); }
      forall e ensures e in keptPlans <==> e in plans && e.0 !in dropped { WithoutKeeps(plans, dropped, e); }
    }
  }

  /** No two kept targets share an address, and every address keeps one. */
  lemma KeptAddressesAreDistinct<K, A>(targets: Targets<K, A>, i: nat, j: nat)
    requires DistinctKeys(targets)
    requires i < |targets| && j < |targets| && targets[i].1.Some? && targets[i].1 == targets[j].1
    requires !IsDropped(targets, targets[i].0) && !IsDropped(targets, targets[j].0)
    ensures i == j
  {
  }
}
