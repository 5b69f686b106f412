/** Aggregating sharding metadata across ranks (metadata_manager.py). */
module MetadataAggregation {
  import opened Wrappers
  import opened Sorting
  import opened Streams
  import opened LengthPrefix
  import opened LoadPlans

  // Compaction to one representative rank, the padded all-gather, and the merge by value.
  // A metadata value is identified by its packed form, which is what the merge compares.

  /** Sharding metadata: its packed form, and the ranks that share it if it names them. */
  datatype Meta = Meta(packed: string, equivalentRanks: Option<seq<Rank>>)

  type PathMetas = map<NestedPath, Meta>
  type LocalMetadata = map<string, PathMetas>

  datatype MetaGroup = MetaGroup(meta: Meta, ranks: seq<Rank>)

  function Least(s: seq<Rank>): (m: Rank)
    requires s != []
    ensures m in s && forall r :: r in s ==> m <= r
  {
    if |s| == 1 then s[0]
    else
      var rest := Least(s[1..]);
      assert forall r :: r in s ==> r == s[0] || r in s[1..];
      if s[0] < rest then s[0] else rest
  }

  // ----- compaction

  predicate WellFormed(m: Meta) {
    m.equivalentRanks.Some? ==> m.equivalentRanks.value != [] && AllDistinct(m.equivalentRanks.value)
  }

  /** Whether this rank speaks for the metadata. */
  predicate Represents(rank: Rank, m: Meta)
    requires WellFormed(m)
  {
    m.equivalentRanks.Some? ==> rank == Least(m.equivalentRanks.value)
  }

  predicate AllWellFormed(local: LocalMetadata) {
    forall item :: item in local ==> forall path :: path in local[item] ==> WellFormed(local[item][path])
  }

  function CompactItem(rank: Rank, metas: PathMetas): PathMetas
    requires forall path :: path in metas ==> WellFormed(metas[path])
  {
    map path | path in metas && Represents(rank, metas[path]) :: metas[path]
  }

  function Compacted(rank: Rank, local: LocalMetadata): LocalMetadata
    requires AllWellFormed(local)
  {
    map item | item in local && CompactItem(rank, local[item]) != map[] :: CompactItem(rank, local[item])
  }

  /** Keep the entries this rank represents, and the items that still have any. */
  method Compact(rank: Rank, local: LocalMetadata) returns (compacted: LocalMetadata)
    requires AllWellFormed(local)
    ensures compacted == Compacted(rank, local)
  {
    compacted := map[];
    var todo := local.Keys;
    while todo != {}
      invariant todo <= local.Keys
      invariant compacted == map item | item in local && item !in todo && CompactItem(rank, local[item]) != map[] :: CompactItem(rank, local[item])
      decreases |todo|
    {
      var item :| item in todo;
      var kept := CompactPaths(rank, local[item]);
      if kept != map[] {
        compacted := compacted[item := kept];
      }
      todo := todo - {item};
    }
  }

  method CompactPaths(rank: Rank, metas: PathMetas) returns (kept: PathMetas)
    requires forall path :: path in metas ==> WellFormed(metas[path])
    ensures kept == CompactItem(rank, metas)
  {
    kept := map[];
    var todo := metas.Keys;
    while todo != {}
      invariant todo <= metas.Keys
      invariant kept == map path | path in metas && path !in todo && Represents(rank, metas[path]) :: metas[path]
      decreases |todo|
    {
      var path :| path in todo;
      var m := metas[path];
      if m.equivalentRanks.None? || rank == Least(m.equivalentRanks.value) {
        kept := kept[path := m];
      }
      todo := todo - {path};
    }
  }

  // ----- the padded all-gather

  function Longest(all: seq<seq<byte>>): (n: nat)
    ensures forall r :: 0 <= r < |all| ==> |all[r]| <= n
  {
    if all == [] then 0
    else
      var rest := Longest(all[..|all| - 1]);
      if |all[|all| - 1]| > rest then |all[|all| - 1]| else rest
  }

  /** What every rank sends: its data behind its length, padded with zeros to the longest. */
  function Sent(all: seq<seq<byte>>): (r: Option<seq<seq<byte>>>)
    ensures r.Some? <==> forall i :: 0 <= i < |all| ==> Prefixed(all[i]).Some?
  {
    if exists i :: 0 <= i < |all| && Prefixed(all[i]).None? then None
    else
      var prefixed := seq(|all|, i requires 0 <= i < |all| => Prefixed(all[i]).value);
      var size := Longest(prefixed);
      Some(seq(|all|, i requires 0 <= i < |all| => prefixed[i] + seq(size - |prefixed[i]|, _ => 0)))
  }

  /** All buffers have one size, as the collective needs, and every rank recovers every
      other rank's data exactly. */
  lemma GatherRoundTrip(all: seq<seq<byte>>, r: nat)
    requires Sent(all).Some? && r < |all|
    ensures |Sent(all).value| == |all|
    ensures forall q :: 0 <= q < |all| ==> |Sent(all).value[q]| == |Sent(all).value[r]| >= PREFIX_BYTES
    ensures Unprefixed(Sent(all).value[r]) == all[r]
  {
    var prefixed := seq(|all|, i requires 0 <= i < |all| => Prefixed(all[i]).value);
    var size := Longest(prefixed);
    forall q | 0 <= q < |all| ensures |Sent(all).value[q]| == size >= PREFIX_BYTES {
      assert |prefixed[q]| <= size;
    }
    PrefixRoundTrip(all[r], seq(size - |prefixed[r]|, _ => 0));
  }

  // ----- the merge, for one path

  /** What each rank holds at one path. */
  type Column = seq<Option<Meta>>

  function GroupOf(groups: seq<MetaGroup>, m: Meta): (i: nat)
    ensures i <= |groups| && (i < |groups| ==> groups[i].meta == m)
    ensures i == |groups| ==> forall j :: 0 <= j < |groups| ==> groups[j].meta != m
  {
    if groups == [] then 0
    else
      var n := |groups| - 1;
      var i := GroupOf(groups[..n], m);
      if i < n then i else if groups[n].meta == m then n else n + 1
  }

  function AddRank(groups: seq<MetaGroup>, m: Meta, rank: Rank): seq<MetaGroup> {
    var i := GroupOf(groups, m);
    if i < |groups| then groups[i := MetaGroup(m, groups[i].ranks + [rank])] else groups + [MetaGroup(m, [rank])]
  }

  /** Ranks grouped by value, in rank order. */
  function Grouped(c: Column): seq<MetaGroup> {
    if c == [] then []
    else
      var n := |c| - 1;
      if c[n].Some? then AddRank(Grouped(c[..n]), c[n].value, n) else Grouped(c[..n])
  }

  /** Metadata that names its ranks is listed with all of them, in order. */
  function Finish(g: MetaGroup): MetaGroup {
    if g.meta.equivalentRanks.Some? then MetaGroup(g.meta, Ascending(g.meta.equivalentRanks.value)) else g
  }

  function Merged(c: Column): (r: seq<MetaGroup>)
    ensures |r| == |Grouped(c)|
  {
    seq(|Grouped(c)|, i requires 0 <= i < |Grouped(c)| => Finish(Grouped(c)[i]))
  }

  // ----- what the merge should give

  /** The ranks that hold m, ascending. */
  function Holders(c: Column, m: Meta): seq<Rank> {
    if c == [] then [] else Holders(c[..|c| - 1], m) + if c[|c| - 1] == Some(m) then [|c| - 1] else []
  }

  /** The values held, each once, by the first rank that holds it. */
  function Values(c: Column): seq<Meta> {
    if c == [] then []
    else
      var before := Values(c[..|c| - 1]);
      if c[|c| - 1].Some? && c[|c| - 1].value !in before then before + [c[|c| - 1].value] else before
  }

  /** One group per distinct value, with exactly the ranks that hold it. */
  function ByValue(c: Column): (r: seq<MetaGroup>)
    ensures |r| == |Values(c)|
  {
    seq(|Values(c)|, i requires 0 <= i < |Values(c)| => MetaGroup(Values(c)[i], Holders(c, Values(c)[i])))
  }

  lemma {:induction false} HoldersAreExact(c: Column, m: Meta)
    ensures StrictlyAscending(Holders(c, m))
    ensures forall r: nat :: r in Holders(c, m) <==> r < |c| && c[r] == Some(m)
  {
    if c != [] {
      var before := Holders(c[..|c| - 1], m);
      HoldersAreExact(c[..|c| - 1], m);
      assert forall i :: 0 <= i < |before| ==> before[i] in before;
    }
  }

  lemma {:induction false} ValuesAreExact(c: Column)
    ensures AllDistinct(Values(c))
    ensures forall m :: m in Values(c) <==> Some(m) in c
  {
    if c != [] {
      var n := |c| - 1;
      ValuesAreExact(c[..n]);
      assert c == c[..n] + [c[n]];
    }
  }

  lemma HoldersOfLast(c: Column, m: Meta)
    requires c != []
    ensures c[|c| - 1] != Some(m) ==> Holders(c, m) == Holders(c[..|c| - 1], m)
    ensures c[|c| - 1] == Some(m) && m !in Values(c[..|c| - 1]) ==> Holders(c, m) == [|c| - 1]
  {
    HoldersAreExact(c[..|c| - 1], m);
    ValuesAreExact(c[..|c| - 1]);
    var before := Holders(c[..|c| - 1], m);
    if c[|c| - 1] == Some(m) && before != [] {
      assert before[0] in before;
      assert Some(m) == c[..|c| - 1][before[0]];
    }
  }

  lemma ValueStays(c: Column, i: nat)
    requires c != [] && i < |Values(c[..|c| - 1])| && c[|c| - 1] != Some(Values(c[..|c| - 1])[i])
    ensures i < |Values(c)| && ByValue(c)[i] == ByValue(c[..|c| - 1])[i]
  {
    HoldersOfLast(c, Values(c[..|c| - 1])[i]);
  }

  /** One more rank without a value, with a value seen before, or with a new one. */
  lemma NoneAdded(c: Column)
    requires c != [] && c[|c| - 1].None?
    ensures ByValue(c) == ByValue(c[..|c| - 1])
  {
    forall i | 0 <= i < |ByValue(c)| ensures ByValue(c)[i] == ByValue(c[..|c| - 1])[i] {
      ValueStays(c, i);
    }
  }

  lemma KnownAdded(c: Column, m: Meta, i: nat)
    requires c != [] && c[|c| - 1] == Some(m)
    requires i < |Values(c[..|c| - 1])| && Values(c[..|c| - 1])[i] == m
    ensures var before := ByValue(c[..|c| - 1]);
      ByValue(c) == before[i := MetaGroup(m, before[i].ranks + [|c| - 1])]
  {
    var before := ByValue(c[..|c| - 1]);
    ValuesAreExact(c[..|c| - 1]);
    assert Values(c) == Values(c[..|c| - 1]);
    forall j | 0 <= j < |before| && j != i ensures ByValue(c)[j] == before[j] {
      ValueStays(c, j);
    }
  }

  lemma NewAdded(c: Column, m: Meta)
    requires c != [] && c[|c| - 1] == Some(m) && m !in Values(c[..|c| - 1])
    ensures ByValue(c) == ByValue(c[..|c| - 1]) + [MetaGroup(m, [|c| - 1])]
  {
    var before := ByValue(c[..|c| - 1]);
    HoldersOfLast(c, m);
    assert Values(c) == Values(c[..|c| - 1]) + [m];
    forall j | 0 <= j < |before| ensures ByValue(c)[j] == before[j] {
      ValueStays(c, j);
    }
  }

  lemma {:induction false} GroupedIsByValue(c: Column)
    ensures Grouped(c) == ByValue(c)
  {
    if c != [] {
      var n := |c| - 1;
      var before := ByValue(c[..n]);
      GroupedIsByValue(c[..n]);
      if c[n].None? {
        NoneAdded(c);
      } else {
        var i := GroupOf(before, c[n].value);
        if i < |before| {
          KnownAdded(c, c[n].value, i);
        } else {
          assert forall j :: 0 <= j < |before| ==> before[j].meta == Values(c[..n])[j];
          NewAdded(c, c[n].value);
        }
      }
    }
  }

  // ----- compaction loses nothing

  function CompactColumn(c: Column): (r: Column)
    requires forall r :: 0 <= r < |c| && c[r].Some? ==> WellFormed(c[r].value)
    ensures |r| == |c|
  {
    seq(|c|, r requires 0 <= r < |c| => if c[r].Some? && Represents(r, c[r].value) then c[r] else None)
  }

  /** Metadata that names its ranks is held by exactly those ranks. */
  ghost predicate Uniform(c: Column) {
    forall r :: 0 <= r < |c| && c[r].Some? ==> HeldByItsRanks(c, c[r].value)
  }

  ghost predicate HeldByItsRanks(c: Column, m: Meta) {
    WellFormed(m) && (m.equivalentRanks.Some? ==> forall q: nat :: q in m.equivalentRanks.value <==> q < |c| && c[q] == Some(m))
  }

  /** Among the holders of a value, the one that speaks for it comes first. */
  lemma RepresentativeIsFirst(c: Column, n: nat)
    requires Uniform(c) && n < |c| && c[n].Some? && c[n].value.equivalentRanks.Some?
    ensures Represents(n, c[n].value) <==> Some(c[n].value) !in c[..n]
  {
    var m := c[n].value;
    assert HeldByItsRanks(c, m);
    var e := m.equivalentRanks.value;
    assert n in e;
    if Some(m) in c[..n] {
      var r :| 0 <= r < n && c[r] == Some(m);
      assert r in e;
    } else {
      assert c[Least(e)] == Some(m);
    }
  }

  lemma {:induction false} CompactionKeepsValues(c: Column, n: nat)
    requires Uniform(c) && n <= |c|
    requires forall r :: 0 <= r < |c| && c[r].Some? ==> WellFormed(c[r].value)
    ensures Values(CompactColumn(c)[..n]) == Values(c[..n])
  {
    if n > 0 {
      CompactionKeepsValues(c, n - 1);
      assert c[..n][..n - 1] == c[..n - 1] && CompactColumn(c)[..n][..n - 1] == CompactColumn(c)[..n - 1];
      ValuesAreExact(c[..n - 1]);
      if c[n - 1].Some? && c[n - 1].value.equivalentRanks.Some? {
        RepresentativeIsFirst(c, n - 1);
      }
    }
  }

  lemma {:induction false} CompactionKeepsUnnamed(c: Column, m: Meta, n: nat)
    requires forall r :: 0 <= r < |c| && c[r].Some? ==> WellFormed(c[r].value)
    requires m.equivalentRanks.None? && n <= |c|
    ensures Holders(CompactColumn(c)[..n], m) == Holders(c[..n], m)
  {
    if n > 0 {
      CompactionKeepsUnnamed(c, m, n - 1);
      assert c[..n][..n - 1] == c[..n - 1] && CompactColumn(c)[..n][..n - 1] == CompactColumn(c)[..n - 1];
    }
  }

  lemma NamedRanksAreHolders(c: Column, m: Meta)
    requires HeldByItsRanks(c, m) && m.equivalentRanks.Some?
    ensures Ascending(m.equivalentRanks.value) == Holders(c, m)
  {
    var e := m.equivalentRanks.value;
    AscendingSorts(e);
    AscendingOfDistinct(e);
    HoldersAreExact(c, m);
    StrictlyAscendingIsUnique(Ascending(e), Holders(c, m));
  }

  lemma MergedIsByValue(c: Column, d: Column)
    requires Uniform(c) && Values(d) == Values(c)
    requires forall m :: m in Values(c) && m.equivalentRanks.None? ==> Holders(d, m) == Holders(c, m)
    ensures Merged(d) == ByValue(c)
  {
    GroupedIsByValue(d);
    ValuesAreExact(c);
    forall i | 0 <= i < |Values(c)| ensures Merged(d)[i] == ByValue(c)[i] {
      var m := Values(c)[i];
      assert Some(m) in c;
      var r :| 0 <= r < |c| && c[r] == Some(m);
      assert HeldByItsRanks(c, m);
      if m.equivalentRanks.Some? { NamedRanksAreHolders(c, m); }
    }
  }

  /** Compacting, gathering and merging gives, for each distinct value at a path, one group
      with exactly the ascending ranks that hold it, the same as merging everything. */
  lemma CompactionLosesNothing(c: Column)
    requires Uniform(c)
    ensures forall r :: 0 <= r < |c| && c[r].Some? ==> WellFormed(c[r].value)
    ensures Merged(CompactColumn(c)) == ByValue(c) == Merged(c)
  {
    assert forall r :: 0 <= r < |c| && c[r].Some? ==> HeldByItsRanks(c, c[r].value);
    CompactionKeepsValues(c, |c|);
    assert c[..|c|] == c && CompactColumn(c)[..|c|] == CompactColumn(c);
    forall m | m in Values(c) && m.equivalentRanks.None? ensures Holders(CompactColumn(c), m) == Holders(c, m) {
      CompactionKeepsUnnamed(c, m, |c|);
    }
    MergedIsByValue(c, CompactColumn(c));
    MergedIsByValue(c, c);
  }

  lemma ExactNamesHolders(c: Column, m: Meta)
    requires forall r :: 0 <= r < |c| && c[r].Some? ==> WellFormed(c[r].value)
    requires Merged(CompactColumn(c)) == ByValue(c) && Some(m) in c && m.equivalentRanks.Some?
    ensures Ascending(m.equivalentRanks.value) == Holders(c, m)
  {
    ValuesAreExact(c);
    var i :| 0 <= i < |Values(c)| && Values(c)[i] == m;
    assert ByValue(c)[i].meta == m && Merged(CompactColumn(c))[i] == Finish(Grouped(CompactColumn(c))[i]);
  }

  /** The condition is exactly the one needed: for well-formed metadata, compaction and
      merge give the exact groups if and only if metadata that names its ranks is held by
      exactly those ranks. */
  lemma CompactionExactIffUniform(c: Column)
    requires forall r :: 0 <= r < |c| && c[r].Some? ==> WellFormed(c[r].value)
    ensures Merged(CompactColumn(c)) == ByValue(c) <==> Uniform(c)
  {
    if Uniform(c) {
      CompactionLosesNothing(c);
    } else if Merged(CompactColumn(c)) == ByValue(c) {
      forall r | 0 <= r < |c| && c[r].Some? ensures HeldByItsRanks(c, c[r].value) {
        var m := c[r].value;
        if m.equivalentRanks.Some? {
          ExactNamesHolders(c, m);
          AscendingSorts(m.equivalentRanks.value);
          HoldersAreExact(c, m);
        }
      }
    }
  }

  // ----- the merge, over all items and paths

  function MetaAt(local: LocalMetadata, item: string, path: NestedPath): Option<Meta> {
    if item in local && path in local[item] then Some(local[item][path]) else None
  }

  function ColumnOf(all: seq<LocalMetadata>, item: string, path: NestedPath): (c: Column)
    ensures |c| == |all|
  {
    seq(|all|, r requires 0 <= r < |all| => MetaAt(all[r], item, path))
  }

  function Items(all: seq<LocalMetadata>): set<string> {
    set r, item | 0 <= r < |all| && item in all[r] :: item
  }

  function Paths(all: seq<LocalMetadata>, item: string): set<NestedPath> {
    set r, path | 0 <= r < |all| && item in all[r] && path in all[r][item] :: path
  }

  type GlobalView = map<string, map<NestedPath, seq<MetaGroup>>>

  function MergeItem(all: seq<LocalMetadata>, item: string): map<NestedPath, seq<MetaGroup>> {
    map path | path in Paths(all, item) :: Merged(ColumnOf(all, item, path))
  }

  function MergeItems(all: seq<LocalMetadata>, items: set<string>): GlobalView {
    map item | item in items :: MergeItem(all, item)
  }

  function MergeAll(all: seq<LocalMetadata>): GlobalView {
    MergeItems(all, Items(all))
  }

  /** Group the ranks of one path by value and finish the groups. */
  method MergePath(all: seq<LocalMetadata>, item: string, path: NestedPath) returns (groups: seq<MetaGroup>)
    ensures groups == Merged(ColumnOf(all, item, path))
  {
    ghost var c := ColumnOf(all, item, path);
    var metadataToRanks: seq<MetaGroup> := [];
    for rank := 0 to |all|
      invariant metadataToRanks == Grouped(c[..rank])
    {
      assert c[..rank + 1][..rank] == c[..rank];
      if item in all[rank] && path in all[rank][item] {
        metadataToRanks := AddRank(metadataToRanks, all[rank][item][path], rank);
      }
    }
    assert c[..|all|] == c;
    groups := [];
    for i := 0 to |metadataToRanks|
      invariant |groups| == i && forall j :: 0 <= j < i ==> groups[j] == Finish(metadataToRanks[j])
    {
      var g := metadataToRanks[i];
      var ranks := if g.meta.equivalentRanks.Some? then Ascending(g.meta.equivalentRanks.value) else g.ranks;
      groups := groups + [MetaGroup(g.meta, ranks)];
    }
  }

  lemma MergeOneMore(all: seq<LocalMetadata>, items: set<string>, item: string)
    ensures MergeItems(all, items + {item}) == MergeItems(all, items)[item := MergeItem(all, item)]
  {
  }

  method MergeObjectMetadataFromRanks(all: seq<LocalMetadata>) returns (result: GlobalView)
    ensures result == MergeAll(all)
  {
    result := map[];
    var items := Items(all);
    var todo := items;
    while todo != {}
      invariant todo <= items && result == MergeItems(all, items - todo)
      decreases |todo|
    {
      var item :| item in todo;
      var merged := MergePathsOfItem(all, item);
      MergeOneMore(all, items - todo, item);
      assert items - (todo - {item}) == items - todo + {item};
      result := result[item := merged];
      todo := todo - {item};
    }
    assert items - todo == items;
  }

  method MergePathsOfItem(all: seq<LocalMetadata>, item: string) returns (merged: map<NestedPath, seq<MetaGroup>>)
    ensures merged == MergeItem(all, item)
  {
    merged := map[];
    var paths := Paths(all, item);
    var todo := paths;
    while todo != {}
      invariant todo <= paths && merged == map path | path in paths - todo :: Merged(ColumnOf(all, item, path))
      decreases |todo|
    {
      var path :| path in todo;
      var groups := MergePath(all, item, path);
      merged := merged[path := groups];
      todo := todo - {path};
    }
  }

  function CompactAll(all: seq<LocalMetadata>): (r: seq<LocalMetadata>)
    requires forall q :: 0 <= q < |all| ==> AllWellFormed(all[q])
    ensures |r| == |all|
  {
    seq(|all|, q requires 0 <= q < |all| => Compacted(q, all[q]))
  }

  /** One group per distinct value and path, with exactly the ranks that hold it. */
  function ExactItem(all: seq<LocalMetadata>, item: string): map<NestedPath, seq<MetaGroup>> {
    map path | path in Paths(all, item) :: ByValue(ColumnOf(all, item, path))
  }

  function ExactView(all: seq<LocalMetadata>): GlobalView {
    map item | item in Items(all) :: ExactItem(all, item)
  }

  /** Metadata that names its ranks is held by exactly those ranks at that path, and only
      items with paths are reported. */
  ghost predicate UniformMetadata(all: seq<LocalMetadata>) {
    && (forall item, path :: Uniform(ColumnOf(all, item, path)))
    && (forall r, item :: 0 <= r < |all| && item in all[r] ==> all[r][item] != map[])
  }

  lemma UniformIsWellFormed(all: seq<LocalMetadata>)
    requires UniformMetadata(all)
    ensures forall q :: 0 <= q < |all| ==> AllWellFormed(all[q])
  {
    forall q, item, path | 0 <= q < |all| && item in all[q] && path in all[q][item] ensures WellFormed(all[q][item][path]) {
      var c := ColumnOf(all, item, path);
      assert Uniform(c) && c[q] == Some(all[q][item][path]);
      assert HeldByItsRanks(c, c[q].value);
    }
  }

  lemma CompactedColumn(all: seq<LocalMetadata>, item: string, path: NestedPath)
    requires forall q :: 0 <= q < |all| ==> AllWellFormed(all[q])
    ensures forall r :: 0 <= r < |all| && ColumnOf(all, item, path)[r].Some? ==> WellFormed(ColumnOf(all, item, path)[r].value)
    ensures ColumnOf(CompactAll(all), item, path) == CompactColumn(ColumnOf(all, item, path))
  {
    forall q | 0 <= q < |all|
      ensures ColumnOf(CompactAll(all), item, path)[q] == CompactColumn(ColumnOf(all, item, path))[q]
    {
      if item in all[q] && path in all[q][item] && Represents(q, all[q][item][path]) {
        assert path in CompactItem(q, all[q][item]);
      }
    }
  }

  /** A path is reported exactly when some rank holds a value there. */
  lemma PathsAreColumns(all: seq<LocalMetadata>, item: string, path: NestedPath)
    ensures path in Paths(all, item) <==> Values(ColumnOf(all, item, path)) != []
  {
    var c := ColumnOf(all, item, path);
    ValuesAreExact(c);
    if path in Paths(all, item) {
      var r :| 0 <= r < |all| && item in all[r] && path in all[r][item];
      assert c[r] == Some(all[r][item][path]);
      assert c[r].value in Values(c);
    }
    if Values(c) != [] {
      assert Some(Values(c)[0]) in c;
      var r :| 0 <= r < |c| && c[r] == Some(Values(c)[0]);
    }
  }

  lemma CompactionKeepsPath(all: seq<LocalMetadata>, item: string, path: NestedPath)
    requires UniformMetadata(all) && forall q :: 0 <= q < |all| ==> AllWellFormed(all[q])
    ensures path in Paths(CompactAll(all), item) <==> path in Paths(all, item)
    ensures Merged(ColumnOf(CompactAll(all), item, path)) == ByValue(ColumnOf(all, item, path)) == Merged(ColumnOf(all, item, path))
  {
    var c := ColumnOf(all, item, path);
    assert Uniform(c);
    CompactedColumn(all, item, path);
    CompactionLosesNothing(c);
    CompactionKeepsValues(c, |c|);
    assert c[..|c|] == c && CompactColumn(c)[..|c|] == CompactColumn(c);
    PathsAreColumns(all, item, path);
    PathsAreColumns(CompactAll(all), item, path);
  }

  lemma ItemHasPath(all: seq<LocalMetadata>, item: string)
    requires forall r :: 0 <= r < |all| && item in all[r] ==> all[r][item] != map[]
    ensures item in Items(all) <==> Paths(all, item) != {}
  {
    if item in Items(all) {
      var r :| 0 <= r < |all| && item in all[r];
      assert all[r][item].Keys != {};
      var path :| path in all[r][item];
      assert path in Paths(all, item);
    }
    if Paths(all, item) != {} {
      var path :| path in Paths(all, item);
    }
  }

  lemma ItemIsExact(all: seq<LocalMetadata>, item: string)
    requires UniformMetadata(all) && forall q :: 0 <= q < |all| ==> AllWellFormed(all[q])
    ensures MergeItem(CompactAll(all), item) == ExactItem(all, item) == MergeItem(all, item)
    ensures Paths(CompactAll(all), item) == Paths(all, item)
  {
    var compact := CompactAll(all);
    forall path: NestedPath ensures path in Paths(compact, item) <==> path in Paths(all, item) {
      CompactionKeepsPath(all, item, path);
    }
    assert Paths(compact, item) == Paths(all, item);
    forall path | path in Paths(all, item)
      ensures MergeItem(compact, item)[path] == ExactItem(all, item)[path] == MergeItem(all, item)[path]
    {
      CompactionKeepsPath(all, item, path);
    }
    SameMap(MergeItem(compact, item), ExactItem(all, item));
    SameMap(MergeItem(all, item), ExactItem(all, item));
  }

  lemma SameMap<K, V>(a: map<K, V>, b: map<K, V>)
    requires a.Keys == b.Keys && forall k :: k in b ==> a[k] == b[k]
    ensures a == b
  {
  }

  /** Over all items and paths: what the ranks merge from their compacted metadata is the
      exact view of everything they hold, and the same as merging it uncompacted. */
  lemma AggregationIsExact(all: seq<LocalMetadata>)
    requires UniformMetadata(all)
    ensures forall q :: 0 <= q < |all| ==> AllWellFormed(all[q])
    ensures MergeAll(CompactAll(all)) == ExactView(all) == MergeAll(all)
  {
    UniformIsWellFormed(all);
    var compact := CompactAll(all);
    forall item: string ensures item in Items(compact) <==> item in Items(all) {
      ItemIsExact(all, item);
      ItemHasPath(all, item);
      ItemHasPath(compact, item);
    }
    assert Items(compact) == Items(all);
    forall item | item in Items(all) ensures MergeAll(compact)[item] == ExactView(all)[item] == MergeAll(all)[item] {
      ItemIsExact(all, item);
    }
    SameMap(MergeAll(compact), ExactView(all));
    SameMap(MergeAll(all), ExactView(all));
  }

  /** One value that names ranks 0 and 1, held by rank 1 only. */
  function OneOfTwoHolds(): seq<LocalMetadata> {
    [map[], map["model" := map[[] := Meta("dtensor", Some([0, 1]))]]]
  }

  /** Rank 1 leaves it to rank 0 to report the value, so nobody does and it is lost. */
  lemma OneOfTwoIsLost()
    ensures forall q :: 0 <= q < 2 ==> AllWellFormed(OneOfTwoHolds()[q])
    ensures MergeAll(CompactAll(OneOfTwoHolds())) == map[] && "model" in ExactView(OneOfTwoHolds())
  {
    var all := OneOfTwoHolds();
    assert all[0] == map[] && "model" in all[1];
    assert CompactItem(1, all[1]["model"]) == map[];
    assert forall q, item :: 0 <= q < 2 ==> item !in CompactAll(all)[q];
  }
}
