/** The cached result of the collective metadata computation (metadata_manager.py). */
module MetadataCache {
  import opened Wrappers
  import opened LoadPlans
  import opened MetadataAggregation

  // The cache is kept or replaced by a unanimous vote of the ranks. The checks that a new
  // view must pass are those of distributed_metadata.py.

  datatype Layout = Layout(filePath: string, format: string)
  type Layouts = map<string, Option<Layout>>

  /** The metadata of a checkpoint: groups per item and path, and every rank's layout. */
  datatype Global = Global(view: GlobalView, layoutOf: map<string, map<Rank, Option<Layout>>>)

  /** What one rank brings to a round: its metadata, its layouts, and which of its items
      have a resharder. Metadata is extracted from those items only. */
  datatype Input = Input(local: LocalMetadata, layouts: Layouts, resharded: set<string>)

  predicate ValidInput(i: Input) {
    && i.local.Keys <= i.resharded <= i.layouts.Keys
    && AllWellFormed(i.local)
    && forall item :: item in i.local ==> i.local[item] != map[]
  }

  /** The layouts that decide whether a cache still holds. */
  function ReshardedLayouts(i: Input): Layouts
    requires ValidInput(i)
  {
    map item | item in i.resharded :: i.layouts[item]
  }

  function Lookup(layouts: Layouts, item: string): Option<Layout> {
    if item in layouts then layouts[item] else None
  }

  predicate ValidInputs(inputs: seq<Input>) {
    forall r :: 0 <= r < |inputs| ==> ValidInput(inputs[r])
  }

  function Locals(inputs: seq<Input>): (r: seq<LocalMetadata>)
    requires ValidInputs(inputs)
    ensures |r| == |inputs| && forall q :: 0 <= q < |r| ==> AllWellFormed(r[q])
  {
    seq(|inputs|, r requires 0 <= r < |inputs| => inputs[r].local)
  }

  /** What every rank assembles from the gathered metadata and layouts. */
  function Aggregate(inputs: seq<Input>): Global
    requires ValidInputs(inputs)
  {
    var view := MergeAll(CompactAll(Locals(inputs)));
    Global(view, LayoutsByItem(inputs, view.Keys))
  }

  function LayoutsByItem(inputs: seq<Input>, items: set<string>): map<string, map<Rank, Option<Layout>>> {
    map item | item in items :: LayoutsOf(inputs, item)
  }

  function LayoutsOf(inputs: seq<Input>, item: string): map<Rank, Option<Layout>> {
    map r: Rank | r < |inputs| :: Lookup(inputs[r].layouts, item)
  }

  // ----- the checks on construction

  datatype MetadataError = MissingRanks(item: string) | SharedPath(path: string)

  predicate RanksComplete(g: Global, worldSize: nat) {
    forall item :: item in g.layoutOf ==> RanksAre(g.layoutOf[item], worldSize)
  }

  predicate RanksAre(layouts: map<Rank, Option<Layout>>, worldSize: nat) {
    layouts.Keys == RankSet(worldSize)
  }

  function RankSet(n: nat): (s: set<Rank>)
    ensures forall r: Rank :: r in s <==> r < n
  {
    if n == 0 then {} else RankSet(n - 1) + {n - 1}
  }

  type Slot = (string, Rank)

  function Slots(g: Global): set<Slot> {
    set item, rank | item in g.layoutOf && rank in g.layoutOf[item] :: (item, rank)
  }

  /** The file an item's rank writes, if it writes one. */
  function PathAt(g: Global, s: Slot): Option<string> {
    if s.0 in g.layoutOf && s.1 in g.layoutOf[s.0] && g.layoutOf[s.0][s.1].Some?
    then Some(g.layoutOf[s.0][s.1].value.filePath) else None
  }

  predicate PathsDistinct(g: Global, slots: set<Slot>) {
    forall s, t :: s in slots && t in slots && PathAt(g, s).Some? && PathAt(g, s) == PathAt(g, t) ==> s == t
  }

  predicate Acceptable(g: Global, worldSize: nat) {
    RanksComplete(g, worldSize) && PathsDistinct(g, Slots(g))
  }

  method Validate(g: Global, worldSize: nat) returns (r: Result<(), MetadataError>)
    ensures r.Ok? <==> Acceptable(g, worldSize)
  {
    var todo := g.layoutOf.Keys;
    while todo != {}
      invariant todo <= g.layoutOf.Keys
      invariant forall item :: item in g.layoutOf && item !in todo ==> RanksAre(g.layoutOf[item], worldSize)
      decreases |todo|
    {
      var item :| item in todo;
      if g.layoutOf[item].Keys != RankSet(worldSize) {
        return Err(MissingRanks(item));
      }
      todo := todo - {item};
    }
    r := ValidatePaths(g);
  }

  method ValidatePaths(g: Global) returns (r: Result<(), MetadataError>)
    ensures r.Ok? <==> PathsDistinct(g, Slots(g))
  {
    var used: set<string> := {};
    var slots := Slots(g);
    var todo := slots;
    while todo != {}
      invariant todo <= slots && PathsDistinct(g, slots - todo)
      invariant forall path :: path in used <==> UsedBy(g, slots - todo, path)
      decreases |todo|
    {
      var slot :| slot in todo;
      ghost var checked := slots - todo;
      var path := PathAt(g, slot);
      assert slots - (todo - {slot}) == checked + {slot};
      if path.Some? {
        if path.value in used {
          ghost var other :| other in checked && PathAt(g, other) == path;
          return Err(SharedPath(path.value));
        }
        assert forall s :: s in checked && PathAt(g, s) == path ==> UsedBy(g, checked, path.value);
        used := used + {path.value};
      }
      UsedByNext(g, checked, slot);
      todo := todo - {slot};
    }
    assert slots - todo == slots;
    return Ok(());
  }

  predicate UsedBy(g: Global, slots: set<Slot>, path: string) {
    exists s :: s in slots && PathAt(g, s) == Some(path)
  }

  lemma UsedByNext(g: Global, slots: set<Slot>, slot: Slot)
    ensures forall path :: UsedBy(g, slots + {slot}, path) <==> UsedBy(g, slots, path) || PathAt(g, slot) == Some(path)
  {
    forall path ensures UsedBy(g, slots + {slot}, path) <==> UsedBy(g, slots, path) || PathAt(g, slot) == Some(path) {
      if UsedBy(g, slots, path) {
        var s :| s in slots && PathAt(g, s) == Some(path);
        assert s in slots + {slot};
      }
      assert slot in slots + {slot};
    }
  }

  // ----- one rank's manager

  datatype Cached = Cached(local: LocalMetadata, layouts: Layouts, global: Global)

  class DefaultMetadataManager {
    const rank: Rank
    var computed: Option<Cached>

    constructor (rank: Rank)
      ensures this.rank == rank && computed == None
    {
      this.rank := rank;
      computed := None;
    }

    /** This rank's vote for keeping the cache. */
    predicate CacheMatches(i: Input)
      requires ValidInput(i)
      reads this
    {
      computed.Some? && computed.value.local == i.local && computed.value.layouts == ReshardedLayouts(i)
    }

    method InvalidateComputedMetadata()
      modifies this
      ensures computed == None
    {
      computed := None;
    }
  }

  predicate OneEach(managers: seq<DefaultMetadataManager>) {
    forall i, j :: 0 <= i < j < |managers| ==> managers[i] != managers[j]
  }

  function States(managers: seq<DefaultMetadataManager>): (r: seq<Option<Cached>>)
    reads managers
    ensures |r| == |managers|
  {
    seq(|managers|, i requires 0 <= i < |managers| reads managers => managers[i].computed)
  }

  function Votes(states: seq<Option<Cached>>, inputs: seq<Input>): bool
    requires |states| == |inputs| && ValidInputs(inputs)
  {
    forall r :: 0 <= r < |states| ==>
      states[r].Some? && states[r].value.local == inputs[r].local && states[r].value.layouts == ReshardedLayouts(inputs[r])
  }

  /** Every rank's cache after recomputing. */
  function Recomputed(inputs: seq<Input>): (r: seq<Option<Cached>>)
    requires ValidInputs(inputs)
    ensures |r| == |inputs|
  {
    seq(|inputs|, r requires 0 <= r < |inputs| =>
      Some(Cached(inputs[r].local, ReshardedLayouts(inputs[r]), Aggregate(inputs))))
  }

  function NoCaches(n: nat): (r: seq<Option<Cached>>)
    ensures |r| == n
  {
    seq(n, _ => None)
  }

  predicate RoundSucceeds(states: seq<Option<Cached>>, inputs: seq<Input>)
    requires |states| == |inputs| && ValidInputs(inputs)
  {
    Votes(states, inputs) || Acceptable(Aggregate(inputs), |inputs|)
  }

  function RoundResult(states: seq<Option<Cached>>, inputs: seq<Input>): (r: seq<Option<Cached>>)
    requires |states| == |inputs| && ValidInputs(inputs)
    ensures |r| == |states|
  {
    if Votes(states, inputs) then states
    else if Acceptable(Aggregate(inputs), |inputs|) then Recomputed(inputs)
    else NoCaches(|states|)
  }

  /** One collective round on all ranks. A rank votes to keep its cache; the minimum of the
      votes decides for everyone. Otherwise every rank drops its cache first, so a failed
      aggregation leaves none behind. */
  method ComputeDistributedMetadata(managers: seq<DefaultMetadataManager>, inputs: seq<Input>)
    returns (r: Result<(), MetadataError>)
    requires |managers| == |inputs| && OneEach(managers) && ValidInputs(inputs)
    modifies managers
    ensures States(managers) == RoundResult(old(States(managers)), inputs)
    ensures r.Ok? <==> RoundSucceeds(old(States(managers)), inputs)
  {
    var agreed := AllRanksAgree(managers, inputs);
    if agreed {
      return Ok(());
    }
    InvalidateAll(managers);
    var aggregated := Aggregate(inputs);
    r := Validate(aggregated, |inputs|);
    if r.Ok? {
      StoreAll(managers, inputs, aggregated);
    }
  }

  /** The minimum of all ranks' votes. */
  method AllRanksAgree(managers: seq<DefaultMetadataManager>, inputs: seq<Input>) returns (agreed: bool)
    requires |managers| == |inputs| && ValidInputs(inputs)
    ensures agreed == Votes(States(managers), inputs)
  {
    agreed := true;
    for q := 0 to |managers|
      invariant agreed <==> forall p :: 0 <= p < q ==> managers[p].CacheMatches(inputs[p])
    {
      agreed := agreed && managers[q].CacheMatches(inputs[q]);
    }
    assert forall p :: 0 <= p < |managers| ==> States(managers)[p] == managers[p].computed;
  }

  method InvalidateAll(managers: seq<DefaultMetadataManager>)
    modifies managers
    ensures States(managers) == NoCaches(|managers|)
  {
    for q := 0 to |managers|
      invariant forall p :: 0 <= p < q ==> managers[p].computed == None
    {
      managers[q].InvalidateComputedMetadata();
    }
  }

  method StoreAll(managers: seq<DefaultMetadataManager>, inputs: seq<Input>, aggregated: Global)
    requires |managers| == |inputs| && OneEach(managers) && ValidInputs(inputs) && aggregated == Aggregate(inputs)
    modifies managers
    ensures States(managers) == Recomputed(inputs)
  {
    for q := 0 to |managers|
      invariant forall p :: 0 <= p < q ==> managers[p].computed == Some(Cached(inputs[p].local, ReshardedLayouts(inputs[p]), aggregated))
    {
      managers[q].computed := Some(Cached(inputs[q].local, ReshardedLayouts(inputs[q]), aggregated));
    }
  }

  // ----- coherence

  /** Every item of the view has a resharder on all ranks. */
  ghost predicate ViewIsResharded(inputs: seq<Input>)
    requires ValidInputs(inputs)
  {
    forall item, r :: item in Aggregate(inputs).view && 0 <= r < |inputs| ==> item in inputs[r].resharded
  }

  /** An item key has a resharder on all ranks or on none. */
  predicate UniformResharders(inputs: seq<Input>) {
    forall q, r :: 0 <= q < |inputs| && 0 <= r < |inputs| ==> inputs[q].resharded == inputs[r].resharded
  }

  /** The caches that are left stem from one earlier round. */
  ghost predicate Coherent(states: seq<Option<Cached>>) {
    exists inputs: seq<Input> :: StemsFrom(states, inputs)
  }

  ghost predicate StemsFrom(states: seq<Option<Cached>>, inputs: seq<Input>) {
    && |inputs| == |states| && ValidInputs(inputs) && ViewIsResharded(inputs)
    && Acceptable(Aggregate(inputs), |inputs|)
    && forall r :: 0 <= r < |states| && states[r].Some? ==> states[r] == Recomputed(inputs)[r]
  }

  lemma ReportedSomewhere(all: seq<LocalMetadata>, item: string)
    requires forall q :: 0 <= q < |all| ==> AllWellFormed(all[q])
    ensures item in Items(CompactAll(all)) ==> exists q :: 0 <= q < |all| && item in all[q]
  {
    if item in Items(CompactAll(all)) {
      var q :| 0 <= q < |all| && item in CompactAll(all)[q];
      assert item in all[q];
    }
  }

  /** An item in the view was reported, hence resharded, by some rank, and so by all. */
  lemma UniformIsEnough(inputs: seq<Input>)
    requires ValidInputs(inputs) && UniformResharders(inputs)
    ensures ViewIsResharded(inputs)
  {
    forall item, r | item in Aggregate(inputs).view && 0 <= r < |inputs| ensures item in inputs[r].resharded {
      ReportedSomewhere(Locals(inputs), item);
      var q :| 0 <= q < |inputs| && item in Locals(inputs)[q];
      assert ValidInput(inputs[q]);
    }
  }

  lemma SameLookups(a: Input, b: Input, item: string)
    requires ValidInput(a) && ValidInput(b) && ReshardedLayouts(a) == ReshardedLayouts(b)
    requires item in a.resharded && item in b.resharded
    ensures Lookup(a.layouts, item) == Lookup(b.layouts, item)
  {
    assert item in ReshardedLayouts(a) && ReshardedLayouts(a)[item] == a.layouts[item];
    assert item in ReshardedLayouts(b) && ReshardedLayouts(b)[item] == b.layouts[item];
  }

  lemma SameLayoutsOf(a: seq<Input>, b: seq<Input>, item: string)
    requires ValidInputs(a) && ValidInputs(b) && |a| == |b|
    requires forall r :: 0 <= r < |a| ==> ReshardedLayouts(a[r]) == ReshardedLayouts(b[r])
    requires forall r :: 0 <= r < |a| ==> item in a[r].resharded && item in b[r].resharded
    ensures LayoutsOf(a, item) == LayoutsOf(b, item)
  {
    forall r: Rank | r < |a| ensures Lookup(a[r].layouts, item) == Lookup(b[r].layouts, item) {
      SameLookups(a[r], b[r], item);
    }
  }

  /** The aggregation depends on the metadata and on the layouts of items with a resharder
      only. */
  lemma AggregateUsesReshardedLayouts(a: seq<Input>, b: seq<Input>)
    requires ValidInputs(a) && ValidInputs(b) && |a| == |b| && ViewIsResharded(a)
    requires forall r :: 0 <= r < |a| ==> a[r].local == b[r].local && ReshardedLayouts(a[r]) == ReshardedLayouts(b[r])
    ensures Aggregate(a) == Aggregate(b)
  {
    assert Locals(a) == Locals(b);
    forall r | 0 <= r < |a| ensures a[r].resharded == b[r].resharded {
      assert ReshardedLayouts(a[r]).Keys == a[r].resharded && ReshardedLayouts(b[r]).Keys == b[r].resharded;
    }
    var view := Aggregate(a).view;
    forall item | item in view.Keys ensures LayoutsOf(a, item) == LayoutsOf(b, item) {
      SameLayoutsOf(a, b, item);
    }
    SameLayoutsByItem(a, b, view.Keys);
  }

  lemma SameLayoutsByItem(a: seq<Input>, b: seq<Input>, items: set<string>)
    requires forall item :: item in items ==> LayoutsOf(a, item) == LayoutsOf(b, item)
    ensures LayoutsByItem(a, items) == LayoutsByItem(b, items)
  {
  }

  /** A cache that all ranks vote to keep is the aggregation of the current inputs. */
  lemma CachesAreCurrent(states: seq<Option<Cached>>, inputs: seq<Input>)
    requires Coherent(states) && |states| == |inputs| && ValidInputs(inputs)
    ensures Votes(states, inputs) ==> states == Recomputed(inputs) && Acceptable(Aggregate(inputs), |inputs|)
  {
    if Votes(states, inputs) {
      var earlier: seq<Input> :| StemsFrom(states, earlier);
      forall r | 0 <= r < |inputs|
        ensures earlier[r].local == inputs[r].local && ReshardedLayouts(earlier[r]) == ReshardedLayouts(inputs[r])
      {
        assert states[r] == Recomputed(earlier)[r];
      }
      AggregateUsesReshardedLayouts(earlier, inputs);
    }
  }

  /** What can happen between two looks at the caches: a round, or some ranks dropping
      theirs. */
  datatype Event = Round(inputs: seq<Input>) | Drop(ranks: set<Rank>)

  function Dropped(states: seq<Option<Cached>>, ranks: set<Rank>): (r: seq<Option<Cached>>)
    ensures |r| == |states|
  {
    seq(|states|, r requires 0 <= r < |states| => if r in ranks then None else states[r])
  }

  ghost predicate ValidEvent(e: Event, n: nat) {
    e.Round? ==> |e.inputs| == n && ValidInputs(e.inputs) && ViewIsResharded(e.inputs)
  }

  function Apply(states: seq<Option<Cached>>, e: Event): (r: seq<Option<Cached>>)
    requires e.Round? ==> |e.inputs| == |states| && ValidInputs(e.inputs)
    ensures |r| == |states|
  {
    match e
    case Round(inputs) => RoundResult(states, inputs)
    case Drop(ranks) => Dropped(states, ranks)
  }

  lemma ApplyKeepsCoherence(states: seq<Option<Cached>>, e: Event)
    requires Coherent(states) && ValidEvent(e, |states|)
    ensures Coherent(Apply(states, e))
  {
    var inputs: seq<Input> :| StemsFrom(states, inputs);
    match e
    case Drop(ranks) =>
      assert StemsFrom(Dropped(states, ranks), inputs);
    case Round(current) =>
      if !Votes(states, current) {
        if Acceptable(Aggregate(current), |current|) {
          assert StemsFrom(Recomputed(current), current);
        } else {
          assert StemsFrom(NoCaches(|states|), inputs);
        }
      }
  }

  ghost function AfterEvents(states: seq<Option<Cached>>, events: seq<Event>): (r: seq<Option<Cached>>)
    requires forall i :: 0 <= i < |events| ==> ValidEvent(events[i], |states|)
    ensures |r| == |states|
    decreases |events|
  {
    if events == [] then states
    else
      assert ValidEvent(events[0], |states|);
      AfterEvents(Apply(states, events[0]), events[1..])
  }

  lemma {:induction false} EventsKeepCoherence(states: seq<Option<Cached>>, events: seq<Event>)
    requires Coherent(states) && forall i :: 0 <= i < |events| ==> ValidEvent(events[i], |states|)
    ensures Coherent(AfterEvents(states, events))
    decreases |events|
  {
    if events != [] {
      ApplyKeepsCoherence(states, events[0]);
      EventsKeepCoherence(Apply(states, events[0]), events[1..]);
    }
  }

  function NoInputs(n: nat): (r: seq<Input>)
    ensures |r| == n && ValidInputs(r)
  {
    seq(n, _ => Input(map[], map[], {}))
  }

  lemma NothingCachedIsCoherent(n: nat)
    ensures Coherent(NoCaches(n))
  {
    var inputs := NoInputs(n);
    LayoutsForAllRanks(inputs);
    forall item ensures item !in Aggregate(inputs).view {
      ReportedSomewhere(Locals(inputs), item);
    }
    assert StemsFrom(NoCaches(n), inputs);
  }

  /** After any history of rounds, failed rounds and invalidations on any ranks, a round
      that succeeds, kept or recomputed, leaves every rank with the aggregation of the
      current metadata and layouts, if the items viewed in the earlier rounds had resharders
      on all ranks. */
  lemma CachesAreCurrentAfterAnyHistory(n: nat, events: seq<Event>, inputs: seq<Input>)
    requires forall i :: 0 <= i < |events| ==> ValidEvent(events[i], n)
    requires |inputs| == n && ValidInputs(inputs)
    requires RoundSucceeds(AfterEvents(NoCaches(n), events), inputs)
    ensures RoundResult(AfterEvents(NoCaches(n), events), inputs) == Recomputed(inputs)
    ensures Acceptable(Aggregate(inputs), n)
  {
    NothingCachedIsCoherent(n);
    EventsKeepCoherence(NoCaches(n), events);
    CachesAreCurrent(AfterEvents(NoCaches(n), events), inputs);
  }

  function Relayout(inputs: seq<Input>, r: nat, item: string, layout: Option<Layout>): seq<Input>
    requires r < |inputs|
  {
    inputs[r := inputs[r].(layouts := inputs[r].layouts[item := layout])]
  }

  lemma RelayoutIsUnseen(inputs: seq<Input>, r: nat, item: string, layout: Option<Layout>)
    requires ValidInputs(inputs) && r < |inputs| && item !in inputs[r].resharded
    ensures ValidInputs(Relayout(inputs, r, item, layout))
    ensures forall q :: 0 <= q < |inputs| ==> inputs[q].local == Relayout(inputs, r, item, layout)[q].local
    ensures forall q :: 0 <= q < |inputs| ==> ReshardedLayouts(inputs[q]) == ReshardedLayouts(Relayout(inputs, r, item, layout)[q])
  {
    var after := Relayout(inputs, r, item, layout);
    assert ValidInput(inputs[r]);
    forall q | 0 <= q < |inputs| ensures ValidInput(after[q]) && ReshardedLayouts(inputs[q]) == ReshardedLayouts(after[q]) {
      assert ValidInput(inputs[q]);
    }
  }

  lemma RelayoutChangesGlobal(inputs: seq<Input>, after: seq<Input>, r: nat, item: string)
    requires ValidInputs(inputs) && ValidInputs(after) && |after| == |inputs| && r < |inputs|
    requires Locals(after) == Locals(inputs) && item in Items(CompactAll(Locals(inputs)))
    requires Lookup(after[r].layouts, item) != Lookup(inputs[r].layouts, item)
    ensures Aggregate(inputs) != Aggregate(after)
  {
    assert LayoutsOf(inputs, item)[r] != LayoutsOf(after, item)[r];
    assert Aggregate(inputs).layoutOf[item] == LayoutsOf(inputs, item);
    assert Aggregate(after).layoutOf[item] == LayoutsOf(after, item);
  }

  lemma SameVote(inputs: seq<Input>, after: seq<Input>)
    requires ValidInputs(inputs) && ValidInputs(after) && |after| == |inputs|
    requires forall q :: 0 <= q < |inputs| ==> inputs[q].local == after[q].local
    requires forall q :: 0 <= q < |inputs| ==> ReshardedLayouts(inputs[q]) == ReshardedLayouts(after[q])
    ensures Votes(Recomputed(inputs), after) && Locals(after) == Locals(inputs)
  {
  }

  /** Where a rank has no resharder for an item of the view, a change of its layout takes no
      part in the vote: every rank keeps a cache that no longer is the aggregation. */
  lemma UnseenLayoutChange(inputs: seq<Input>, r: nat, item: string, layout: Option<Layout>)
    requires ValidInputs(inputs) && r < |inputs| && item in Aggregate(inputs).view
    requires item !in inputs[r].resharded && layout != Lookup(inputs[r].layouts, item)
    ensures ValidInputs(Relayout(inputs, r, item, layout))
    ensures Votes(Recomputed(inputs), Relayout(inputs, r, item, layout))
    ensures Aggregate(inputs) != Aggregate(Relayout(inputs, r, item, layout))
  {
    RelayoutIsUnseen(inputs, r, item, layout);
    var after := Relayout(inputs, r, item, layout);
    SameVote(inputs, after);
    assert after[r].layouts == inputs[r].layouts[item := layout];
    RelayoutChangesGlobal(inputs, after, r, item);
  }

  /** Whatever the ranks hold later, a cache they vote to keep is the aggregation of that. */
  ghost predicate KeptIsCurrent(inputs: seq<Input>)
    requires ValidInputs(inputs)
  {
    forall after: seq<Input> :: |after| == |inputs| && ValidInputs(after) && Votes(Recomputed(inputs), after) ==>
      Aggregate(after) == Aggregate(inputs)
  }

  /** That is so exactly if every item of the view has a resharder on all ranks. */
  lemma KeptIsCurrentIffViewResharded(inputs: seq<Input>)
    requires ValidInputs(inputs)
    ensures KeptIsCurrent(inputs) <==> ViewIsResharded(inputs)
  {
    if ViewIsResharded(inputs) {
      forall after: seq<Input> | |after| == |inputs| && ValidInputs(after) && Votes(Recomputed(inputs), after)
        ensures Aggregate(after) == Aggregate(inputs)
      {
        AggregateUsesReshardedLayouts(inputs, after);
      }
    } else {
      var item, r :| item in Aggregate(inputs).view && 0 <= r < |inputs| && item !in inputs[r].resharded;
      var layout := if Lookup(inputs[r].layouts, item) == None then Some(Layout("", "")) else None;
      UnseenLayoutChange(inputs, r, item, layout);
    }
  }

  /** Rank 0 reports a tensor of `model`; rank 1 saves a `model` too, without a resharder. */
  function OneReports(layout: Option<Layout>): seq<Input> {
    [Input(map["model" := map[[] := Meta("tensor", None)]], map["model" := None], {"model"}),
     Input(map[], map["model" := layout], {})]
  }

  lemma OneReportsIsValid(layout: Option<Layout>)
    ensures ValidInputs(OneReports(layout)) && "model" in Aggregate(OneReports(layout)).view
  {
    var inputs := OneReports(layout);
    assert [] in inputs[0].local["model"];
    assert ValidInput(inputs[0]) && ValidInput(inputs[1]);
    assert [] in CompactItem(0, inputs[0].local["model"]);
    assert "model" in CompactAll(Locals(inputs))[0];
  }

  ghost predicate NoFiles(inputs: seq<Input>) {
    forall r: Rank, item :: r < |inputs| ==> Lookup(inputs[r].layouts, item) == None
  }

  lemma NoFilesNoPath(inputs: seq<Input>, s: Slot)
    requires ValidInputs(inputs) && NoFiles(inputs)
    ensures PathAt(Aggregate(inputs), s) == None
  {
    var layoutOf := Aggregate(inputs).layoutOf;
    if s.0 in layoutOf && s.1 in layoutOf[s.0] {
      assert layoutOf[s.0] == LayoutsOf(inputs, s.0);
      assert s.1 < |inputs| && layoutOf[s.0][s.1] == Lookup(inputs[s.1].layouts, s.0);
    }
  }

  lemma NoFilesIsAcceptable(inputs: seq<Input>)
    requires ValidInputs(inputs) && NoFiles(inputs)
    ensures Acceptable(Aggregate(inputs), |inputs|)
  {
    LayoutsForAllRanks(inputs);
    forall s: Slot ensures PathAt(Aggregate(inputs), s) == None {
      NoFilesNoPath(inputs, s);
    }
  }

  lemma RelayoutOfOneReports(layout: Option<Layout>)
    ensures Relayout(OneReports(None), 1, "model", layout) == OneReports(layout)
    ensures NoFiles(OneReports(None)) && "model" !in OneReports(None)[1].resharded
  {
    assert map["model" := None]["model" := layout] == map["model" := layout];
  }

  /** Rank 1 then saves it to another file: both ranks vote to keep the cache, which still
      names the old one. */
  lemma MovedFileIsNotSeen()
    ensures var (before, after) := (OneReports(None), OneReports(Some(Layout("other.pt", "torch"))));
      && ValidInputs(before) && ValidInputs(after) && Acceptable(Aggregate(before), |before|)
      && Votes(Recomputed(before), after) && Aggregate(after) != Aggregate(before)
  {
    var before, layout := OneReports(None), Some(Layout("other.pt", "torch"));
    OneReportsIsValid(None);
    RelayoutOfOneReports(layout);
    NoFilesIsAcceptable(before);
    UnseenLayoutChange(before, 1, "model", layout);
  }

  /** For each item of a computed view every rank of the world is listed with the layout
      that this very rank brought for it. */
  lemma LayoutIsTheRanksOwn(inputs: seq<Input>, item: string, r: Rank)
    requires ValidInputs(inputs) && item in Aggregate(inputs).view && r < |inputs|
    ensures item in Aggregate(inputs).layoutOf && IsBroughtBy(Aggregate(inputs).layoutOf[item], inputs, item, r)
  {
    ListedLayout(inputs, item, r);
    assert Aggregate(inputs).layoutOf[item] == LayoutsOf(inputs, item);
  }

  /** Rank r is listed with the layout it brought for the item, or with none. */
  predicate IsBroughtBy(listed: map<Rank, Option<Layout>>, inputs: seq<Input>, item: string, r: Rank)
    requires r < |inputs|
  {
    r in listed && listed[r] == if item in inputs[r].layouts then inputs[r].layouts[item] else None
  }

  lemma ListedLayout(inputs: seq<Input>, item: string, r: Rank)
    requires r < |inputs|
    ensures IsBroughtBy(LayoutsOf(inputs, item), inputs, item, r)
  {
  }

  /** Each item of a computed view lists the layouts of exactly the ranks of the world. */
  lemma LayoutsForAllRanks(inputs: seq<Input>)
    requires ValidInputs(inputs)
    ensures RanksComplete(Aggregate(inputs), |inputs|)
    ensures Aggregate(inputs).layoutOf.Keys == Aggregate(inputs).view.Keys
    ensures Acceptable(Aggregate(inputs), |inputs|) <==> PathsDistinct(Aggregate(inputs), Slots(Aggregate(inputs)))
  {
    forall item | item in Aggregate(inputs).view ensures RanksAre(LayoutsOf(inputs, item), |inputs|) {
    }
  }
}
