/** Choosing the source slices of one consolidated tensor (hf/consolidation.py). */
module SliceSelection {
  import opened Wrappers
  import opened Geometry
  import opened Sorting
  import opened LoadPlans
  import opened SliceAssembly
  import Streams

  // _resolve_distributed_tensor_slices and its helpers.

  /** A tensor as a safetensors header describes it. */
  datatype WrittenTensor = WrittenTensor(shape: Dims, dtype: string, address: ByteAddress)

  type Bytes = n: nat | n > 0 witness 1

  /** What is known about the files: for each rank with a layout entry, whether it wrote a
      file; the headers of the files that were opened; and the element size of each dtype
      torch knows. */
  datatype SourceFiles = SourceFiles(wroteFile: map<Rank, bool>, headers: map<Rank, map<string, WrittenTensor>>,
                                     elementSize: map<string, Bytes>)

  datatype SelectionError =
    | MissingMetadata | MissingSourceRanks | NotDTensor | DifferentTensors
    | NoLayout(rank: Rank) | NoHeader(rank: Rank) | MissingFqn(rank: Rank) | NotInMesh(rank: Rank)
    | UnsupportedDtype | WrongShape(rank: Rank) | WrongDtype(rank: Rank) | OutsideTensor(rank: Rank)
    | NoSourceSlices

  // ----- groups

  predicate SameTensor(g: Group, h: Group) {
    && g.sharding.DTensor? && h.sharding.DTensor?
    && g.sharding.globalShape == h.sharding.globalShape && g.sharding.dtype == h.sharding.dtype
  }

  predicate GroupsAgree(groups: seq<Group>) {
    groups != [] && forall i :: 0 <= i < |groups| ==> groups[i].ranks != [] && SameTensor(groups[0], groups[i])
  }

  method ValidateGroups(groups: seq<Group>) returns (r: Result<(), SelectionError>)
    ensures r.Ok? <==> GroupsAgree(groups)
    ensures r.Err? ==> !r.error.NoSourceSlices?
  {
    if groups == [] {
      return Err(MissingMetadata);
    }
    if groups[0].ranks == [] {
      return Err(MissingSourceRanks);
    }
    if !groups[0].sharding.DTensor? {
      return Err(NotDTensor);
    }
    for i := 1 to |groups|
      invariant forall j :: 0 <= j < i ==> groups[j].ranks != [] && SameTensor(groups[0], groups[j])
    {
      if groups[i].ranks == [] {
        return Err(MissingSourceRanks);
      }
      if !groups[i].sharding.DTensor? {
        return Err(NotDTensor);
      }
      if !SameTensor(groups[0], groups[i]) {
        return Err(DifferentTensors);
      }
    }
    return Ok(());
  }

  /** No group's sorted ranks come before those of group m, and no earlier group ties. */
  predicate IsFirstByRanks(groups: seq<Group>, m: nat) {
    && m < |groups|
    && (forall i :: 0 <= i < |groups| ==> LexLeq(Ascending(groups[m].ranks), Ascending(groups[i].ranks)))
    && (forall i :: 0 <= i < m ==> Ascending(groups[i].ranks) != Ascending(groups[m].ranks))
  }

  method FirstByRanks(groups: seq<Group>) returns (m: nat)
    requires groups != []
    ensures IsFirstByRanks(groups, m)
  {
    m := 0;
    LexTriple(Ascending(groups[0].ranks), Ascending(groups[0].ranks), []);
    for i := 1 to |groups|
      invariant m < i && IsFirstByRanks(groups[..i], m)
    {
      ghost var best, next := Ascending(groups[m].ranks), Ascending(groups[i].ranks);
      if !LexLeq(Ascending(groups[m].ranks), Ascending(groups[i].ranks)) {
        forall j | 0 <= j < i
          ensures LexLeq(next, Ascending(groups[j].ranks)) && Ascending(groups[j].ranks) != next
        {
          assert LexLeq(best, Ascending(groups[..i][j].ranks));
          LexTriple(best, next, []);
          LexTriple(next, best, Ascending(groups[j].ranks));
        }
        LexTriple(next, next, []);
        m := i;
      } else {
        assert forall j :: 0 <= j < i ==> groups[..i][j] == groups[j];
      }
    }
    assert groups[..|groups|] == groups;
  }

  // ----- one rank's slice

  /** The rank's file has a header entry for the tensor that agrees with the metadata: the
      shape of the rank's box, the tensor's dtype, and a box inside the tensor. */
  predicate EntryAgrees(fqn: string, rank: Rank, sharding: Sharding, files: SourceFiles)
    requires sharding.DTensor?
  {
    && rank in files.headers && fqn in files.headers[rank] && rank in sharding.boxes && sharding.dtype in files.elementSize
    && files.headers[rank][fqn].shape == sharding.boxes[rank].size && files.headers[rank][fqn].dtype == sharding.dtype
    && BoxInShape(sharding.boxes[rank], sharding.globalShape)
  }

  predicate Wrote(rank: Rank, files: SourceFiles) { rank in files.wroteFile && files.wroteFile[rank] }

  /** The slice has the rank's box of the tensor and the bytes that the rank's own header
      records for it. */
  predicate IsSliceOf(s: SerializedSlice, fqn: string, rank: Rank, sharding: Sharding, files: SourceFiles)
    requires sharding.DTensor? && EntryAgrees(fqn, rank, sharding, files)
  {
    && s.sourceRank == rank && s.address == files.headers[rank][fqn].address && s.dtype == files.headers[rank][fqn].dtype
    && s.box == sharding.boxes[rank] && s.globalShape == sharding.globalShape && s.elementSize == files.elementSize[sharding.dtype]
  }

  /** The slice a rank wrote, located in the global tensor; None when it wrote no file. */
  function ResolveSlice(fqn: string, rank: Rank, sharding: Sharding, files: SourceFiles)
    : (r: Result<Option<SerializedSlice>, SelectionError>)
    requires sharding.DTensor?
    ensures r.Ok? <==> rank in files.wroteFile && (Wrote(rank, files) ==> EntryAgrees(fqn, rank, sharding, files))
    ensures r.Ok? ==> (r.value.Some? <==> Wrote(rank, files))
    ensures r.Ok? && r.value.Some? ==> IsSliceOf(r.value.value, fqn, rank, sharding, files)
    ensures r.Err? ==> !r.error.NoSourceSlices?
  {
    if rank !in files.wroteFile then Err(NoLayout(rank))
    else if !files.wroteFile[rank] then Ok(None)
    else if rank !in files.headers then Err(NoHeader(rank))
    else if fqn !in files.headers[rank] then Err(MissingFqn(rank))
    else if rank !in sharding.boxes then Err(NotInMesh(rank))
    else if sharding.dtype !in files.elementSize then Err(UnsupportedDtype)
    else
      var written := files.headers[rank][fqn];
      var box := sharding.boxes[rank];
      if written.shape != box.size then Err(WrongShape(rank))
      else if written.dtype != sharding.dtype then Err(WrongDtype(rank))
      else if !BoxInShape(box, sharding.globalShape) then Err(OutsideTensor(rank))
      else Ok(Some(SerializedSlice(sharding.globalShape, box, written.dtype, files.elementSize[written.dtype], rank, written.address)))
  }

  // ----- selection

  /** Slice s is what its own rank resolved to. */
  predicate IsResolved(s: SerializedSlice, fqn: string, sharding: Sharding, files: SourceFiles)
    requires sharding.DTensor?
  {
    ResolveSlice(fqn, s.sourceRank, sharding, files) == Ok(Some(s))
  }

  predicate HasBox(selected: seq<SerializedSlice>, box: ShardBox) {
    exists i :: 0 <= i < |selected| && selected[i].box == box
  }

  /** The rank's slice, if it wrote one, is represented by a slice of the same box from
      this rank or a lower one. */
  predicate Represented(selected: seq<SerializedSlice>, fqn: string, rank: Rank, sharding: Sharding, files: SourceFiles)
    requires sharding.DTensor?
  {
    var r := ResolveSlice(fqn, rank, sharding, files);
    && r.Ok?
    && (r.value.Some? ==>
         exists i :: 0 <= i < |selected| && selected[i].box == r.value.value.box && selected[i].sourceRank <= rank)
  }

  predicate BoxesDistinct(selected: seq<SerializedSlice>) {
    forall i, j :: 0 <= i < j < |selected| ==> selected[i].box != selected[j].box
  }

  /** One slice per distinct box the group's ranks wrote, from the lowest such rank. */
  ghost predicate Selects(selected: seq<SerializedSlice>, fqn: string, ranks: seq<Rank>, sharding: Sharding, files: SourceFiles)
    requires sharding.DTensor?
  {
    && BoxesDistinct(selected)
    && (forall s :: s in selected ==> s.sourceRank in ranks && IsResolved(s, fqn, sharding, files))
    && (forall r :: r in ranks ==> Represented(selected, fqn, r, sharding, files))
  }

  lemma RepresentedByMore(selected: seq<SerializedSlice>, s: SerializedSlice, fqn: string, rank: Rank, sharding: Sharding, files: SourceFiles)
    requires sharding.DTensor? && Represented(selected, fqn, rank, sharding, files)
    ensures Represented(selected + [s], fqn, rank, sharding, files)
  {
    var r := ResolveSlice(fqn, rank, sharding, files);
    if r.value.Some? {
      var i :| 0 <= i < |selected| && selected[i].box == r.value.value.box && selected[i].sourceRank <= rank;
      assert (selected + [s])[i] == selected[i];
    }
  }

  /** The selection after one more rank, whose slice is kept only if its box is new. */
  function SelectNext(selected: seq<SerializedSlice>, resolved: Option<SerializedSlice>): seq<SerializedSlice> {
    if resolved.Some? && !HasBox(selected, resolved.value.box) then selected + [resolved.value] else selected
  }

  lemma SelectNextSelects(selected: seq<SerializedSlice>, fqn: string, ranks: seq<Rank>, rank: Rank, sharding: Sharding, files: SourceFiles)
    requires sharding.DTensor? && Selects(selected, fqn, ranks, sharding, files)
    requires forall q :: q in ranks ==> q <= rank
    requires ResolveSlice(fqn, rank, sharding, files).Ok?
    ensures Selects(SelectNext(selected, ResolveSlice(fqn, rank, sharding, files).value), fqn, ranks + [rank], sharding, files)
  {
    var resolved := ResolveSlice(fqn, rank, sharding, files).value;
    var next := SelectNext(selected, resolved);
    forall q | q in ranks ensures Represented(next, fqn, q, sharding, files) {
      if next != selected { RepresentedByMore(selected, resolved.value, fqn, q, sharding, files); }
    }
    assert Represented(next, fqn, rank, sharding, files) by {
      if next != selected { assert next[|selected|] == resolved.value; }
      assert forall s :: s in selected ==> s.sourceRank <= rank;
    }
    forall s | s in next ensures s.sourceRank in ranks + [rank] && IsResolved(s, fqn, sharding, files) {
      assert s in selected || resolved == Some(s);
    }
  }

  method CollectSlices(fqn: string, ranks: seq<Rank>, sharding: Sharding, files: SourceFiles)
    returns (r: Result<seq<SerializedSlice>, SelectionError>)
    requires sharding.DTensor? && forall i, j :: 0 <= i < j < |ranks| ==> ranks[i] <= ranks[j]
    ensures r.Ok? <==> forall q :: q in ranks ==> ResolveSlice(fqn, q, sharding, files).Ok?
    ensures r.Err? ==> !r.error.NoSourceSlices?
    ensures r.Ok? ==> Selects(r.value, fqn, ranks, sharding, files)
  {
    var selected: seq<SerializedSlice> := [];
    for n := 0 to |ranks|
      invariant forall q :: q in ranks[..n] ==> ResolveSlice(fqn, q, sharding, files).Ok?
      invariant Selects(selected, fqn, ranks[..n], sharding, files)
    {
      var resolved := ResolveSlice(fqn, ranks[n], sharding, files);
      if resolved.Err? {
        return Err(resolved.error);
      }
      SelectNextSelects(selected, fqn, ranks[..n], ranks[n], sharding, files);
      assert ranks[..n + 1] == ranks[..n] + [ranks[n]];
      if resolved.value.Some? && !HasBox(selected, resolved.value.value.box) {
        selected := selected + [resolved.value.value];
      }
    }
    assert ranks[..|ranks|] == ranks;
    return Ok(selected);
  }

  // ----- output order

  /** By offsets, then by source rank. */
  predicate SliceLeq(a: SerializedSlice, b: SerializedSlice) {
    (a.box.offset != b.box.offset && LexLeq(a.box.offset, b.box.offset))
    || (a.box.offset == b.box.offset && a.sourceRank <= b.sourceRank)
  }

  lemma SlicesAreOrdered()
    ensures KeyOrder(SliceLeq)
  {
    forall a: SerializedSlice, b: SerializedSlice ensures SliceLeq(a, b) || SliceLeq(b, a) {
      LexTriple(a.box.offset, b.box.offset, []);
    }
    forall a: SerializedSlice, b: SerializedSlice, c: SerializedSlice | SliceLeq(a, b) && SliceLeq(b, c)
      ensures SliceLeq(a, c)
    {
      LexTriple(a.box.offset, b.box.offset, c.box.offset);
      LexTriple(b.box.offset, a.box.offset, c.box.offset);
    }
  }

  lemma SortKeepsSelection(selected: seq<SerializedSlice>, fqn: string, ranks: seq<Rank>, sharding: Sharding, files: SourceFiles)
    requires sharding.DTensor? && Selects(selected, fqn, ranks, sharding, files)
    ensures Selects(Sort(selected, SliceLeq), fqn, ranks, sharding, files)
    ensures Sorted(Sort(selected, SliceLeq), SliceLeq) && |Sort(selected, SliceLeq)| == |selected|
  {
    SlicesAreOrdered();
    SortSorts(selected, SliceLeq);
    SortKeepsElements(selected, SliceLeq);
    var sorted := Sort(selected, SliceLeq);
    BoxesStayDistinct(selected, sorted);
    forall q | q in ranks ensures Represented(sorted, fqn, q, sharding, files) {
      var r := ResolveSlice(fqn, q, sharding, files);
      assert Represented(selected, fqn, q, sharding, files);
      if r.value.Some? {
        var i :| 0 <= i < |selected| && selected[i].box == r.value.value.box && selected[i].sourceRank <= q;
        assert selected[i] in sorted;
      }
    }
  }

  lemma BoxesStayDistinct(a: seq<SerializedSlice>, b: seq<SerializedSlice>)
    requires BoxesDistinct(a) && multiset(a) == multiset(b)
    ensures BoxesDistinct(b)
  {
    PermutationKeepsDistinct(a, b);
    forall i, j | 0 <= i < j < |b| ensures b[i].box != b[j].box {
      assert b[i] in multiset(a) && b[j] in multiset(a);
    }
  }

  /** The slices consolidation will read. */
  ghost predicate Resolved(groups: seq<Group>, m: nat, fqn: string, files: SourceFiles, slices: seq<SerializedSlice>) {
    && GroupsAgree(groups) && IsFirstByRanks(groups, m)
    && slices != [] && Sorted(slices, SliceLeq)
    && groups[m].sharding.DTensor?
    && Selects(slices, fqn, Ascending(groups[m].ranks), groups[m].sharding, files)
  }

  /** Every rank of the group has a layout, and what those that wrote a file wrote agrees
      with the metadata; at least one did. */
  predicate GroupAgrees(g: Group, fqn: string, files: SourceFiles)
    requires g.sharding.DTensor?
  {
    && (forall q :: q in g.ranks ==> q in files.wroteFile && (Wrote(q, files) ==> EntryAgrees(fqn, q, g.sharding, files)))
    && exists q :: q in g.ranks && Wrote(q, files)
  }

  /** The slice is read from the range that a rank which wrote the tensor recorded. */
  predicate FromHeader(s: SerializedSlice, fqn: string, files: SourceFiles) {
    && Wrote(s.sourceRank, files) && s.sourceRank in files.headers && fqn in files.headers[s.sourceRank]
    && s.address == files.headers[s.sourceRank][fqn].address
  }

  /** Slices of one metadata group: that with the least ranks. Each distinct region is
      read once, from the lowest rank that wrote it. */
  method ResolveDistributedTensorSlices(fqn: string, groups: seq<Group>, files: SourceFiles)
    returns (r: Result<seq<SerializedSlice>, SelectionError>, ghost m: nat)
    ensures GroupsAgree(groups) ==> IsFirstByRanks(groups, m) && groups[m].sharding.DTensor?
    ensures r.Ok? <==> GroupsAgree(groups) && GroupAgrees(groups[m], fqn, files)
    ensures r.Ok? ==> Resolved(groups, m, fqn, files, r.value)
    ensures r.Ok? ==> GroupsAgree(groups) && r.value != [] && forall s :: s in r.value ==> FromHeader(s, fqn, files)
    ensures r == Err(NoSourceSlices) ==> GroupsAgree(groups) && forall q :: q in groups[m].ranks ==> q in files.wroteFile && !Wrote(q, files)
  {
    m := 0;
    var valid := ValidateGroups(groups);
    if valid.Err? {
      return Err(valid.error), m;
    }
    var first := FirstByRanks(groups);
    m := first;
    var group := groups[first];
    assert SameTensor(groups[0], group);
    AscendingSorts(group.ranks);
    var selected := CollectSlices(fqn, Ascending(group.ranks), group.sharding, files);
    if selected.Err? {
      return Err(selected.error), m;
    }
    if selected.value == [] {
      forall q | q in group.ranks ensures q in files.wroteFile && !Wrote(q, files) {
        assert Represented([], fqn, q, group.sharding, files);
      }
      return Err(NoSourceSlices), m;
    }
    assert selected.value[0] in selected.value;
    SortKeepsSelection(selected.value, fqn, Ascending(group.ranks), group.sharding, files);
    r := Ok(Sort(selected.value, SliceLeq));
    forall s | s in r.value ensures FromHeader(s, fqn, files) {
      SelectedInGroup(groups, m, fqn, files, r.value, s);
    }
  }

  // ----- what the selection means for assembly

  /** Some rank of the group that wrote a file has a box with the element. */
  ghost predicate WrittenByGroup(g: Group, files: SourceFiles, e: nat)
    requires g.sharding.DTensor? && e < Product(g.sharding.globalShape)
  {
    exists q :: q in g.ranks && WroteElement(g, files, q, e)
  }

  ghost predicate WroteElement(g: Group, files: SourceFiles, q: Rank, e: nat)
    requires g.sharding.DTensor? && e < Product(g.sharding.globalShape)
  {
    Wrote(q, files) && q in g.sharding.boxes && ElementInBox(g.sharding.globalShape, g.sharding.boxes[q], e)
  }

  lemma SelectedInGroup(groups: seq<Group>, m: nat, fqn: string, files: SourceFiles, slices: seq<SerializedSlice>, s: SerializedSlice)
    requires Resolved(groups, m, fqn, files, slices) && s in slices
    ensures s.sourceRank in groups[m].ranks && IsResolved(s, fqn, groups[m].sharding, files)
  {
    AscendingSorts(groups[m].ranks);
  }

  /** Dropping replicas loses no element: the selected slices reach exactly what the
      group's ranks wrote. */
  lemma SelectionCoversWhatWasWritten(groups: seq<Group>, m: nat, fqn: string, files: SourceFiles, slices: seq<SerializedSlice>, e: nat)
    requires Resolved(groups, m, fqn, files, slices) && e < Product(groups[m].sharding.globalShape)
    ensures ElementCovered(slices, groups[m].sharding.globalShape, e) <==> WrittenByGroup(groups[m], files, e)
  {
    var g := groups[m];
    if ElementCovered(slices, g.sharding.globalShape, e) {
      var i :| 0 <= i < |slices| && ElementInBox(g.sharding.globalShape, slices[i].box, e);
      SelectedInGroup(groups, m, fqn, files, slices, slices[i]);
      assert WroteElement(g, files, slices[i].sourceRank, e);
    }
    if WrittenByGroup(g, files, e) {
      var q :| q in g.ranks && WroteElement(g, files, q, e);
      AscendingSorts(g.ranks);
      assert Represented(slices, fqn, q, g.sharding, files);
    }
  }

  lemma ScalarBox(s: SerializedSlice, es: nat)
    requires DescribesTensor(s, [], es)
    ensures s.box == Box([], [])
  {
  }

  /** The selected slices all describe the one tensor, and a scalar has exactly one, so
      assembly never stops on its scalar assertion. */
  lemma SelectionIsOneTensor(groups: seq<Group>, m: nat, fqn: string, files: SourceFiles, slices: seq<SerializedSlice>)
    requires Resolved(groups, m, fqn, files, slices)
    ensures slices[0].globalShape == groups[m].sharding.globalShape
    ensures OneTensor(slices, slices[0].globalShape, slices[0].elementSize)
    ensures slices[0].globalShape == [] ==> |slices| == 1
  {
    forall i | 0 <= i < |slices|
      ensures DescribesTensor(slices[i], groups[m].sharding.globalShape, slices[0].elementSize)
    {
      SelectedInGroup(groups, m, fqn, files, slices, slices[0]);
      SelectedInGroup(groups, m, fqn, files, slices, slices[i]);
    }
    if slices[0].globalShape == [] {
      forall i | 0 <= i < |slices| ensures slices[i].box == Box([], []) {
        ScalarBox(slices[i], slices[0].elementSize);
      }
      var k := if |slices| > 1 then 1 else 0;
      assert slices[0].box == slices[k].box;
    }
  }

  /** Where the header of a rank of the group says its tensor is, its file holds that
      rank's part of g. */
  ghost predicate HeadersLocateParts(g: Group, fqn: string, files: SourceFiles, storage: Storage, data: seq<Streams.byte>)
    requires g.sharding.DTensor? && g.sharding.dtype in files.elementSize
  {
    && |data| == Product(g.sharding.globalShape) * files.elementSize[g.sharding.dtype]
    && forall q :: q in g.ranks && Wrote(q, files) && EntryAgrees(fqn, q, g.sharding, files) ==>
         EntryLocatesPart(fqn, q, g.sharding, files, storage, data)
  }

  ghost predicate EntryLocatesPart(fqn: string, q: Rank, sharding: Sharding, files: SourceFiles, storage: Storage, data: seq<Streams.byte>)
    requires sharding.DTensor? && EntryAgrees(fqn, q, sharding, files)
    requires |data| == Product(sharding.globalShape) * files.elementSize[sharding.dtype]
  {
    var bytes := BytesAt(files.headers[q][fqn].address, storage);
    |bytes| == Product(sharding.boxes[q].size) * files.elementSize[sharding.dtype] ==>
      BytesArePart(bytes, sharding.boxes[q], sharding.globalShape, files.elementSize[sharding.dtype], data)
  }

  /** End to end: if each rank's file holds the rank's part of g where its header says, and
      the boxes of the ranks that wrote files cover the tensor, the consolidated tensor is g. */
  lemma ConsolidatedTensorIsExact(groups: seq<Group>, m: nat, fqn: string, files: SourceFiles, slices: seq<SerializedSlice>,
                                  storage: Storage, g: seq<Streams.byte>, result: seq<Streams.byte>)
    requires Resolved(groups, m, fqn, files, slices) && groups[m].sharding.dtype in files.elementSize
    requires Assembled(slices, storage, slices[0].globalShape, slices[0].elementSize, seq(|result|, _ => 0), result)
    requires HeadersLocateParts(groups[m], fqn, files, storage, g)
    requires forall e: nat :: e < Product(groups[m].sharding.globalShape) ==> WrittenByGroup(groups[m], files, e)
    ensures result == g
  {
    var sharding := groups[m].sharding;
    SelectionIsOneTensor(groups, m, fqn, files, slices);
    SelectedInGroup(groups, m, fqn, files, slices, slices[0]);
    forall i | 0 <= i < |slices| ensures HoldsPartOf(slices[i], storage, sharding.globalShape, slices[0].elementSize, g) {
      SelectedInGroup(groups, m, fqn, files, slices, slices[i]);
      assert EntryLocatesPart(fqn, slices[i].sourceRank, sharding, files, storage, g);
    }
    forall e: nat | e < Product(sharding.globalShape) ensures ElementCovered(slices, sharding.globalShape, e) {
      SelectionCoversWhatWasWritten(groups, m, fqn, files, slices, e);
    }
    CoveringSlicesGiveTensor(slices, storage, sharding.globalShape, slices[0].elementSize, g, result);
  }
}
