/** Merging loaded values into a target structure (walk_utils.py). */
module StructureWalk {
  import opened Wrappers
  import opened LoadPlans

  // Reports what the checkpoint lacks. Containers are values here: where the code updates a
  // target container in place, the model returns the container with its new elements.

  /** How a sequence type can be handled: changed in place, and built from a list. */
  datatype Kind = Kind(name: string, mutable: bool, constructible: bool)

  const LIST := Kind("list", true, true)

  datatype TensorKind = NotTensor | PlainTensor | DTensorKind

  /** `own` is a leaf's class and `types` all classes it is an instance of. */
  datatype Value =
    | Mapping(entries: seq<(Component, Value)>)
    | Sequence(kind: Kind, items: seq<Value>)
    | Leaf(own: string, types: set<string>, tensor: TensorKind, isSet: bool, content: string)
    | Null

  datatype WalkError = IncompatibleTypes | MixedTensors

  type Children = seq<(Component, Value)>

  ghost predicate WellFormed(v: Value) {
    match v
    case Mapping(entries) => DistinctKeys(entries) && forall i :: 0 <= i < |entries| ==> WellFormed(entries[i].1)
    case Sequence(_, items) => forall i :: 0 <= i < |items| ==> WellFormed(items[i])
    case Leaf(own, types, _, _, _) => own in types
    case Null => true
  }

  function ChildrenOf(v: Value): Children {
    match v
    case Mapping(entries) => entries
    case Sequence(_, items) => seq(|items|, i requires 0 <= i < |items| => (Position(i), items[i]))
    case _ => []
  }

  function Find(entries: Children, k: Component): (i: nat)
    ensures i <= |entries| && (i < |entries| ==> entries[i].0 == k)
    ensures forall j :: 0 <= j < i ==> entries[j].0 != k
  {
    if entries == [] || entries[0].0 == k then 0 else 1 + Find(entries[1..], k)
  }

  /** The element under a key or position. */
  function Lookup(v: Value, k: Component): (r: Option<Value>)
    ensures r.Some? ==> r.value < v
  {
    match v
    case Mapping(entries) =>
      var i := Find(entries, k);
      if i < |entries| then Some(entries[i].1) else None
    case Sequence(_, items) => if k.Position? && k.index < |items| then Some(items[k.index]) else None
    case _ => None
  }

  // ----- leaves and types

  predicate Compatible(src: Value, tgt: Value) {
    || tgt.Null?
    || (src.Mapping? && tgt.Mapping?)
    || (src.Sequence? && tgt.Sequence?)
    || (src.Leaf? && tgt.Leaf? && ((src.isSet && tgt.isSet) || src.own in tgt.types))
  }

  /** Tensors are copied into the target tensor, anything else replaces the target. */
  function MergeLeaf(src: Value, tgt: Value): Result<Value, WalkError> {
    if src.Leaf? && tgt.Leaf? && !src.tensor.NotTensor? && !tgt.tensor.NotTensor? then
      if src.tensor != tgt.tensor then Err(MixedTensors) else Ok(tgt.(content := src.content))
    else Ok(src)
  }

  /** A list, a tuple or a type that can be built from a list keeps its type. */
  function Converted(k: Kind): Kind {
    if k.constructible then k else LIST
  }

  // ----- the walk

  type Walked = Result<(Value, seq<NestedPath>), WalkError>
  type WalkedChildren = Result<(Children, seq<NestedPath>), WalkError>

  /** The target's children; without a target, the source's keys without values. */
  function TargetChildren(src: Value, tgt: Value): (r: Children)
    ensures tgt.Null? ==> |r| == |ChildrenOf(src)|
  {
    if tgt.Null? then seq(|ChildrenOf(src)|, i requires 0 <= i < |ChildrenOf(src)| => (ChildrenOf(src)[i].0, Null))
    else ChildrenOf(tgt)
  }

  function Below(k: Component, paths: seq<NestedPath>): (r: seq<NestedPath>)
    ensures |r| == |paths|
  {
    seq(|paths|, i requires 0 <= i < |paths| => [k] + paths[i])
  }

  /** The container with new elements. */
  function Rebuilt(src: Value, tgt: Value, c: Children): Value
    requires src.Mapping? || src.Sequence?
  {
    if src.Mapping? then Mapping(c)
    else Sequence(if tgt.Sequence? && tgt.kind.mutable then tgt.kind else Converted(src.kind), Seconds(c))
  }

  function Walk(src: Value, tgt: Value): Walked
    decreases src, 1
  {
    if !Compatible(src, tgt) then Err(IncompatibleTypes)
    else if src.Leaf? || src.Null? then
      match MergeLeaf(src, tgt)
      case Err(e) => Err(e)
      case Ok(v) => Ok((v, []))
    else if src.Sequence? && tgt.Sequence? && tgt.items == [] then
      Ok((Sequence(Converted(src.kind), src.items), []))
    else
      match WalkChildren(src, TargetChildren(src, tgt))
      case Err(e) => Err(e)
      case Ok((c, missing)) => Ok((Rebuilt(src, tgt, c), missing))
  }

  function WalkChildren(src: Value, tgt: Children): WalkedChildren
    decreases src, 0, |tgt|
  {
    if tgt == [] then Ok(([], []))
    else
      var (k, t) := tgt[|tgt| - 1];
      match WalkChildren(src, tgt[..|tgt| - 1])
      case Err(e) => Err(e)
      case Ok((done, missing)) =>
        match Lookup(src, k)
        case None => Ok((done + [(k, t)], missing + [[k]]))
        case Some(s) =>
          match Walk(s, t)
          case Err(e) => Err(e)
          case Ok((r, m)) => Ok((done + [(k, r)], missing + Below(k, m)))
  }

  // ----- the code's loops

  method WalkValue(src: Value, tgt: Value) returns (r: Walked)
    ensures r == Walk(src, tgt)
    decreases src, 1
  {
    if !Compatible(src, tgt) {
      return Err(IncompatibleTypes);
    }
    if src.Leaf? || src.Null? {
      var merged := MergeLeaf(src, tgt);
      if merged.Err? {
        return Err(merged.error);
      }
      return Ok((merged.value, []));
    }
    if src.Sequence? && tgt.Sequence? && tgt.items == [] {
      return Ok((Sequence(Converted(src.kind), src.items), []));
    }
    var children := WalkAll(src, TargetChildren(src, tgt));
    if children.Err? {
      return Err(children.error);
    }
    return Ok((Rebuilt(src, tgt, children.value.0), children.value.1));
  }

  /** One pass over the target's children: merge those the source has, report the others
      as missing and keep them. */
  method WalkAll(src: Value, tgt: Children) returns (r: WalkedChildren)
    ensures r == WalkChildren(src, tgt)
    decreases src, 0
  {
    var merged: Children := [];
    var missing: seq<NestedPath> := [];
    for i := 0 to |tgt|
      invariant WalkChildren(src, tgt[..i]) == Ok((merged, missing))
    {
      assert tgt[..i + 1][..i] == tgt[..i];
      var (k, t) := tgt[i];
      var s := Lookup(src, k);
      if s.None? {
        merged, missing := merged + [(k, t)], missing + [[k]];
      } else {
        var walked := WalkValue(s.value, t);
        if walked.Err? {
          WalkErrorStays(src, tgt, i + 1);
          return Err(walked.error);
        }
        merged, missing := merged + [(k, walked.value.0)], missing + Below(k, walked.value.1);
      }
    }
    assert tgt[..|tgt|] == tgt;
    return Ok((merged, missing));
  }

  lemma {:induction false} WalkErrorStays(src: Value, tgt: Children, n: nat)
    requires n <= |tgt| && WalkChildren(src, tgt[..n]).Err?
    ensures WalkChildren(src, tgt) == WalkChildren(src, tgt[..n])
  {
    if n < |tgt| {
      assert tgt[..|tgt| - 1][..n] == tgt[..n];
      WalkErrorStays(src, tgt[..|tgt| - 1], n);
    } else {
      assert tgt[..n] == tgt;
    }
  }

  // ----- what the pass over the children does, child by child

  /** The outcome for one target child. */
  ghost predicate ChildMerged(src: Value, child: (Component, Value), done: (Component, Value)) {
    && done.0 == child.0
    && match Lookup(src, child.0)
       case None => done.1 == child.1
       case Some(s) => Walk(s, child.1).Ok? && done.1 == Walk(s, child.1).value.0
  }

  ghost predicate MissingAt(src: Value, child: (Component, Value), p: NestedPath) {
    && p != [] && p[0] == child.0
    && match Lookup(src, child.0)
       case None => p == [child.0]
       case Some(s) => Walk(s, child.1).Ok? && p[1..] in Walk(s, child.1).value.1
  }

  lemma BelowMembers(k: Component, paths: seq<NestedPath>, p: NestedPath)
    ensures p in Below(k, paths) <==> p != [] && p[0] == k && p[1..] in paths
  {
    if p in Below(k, paths) {
      var i :| 0 <= i < |paths| && Below(k, paths)[i] == p;
      assert p[1..] == paths[i];
    }
    if p != [] && p[0] == k && p[1..] in paths {
      var i :| 0 <= i < |paths| && paths[i] == p[1..];
      assert Below(k, paths)[i] == p;
    }
  }

  ghost predicate SomeMissingAt(src: Value, c: Children, p: NestedPath) {
    exists i :: 0 <= i < |c| && MissingAt(src, c[i], p)
  }

  lemma {:induction false} ChildrenMerged(src: Value, c: Children)
    requires WalkChildren(src, c).Ok?
    ensures |WalkChildren(src, c).value.0| == |c|
    ensures forall i :: 0 <= i < |c| ==> ChildMerged(src, c[i], WalkChildren(src, c).value.0[i])
  {
    if c != [] {
      ChildrenMerged(src, c[..|c| - 1]);
    }
  }

  lemma {:induction false} ChildrenMissing(src: Value, c: Children, p: NestedPath)
    requires WalkChildren(src, c).Ok?
    ensures p in WalkChildren(src, c).value.1 <==> SomeMissingAt(src, c, p)
  {
    if c != [] {
      var n := |c| - 1;
      var (k, t) := c[n];
      ChildrenMissing(src, c[..n], p);
      if Lookup(src, k).Some? { BelowMembers(k, Walk(Lookup(src, k).value, t).value.1, p); }
      assert p in WalkChildren(src, c).value.1 <==> p in WalkChildren(src, c[..n]).value.1 || MissingAt(src, c[n], p);
      if SomeMissingAt(src, c[..n], p) {
        var i :| 0 <= i < n && MissingAt(src, c[..n][i], p);
        assert MissingAt(src, c[i], p);
      }
      if SomeMissingAt(src, c, p) {
        var i :| 0 <= i < |c| && MissingAt(src, c[i], p);
        assert i < n ==> MissingAt(src, c[..n][i], p);
      }
    }
  }

  // ----- paths

  function AtPath(v: Value, p: NestedPath): Option<Value> {
    if p == [] then Some(v)
    else match Lookup(v, p[0])
      case None => None
      case Some(c) => AtPath(c, p[1..])
  }

  /** The target has the path; the source has its parent but not the path itself. */
  predicate MinimalAbsent(src: Value, tgt: Value, p: NestedPath) {
    p != [] && AtPath(tgt, p).Some? && AtPath(src, p[..|p| - 1]).Some? && AtPath(src, p).None?
  }

  lemma ChildAt(v: Value, k: Component, i: nat)
    requires WellFormed(v) && i < |ChildrenOf(v)| && ChildrenOf(v)[i].0 == k
    ensures Lookup(v, k) == Some(ChildrenOf(v)[i].1)
  {
    if v.Mapping? {
      var j := Find(v.entries, k);
      assert j < |v.entries| && v.entries[j].0 == v.entries[i].0;
      assert i == j;
    }
  }

  lemma ChildFor(v: Value, k: Component) returns (i: nat)
    requires Lookup(v, k).Some?
    ensures i < |ChildrenOf(v)| && ChildrenOf(v)[i] == (k, Lookup(v, k).value)
  {
    i := if v.Mapping? then Find(v.entries, k) else k.index;
  }

  /** Whether the walk visits the children one by one. */
  predicate IsPass(src: Value, tgt: Value) {
    && Compatible(src, tgt) && (src.Mapping? || src.Sequence?)
    && !(src.Sequence? && tgt.Sequence? && tgt.items == [])
  }

  lemma MissingBelowNull(src: Value, p: NestedPath)
    requires Walk(src, Null).Ok?
    ensures p !in Walk(src, Null).value.1
    decreases |p|
  {
    if IsPass(src, Null) {
      var c := TargetChildren(src, Null);
      ChildrenMissing(src, c, p);
      if SomeMissingAt(src, c, p) {
        var i :| 0 <= i < |c| && MissingAt(src, c[i], p);
        HasOwnChildren(src, i);
        MissingBelowNull(Lookup(src, c[i].0).value, p[1..]);
      }
    }
  }

  lemma HasOwnChildren(v: Value, i: nat)
    requires i < |ChildrenOf(v)|
    ensures Lookup(v, ChildrenOf(v)[i].0).Some?
  {
  }

  /** For a successful walk the reported paths are exactly the minimal target paths that
      the source does not have. */
  lemma MissingIsMinimalAbsent(src: Value, tgt: Value, p: NestedPath)
    requires WellFormed(tgt) && Walk(src, tgt).Ok?
    ensures p in Walk(src, tgt).value.1 <==> MinimalAbsent(src, tgt, p)
    decreases |p|
  {
    if tgt.Null? {
      MissingBelowNull(src, p);
    } else if IsPass(src, tgt) && p != [] {
      var c := ChildrenOf(tgt);
      ChildrenMissing(src, c, p);
      if Lookup(tgt, p[0]).Some? {
        var i := ChildFor(tgt, p[0]);
        MissingAtChild(src, tgt, p, i);
      } else if SomeMissingAt(src, c, p) {
        var i :| 0 <= i < |c| && MissingAt(src, c[i], p);
        ChildAt(tgt, p[0], i);
      }
    } else if IsPass(src, tgt) {
      ChildrenMissing(src, ChildrenOf(tgt), p);
    }
  }

  lemma AtParent(v: Value, p: NestedPath)
    requires p != []
    ensures |p| > 1 && Lookup(v, p[0]).None? ==> AtPath(v, p[..|p| - 1]) == None
    ensures |p| > 1 && Lookup(v, p[0]).Some? ==> AtPath(v, p[..|p| - 1]) == AtPath(Lookup(v, p[0]).value, p[1..][..|p| - 2])
  {
    if |p| > 1 {
      assert p[..|p| - 1][1..] == p[1..][..|p| - 2];
    }
  }

  lemma MissingAtChild(src: Value, tgt: Value, p: NestedPath, i: nat)
    requires WellFormed(tgt) && Walk(src, tgt).Ok? && IsPass(src, tgt) && !tgt.Null? && p != []
    requires i < |ChildrenOf(tgt)| && ChildrenOf(tgt)[i].0 == p[0]
    ensures SomeMissingAt(src, ChildrenOf(tgt), p) <==> MinimalAbsent(src, tgt, p)
    decreases |p|, 0
  {
    var c := ChildrenOf(tgt);
    ChildAt(tgt, p[0], i);
    ChildrenMerged(src, c);
    assert ChildMerged(src, c[i], WalkChildren(src, c).value.0[i]);
    assert SomeMissingAt(src, c, p) <==> MissingAt(src, c[i], p) by {
      if SomeMissingAt(src, c, p) {
        var j :| 0 <= j < |c| && MissingAt(src, c[j], p);
        ChildAt(tgt, p[0], j);
      }
    }
    var found := Lookup(src, p[0]);
    AtParent(src, p);
    if |p| == 1 {
      assert p == [p[0]] && p[1..] == [] && p[..|p| - 1] == [];
      assert AtPath(tgt, p) == Some(c[i].1);
    }
    if found.Some? {
      var rest := p[1..];
      MissingIsMinimalAbsent(found.value, c[i].1, rest);
      assert AtPath(src, p) == AtPath(found.value, rest) && AtPath(tgt, p) == AtPath(c[i].1, rest);
      assert |p| > 1 ==> AtPath(src, p[..|p| - 1]) == AtPath(found.value, rest[..|rest| - 1]);
      assert MissingAt(src, c[i], p) <==> rest in Walk(found.value, c[i].1).value.1;
    }
  }

  // ----- what the result holds

  lemma ResultChild(src: Value, tgt: Value, k: Component)
    requires WellFormed(tgt) && Walk(src, tgt).Ok? && IsPass(src, tgt) && !tgt.Null? && Lookup(tgt, k).Some?
    ensures Lookup(Walk(src, tgt).value.0, k).Some?
    ensures ChildMerged(src, (k, Lookup(tgt, k).value), (k, Lookup(Walk(src, tgt).value.0, k).value))
  {
    var c := ChildrenOf(tgt);
    var i := ChildFor(tgt, k);
    var done := WalkChildren(src, c).value.0;
    ChildrenMerged(src, c);
    assert ChildMerged(src, c[i], done[i]);
    if src.Mapping? {
      KeysStayDistinct(src, c, done);
      var j := Find(done, k);
      assert j < |done| && done[j].0 == done[i].0;
      assert i == j;
    }
  }

  lemma KeysStayDistinct(src: Value, c: Children, done: Children)
    requires DistinctKeys(c) && |done| == |c| && forall i :: 0 <= i < |c| ==> ChildMerged(src, c[i], done[i])
    ensures DistinctKeys(done)
  {
    forall i, j | 0 <= i < j < |done| ensures done[i].0 != done[j].0 {
      assert ChildMerged(src, c[i], done[i]) && ChildMerged(src, c[j], done[j]);
    }
  }

  /** At every path of the target the result holds the merge of source and target where the
      source has the path, and the target's own value where it does not. */
  lemma ResultAtPath(src: Value, tgt: Value, p: NestedPath)
    requires WellFormed(tgt) && Walk(src, tgt).Ok? && AtPath(tgt, p).Some?
    ensures AtPath(src, p).Some? ==>
      && Walk(AtPath(src, p).value, AtPath(tgt, p).value).Ok?
      && AtPath(Walk(src, tgt).value.0, p) == Some(Walk(AtPath(src, p).value, AtPath(tgt, p).value).value.0)
    ensures AtPath(src, p).None? ==> AtPath(Walk(src, tgt).value.0, p) == AtPath(tgt, p)
    decreases |p|
  {
    if p != [] {
      var t := Lookup(tgt, p[0]).value;
      assert IsPass(src, tgt);
      ResultChild(src, tgt, p[0]);
      if Lookup(src, p[0]).Some? {
        var i := ChildFor(tgt, p[0]);
        ResultAtPath(Lookup(src, p[0]).value, t, p[1..]);
      }
    }
  }

  /** What a whole source value becomes where the target has nothing of its own: leaves as
      they are, containers with the same keys or length. */
  predicate Loaded(src: Value, result: Value) {
    match src
    case Mapping(entries) => result.Mapping? && SameKeys(result.entries, entries)
    case Sequence(kind, items) => result.Sequence? && result.kind == Converted(kind) && |result.items| == |items|
    case _ => result == src
  }

  predicate SameKeys(a: Children, b: Children) {
    |a| == |b| && forall i :: 0 <= i < |a| ==> a[i].0 == b[i].0
  }

  /** A tensor of the target's own class and kind with the source's content. */
  predicate HasContentOf(result: Value, src: Value, tgt: Value)
    requires src.Leaf? && tgt.Leaf?
  {
    && result.Leaf? && result.content == src.content
    && result.own == tgt.own && result.types == tgt.types && result.tensor == tgt.tensor && result.isSet == tgt.isSet
  }

  /** What source and target become where both have a value: a tensor of the target gets
      the source tensor's content, any other leaf is replaced by the source's; a container
      keeps the target's keys or length, but an empty target sequence takes the source's
      elements over as they are. */
  predicate Merges(src: Value, tgt: Value, result: Value) {
    if tgt.Null? then Loaded(src, result)
    else match src
      case Leaf(_, _, tensor, _, _) =>
        if tgt.Leaf? && !tensor.NotTensor? && !tgt.tensor.NotTensor? then HasContentOf(result, src, tgt) else result == src
      case Null => result == src
      case Mapping(_) => tgt.Mapping? && result.Mapping? && SameKeys(result.entries, tgt.entries)
      case Sequence(kind, items) =>
        && tgt.Sequence? && result.Sequence?
        && (if tgt.items == [] then result.kind == Converted(kind) && result.items == items
            else |result.items| == |tgt.items| && result.kind == if tgt.kind.mutable then tgt.kind else Converted(kind))
  }

  lemma WalkMerges(src: Value, tgt: Value)
    requires Walk(src, tgt).Ok?
    ensures Merges(src, tgt, Walk(src, tgt).value.0)
  {
    if IsPass(src, tgt) {
      ChildrenMerged(src, TargetChildren(src, tgt));
      var done := WalkChildren(src, TargetChildren(src, tgt)).value.0;
      forall i | 0 <= i < |done| ensures done[i].0 == TargetChildren(src, tgt)[i].0 {
        assert ChildMerged(src, TargetChildren(src, tgt)[i], done[i]);
      }
    }
  }

  /** The loaded values arrive: at every path that source and target both have, the result
      holds what the two values there become. */
  lemma LoadedValuesArrive(src: Value, tgt: Value, p: NestedPath)
    requires WellFormed(tgt) && Walk(src, tgt).Ok? && AtPath(src, p).Some? && AtPath(tgt, p).Some?
    ensures AtPath(Walk(src, tgt).value.0, p).Some?
    ensures Merges(AtPath(src, p).value, AtPath(tgt, p).value, AtPath(Walk(src, tgt).value.0, p).value)
  {
    ResultAtPath(src, tgt, p);
    WalkMerges(AtPath(src, p).value, AtPath(tgt, p).value);
  }

  lemma {:induction false} AtPathConcat(v: Value, p: NestedPath, q: NestedPath)
    ensures AtPath(v, p + q) == if AtPath(v, p).None? then None else AtPath(AtPath(v, p).value, q)
    decreases |p|
  {
    if p == [] {
      assert p + q == q;
    } else {
      assert (p + q)[1..] == p[1..] + q;
      if Lookup(v, p[0]).Some? { AtPathConcat(Lookup(v, p[0]).value, p[1..], q); }
    }
  }

  lemma {:induction false} SameKeysSameFind(a: Children, b: Children, k: Component)
    requires SameKeys(a, b)
    ensures Find(a, k) == Find(b, k)
  {
    if a != [] && a[0].0 != k { SameKeysSameFind(a[1..], b[1..], k); }
  }

  lemma NullChild(src: Value, k: Component)
    requires Walk(src, Null).Ok? && IsPass(src, Null)
    ensures Lookup(Walk(src, Null).value.0, k).Some? <==> Lookup(src, k).Some?
    ensures Lookup(src, k).Some? ==>
      && Walk(Lookup(src, k).value, Null).Ok?
      && Lookup(Walk(src, Null).value.0, k) == Some(Walk(Lookup(src, k).value, Null).value.0)
  {
    var c := TargetChildren(src, Null);
    ChildrenMerged(src, c);
    var done := WalkChildren(src, c).value.0;
    forall i | 0 <= i < |done| ensures ChildMerged(src, c[i], done[i]) && done[i].0 == ChildrenOf(src)[i].0 { }
    if src.Mapping? { SameKeysSameFind(done, src.entries, k); }
    if Lookup(src, k).Some? {
      var i := ChildFor(src, k);
      assert ChildMerged(src, c[i], done[i]);
    }
  }

  /** Into nothing, the source is loaded whole: the same paths, each with its own value. */
  lemma NothingTakesAll(src: Value, p: NestedPath)
    requires Walk(src, Null).Ok?
    ensures AtPath(Walk(src, Null).value.0, p).Some? <==> AtPath(src, p).Some?
    ensures AtPath(src, p).Some? ==> Loaded(AtPath(src, p).value, AtPath(Walk(src, Null).value.0, p).value)
    decreases |p|
  {
    if p == [] {
      WalkMerges(src, Null);
    } else if IsPass(src, Null) {
      NullChild(src, p[0]);
      if Lookup(src, p[0]).Some? { NothingTakesAll(Lookup(src, p[0]).value, p[1..]); }
    }
  }

  /** Below a place where the target has no value, the result has exactly the source's
      paths with its values; below an empty target sequence it has the source's elements. */
  lemma TakenWhole(src: Value, tgt: Value, p: NestedPath, below: NestedPath)
    requires WellFormed(tgt) && Walk(src, tgt).Ok? && AtPath(src, p).Some? && AtPath(tgt, p).Some? && below != []
    ensures var s, t, r := AtPath(src, p + below), AtPath(tgt, p).value, AtPath(Walk(src, tgt).value.0, p + below);
      && (t.Null? ==> (r.Some? <==> s.Some?) && (s.Some? ==> Loaded(s.value, r.value)))
      && (t.Sequence? && t.items == [] ==> r == s)
  {
    ResultAtPath(src, tgt, p);
    AtPathConcat(src, p, below);
    AtPathConcat(Walk(src, tgt).value.0, p, below);
    var s, t := AtPath(src, p).value, AtPath(tgt, p).value;
    if t.Null? {
      NothingTakesAll(s, below);
    } else if t.Sequence? && t.items == [] {
      SameItemsSameBelow(s, Walk(s, t).value.0, below);
    }
  }

  lemma SameItemsSameBelow(a: Value, b: Value, p: NestedPath)
    requires a.Sequence? && b.Sequence? && a.items == b.items && p != []
    ensures AtPath(a, p) == AtPath(b, p)
  {
    assert Lookup(a, p[0]) == Lookup(b, p[0]);
  }

  // ----- when a walk succeeds

  /** A source value may be merged into the target's value at the same path. */
  predicate Fits(src: Value, tgt: Value) {
    Compatible(src, tgt) && MergeLeaf(src, tgt).Ok?
  }

  predicate FitsAt(src: Value, tgt: Value, p: NestedPath) {
    AtPath(src, p).Some? && AtPath(tgt, p).Some? ==> Fits(AtPath(src, p).value, AtPath(tgt, p).value)
  }

  lemma WalkIntoNullSucceeds(src: Value)
    ensures Walk(src, Null).Ok?
    decreases src
  {
    if IsPass(src, Null) {
      var c := TargetChildren(src, Null);
      forall i | 0 <= i < |c| && Lookup(src, c[i].0).Some? ensures Walk(Lookup(src, c[i].0).value, c[i].1).Ok? {
        WalkIntoNullSucceeds(Lookup(src, c[i].0).value);
      }
      ChildrenWalkOk(src, c);
    }
  }

  lemma SuccessFits(src: Value, tgt: Value, p: NestedPath)
    requires WellFormed(tgt) && Walk(src, tgt).Ok?
    ensures FitsAt(src, tgt, p)
    decreases |p|
  {
    if p != [] && Lookup(src, p[0]).Some? && Lookup(tgt, p[0]).Some? {
      var i := ChildFor(tgt, p[0]);
      ChildrenMerged(src, ChildrenOf(tgt));
      assert ChildMerged(src, ChildrenOf(tgt)[i], WalkChildren(src, ChildrenOf(tgt)).value.0[i]);
      SelfChildAt(tgt, i);
      SuccessFits(Lookup(src, p[0]).value, Lookup(tgt, p[0]).value, p[1..]);
    }
  }

  lemma FittingSucceeds(src: Value, tgt: Value)
    requires WellFormed(tgt) && forall p :: FitsAt(src, tgt, p)
    ensures Walk(src, tgt).Ok?
    decreases src
  {
    assert FitsAt(src, tgt, []);
    if tgt.Null? {
      WalkIntoNullSucceeds(src);
    } else if IsPass(src, tgt) {
      var c := ChildrenOf(tgt);
      forall i | 0 <= i < |c| && Lookup(src, c[i].0).Some? ensures Walk(Lookup(src, c[i].0).value, c[i].1).Ok? {
        SelfChildAt(tgt, i);
        var s, t := Lookup(src, c[i].0).value, c[i].1;
        forall p: NestedPath ensures FitsAt(s, t, p) {
          var q := [c[i].0] + p;
          assert FitsAt(src, tgt, q) && q[1..] == p;
        }
        FittingSucceeds(s, t);
      }
      ChildrenWalkOk(src, c);
    }
  }

  /** A walk succeeds exactly if at every path that source and target both have the values'
      types are compatible and no plain tensor meets a distributed one. */
  lemma WalkSucceedsIff(src: Value, tgt: Value)
    requires WellFormed(tgt)
    ensures Walk(src, tgt).Ok? <==> forall p :: FitsAt(src, tgt, p)
  {
    if Walk(src, tgt).Ok? {
      forall p: NestedPath ensures FitsAt(src, tgt, p) {
        SuccessFits(src, tgt, p);
      }
    } else if forall p :: FitsAt(src, tgt, p) {
      FittingSucceeds(src, tgt);
    }
  }

  // ----- walking again

  /** Merging a value into itself gives it back: its sequences keep their type. */
  predicate SelfStable(v: Value) {
    match v
    case Mapping(entries) => forall i :: 0 <= i < |entries| ==> SelfStable(entries[i].1)
    case Sequence(kind, items) =>
      (if items == [] || !kind.mutable then Converted(kind) == kind else true)
      && forall i :: 0 <= i < |items| ==> SelfStable(items[i])
    case _ => true
  }

  /** Whatever an empty target sequence takes over whole from the source is self-stable. */
  ghost predicate StableLoads(src: Value, tgt: Value)
    decreases src
  {
    if src.Sequence? && tgt.Sequence? && tgt.items == [] then
      forall i :: 0 <= i < |src.items| ==> SelfStable(src.items[i])
    else
      forall i: nat :: i < |TargetChildren(src, tgt)| ==>
        var s := Lookup(src, TargetChildren(src, tgt)[i].0);
        s.Some? ==> StableLoads(s.value, TargetChildren(src, tgt)[i].1)
  }

  /** Children that walk well one by one walk well together. */
  lemma {:induction false} ChildrenWalkOk(src: Value, c: Children)
    requires forall i :: 0 <= i < |c| && Lookup(src, c[i].0).Some? ==> Walk(Lookup(src, c[i].0).value, c[i].1).Ok?
    ensures WalkChildren(src, c).Ok?
  {
    if c != [] {
      ChildrenWalkOk(src, c[..|c| - 1]);
    }
  }

  /** Children with the same keys and the same gaps below report the same missing paths. */
  lemma {:induction false} SameMissing(src: Value, c: Children, d: Children)
    requires |c| == |d| && WalkChildren(src, c).Ok? && WalkChildren(src, d).Ok?
    requires forall i :: 0 <= i < |c| ==> SameGaps(src, c[i], d[i])
    ensures WalkChildren(src, d).value.1 == WalkChildren(src, c).value.1
  {
    if c != [] {
      SameMissing(src, c[..|c| - 1], d[..|d| - 1]);
      assert SameGaps(src, c[|c| - 1], d[|d| - 1]);
    }
  }

  ghost predicate SameGaps(src: Value, c: (Component, Value), d: (Component, Value)) {
    c.0 == d.0 && match Lookup(src, c.0)
      case None => true
      case Some(s) => Walk(s, c.1).Ok? && Walk(s, d.1).Ok? && Walk(s, d.1).value.1 == Walk(s, c.1).value.1
  }

  lemma NoMissingIfAllFound(src: Value, c: Children)
    requires WalkChildren(src, c).Ok?
    requires forall i :: 0 <= i < |c| ==>
      Lookup(src, c[i].0).Some? && Walk(Lookup(src, c[i].0).value, c[i].1).Ok? && Walk(Lookup(src, c[i].0).value, c[i].1).value.1 == []
    ensures WalkChildren(src, c).value.1 == []
  {
    if c != [] {
      NoMissingIfAllFound(src, c[..|c| - 1]);
    }
  }

  lemma SelfChildAt(v: Value, i: nat)
    requires WellFormed(v) && i < |ChildrenOf(v)|
    ensures Lookup(v, ChildrenOf(v)[i].0) == Some(ChildrenOf(v)[i].1) && WellFormed(ChildrenOf(v)[i].1)
    ensures ChildrenOf(v)[i].1 < v
  {
    ChildAt(v, ChildrenOf(v)[i].0, i);
  }

  predicate ChildrenStable(v: Value) {
    forall i :: 0 <= i < |ChildrenOf(v)| ==> SelfStable(ChildrenOf(v)[i].1)
  }

  /** Walking a value into itself always succeeds and misses nothing; it gives the value
      back exactly if the value is self-stable. */
  lemma SelfWalk(v: Value)
    requires WellFormed(v)
    ensures Walk(v, v).Ok? && Walk(v, v).value.1 == [] && (Walk(v, v).value.0 == v <==> SelfStable(v))
    decreases v
  {
    if IsPass(v, v) {
      var c := ChildrenOf(v);
      forall i | 0 <= i < |c| ensures ChildIsSelf(v, c[i]) {
        SelfChildAt(v, i);
        SelfWalk(c[i].1);
      }
      SelfPass(v);
      RebuiltIsSame(v, v, WalkChildren(v, c).value.0);
      StableByChildren(v);
    }
  }

  ghost predicate ChildIsSelf(v: Value, child: (Component, Value)) {
    && Lookup(v, child.0) == Some(child.1) && Walk(child.1, child.1).Ok? && Walk(child.1, child.1).value.1 == []
    && (Walk(child.1, child.1).value.0 == child.1 <==> SelfStable(child.1))
  }

  lemma SelfPass(v: Value)
    requires forall i :: 0 <= i < |ChildrenOf(v)| ==> ChildIsSelf(v, ChildrenOf(v)[i])
    ensures WalkChildren(v, ChildrenOf(v)).Ok? && WalkChildren(v, ChildrenOf(v)).value.1 == []
    ensures |WalkChildren(v, ChildrenOf(v)).value.0| == |ChildrenOf(v)|
    ensures forall i :: 0 <= i < |ChildrenOf(v)| ==> WalkChildren(v, ChildrenOf(v)).value.0[i].0 == ChildrenOf(v)[i].0
    ensures WalkChildren(v, ChildrenOf(v)).value.0 == ChildrenOf(v) <==> ChildrenStable(v)
  {
    var c := ChildrenOf(v);
    ChildrenWalkOk(v, c);
    NoMissingIfAllFound(v, c);
    ChildrenMerged(v, c);
    var done := WalkChildren(v, c).value.0;
    forall i | 0 <= i < |c| ensures done[i].0 == c[i].0 && (done[i] == c[i] <==> SelfStable(c[i].1)) {
      assert ChildMerged(v, c[i], done[i]) && ChildIsSelf(v, c[i]);
    }
    if ChildrenStable(v) {
      assert forall i :: 0 <= i < |c| ==> SelfStable(c[i].1) && done[i] == c[i];
    }
  }

  lemma StableByChildren(v: Value)
    requires v.Mapping? || (v.Sequence? && v.items != [])
    ensures SelfStable(v) <==> ChildrenStable(v) && (v.Sequence? ==> v.kind.mutable || Converted(v.kind) == v.kind)
  {
    forall i | 0 <= i < |ChildrenOf(v)|
      ensures SelfStable(ChildrenOf(v)[i].1) <==> SelfStable(if v.Mapping? then v.entries[i].1 else v.items[i])
    {
    }
    if v.Sequence? {
      assert SelfStable(v) ==> forall i :: 0 <= i < |v.items| ==> SelfStable(v.items[i]);
      assert ChildrenStable(v) ==> forall i :: 0 <= i < |v.items| ==> SelfStable(ChildrenOf(v)[i].1);
    } else {
      assert ChildrenOf(v) == v.entries;
    }
  }

  /** A rebuilt container equals the target exactly if its children and its type do. */
  lemma RebuiltIsSame(src: Value, tgt: Value, c: Children)
    requires (src.Mapping? && tgt.Mapping?) || (src.Sequence? && tgt.Sequence?)
    requires |c| == |ChildrenOf(tgt)| && forall i :: 0 <= i < |c| ==> c[i].0 == ChildrenOf(tgt)[i].0
    ensures Rebuilt(src, tgt, c) == tgt <==>
      c == ChildrenOf(tgt) && (tgt.Sequence? ==> tgt.kind.mutable || Converted(src.kind) == tgt.kind)
  {
    if tgt.Sequence? {
      if c == ChildrenOf(tgt) { assert Seconds(c) == tgt.items; }
      if Seconds(c) == tgt.items {
        forall i | 0 <= i < |c| ensures c[i] == ChildrenOf(tgt)[i] { assert Seconds(c)[i] == tgt.items[i]; }
      }
    }
  }

  lemma LookupIsWellFormed(v: Value, k: Component)
    requires WellFormed(v) && Lookup(v, k).Some?
    ensures WellFormed(Lookup(v, k).value)
  {
    var i := ChildFor(v, k);
    SelfChildAt(v, i);
  }

  /** Walking again from the same source after one target child was merged. */
  ghost predicate ChildAgain(src: Value, child: (Component, Value), done: (Component, Value)) {
    ChildMerged(src, child, done) &&
    match Lookup(src, child.0)
    case None => true
    case Some(s) =>
      && Walk(s, child.1).Ok? && Walk(s, done.1).Ok? && Walk(s, done.1).value.1 == Walk(s, child.1).value.1
      && (Walk(s, done.1).value.0 == done.1 <==> StableLoads(s, child.1))
  }

  lemma PassAgain(src: Value, c: Children, done: Children)
    requires WalkChildren(src, c).Ok? && WalkChildren(src, c).value.0 == done && |done| == |c|
    requires forall i :: 0 <= i < |c| ==> ChildAgain(src, c[i], done[i])
    ensures WalkChildren(src, done).Ok? && WalkChildren(src, done).value.1 == WalkChildren(src, c).value.1
    ensures |WalkChildren(src, done).value.0| == |done|
    ensures forall i :: 0 <= i < |done| ==> WalkChildren(src, done).value.0[i].0 == done[i].0
    ensures WalkChildren(src, done).value.0 == done <==> forall i :: 0 <= i < |c| ==> ChildLoadsStable(src, c[i])
  {
    forall i | 0 <= i < |done| && Lookup(src, done[i].0).Some? ensures Walk(Lookup(src, done[i].0).value, done[i].1).Ok? {
      assert ChildAgain(src, c[i], done[i]);
    }
    ChildrenWalkOk(src, done);
    ChildrenMerged(src, done);
    forall i | 0 <= i < |c| ensures SameGaps(src, c[i], done[i]) {
      assert ChildAgain(src, c[i], done[i]);
    }
    SameMissing(src, c, done);
    var again := WalkChildren(src, done).value.0;
    forall i | 0 <= i < |c| ensures again[i].0 == done[i].0 && (again[i] == done[i] <==> ChildLoadsStable(src, c[i])) {
      assert ChildAgain(src, c[i], done[i]) && ChildMerged(src, done[i], again[i]);
    }
  }

  ghost predicate ChildLoadsStable(src: Value, child: (Component, Value)) {
    Lookup(src, child.0).Some? ==> StableLoads(Lookup(src, child.0).value, child.1)
  }

  lemma ResultChildren(src: Value, tgt: Value, done: Children)
    requires IsPass(src, tgt) && |done| == |TargetChildren(src, tgt)|
    requires forall i :: 0 <= i < |done| ==> done[i].0 == TargetChildren(src, tgt)[i].0
    ensures ChildrenOf(Rebuilt(src, tgt, done)) == done
  {
    if src.Sequence? {
      forall i | 0 <= i < |done| ensures ChildrenOf(Rebuilt(src, tgt, done))[i] == done[i] {
        assert TargetChildren(src, tgt)[i].0 == Position(i);
      }
    }
  }

  lemma StableByChild(src: Value, tgt: Value)
    requires IsPass(src, tgt)
    ensures StableLoads(src, tgt) <==>
      forall i :: 0 <= i < |TargetChildren(src, tgt)| ==> ChildLoadsStable(src, TargetChildren(src, tgt)[i])
  {
  }

  lemma WalkAgainAfterPass(src: Value, tgt: Value, c: Children, done: Children, missing: seq<NestedPath>)
    requires IsPass(src, tgt) && c == TargetChildren(src, tgt)
    requires WalkChildren(src, c) == Ok((done, missing)) && |done| == |c|
    requires forall i :: 0 <= i < |c| ==> ChildAgain(src, c[i], done[i])
    ensures var r := Rebuilt(src, tgt, done);
      && Walk(src, r).Ok? && Walk(src, r).value.1 == missing
      && (Walk(src, r).value.0 == r <==> StableLoads(src, tgt))
  {
    var r := Rebuilt(src, tgt, done);
    forall i | 0 <= i < |done| ensures done[i].0 == c[i].0 { assert ChildAgain(src, c[i], done[i]); }
    ResultChildren(src, tgt, done);
    PassAgain(src, c, done);
    StableByChild(src, tgt);
    if IsPass(src, r) {
      var again := WalkChildren(src, done).value;
      WalkOfPass(src, r, again.0, again.1);
      RebuiltIsSame(src, r, again.0);
    } else {
      assert done == [] && c == [];
    }
  }

  lemma WalkOfPass(src: Value, tgt: Value, done: Children, missing: seq<NestedPath>)
    requires IsPass(src, tgt) && WalkChildren(src, TargetChildren(src, tgt)) == Ok((done, missing))
    ensures Walk(src, tgt) == Ok((Rebuilt(src, tgt, done), missing))
  {
  }

  lemma WalkAgainAfterEmpty(src: Value, tgt: Value)
    requires WellFormed(src) && src.Sequence? && tgt.Sequence? && tgt.items == []
    ensures var (r, missing) := Walk(src, tgt).value;
      && Walk(src, r).Ok? && Walk(src, r).value.1 == missing
      && (Walk(src, r).value.0 == r <==> StableLoads(src, tgt))
  {
    var r := Sequence(Converted(src.kind), src.items);
    if src.items != [] {
      var c := ChildrenOf(src);
      assert ChildrenOf(r) == c;
      forall i | 0 <= i < |c| ensures ChildIsSelf(src, c[i]) {
        SelfChildAt(src, i);
        SelfWalk(c[i].1);
      }
      SelfPass(src);
      RebuiltIsSame(src, r, WalkChildren(src, c).value.0);
      assert ChildrenStable(src) <==> forall i :: 0 <= i < |src.items| ==> SelfStable(src.items[i]) by {
        assert forall i :: 0 <= i < |c| ==> c[i].1 == src.items[i];
      }
    }
  }

  /** Walking again with the result as target always succeeds and reports the same missing
      paths; it changes nothing exactly if what empty target sequences took over whole is
      self-stable, as all lists and tuples are. */
  lemma WalkAgain(src: Value, tgt: Value)
    requires WellFormed(src) && Walk(src, tgt).Ok?
    ensures var (r, missing) := Walk(src, tgt).value;
      && Walk(src, r).Ok? && Walk(src, r).value.1 == missing
      && (Walk(src, r).value.0 == r <==> StableLoads(src, tgt))
    decreases src
  {
    if IsPass(src, tgt) {
      var c := TargetChildren(src, tgt);
      ChildrenMerged(src, c);
      var done := WalkChildren(src, c).value.0;
      forall i | 0 <= i < |c| ensures ChildAgain(src, c[i], done[i]) {
        assert ChildMerged(src, c[i], done[i]);
        if Lookup(src, c[i].0).Some? {
          LookupIsWellFormed(src, c[i].0);
          WalkAgain(Lookup(src, c[i].0).value, c[i].1);
        }
      }
      WalkAgainAfterPass(src, tgt, c, done, WalkChildren(src, c).value.1);
    } else if src.Sequence? {
      WalkAgainAfterEmpty(src, tgt);
    }
  }

  /** A range is no list and cannot be built from one. */
  const RANGE := Kind("range", false, false)

  /** An empty target list takes over a list holding an empty range as it is; walking again
      puts a list in place of the range. */
  lemma RangeBecomesList()
    ensures var src, tgt := Sequence(LIST, [Sequence(RANGE, [])]), Sequence(LIST, []);
      && Walk(src, tgt) == Ok((src, []))
      && Walk(src, src) == Ok((Sequence(LIST, [Sequence(LIST, [])]), []))
  {
    var src, range: Value, list: Value := Sequence(LIST, [Sequence(RANGE, [])]), Sequence(RANGE, []), Sequence(LIST, []);
    var c := ChildrenOf(src);
    assert c == [(Position(0), range)] && c[..|c| - 1] == [];
    assert Walk(range, range) == Ok((list, []));
    assert Lookup(src, Position(0)) == Some(range);
    assert WalkChildren(src, c[..|c| - 1]) == Ok(([], []));
    var (done, missing) := WalkChildren(src, c).value;
    assert done == [(Position(0), list)] && missing == [];
    assert Seconds(done) == [list];
  }
}
