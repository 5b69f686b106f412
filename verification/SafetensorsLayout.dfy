/** Nested state dicts in flat safetensors files (checkpoint_layout.py). */
module SafetensorsLayout {
  import opened Wrappers
  import opened ReshardingUtils

  // Flattening to dotted keys, and reshaping a flat file back to a target's nesting
  // (prepare_tensors_for_save and unflatten_to_target).

  /** The bytes and shape of one tensor; a DTensor counts as its local tensor. */
  type Tensor = string

  /** `Missing` is the None that fills the place of an absent leaf of a list or tuple. */
  datatype Tree =
    | Dict(entries: seq<(string, Tree)>)
    | List(isTuple: bool, items: seq<Tree>)
    | Leaf(tensor: Tensor)
    | Other(kind: string)
    | Missing

  datatype FlattenError = NotATensor(key: string)

  predicate IsContainer(t: Tree) { t.Dict? || t.List? }

  function Size(t: Tree): nat {
    match t case Dict(entries) => |entries| case List(_, items) => |items| case _ => 0
  }

  /** The name and value of a container's i-th element; positions become text. */
  function Child(t: Tree, i: nat): (r: (string, Tree))
    requires i < Size(t)
    ensures r.1 < t
  {
    match t
    case Dict(entries) => entries[i]
    case List(_, items) => (Decimal(i), items[i])
  }

  function Join(prefix: string, name: string): string {
    if prefix == "" then name else prefix + "." + name
  }

  // ----- flattening

  type Leaves = seq<(string, Tensor)>

  /** The tensors below t with their joined paths, in order; None if something else than a
      tensor is there. */
  function LeavesOf(t: Tree, key: string): Result<Leaves, FlattenError>
    decreases t, 1, 0
  {
    match t
    case Leaf(tensor) => Ok([(key, tensor)])
    case Other(_) => Err(NotATensor(key))
    case Missing => Err(NotATensor(key))
    case _ => LeavesBelow(t, key, Size(t))
  }

  function LeavesBelow(t: Tree, key: string, n: nat): Result<Leaves, FlattenError>
    requires n <= Size(t)
    decreases t, 0, n
  {
    if n == 0 then Ok([])
    else match LeavesBelow(t, key, n - 1)
      case Err(e) => Err(e)
      case Ok(before) =>
        match LeavesOf(Child(t, n - 1).1, Join(key, Child(t, n - 1).0))
        case Err(e) => Err(e)
        case Ok(leaves) => Ok(before + leaves)
  }

  /** The dictionary after assigning the leaves in order: the last of equal keys wins. */
  function Assign(flat: map<string, Tensor>, leaves: Leaves): map<string, Tensor> {
    if leaves == [] then flat else Assign(flat, leaves[..|leaves| - 1])[leaves[|leaves| - 1].0 := leaves[|leaves| - 1].1]
  }

  lemma {:induction false} AssignConcat(flat: map<string, Tensor>, a: Leaves, b: Leaves)
    ensures Assign(flat, a + b) == Assign(Assign(flat, a), b)
  {
    if b == [] {
      assert a + b == a;
    } else {
      assert (a + b)[..|a + b| - 1] == a + b[..|b| - 1];
      AssignConcat(flat, a, b[..|b| - 1]);
    }
  }

  method FlattenInto(t: Tree, key: string, flat: map<string, Tensor>) returns (r: Result<map<string, Tensor>, FlattenError>)
    ensures LeavesOf(t, key).Err? ==> r == Err(LeavesOf(t, key).error)
    ensures LeavesOf(t, key).Ok? ==> r == Ok(Assign(flat, LeavesOf(t, key).value))
    decreases t
  {
    match t
    case Leaf(tensor) =>
      assert LeavesOf(t, key).value[..0] == [];
      return Ok(flat[key := tensor]);
    case Other(_) => return Err(NotATensor(key));
    case Missing => return Err(NotATensor(key));
    case _ =>
      var out := flat;
      for i := 0 to Size(t)
        invariant LeavesBelow(t, key, i).Ok? && out == Assign(flat, LeavesBelow(t, key, i).value)
      {
        var (name, child) := Child(t, i);
        var below := FlattenInto(child, Join(key, name), out);
        if below.Err? {
          LeavesErrorStays(t, key, i + 1);
          return Err(below.error);
        }
        AssignConcat(flat, LeavesBelow(t, key, i).value, LeavesOf(child, Join(key, name)).value);
        out := below.value;
      }
      return Ok(out);
  }

  lemma {:induction false} LeavesErrorStays(t: Tree, key: string, n: nat)
    requires IsContainer(t) && n <= Size(t) && LeavesBelow(t, key, n).Err?
    ensures LeavesOf(t, key) == LeavesBelow(t, key, n)
    decreases Size(t) - n
  {
    if n < Size(t) {
      LeavesErrorStays(t, key, n + 1);
    }
  }

  method PrepareTensorsForSave(data: Tree) returns (r: Result<map<string, Tensor>, FlattenError>)
    ensures LeavesOf(data, "").Err? ==> r == Err(LeavesOf(data, "").error)
    ensures LeavesOf(data, "").Ok? ==> r == Ok(Assign(map[], LeavesOf(data, "").value))
  {
    r := FlattenInto(data, "", map[]);
  }

  // ----- unflattening

  function Unflatten(flat: map<string, Tensor>, t: Tree, prefix: string): Tree
    decreases t, 1, 0
  {
    match t
    case Dict(_) => Dict(EntriesFor(flat, t, prefix, Size(t)))
    case List(isTuple, _) => List(isTuple, ItemsFor(flat, t, prefix, Size(t)))
    case _ => if prefix in flat then Leaf(flat[prefix]) else Missing
  }

  /** Leaves that the file lacks are dropped from a dict. */
  function EntriesFor(flat: map<string, Tensor>, t: Tree, prefix: string, n: nat): seq<(string, Tree)>
    requires t.Dict? && n <= Size(t)
    decreases t, 0, n
  {
    if n == 0 then []
    else
      var (name, child) := Child(t, n - 1);
      var before := EntriesFor(flat, t, prefix, n - 1);
      if IsContainer(child) || Join(prefix, name) in flat then before + [(name, Unflatten(flat, child, Join(prefix, name)))]
      else before
  }

  function ItemsFor(flat: map<string, Tensor>, t: Tree, prefix: string, n: nat): (r: seq<Tree>)
    requires t.List? && n <= Size(t)
    ensures |r| == n
    decreases t, 0, n
  {
    if n == 0 then [] else ItemsFor(flat, t, prefix, n - 1) + [Unflatten(flat, Child(t, n - 1).1, Join(prefix, Child(t, n - 1).0))]
  }

  method UnflattenToTarget(flat: map<string, Tensor>, t: Tree, prefix: string) returns (r: Tree)
    ensures r == Unflatten(flat, t, prefix)
    decreases t
  {
    match t
    case Dict(entries) =>
      var out: seq<(string, Tree)> := [];
      for i := 0 to |entries|
        invariant out == EntriesFor(flat, t, prefix, i)
      {
        var (name, child) := entries[i];
        assert Child(t, i) == entries[i];
        var sub := Join(prefix, name);
        if IsContainer(child) {
          var below := UnflattenToTarget(flat, child, sub);
          out := out + [(name, below)];
        } else if sub in flat {
          out := out + [(name, Leaf(flat[sub]))];
        }
      }
      return Dict(out);
    case List(isTuple, items) =>
      var out: seq<Tree> := [];
      for i := 0 to |items|
        invariant out == ItemsFor(flat, t, prefix, i)
      {
        assert Child(t, i) == (Decimal(i), items[i]);
        var below := UnflattenToTarget(flat, items[i], Join(prefix, Decimal(i)));
        out := out + [below];
      }
      return List(isTuple, out);
    case _ =>
      return if prefix in flat then Leaf(flat[prefix]) else Missing;
  }

  // ----- the round trip

  predicate HoldsAll(flat: map<string, Tensor>, leaves: Leaves) {
    forall i :: 0 <= i < |leaves| ==> leaves[i].0 in flat && flat[leaves[i].0] == leaves[i].1
  }

  /** Leaves that share a joined path hold the same tensor. In particular this holds if the
      paths are distinct. */
  predicate Unambiguous(leaves: Leaves) {
    forall i, j :: 0 <= i < j < |leaves| && leaves[i].0 == leaves[j].0 ==> leaves[i].1 == leaves[j].1
  }

  /** Reshaping to x itself gives x back exactly if the file holds every leaf of x. */
  lemma {:induction false} UnflattenIsIdentityIff(flat: map<string, Tensor>, x: Tree, prefix: string)
    requires LeavesOf(x, prefix).Ok?
    ensures Unflatten(flat, x, prefix) == x <==> HoldsAll(flat, LeavesOf(x, prefix).value)
    decreases x, 1, 0
  {
    match x
    case Leaf(tensor) =>
      assert LeavesOf(x, prefix).value[0] == (prefix, tensor);
    case Dict(entries) =>
      EntriesIdentityIff(flat, x, prefix, |entries|);
      assert entries[..|entries|] == entries;
    case List(_, items) =>
      ItemsIdentityIff(flat, x, prefix, |items|);
      assert items[..|items|] == items;
  }

  lemma HoldsAllConcat(flat: map<string, Tensor>, a: Leaves, b: Leaves)
    ensures HoldsAll(flat, a + b) <==> HoldsAll(flat, a) && HoldsAll(flat, b)
  {
    if HoldsAll(flat, a + b) {
      forall i | 0 <= i < |b| ensures b[i].0 in flat && flat[b[i].0] == b[i].1 { assert (a + b)[|a| + i] == b[i]; }
      forall i | 0 <= i < |a| ensures a[i].0 in flat && flat[a[i].0] == a[i].1 { assert (a + b)[i] == a[i]; }
    }
  }

  lemma {:induction false} ItemsIdentityIff(flat: map<string, Tensor>, x: Tree, prefix: string, n: nat)
    requires x.List? && n <= |x.items| && LeavesBelow(x, prefix, n).Ok?
    ensures ItemsFor(flat, x, prefix, n) == x.items[..n] <==> HoldsAll(flat, LeavesBelow(x, prefix, n).value)
    decreases x, 0, n
  {
    if n > 0 {
      var (name, child) := Child(x, n - 1);
      ItemsIdentityIff(flat, x, prefix, n - 1);
      UnflattenIsIdentityIff(flat, child, Join(prefix, name));
      HoldsAllConcat(flat, LeavesBelow(x, prefix, n - 1).value, LeavesOf(child, Join(prefix, name)).value);
      var before := ItemsFor(flat, x, prefix, n - 1);
      assert x.items[..n] == x.items[..n - 1] + [child];
      SameExtension(before, Unflatten(flat, child, Join(prefix, name)), x.items[..n - 1], child);
    }
  }

  lemma SameExtension<T>(a: seq<T>, x: T, b: seq<T>, y: T)
    requires |a| == |b|
    ensures a + [x] == b + [y] <==> a == b && x == y
  {
    if a + [x] == b + [y] {
      assert a == (a + [x])[..|a|] && b == (b + [y])[..|b|];
      assert x == (a + [x])[|a|] && y == (b + [y])[|b|];
    }
  }

  lemma {:induction false} EntriesAtMost(flat: map<string, Tensor>, x: Tree, prefix: string, n: nat)
    requires x.Dict? && n <= Size(x)
    ensures |EntriesFor(flat, x, prefix, n)| <= n
  {
    if n > 0 { EntriesAtMost(flat, x, prefix, n - 1); }
  }

  lemma {:induction false} EntriesIdentityIff(flat: map<string, Tensor>, x: Tree, prefix: string, n: nat)
    requires x.Dict? && n <= |x.entries| && LeavesBelow(x, prefix, n).Ok?
    ensures EntriesFor(flat, x, prefix, n) == x.entries[..n] <==> HoldsAll(flat, LeavesBelow(x, prefix, n).value)
    decreases x, 0, n
  {
    if n > 0 {
      var (name, child) := Child(x, n - 1);
      var sub := Join(prefix, name);
      EntriesIdentityIff(flat, x, prefix, n - 1);
      UnflattenIsIdentityIff(flat, child, sub);
      HoldsAllConcat(flat, LeavesBelow(x, prefix, n - 1).value, LeavesOf(child, sub).value);
      var before := EntriesFor(flat, x, prefix, n - 1);
      EntriesAtMost(flat, x, prefix, n - 1);
      assert x.entries[..n] == x.entries[..n - 1] + [(name, child)];
      if IsContainer(child) || sub in flat {
        if |before| == n - 1 {
          SameExtension(before, (name, Unflatten(flat, child, sub)), x.entries[..n - 1], (name, child));
        }
      } else {
        assert child.Leaf?;
      }
    }
  }

  lemma {:induction false} AssignHoldsAllIff(leaves: Leaves)
    ensures HoldsAll(Assign(map[], leaves), leaves) <==> Unambiguous(leaves)
    ensures forall k :: k in Assign(map[], leaves) <==> exists i :: 0 <= i < |leaves| && leaves[i].0 == k
  {
    if leaves != [] {
      var n := |leaves| - 1;
      AssignHoldsAllIff(leaves[..n]);
    }
  }

  /** Saving a nested state dict and reshaping the file to the same structure gives it back
      exactly if leaves whose paths join to the same key hold the same tensor. */
  lemma RoundTripIff(x: Tree)
    requires LeavesOf(x, "").Ok?
    ensures Unflatten(Assign(map[], LeavesOf(x, "").value), x, "") == x <==> Unambiguous(LeavesOf(x, "").value)
  {
    UnflattenIsIdentityIff(Assign(map[], LeavesOf(x, "").value), x, "");
    AssignHoldsAllIff(LeavesOf(x, "").value);
  }

  /** Every key of every dict is plain, and the keys of one dict are distinct. */
  predicate WellNamed(t: Tree) {
    match t
    case Dict(entries) =>
      && (forall i :: 0 <= i < |entries| ==> IsPlain(entries[i].0) && WellNamed(entries[i].1))
      && (forall i, j :: 0 <= i < j < |entries| ==> entries[i].0 != entries[j].0)
    case List(_, items) => forall i :: 0 <= i < |items| ==> WellNamed(items[i])
    case _ => true
  }

  lemma ChildIsWellNamed(t: Tree, i: nat)
    requires WellNamed(t) && i < Size(t)
    ensures IsPlain(Child(t, i).0) && WellNamed(Child(t, i).1)
  {
    if t.List? { DecimalIsPlain(i); }
  }

  lemma ChildNamesDiffer(t: Tree, i: nat, j: nat)
    requires WellNamed(t) && i < j < Size(t)
    ensures Child(t, i).0 != Child(t, j).0
  {
    if t.List? {
      DecimalRoundTrip(i);
      DecimalRoundTrip(j);
    }
  }

  /** The name is this key or below it; everything is below the root. */
  predicate Under(name: string, key: string) { key == "" || StartsWith(name, key) }

  lemma UnderJoined(name: string, key: string, child: string)
    requires IsPlain(child) && Under(name, Join(key, child))
    ensures Under(name, key)
  {
    if key != "" {
      var sub := key + "." + child;
      assert name[..|key|] == name[..|sub|][..|key|] && name[|key|] == name[..|sub|][|key|];
    }
  }

  /** A name below one child is not below another. */
  lemma UnderOneChild(name: string, key: string, a: string, b: string)
    requires IsPlain(a) && IsPlain(b) && Under(name, Join(key, a)) && Under(name, Join(key, b))
    ensures a == b
  {
    if key == "" {
      PlainStartIsUnique(name, a, b);
    } else {
      RestStartsWith(name, key, a);
      RestStartsWith(name, key, b);
      PlainStartIsUnique(name[|key| + 1..], a, b);
    }
  }

  lemma RestStartsWith(name: string, key: string, child: string)
    requires IsPlain(child) && key != "" && StartsWith(name, key + "." + child)
    ensures |name| > |key| && StartsWith(name[|key| + 1..], child)
  {
    var sub := key + "." + child;
    assert name[|key| + 1..][..|child|] == name[..|sub|][|key| + 1..] == child;
  }

  lemma {:induction false} LeavesAreUnder(t: Tree, key: string, i: nat)
    requires WellNamed(t) && LeavesOf(t, key).Ok? && i < |LeavesOf(t, key).value|
    ensures Under(LeavesOf(t, key).value[i].0, key)
    decreases t, 1, 0
  {
    if IsContainer(t) {
      var c := BelowAreUnder(t, key, Size(t), i);
      ChildIsWellNamed(t, c);
      UnderJoined(LeavesOf(t, key).value[i].0, key, Child(t, c).0);
    }
  }

  /** Each leaf below a container is below one of its children. */
  lemma {:induction false} BelowAreUnder(t: Tree, key: string, n: nat, i: nat) returns (c: nat)
    requires WellNamed(t) && IsContainer(t) && n <= Size(t) && LeavesBelow(t, key, n).Ok? && i < |LeavesBelow(t, key, n).value|
    ensures c < n && Under(LeavesBelow(t, key, n).value[i].0, Join(key, Child(t, c).0))
    decreases t, 0, n
  {
    var before := LeavesBelow(t, key, n - 1).value;
    if i < |before| {
      c := BelowAreUnder(t, key, n - 1, i);
    } else {
      c := n - 1;
      ChildIsWellNamed(t, c);
      LeavesAreUnder(Child(t, c).1, Join(key, Child(t, c).0), i - |before|);
    }
  }

  predicate NamesDistinct(leaves: Leaves) {
    forall i, j :: 0 <= i < j < |leaves| ==> leaves[i].0 != leaves[j].0
  }

  lemma {:induction false} WellNamedIsDistinct(t: Tree, key: string)
    requires WellNamed(t) && LeavesOf(t, key).Ok?
    ensures NamesDistinct(LeavesOf(t, key).value)
    decreases t, 1, 0
  {
    if IsContainer(t) { BelowIsDistinct(t, key, Size(t)); }
  }

  lemma {:induction false} BelowIsDistinct(t: Tree, key: string, n: nat)
    requires WellNamed(t) && IsContainer(t) && n <= Size(t) && LeavesBelow(t, key, n).Ok?
    ensures NamesDistinct(LeavesBelow(t, key, n).value)
    decreases t, 0, n
  {
    if n > 0 {
      var (name, child) := Child(t, n - 1);
      ChildIsWellNamed(t, n - 1);
      BelowIsDistinct(t, key, n - 1);
      WellNamedIsDistinct(child, Join(key, name));
      var before, last := LeavesBelow(t, key, n - 1).value, LeavesOf(child, Join(key, name)).value;
      forall i, j | 0 <= i < |before| && 0 <= j < |last| ensures before[i].0 != last[j].0 {
        var c := BelowAreUnder(t, key, n - 1, i);
        LeavesAreUnder(child, Join(key, name), j);
        ChildIsWellNamed(t, c);
        ChildNamesDiffer(t, c, n - 1);
        if before[i].0 == last[j].0 { UnderOneChild(before[i].0, key, Child(t, c).0, name); }
      }
    }
  }

  /** A state dict whose keys are plain is saved and read back without loss. */
  lemma WellNamedRoundTrips(x: Tree)
    requires WellNamed(x) && LeavesOf(x, "").Ok?
    ensures Unflatten(Assign(map[], LeavesOf(x, "").value), x, "") == x
  {
    WellNamedIsDistinct(x, "");
    RoundTripIff(x);
  }

  /** Paths can collide: a dotted key and a nested one join to the same key, and one of the
      two tensors is lost. */
  lemma DottedKeysCollide(a: Tensor, b: Tensor)
    requires a != b
    ensures var x := Dict([("layer.weight", Leaf(a)), ("layer", Dict([("weight", Leaf(b))]))]);
      LeavesOf(x, "").Ok? && Unflatten(Assign(map[], LeavesOf(x, "").value), x, "") != x
  {
    var inner := Dict([("weight", Leaf(b))]);
    var x := Dict([("layer.weight", Leaf(a)), ("layer", inner)]);
    var none: Leaves := [];
    var first, second := ("layer.weight", a), ("layer" + "." + "weight", b);
    assert Child(inner, 0) == ("weight", Leaf(b)) && LeavesBelow(inner, "layer", 0) == Ok(none);
    assert none + [second] == [second] && LeavesBelow(inner, "layer", 1) == Ok([second]);
    assert Child(x, 0) == ("layer.weight", Leaf(a)) && LeavesBelow(x, "", 0) == Ok(none);
    assert none + [first] == [first] && LeavesBelow(x, "", 1) == Ok([first]);
    assert Child(x, 1) == ("layer", inner) && LeavesBelow(x, "", 2) == Ok([first] + [second]);
    var leaves := [first] + [second];
    assert leaves[0].0 == leaves[1].0;
    RoundTripIff(x);
  }
}
