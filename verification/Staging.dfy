/** Staging a state dict into pooled CPU storages (_state_dict_stager.py). */
module Staging {
  import opened Wrappers
  import opened Streams

  // Storages are known by identity: a source storage by its SourceId, a pooled CPU storage
  // by the number it was created under. Copies of objects keep the number of the object they
  // copy, so equal numbers mean shared objects.

  type StorageId = nat

  // ----- the pool as a value

  /** The storages of each size, how many of them are handed out, and what they hold. */
  datatype Pool = Pool(lists: map<nat, seq<StorageId>>, next: map<nat, nat>, bytes: map<StorageId, seq<byte>>, created: nat) {
    function ListOf(size: nat): seq<StorageId> {
      if size in lists then lists[size] else []
    }

    /** A Counter: sizes it does not mention count zero. */
    function NextOf(size: nat): nat {
      if size in next then next[size] else 0
    }

    /** The storages of one size: all of that size, none twice, a prefix handed out. */
    ghost predicate ClassOk(size: nat) {
      && NextOf(size) <= |ListOf(size)|
      && (forall i :: 0 <= i < |ListOf(size)| ==> ListOf(size)[i] in bytes && |bytes[ListOf(size)[i]]| == size)
      && (forall i, j :: 0 <= i < j < |ListOf(size)| ==> ListOf(size)[i] != ListOf(size)[j])
    }

    ghost predicate Ok() {
      && (forall size: nat :: ClassOk(size))
      && (forall id :: id in bytes ==> Listed(id))
    }

    ghost predicate Listed(id: StorageId)
      requires id in bytes
    {
      id < created && id in ListOf(|bytes[id]|)
    }

    /** The storages of this size handed out since the last reset, in order. */
    ghost function Used(size: nat): seq<StorageId>
      requires Ok()
    {
      assert ClassOk(size);
      ListOf(size)[..NextOf(size)]
    }
  }

  function Taken(p: Pool, size: nat): Pool {
    p.(next := p.next[size := p.NextOf(size) + 1])
  }

  function Grown(p: Pool, size: nat): Pool {
    var blank: seq<byte> := seq(size, _ => 0);
    Pool(p.lists[size := p.ListOf(size) + [p.created]], p.next, p.bytes[p.created := blank], p.created + 1)
  }

  function Popped(p: Pool, size: nat): Pool
    requires p.ListOf(size) != []
  {
    var last := |p.ListOf(size)| - 1;
    p.(lists := p.lists[size := p.ListOf(size)[..last]], bytes := p.bytes - {p.ListOf(size)[last]})
  }

  lemma TakeKeepsOk(p: Pool, size: nat)
    requires p.Ok() && p.NextOf(size) < |p.ListOf(size)|
    ensures Taken(p, size).Ok()
    ensures var r := p.ListOf(size)[p.NextOf(size)];
      Taken(p, size).Used(size) == p.Used(size) + [r] && r !in p.Used(size)
  {
    var q := Taken(p, size);
    assert p.ClassOk(size);
    forall other: nat ensures q.ClassOk(other) { assert p.ClassOk(other); }
    forall id | id in q.bytes ensures q.Listed(id) { assert p.Listed(id); }
  }

  lemma GrowKeepsOk(p: Pool, size: nat)
    requires p.Ok() && p.NextOf(size) == |p.ListOf(size)|
    ensures Grown(p, size).Ok() && p.created !in p.bytes && Grown(p, size).Used(size) == p.Used(size)
  {
    var q := Grown(p, size);
    assert p.created !in p.bytes by {
      assert p.created in p.bytes ==> p.Listed(p.created);
    }
    forall other: nat ensures q.ClassOk(other) { assert p.ClassOk(other); }
    forall id | id in q.bytes ensures q.Listed(id) {
      if id != p.created { assert p.Listed(id); }
      assert p.created in q.ListOf(size);
    }
    assert p.ClassOk(size);
  }

  lemma PopKeepsOk(p: Pool, size: nat)
    requires p.Ok() && p.NextOf(size) < |p.ListOf(size)|
    ensures Popped(p, size).Ok()
  {
    var id := p.ListOf(size)[|p.ListOf(size)| - 1];
    var q := Popped(p, size);
    assert p.ClassOk(size);
    forall other: nat ensures q.ClassOk(other) { assert p.ClassOk(other); }
    forall x | x in q.bytes ensures q.Listed(x) {
      assert p.Listed(x) && x != id;
    }
  }

  /** The pool after handing out a storage of this size, and that storage. */
  function Gotten(p: Pool, size: nat): (Pool, StorageId)
    requires p.NextOf(size) <= |p.ListOf(size)|
  {
    var q := if p.NextOf(size) < |p.ListOf(size)| then p else Grown(p, size);
    (Taken(q, size), q.ListOf(size)[q.NextOf(size)])
  }

  /** A storage of the wanted size that was not handed out before; nothing else changes. */
  ghost predicate HandsOut(p: Pool, q: Pool, r: StorageId, size: nat)
    requires p.Ok() && q.Ok()
  {
    && r in q.bytes && |q.bytes[r]| == size && (r in p.bytes ==> |p.bytes[r]| == size)
    && q.Used(size) == p.Used(size) + [r] && r !in p.Used(size)
    && (forall other: nat :: other != size ==> q.Used(other) == p.Used(other))
    && (forall id :: id in p.bytes && id != r ==> id in q.bytes && q.bytes[id] == p.bytes[id])
  }

  lemma TakeHandsOut(p: Pool, size: nat)
    requires p.Ok() && p.NextOf(size) < |p.ListOf(size)|
    ensures Taken(p, size).Ok() && HandsOut(p, Taken(p, size), p.ListOf(size)[p.NextOf(size)], size)
  {
    TakeKeepsOk(p, size);
    assert p.ClassOk(size);
    var q := Taken(p, size);
    forall other: nat | other != size ensures q.Used(other) == p.Used(other) {
      assert q.ListOf(other) == p.ListOf(other) && q.NextOf(other) == p.NextOf(other);
    }
  }

  lemma GrowThenTake(p: Pool, size: nat)
    requires p.Ok() && p.NextOf(size) == |p.ListOf(size)|
    ensures Gotten(p, size).0.Ok() && HandsOut(p, Gotten(p, size).0, Gotten(p, size).1, size)
  {
    var q := Grown(p, size);
    GrowKeepsOk(p, size);
    TakeHandsOut(q, size);
    forall other: nat | other != size ensures q.Used(other) == p.Used(other) {
      assert q.ListOf(other) == p.ListOf(other) && q.NextOf(other) == p.NextOf(other);
    }
  }

  lemma GetHandsOut(p: Pool, size: nat)
    requires p.Ok() && p.NextOf(size) <= |p.ListOf(size)|
    ensures Gotten(p, size).0.Ok() && HandsOut(p, Gotten(p, size).0, Gotten(p, size).1, size)
  {
    if p.NextOf(size) < |p.ListOf(size)| {
      TakeHandsOut(p, size);
    } else {
      GrowThenTake(p, size);
    }
  }

  /** From p to q the lists have only grown at the end, and only where every storage was
      handed out: what the pool has is used before anything is created. */
  ghost predicate Reused(p: Pool, q: Pool) {
    forall size: nat :: ReusedClass(p, q, size)
  }

  ghost predicate ReusedClass(p: Pool, q: Pool, size: nat) {
    && p.ListOf(size) <= q.ListOf(size) && p.NextOf(size) <= q.NextOf(size)
    && (q.ListOf(size) == p.ListOf(size) || q.NextOf(size) == |q.ListOf(size)|)
  }

  lemma GetReuses(p: Pool, size: nat)
    requires p.Ok() && p.NextOf(size) <= |p.ListOf(size)|
    ensures Reused(p, Gotten(p, size).0)
  {
    forall other: nat ensures ReusedClass(p, Gotten(p, size).0, other) { }
  }

  lemma ReusedThenReused(p: Pool, q: Pool, r: Pool)
    requires Reused(p, q) && Reused(q, r) && r.Ok()
    ensures Reused(p, r)
  {
    forall size: nat ensures ReusedClass(p, r, size) {
      assert ReusedClass(p, q, size) && ReusedClass(q, r, size) && r.ClassOk(size);
    }
  }

  lemma SameListsReused(p: Pool, q: Pool, r: Pool)
    requires Reused(p, q) && r.lists == q.lists && r.next == q.next
    ensures Reused(p, r)
  {
    forall size: nat ensures ReusedClass(p, r, size) {
      assert ReusedClass(p, q, size);
    }
  }

  lemma NothingReused(p: Pool)
    ensures Reused(p, p)
  {
    assert forall size: nat :: ReusedClass(p, p, size);
  }

  /** Some of the last storages of one size are gone from p. */
  ghost predicate PoppedDown(p: Pool, q: Pool, size: nat) {
    && q.lists.Keys == p.lists.Keys && q.next == p.next && q.created == p.created
    && q.NextOf(size) <= |q.ListOf(size)| && q.ListOf(size) <= p.ListOf(size)
    && (forall other: nat :: other != size ==> q.ListOf(other) == p.ListOf(other))
    && (forall id :: id in q.bytes ==> id in p.bytes && q.bytes[id] == p.bytes[id])
  }

  lemma PoppedFurther(p: Pool, q: Pool, size: nat)
    requires size in p.lists && PoppedDown(p, q, size) && q.NextOf(size) < |q.ListOf(size)|
    ensures PoppedDown(p, Popped(q, size), size)
  {
  }

  lemma CopyKeepsOk(p: Pool, id: StorageId, data: seq<byte>)
    requires p.Ok() && id in p.bytes && |p.bytes[id]| == |data|
    ensures p.(bytes := p.bytes[id := data]).Ok()
  {
    var q := p.(bytes := p.bytes[id := data]);
    forall other: nat ensures q.ClassOk(other) { assert p.ClassOk(other); }
    forall x | x in q.bytes ensures q.Listed(x) { assert p.Listed(x); }
  }

  lemma ResetKeepsOk(p: Pool)
    requires p.Ok()
    ensures p.(next := map[]).Ok()
  {
    var q := p.(next := map[]);
    forall other: nat ensures q.ClassOk(other) { assert p.ClassOk(other); }
    forall x | x in q.bytes ensures q.Listed(x) { assert p.Listed(x); }
  }

  // ----- the pool as an object

  class StorageManager {
    const pinMemory: bool
    const pinMinBytes: nat
    var sizeToStorages: map<nat, seq<StorageId>>
    var nextIndex: map<nat, nat>
    var bytes: map<StorageId, seq<byte>>
    var pinned: set<StorageId>
    var created: nat

    constructor (pinMemory: bool, pinMinBytes: nat)
      ensures Valid() && bytes == map[] && this.pinMemory == pinMemory && this.pinMinBytes == pinMinBytes
    {
      this.pinMemory, this.pinMinBytes := pinMemory, pinMinBytes;
      sizeToStorages, nextIndex, bytes, pinned, created := map[], map[], map[], {}, 0;
    }

    function State(): Pool
      reads this
    {
      Pool(sizeToStorages, nextIndex, bytes, created)
    }

    ghost predicate Valid()
      reads this
    {
      State().Ok() && PinnedOk(pinned, bytes, pinMemory, pinMinBytes)
    }

    /** A storage of this size that nobody has been given since the last reset. The index
        never runs past the list, so the code's error for that case cannot occur. */
    method Get(size: nat) returns (r: StorageId)
      requires Valid()
      modifies this
      ensures Valid() && HandsOut(old(State()), State(), r, size) && Reused(old(State()), State())
    {
      ghost var p := State();
      assert p.ClassOk(size);
      GetHandsOut(p, size);
      GetReuses(p, size);
      if State().NextOf(size) == |State().ListOf(size)| {
        NewStorage(size);
      }
      r := TakeNext(size);
      assert (State(), r) == Gotten(p, size);
    }

    method TakeNext(size: nat) returns (r: StorageId)
      requires State().NextOf(size) < |State().ListOf(size)|
      modifies this`nextIndex
      ensures State() == Taken(old(State()), size) && r == State().ListOf(size)[old(State().NextOf(size))]
    {
      var index := State().NextOf(size);
      r := sizeToStorages[size][index];
      nextIndex := nextIndex[size := index + 1];
    }

    method NewStorage(size: nat)
      requires PinnedOk(pinned, bytes, pinMemory, pinMinBytes)
      modifies this`sizeToStorages, this`bytes, this`created, this`pinned
      ensures State() == Grown(old(State()), size) && PinnedOk(pinned, bytes, pinMemory, pinMinBytes)
    {
      bytes := bytes[created := seq(size, _ => 0)];
      sizeToStorages := sizeToStorages[size := State().ListOf(size) + [created]];
      pinned := if pinMemory && size >= pinMinBytes then pinned + {created} else pinned - {created};
      created := created + 1;
    }

    /** Fill a storage with the bytes of a source storage of the same size. */
    method CopyInto(id: StorageId, data: seq<byte>)
      requires Valid() && id in bytes && |bytes[id]| == |data|
      modifies this`bytes
      ensures Valid() && bytes == old(bytes)[id := data]
    {
      CopyKeepsOk(State(), id, data);
      bytes := bytes[id := data];
    }

    /** Mark all storages as unused. */
    method Reset()
      requires Valid()
      modifies this`nextIndex
      ensures Valid() && nextIndex == map[]
    {
      ResetKeepsOk(State());
      nextIndex := map[];
    }

    /** Keep exactly the storages in use. */
    method DeleteUnused()
      requires Valid()
      modifies this`sizeToStorages, this`bytes, this`pinned
      ensures Valid() && nextIndex == old(nextIndex)
      ensures forall size: nat :: State().ListOf(size) == old(State().Used(size))
      ensures forall id :: id in bytes ==> id in old(bytes) && bytes[id] == old(bytes)[id]
    {
      forall size: nat | size !in sizeToStorages ensures State().ListOf(size) == State().Used(size) {
        assert State().ClassOk(size);
      }
      var todo := sizeToStorages.Keys;
      while todo != {}
        invariant todo <= sizeToStorages.Keys && sizeToStorages.Keys == old(sizeToStorages.Keys)
        invariant Valid()
        invariant forall size: nat :: size in todo ==> State().ListOf(size) == old(State().ListOf(size))
        invariant forall size: nat :: size !in todo ==> State().ListOf(size) == old(State().Used(size))
        invariant forall id :: id in bytes ==> id in old(bytes) && bytes[id] == old(bytes)[id]
        decreases |todo|
      {
        var size :| size in todo;
        DropUnused(size);
        todo := todo - {size};
      }
    }

    /** Pop the storages of one size down to those in use. */
    method DropUnused(size: nat)
      requires Valid() && size in sizeToStorages
      modifies this`sizeToStorages, this`bytes, this`pinned
      ensures Valid() && sizeToStorages.Keys == old(sizeToStorages.Keys)
      ensures State().ListOf(size) == old(State().Used(size))
      ensures forall other: nat :: other != size ==> State().ListOf(other) == old(State().ListOf(other))
      ensures forall id :: id in bytes ==> id in old(bytes) && bytes[id] == old(bytes)[id]
    {
      ghost var p := State();
      assert p.ClassOk(size);
      while |State().ListOf(size)| > State().NextOf(size)
        invariant Valid() && PoppedDown(p, State(), size)
        decreases |State().ListOf(size)|
      {
        PopKeepsOk(State(), size);
        PoppedFurther(p, State(), size);
        PopLast(size);
      }
    }

    method PopLast(size: nat)
      requires size in sizeToStorages && sizeToStorages[size] != [] && PinnedOk(pinned, bytes, pinMemory, pinMinBytes)
      modifies this`sizeToStorages, this`bytes, this`pinned
      ensures State() == Popped(old(State()), size) && PinnedOk(pinned, bytes, pinMemory, pinMinBytes)
    {
      var storages := sizeToStorages[size];
      var last := storages[|storages| - 1];
      pinned := pinned - {last};
      bytes := bytes - {last};
      sizeToStorages := sizeToStorages[size := storages[..|storages| - 1]];
    }

    method Close()
      requires Valid()
      modifies this
      ensures Valid() && bytes == map[] && pinned == {}
    {
      Reset();
      DeleteUnused();
      forall id ensures id !in bytes {
        assert id in bytes ==> State().Listed(id);
      }
    }
  }

  /** Pinned are exactly the storages large enough for it. */
  ghost predicate PinnedOk(pinned: set<StorageId>, bytes: map<StorageId, seq<byte>>, pinMemory: bool, pinMinBytes: nat) {
    forall id :: id in pinned <==> id in bytes && pinMemory && |bytes[id]| >= pinMinBytes
  }

  // ----- copying a state dict

  type SourceId = nat
  type ObjId = nat

  /** How a tensor looks at its storage. */
  datatype View = View(offset: nat, size: seq<nat>, stride: seq<nat>)

  /** A tensor, a list (without keys) or a dict, or anything that is its own copy. A tensor
      that has no storage of its own keeps none in its copy. */
  datatype Value =
    | Tensor(obj: ObjId, hasStorage: bool, storage: nat, partial: bool, view: View)
    | Container(obj: ObjId, keys: Option<seq<string>>, items: seq<Value>)
    | Atom(text: string)

  /** The value with every storage replaced by its copy. */
  ghost function Rename(x: Value, m: map<SourceId, StorageId>): Value
    requires Known(x, m)
  {
    match x
    case Tensor(_, hasStorage, storage, _, _) => if hasStorage then x.(storage := m[storage]) else x
    case Container(_, _, items) => x.(items := seq(|items|, i requires 0 <= i < |items| => Rename(items[i], m)))
    case Atom(_) => x
  }

  ghost predicate Known(x: Value, m: map<SourceId, StorageId>) {
    match x
    case Tensor(_, hasStorage, storage, _, _) => hasStorage ==> storage in m
    case Container(_, _, items) => forall i :: 0 <= i < |items| ==> Known(items[i], m)
    case Atom(_) => true
  }

  predicate HasPartial(x: Value) {
    match x
    case Tensor(_, _, _, partial, _) => partial
    case Container(_, _, items) => exists i :: 0 <= i < |items| && HasPartial(items[i])
    case Atom(_) => false
  }

  /** Equal object numbers mean the same object, and storages have bytes. */
  ghost predicate Consistent(x: Value, heap: map<ObjId, Value>, source: map<SourceId, seq<byte>>) {
    match x
    case Tensor(obj, hasStorage, storage, _, _) => obj in heap && heap[obj] == x && (hasStorage ==> storage in source)
    case Container(obj, _, items) =>
      obj in heap && heap[obj] == x && forall i :: 0 <= i < |items| ==> Consistent(items[i], heap, source)
    case Atom(_) => true
  }

  ghost predicate Extends<K, V>(bigger: map<K, V>, smaller: map<K, V>) {
    forall k :: k in smaller ==> k in bigger && bigger[k] == smaller[k]
  }

  lemma {:induction false} RenameStays(x: Value, m: map<SourceId, StorageId>, n: map<SourceId, StorageId>)
    requires Known(x, m) && Extends(n, m)
    ensures Known(x, n) && Rename(x, n) == Rename(x, m)
  {
    if x.Container? {
      forall i | 0 <= i < |x.items| ensures Known(x.items[i], n) && Rename(x.items[i], n) == Rename(x.items[i], m) {
        RenameStays(x.items[i], m, n);
      }
    }
  }

  datatype Memo = Memo(objects: map<ObjId, Value>, storages: map<SourceId, StorageId>)

  /** Copies made so far: distinct source storages have distinct copies with their bytes. */
  ghost predicate StoragesOk(m: map<SourceId, StorageId>, pool: map<StorageId, seq<byte>>, source: map<SourceId, seq<byte>>) {
    && (forall s :: s in m ==> s in source && m[s] in pool && pool[m[s]] == source[s])
    && (forall s, t :: s in m && t in m && m[s] == m[t] ==> s == t)
  }

  ghost predicate IsCopy(m: map<SourceId, StorageId>, id: StorageId) {
    exists s :: s in m && m[s] == id
  }

  /** The pool has handed out exactly the copies. */
  ghost predicate ExactlyUsed(m: map<SourceId, StorageId>, p: Pool, source: map<SourceId, seq<byte>>)
    requires p.Ok()
  {
    && (forall s :: s in m ==> s in source && m[s] in p.Used(|source[s]|))
    && (forall size: nat, id :: id in p.Used(size) ==> IsCopy(m, id))
  }

  ghost predicate ObjectsOk(memo: Memo, heap: map<ObjId, Value>) {
    forall o :: o in memo.objects ==>
      o in heap && !HasPartial(heap[o]) && Known(heap[o], memo.storages) && memo.objects[o] == Rename(heap[o], memo.storages)
  }

  ghost predicate MemoOk(memo: Memo, manager: StorageManager, source: map<SourceId, seq<byte>>, heap: map<ObjId, Value>)
    reads manager
  {
    && manager.Valid() && StoragesOk(memo.storages, manager.bytes, source)
    && ExactlyUsed(memo.storages, manager.State(), source) && ObjectsOk(memo, heap)
  }

  lemma ObjectsStay(memo: Memo, storages: map<SourceId, StorageId>, heap: map<ObjId, Value>)
    requires ObjectsOk(memo, heap) && Extends(storages, memo.storages)
    ensures ObjectsOk(memo.(storages := storages), heap)
  {
    forall o | o in memo.objects
      ensures Known(heap[o], storages) && memo.objects[o] == Rename(heap[o], storages)
    {
      RenameStays(heap[o], memo.storages, storages);
    }
  }

  lemma NotYetCopied(m: map<SourceId, StorageId>, r: StorageId, size: nat, p: Pool, q: Pool, source: map<SourceId, seq<byte>>)
    requires p.Ok() && q.Ok() && HandsOut(p, q, r, size)
    requires StoragesOk(m, p.bytes, source) && ExactlyUsed(m, p, source)
    ensures forall t :: t in m ==> m[t] != r
  {
    forall t | t in m ensures m[t] != r {
      assert m[t] in p.Used(|source[t]|) && p.bytes[m[t]] == source[t];
    }
  }

  lemma FillKeepsUsed(m: map<SourceId, StorageId>, q: Pool, r: StorageId, data: seq<byte>, source: map<SourceId, seq<byte>>)
    requires q.Ok() && r in q.bytes && |q.bytes[r]| == |data| && ExactlyUsed(m, q, source)
    ensures q.(bytes := q.bytes[r := data]).Ok() && ExactlyUsed(m, q.(bytes := q.bytes[r := data]), source)
  {
    CopyKeepsOk(q, r, data);
    var filled := q.(bytes := q.bytes[r := data]);
    assert forall size: nat :: filled.Used(size) == q.Used(size) by {
      assert forall size: nat :: filled.ListOf(size) == q.ListOf(size) && filled.NextOf(size) == q.NextOf(size);
    }
  }

  lemma ExactlyUsedNext(m: map<SourceId, StorageId>, s: SourceId, r: StorageId, p: Pool, q: Pool, source: map<SourceId, seq<byte>>)
    requires p.Ok() && q.Ok() && s in source && s !in m && HandsOut(p, q, r, |source[s]|)
    requires ExactlyUsed(m, p, source)
    ensures ExactlyUsed(m[s := r], q, source)
  {
    var n, size := m[s := r], |source[s]|;
    forall other: nat, id | id in q.Used(other) ensures IsCopy(n, id) {
      if id in p.Used(other) {
        assert IsCopy(m, id);
        var t :| t in m && m[t] == id;
        assert n[t] == id;
      } else {
        assert n[s] == id;
      }
    }
    forall t | t in n ensures n[t] in q.Used(|source[t]|) {
      assert t != s ==> m[t] in p.Used(|source[t]|);
    }
  }

  lemma StoragesOkNext(m: map<SourceId, StorageId>, s: SourceId, r: StorageId, before: map<StorageId, seq<byte>>, after: map<StorageId, seq<byte>>,
                       source: map<SourceId, seq<byte>>)
    requires s in source && StoragesOk(m, before, source) && forall t :: t in m ==> m[t] != r
    requires forall id :: id in before && id != r ==> id in after && after[id] == before[id]
    ensures StoragesOk(m[s := r], after[r := source[s]], source)
  {
  }

  /** Handing out and filling one more storage for a source not copied before. */
  lemma StageNext(m: map<SourceId, StorageId>, s: SourceId, r: StorageId, p: Pool, q: Pool, source: map<SourceId, seq<byte>>)
    requires p.Ok() && q.Ok() && s in source && s !in m && HandsOut(p, q, r, |source[s]|)
    requires StoragesOk(m, p.bytes, source) && ExactlyUsed(m, p, source)
    ensures q.(bytes := q.bytes[r := source[s]]).Ok()
    ensures StoragesOk(m[s := r], q.bytes[r := source[s]], source)
    ensures ExactlyUsed(m[s := r], q.(bytes := q.bytes[r := source[s]]), source)
  {
    NotYetCopied(m, r, |source[s]|, p, q, source);
    ExactlyUsedNext(m, s, r, p, q, source);
    FillKeepsUsed(m[s := r], q, r, source[s], source);
    StoragesOkNext(m, s, r, p.bytes, q.bytes, source);
  }

  datatype StageError = PartialPlacement

  class StateDictStager {
    const manager: StorageManager

    constructor (pinMemory: bool, pinMinBytes: nat)
      ensures fresh(manager) && manager.Valid()
    {
      manager := new StorageManager(pinMemory, pinMinBytes);
    }

    /** Copy one source storage into a pooled one. */
    method StageUntypedStorage(s: SourceId, ghost m: map<SourceId, StorageId>, source: map<SourceId, seq<byte>>)
      returns (copied: StorageId)
      requires manager.Valid() && s in source && s !in m
      requires StoragesOk(m, manager.bytes, source) && ExactlyUsed(m, manager.State(), source)
      modifies manager
      ensures manager.Valid()
      ensures StoragesOk(m[s := copied], manager.bytes, source) && ExactlyUsed(m[s := copied], manager.State(), source)
      ensures Reused(old(manager.State()), manager.State())
    {
      ghost var before := manager.State();
      copied := manager.Get(|source[s]|);
      StageNext(m, s, copied, before, manager.State(), source);
      ghost var handed := manager.State();
      manager.CopyInto(copied, source[s]);
      SameListsReused(before, handed, manager.State());
    }
  
    /** Copies x, staging each source storage once and each object once. It fails exactly
        when a tensor in x has a partial placement. */
    method DeepCopy(x: Value, memo: Memo, source: map<SourceId, seq<byte>>, ghost heap: map<ObjId, Value>)
      returns (r: Result<Value, StageError>, after: Memo)
      requires MemoOk(memo, manager, source, heap) && Consistent(x, heap, source)
      modifies manager
      ensures MemoOk(after, manager, source, heap) && Extends(after.storages, memo.storages)
      ensures r.Err? <==> HasPartial(x)
      ensures r.Ok? ==> Known(x, after.storages) && r.value == Rename(x, after.storages)
      ensures Reused(old(manager.State()), manager.State())
      decreases x, 1
    {
      NothingReused(manager.State());
      if !x.Atom? && x.obj in memo.objects {
        return Ok(memo.objects[x.obj]), memo;
      }
      match x
      case Atom(_) =>
        return Ok(x), memo;
      case Tensor(_, _, _, _, _) =>
        r, after := OffloadTensor(x, memo, source, heap);
      case Container(obj, keys, items) =>
        var copies;
        copies, after := DeepCopyItems(x, memo, source, heap);
        if copies.Err? {
          return Err(copies.error), after;
        }
        var copy := Container(obj, keys, copies.value);
        ObjectRemembered(after, x, copy, heap);
        return Ok(copy), after.(objects := after.objects[obj := copy]);
    }

    method DeepCopyItems(x: Value, memo: Memo, source: map<SourceId, seq<byte>>, ghost heap: map<ObjId, Value>)
      returns (r: Result<seq<Value>, StageError>, after: Memo)
      requires x.Container? && MemoOk(memo, manager, source, heap) && Consistent(x, heap, source)
      modifies manager
      ensures MemoOk(after, manager, source, heap) && Extends(after.storages, memo.storages)
      ensures r.Err? <==> AnyPartial(x.items)
      ensures r.Ok? ==> AreCopies(r.value, x.items, after.storages)
      ensures Reused(old(manager.State()), manager.State())
      decreases x, 0
    {
      NothingReused(manager.State());
      after := memo;
      var copies: seq<Value> := [];
      for i := 0 to |x.items|
        invariant MemoOk(after, manager, source, heap) && Extends(after.storages, memo.storages)
        invariant |copies| == i && AreCopies(copies, x.items[..i], after.storages)
        invariant !AnyPartial(x.items[..i]) && Reused(old(manager.State()), manager.State())
      {
        ghost var before, pool := after.storages, manager.State();
        var copied;
        copied, after := DeepCopy(x.items[i], after, source, heap);
        ReusedThenReused(old(manager.State()), pool, manager.State());
        if copied.Err? {
          return Err(copied.error), after;
        }
        NextCopy(copies, x.items[..i], before, after.storages, copied.value, x.items[i]);
        assert x.items[..i + 1] == x.items[..i] + [x.items[i]];
        copies := copies + [copied.value];
      }
      assert x.items[..|x.items|] == x.items;
      return Ok(copies), after;
    }

    /** The copy has its own view of the staged storage; storages already staged in this
        operation are shared. */
    method OffloadTensor(x: Value, memo: Memo, source: map<SourceId, seq<byte>>, ghost heap: map<ObjId, Value>)
      returns (r: Result<Value, StageError>, after: Memo)
      requires MemoOk(memo, manager, source, heap) && Consistent(x, heap, source) && x.Tensor?
      modifies manager
      ensures MemoOk(after, manager, source, heap) && Extends(after.storages, memo.storages)
      ensures r.Err? <==> x.partial
      ensures r.Ok? ==> Known(x, after.storages) && r.value == Rename(x, after.storages)
      ensures Reused(old(manager.State()), manager.State())
    {
      NothingReused(manager.State());
      if x.partial {
        return Err(PartialPlacement), memo;
      }
      var y := x;
      after := memo;
      if x.hasStorage {
        if x.storage !in memo.storages {
          var copied := StageUntypedStorage(x.storage, memo.storages, source);
          ObjectsStay(memo, memo.storages[x.storage := copied], heap);
          after := memo.(storages := memo.storages[x.storage := copied]);
        }
        y := x.(storage := after.storages[x.storage]);
      }
      ObjectRemembered(after, x, y, heap);
      after := after.(objects := after.objects[x.obj := y]);
      return Ok(y), after;
    }

    /** Stages a state dict: the result is x over copies of its storages, and the pool is
        left with exactly those copies, all in use. Storages the pool had are used before any
        is created. `m` tells which copy belongs to which source storage. A failed stage leaves the pool usable. */
    method Stage(x: Value, source: map<SourceId, seq<byte>>, ghost heap: map<ObjId, Value>)
      returns (r: Result<Value, StageError>, ghost m: map<SourceId, StorageId>)
      requires manager.Valid() && Consistent(x, heap, source)
      modifies manager
      ensures manager.Valid()
      ensures r.Err? <==> HasPartial(x)
      ensures r.Ok? ==> Known(x, m) && r.value == Rename(x, m)
      ensures r.Ok? ==> StoragesOk(m, manager.bytes, source) && ExactlyUsed(m, manager.State(), source)
      ensures r.Ok? ==> forall size: nat :: manager.State().ListOf(size) == manager.State().Used(size)
      ensures r.Ok? ==> forall size: nat ::
        old(manager.State()).ListOf(size) <= manager.State().ListOf(size) || manager.State().ListOf(size) <= old(manager.State()).ListOf(size)
    {
      ghost var first := manager.State();
      manager.Reset();
      ghost var reset := manager.State();
      assert MemoOk(Memo(map[], map[]), manager, source, heap);
      var memo;
      r, memo := DeepCopy(x, Memo(map[], map[]), source, heap);
      m := memo.storages;
      if r.Ok? {
        ghost var before := manager.State();
        manager.DeleteUnused();
        PrunedPool(before, manager.State(), m, source);
        KeptOrExtended(reset, before, manager.State());
        assert forall size: nat :: first.ListOf(size) == reset.ListOf(size);
      }
    }
  }

  /** A size class is left with some of its old storages, or with all of them and new ones:
      staging the same sizes again creates nothing. */
  lemma KeptOrExtended(p: Pool, used: Pool, q: Pool)
    requires Reused(p, used) && used.Ok() && forall size: nat :: q.ListOf(size) == used.Used(size)
    ensures forall size: nat :: p.ListOf(size) <= q.ListOf(size) || q.ListOf(size) <= p.ListOf(size)
  {
    forall size: nat ensures p.ListOf(size) <= q.ListOf(size) || q.ListOf(size) <= p.ListOf(size) {
      assert ReusedClass(p, used, size) && used.ClassOk(size);
    }
  }

  /** Pruning the unused storages takes none away that was handed out. */
  lemma PrunedPool(p: Pool, q: Pool, m: map<SourceId, StorageId>, source: map<SourceId, seq<byte>>)
    requires p.Ok() && q.Ok() && q.next == p.next && forall size: nat :: q.ListOf(size) == p.Used(size)
    requires forall id :: id in q.bytes ==> id in p.bytes && q.bytes[id] == p.bytes[id]
    requires StoragesOk(m, p.bytes, source) && ExactlyUsed(m, p, source)
    ensures forall size: nat :: q.ListOf(size) == q.Used(size)
    ensures StoragesOk(m, q.bytes, source) && ExactlyUsed(m, q, source)
  {
    forall size: nat ensures q.ListOf(size) == q.Used(size) == p.Used(size) {
      assert q.ClassOk(size) && p.ClassOk(size);
    }
    forall s | s in m ensures m[s] in q.bytes {
      assert m[s] in q.ListOf(|source[s]|) && q.ClassOk(|source[s]|);
    }
  }

  // ----- sharing

  /** The part of a value at a path of positions. */
  function At(x: Value, path: seq<nat>): Option<Value> {
    if path == [] then Some(x)
    else if x.Container? && path[0] < |x.items| then At(x.items[path[0]], path[1..])
    else None
  }

  lemma {:induction false} RenameAt(x: Value, m: map<SourceId, StorageId>, path: seq<nat>)
    requires Known(x, m)
    ensures At(x, path).Some? ==> Known(At(x, path).value, m)
    ensures At(Rename(x, m), path) == if At(x, path).Some? then Some(Rename(At(x, path).value, m)) else None
    decreases |path|
  {
    if path != [] && x.Container? && path[0] < |x.items| {
      RenameAt(x.items[path[0]], m, path[1..]);
    }
  }

  predicate IsStorageTensor(x: Option<Value>) {
    x.Some? && x.value.Tensor? && x.value.hasStorage
  }

  /** Two staged tensors share a CPU storage if and only if their sources share one, each
      keeps its view, and its storage holds its source's bytes. */
  lemma StagingPreservesSharing(x: Value, m: map<SourceId, StorageId>, pool: map<StorageId, seq<byte>>, source: map<SourceId, seq<byte>>,
                                p: seq<nat>, q: seq<nat>)
    requires Known(x, m) && StoragesOk(m, pool, source)
    requires IsStorageTensor(At(x, p)) && IsStorageTensor(At(x, q))
    ensures IsStorageTensor(At(Rename(x, m), p)) && IsStorageTensor(At(Rename(x, m), q))
    ensures At(Rename(x, m), p).value.storage == At(Rename(x, m), q).value.storage <==>
      At(x, p).value.storage == At(x, q).value.storage
    ensures At(Rename(x, m), p).value.view == At(x, p).value.view
    ensures var s := At(Rename(x, m), p).value.storage;
      s in pool && At(x, p).value.storage in source && pool[s] == source[At(x, p).value.storage]
  {
    RenameAt(x, m, p);
    RenameAt(x, m, q);
  }

  lemma ObjectRemembered(memo: Memo, x: Value, copy: Value, heap: map<ObjId, Value>)
    requires ObjectsOk(memo, heap) && !x.Atom? && x.obj in heap && heap[x.obj] == x && !HasPartial(x)
    requires match x
      case Container(_, _, items) => copy.Container? && copy == x.(items := copy.items) && AreCopies(copy.items, items, memo.storages)
      case Tensor(_, _, _, _, _) => Known(x, memo.storages) && copy == Rename(x, memo.storages)
    ensures Known(x, memo.storages) && copy == Rename(x, memo.storages)
    ensures ObjectsOk(memo.(objects := memo.objects[x.obj := copy]), heap)
  {
    if x.Container? {
      assert copy.items == Rename(x, memo.storages).items;
    }
  }

  ghost predicate AreCopies(copies: seq<Value>, items: seq<Value>, m: map<SourceId, StorageId>) {
    |copies| == |items| && forall i :: 0 <= i < |items| ==> Known(items[i], m) && copies[i] == Rename(items[i], m)
  }

  predicate AnyPartial(items: seq<Value>) {
    exists i :: 0 <= i < |items| && HasPartial(items[i])
  }

  lemma NextCopy(copies: seq<Value>, items: seq<Value>, m: map<SourceId, StorageId>, n: map<SourceId, StorageId>, copy: Value, item: Value)
    requires AreCopies(copies, items, m) && Extends(n, m) && Known(item, n) && copy == Rename(item, n)
    requires !AnyPartial(items) && !HasPartial(item)
    ensures AreCopies(copies + [copy], items + [item], n) && !AnyPartial(items + [item])
  {
    forall i | 0 <= i < |items| ensures Known(items[i], n) && copies[i] == Rename(items[i], n) {
      RenameStays(items[i], m, n);
    }
    assert forall i :: 0 <= i < |items| ==> !HasPartial(items[i]);
  }
}
