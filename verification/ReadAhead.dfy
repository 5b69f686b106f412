/**
 The bounded read-ahead pipeline of one output file
 (hf/consolidation.py, _ReaderMemoryBudget and _read_full_tensors_in_order).

 The generator is an object: Next resumes it until it yields, ends or fails, and Close
 is what closing it early does. Reads run on other threads; their outcome shows when the
 pipeline waits for the oldest one, so that is where the model performs the read.
 */
module ReadAhead {
  import opened Wrappers
  import opened Geometry
  import opened Streams
  import opened SliceAssembly

  class ReaderMemoryBudget {
    const total: nat
    var available: int
    var exhaustedCount: nat

    constructor (totalBytes: nat)
      requires totalBytes > 0
      ensures total == available == totalBytes && exhaustedCount == 0
    {
      total, available, exhaustedCount := totalBytes, totalBytes, 0;
    }

    method TryReserve(numBytes: nat, force: bool) returns (ok: bool)
      modifies this
      ensures ok <==> force || numBytes <= old(available)
      ensures available == if ok then old(available) - numBytes else old(available)
      ensures exhaustedCount == if ok then old(exhaustedCount) else old(exhaustedCount) + 1
    {
      if !force && numBytes > available {
        exhaustedCount := exhaustedCount + 1;
        return false;
      }
      available := available - numBytes;
      return true;
    }

    method Release(numBytes: nat)
      modifies this`available
      ensures available == old(available) + numBytes
    {
      available := available + numBytes;
    }
  }

  // ----- memory of one tensor

  function FullTensorBytes(slices: seq<SerializedSlice>): nat
    requires slices != []
  {
    Product(slices[0].globalShape) * slices[0].elementSize
  }

  function LargestBuffered(slices: seq<SerializedSlice>): (r: nat)
    requires SizedByWriter(slices)
    ensures forall s :: s in slices && IsBuffered(s) ==> s.address.NumBytes() <= r
    ensures r > 0 ==> exists s :: s in slices && IsBuffered(s) && s.address.NumBytes() == r
  {
    if slices == [] then 0
    else
      var rest := LargestBuffered(slices[1..]);
      var s := slices[0];
      assert forall t :: t in slices <==> t == s || t in slices[1..];
      if IsBuffered(s) && s.address.NumBytes() > rest then s.address.NumBytes() else rest
  }

  lemma {:induction false} MostStagedIsMaximum(slices: seq<SerializedSlice>)
    ensures forall s :: s in slices ==> StagedBytes(s) <= MostStaged(slices)
    ensures MostStaged(slices) > 0 ==> exists s :: s in slices && StagedBytes(s) == MostStaged(slices)
  {
    if slices != [] {
      var n := |slices| - 1;
      MostStagedIsMaximum(slices[..n]);
      assert slices == slices[..n] + [slices[n]];
      assert slices[n] in slices;
    }
  }

  /** What assembly stages beside the output buffer is what was reserved for it. */
  lemma MostStagedIsReserved(slices: seq<SerializedSlice>)
    requires SizedByWriter(slices)
    ensures MostStaged(slices) == LargestBuffered(slices)
  {
    MostStagedIsMaximum(slices);
  }

  /** Output buffer plus at most one staged slice. */
  function TensorMemoryBytes(slices: seq<SerializedSlice>): nat
    requires slices != [] && SizedByWriter(slices)
  {
    FullTensorBytes(slices) + LargestBuffered(slices)
  }

  // ----- the pipeline

  datatype Read = Read(index: nat, reserved: nat)

  function Reserved(queue: seq<Read>): nat {
    if queue == [] then 0 else Reserved(queue[..|queue| - 1]) + queue[|queue| - 1].reserved
  }

  lemma {:induction false} ReservedHead(queue: seq<Read>)
    requires queue != []
    ensures Reserved(queue) == queue[0].reserved + Reserved(queue[1..])
  {
    if |queue| > 1 {
      ReservedHead(queue[..|queue| - 1]);
      assert queue[..|queue| - 1][1..] == queue[1..][..|queue| - 2];
    }
  }

  datatype Outcome = Yield(tensor: seq<byte>) | Done | Failed(failure: ReadFailure)

  class FullTensorReader {
    const work: seq<seq<SerializedSlice>>
    const workSizes: seq<nat>
    const readerThreads: nat
    const budget: ReaderMemoryBudget
    var nextIndex: nat
    var pending: seq<Read>
    /** The read taken off the queue: waited for, or its tensor is with the consumer. */
    var held: Option<Read>
    var closed: bool

    constructor (work: seq<seq<SerializedSlice>>, readerThreads: nat, budget: ReaderMemoryBudget)
      requires readerThreads > 0 && AllReadable(work)
      requires budget.available == budget.total
      ensures Valid() && !closed && Yielded() == 0 && held.None?
      ensures this.work == work && this.readerThreads == readerThreads && this.budget == budget
      ensures forall i :: 0 <= i < |work| ==> workSizes[i] == TensorMemoryBytes(work[i])
    {
      this.work, this.readerThreads, this.budget := work, readerThreads, budget;
      workSizes := seq(|work|, i requires 0 <= i < |work| => TensorMemoryBytes(work[i]));
      nextIndex, pending, held, closed := 0, [], None, false;
    }

    /** The bytes reserved for the read taken off the queue and for those still in it. */
    ghost function OutstandingBytes(): nat
      reads this
    {
      (if held.Some? then held.value.reserved else 0) + Reserved(pending)
    }

    ghost function OutstandingReads(): nat
      reads this
    {
      (if held.Some? then 1 else 0) + |pending|
    }

    /** How many reads have been taken off the queue. */
    ghost function Yielded(): nat
      reads this
      requires |pending| <= nextIndex
    {
      nextIndex - |pending|
    }

    /** Every reservation is accounted for, the budget is overdrawn only by a single
        oversized tensor, and no more than readerThreads reads are queued. */
    ghost predicate Valid()
      reads this, budget
    {
      && readerThreads > 0 && |workSizes| == |work|
      && |pending| <= nextIndex <= |work| && |pending| <= readerThreads
      && QueuedFrom(workSizes, Yielded(), pending)
      && budget.available == budget.total - OutstandingBytes()
      && (budget.available < 0 ==> OutstandingReads() == 1)
      && (held.Some? ==> Yielded() > 0 && IsReadOf(workSizes, held.value.index, held.value))
      && (closed ==> pending == [] && held.None?)
    }

    /** Start reads until the queue is full, the work is used up or the budget declines.
        Afterwards the queue is empty only if there is no work left. */
    method Prefetch()
      requires Valid() && held.None? && !closed
      modifies this`nextIndex, this`pending, budget
      ensures Valid() && Yielded() == old(Yielded())
      ensures pending == [] ==> nextIndex == |work|
      ensures nextIndex == |work| || |pending| == readerThreads || workSizes[nextIndex] > budget.available
    {
      ghost var first := Yielded();
      while nextIndex < |work| && |pending| < readerThreads
        invariant |pending| <= nextIndex && Yielded() == first
        invariant QueueOk(workSizes, first, pending, readerThreads, budget.available, budget.total)
        decreases |work| - nextIndex
      {
        var admitted := Submit();
        if !admitted {
          break;
        }
      }
    }

    /** Start the next read if the budget allows it, or if no read is pending. */
    method Submit() returns (admitted: bool)
      requires |pending| <= nextIndex < |work| == |workSizes| && |pending| < readerThreads
      requires QueueOk(workSizes, Yielded(), pending, readerThreads, budget.available, budget.total)
      modifies this`nextIndex, this`pending, budget
      ensures |pending| <= nextIndex <= |work| && Yielded() == old(Yielded())
      ensures QueueOk(workSizes, Yielded(), pending, readerThreads, budget.available, budget.total)
      ensures admitted <==> old(pending) == [] || workSizes[old(nextIndex)] <= old(budget.available)
      ensures nextIndex == old(nextIndex) + if admitted then 1 else 0
      ensures !admitted ==> budget.available == old(budget.available)
    {
      var size := workSizes[nextIndex];
      admitted := budget.TryReserve(size, pending == []);
      if admitted {
        QueueAdmits(workSizes, Yielded(), pending, readerThreads, budget.available + size, budget.total);
        pending := pending + [Read(nextIndex, size)];
        nextIndex := nextIndex + 1;
      }
    }

    /** Resume the generator. It yields the next tensor in order, ends when all were
        yielded, or fails; the end and a failure give the whole budget back. */
    method Next(storage: Storage, handles: ReaderHandles) returns (r: Outcome)
      requires Valid() && !closed && AllReadable(work) && handles.Valid(storage)
      modifies this`nextIndex, this`pending, this`held, this`closed, budget, handles, handles.streams
      ensures Valid() && handles.Valid(storage) && fresh(handles.streams - old(handles.streams))
      ensures !r.Failed? ==> Yielded() == old(Yielded()) + (if r.Yield? then 1 else 0)
      ensures r.Yield? <==> !closed
      ensures r.Yield? ==> old(Yielded()) < |work| && IsTensor(work[old(Yielded())], storage, r.tensor)
      ensures r.Yield? ==> CanAssemble(work[old(Yielded())], storage)
      ensures r.Failed? && handles.reliable ==> old(Yielded()) < |work| && !CanAssemble(work[old(Yielded())], storage)
      ensures r.Done? ==> old(Yielded()) == |work|
      ensures closed ==> budget.available == budget.total
    {
      var more := TakeNext();
      if !more {
        return Done;
      }
      ghost var peak;
      r, peak := AwaitHeld(storage, handles);
    }

    /** The next read in order, taken off the queue, or the end. */
    method TakeNext() returns (more: bool)
      requires Valid() && !closed
      modifies this`nextIndex, this`pending, this`held, this`closed, budget
      ensures Valid() && closed == !more
      ensures more <==> old(Yielded()) < |work|
      ensures more ==> Yielded() == old(Yielded()) + 1 && held.Some? && held.value.index == old(Yielded())
      ensures !more ==> Yielded() == old(Yielded()) && budget.available == budget.total
    {
      ReleaseHeld();
      if nextIndex == |work| && pending == [] {
        closed := true;
        return false;
      }
      Prefetch();
      TakeOldest();
      return true;
    }

    /** Wait for the read taken off the queue; its failure ends the generator. `peak` is the
        memory the read took. */
    method AwaitHeld(storage: Storage, handles: ReaderHandles) returns (r: Outcome, ghost peak: nat)
      requires Valid() && !closed && held.Some? && held.value.index < |work| && Readable(work[held.value.index]) && handles.Valid(storage)
      modifies this`pending, this`held, this`closed, budget, handles, handles.streams
      ensures Valid() && handles.Valid(storage) && fresh(handles.streams - old(handles.streams))
      ensures r.Yield? || r.Failed?
      ensures r.Yield? ==> !closed && Yielded() == old(Yielded()) && IsTensor(work[old(held.value.index)], storage, r.tensor)
      ensures r.Yield? ==> CanAssemble(work[old(held.value.index)], storage)
      ensures r.Failed? && handles.reliable ==> !CanAssemble(work[old(held.value.index)], storage)
      ensures r.Failed? ==> closed && budget.available == budget.total
      ensures peak <= TensorMemoryBytes(work[old(held.value.index)])
      ensures r.Yield? ==> peak == TensorMemoryBytes(work[old(held.value.index)])
    {
      var read;
      MostStagedIsReserved(work[held.value.index]);
      read, peak := ReadFullTensor(work[held.value.index], storage, handles);
      if read.Err? {
        Close();
        return Failed(read.error), peak;
      }
      return Yield(read.value), peak;
    }

    method TakeOldest()
      requires Valid() && held.None? && pending != [] && !closed
      modifies this`pending, this`held
      ensures Valid() && Yielded() == old(Yielded()) + 1
      ensures held.Some? && held.value.index == old(Yielded()) < |work|
    {
      var oldest := pending[0];
      QueueTail(workSizes, Yielded(), pending);
      ReservedHead(pending);
      pending := pending[1..];
      held := Some(oldest);
    }

    /** What the suspended yield does when the consumer resumes or closes the generator. */
    method ReleaseHeld()
      requires Valid()
      modifies this`held, budget`available
      ensures Valid() && held.None?
    {
      if held.Some? {
        budget.Release(held.value.reserved);
        held := None;
      }
    }

    /** Give back the reservations of reads that will not be used. */
    method ReleaseAll()
      requires held.None? && budget.available == budget.total - Reserved(pending)
      modifies this`pending, this`closed, budget`available
      ensures closed && pending == [] && held.None? && budget.available == budget.total
    {
      while pending != []
        invariant budget.available == budget.total - Reserved(pending)
        decreases |pending|
      {
        ReservedHead(pending);
        budget.Release(pending[0].reserved);
        pending := pending[1..];
      }
      closed := true;
    }

    /** Closing the generator early, while it is suspended at a yield or before its start. */
    method Close()
      requires Valid()
      modifies this`held, this`pending, this`closed, budget`available
      ensures Valid() && closed && budget.available == budget.total
    {
      ReleaseHeld();
      ReleaseAll();
    }
  }

  predicate AllReadable(work: seq<seq<SerializedSlice>>) {
    forall i :: 0 <= i < |work| ==> Readable(work[i])
  }

  /** The queue holds consecutive work items with their own sizes. */
  ghost predicate QueuedFrom(sizes: seq<nat>, first: nat, queue: seq<Read>) {
    && first + |queue| <= |sizes|
    && forall i :: 0 <= i < |queue| ==> IsReadOf(sizes, first + i, queue[i])
  }

  predicate IsReadOf(sizes: seq<nat>, index: nat, read: Read) {
    index < |sizes| && read == Read(index, sizes[index])
  }

  /** Every reservation of the queue is accounted for, and only a single oversized tensor
      overdraws the budget. */
  ghost predicate QueueOk(sizes: seq<nat>, first: nat, queue: seq<Read>, threads: nat, available: int, total: nat) {
    && QueuedFrom(sizes, first, queue) && |queue| <= threads
    && available == total - Reserved(queue) && (available < 0 ==> |queue| == 1)
  }

  lemma QueueAdmits(sizes: seq<nat>, first: nat, queue: seq<Read>, threads: nat, available: int, total: nat)
    requires QueueOk(sizes, first, queue, threads, available, total)
    requires first + |queue| < |sizes| && |queue| < threads && (queue == [] || sizes[first + |queue|] <= available)
    ensures var size := sizes[first + |queue|];
      QueueOk(sizes, first, queue + [Read(first + |queue|, size)], threads, available - size, total)
  {
    var read := Read(first + |queue|, sizes[first + |queue|]);
    QueueNext(sizes, first, queue, read);
    ReservedNext(queue, read);
  }

  lemma QueueNext(sizes: seq<nat>, first: nat, queue: seq<Read>, read: Read)
    requires QueuedFrom(sizes, first, queue) && IsReadOf(sizes, first + |queue|, read)
    ensures QueuedFrom(sizes, first, queue + [read])
  {
    var longer := queue + [read];
    forall i | 0 <= i < |longer| ensures IsReadOf(sizes, first + i, longer[i]) {
      assert i < |queue| ==> longer[i] == queue[i];
    }
  }

  lemma ReservedNext(queue: seq<Read>, read: Read)
    ensures Reserved(queue + [read]) == Reserved(queue) + read.reserved
  {
    assert (queue + [read])[..|queue|] == queue;
  }

  lemma QueueTail(sizes: seq<nat>, first: nat, queue: seq<Read>)
    requires QueuedFrom(sizes, first, queue) && queue != []
    ensures queue[0].index == first && QueuedFrom(sizes, first + 1, queue[1..])
  {
    var tail := queue[1..];
    forall i | 0 <= i < |tail| ensures IsReadOf(sizes, first + 1 + i, tail[i]) {
      assert tail[i] == queue[i + 1];
    }
  }

  /** The bytes are the assembled tensor of these slices. */
  ghost predicate IsTensor(slices: seq<SerializedSlice>, storage: Storage, tensor: seq<byte>)
  {
    slices != [] && |tensor| == FullTensorBytes(slices)
    && Assembled(slices, storage, slices[0].globalShape, slices[0].elementSize, seq(|tensor|, _ => 0), tensor)
  }
}
