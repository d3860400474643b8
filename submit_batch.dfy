/**
 The value behind a submission builder: the four lists and the fence that one
 `VkSubmitInfo` batch is made of, the operations that grow it, the merge of two
 builders, and the batch record handed to `vkQueueSubmit`.

 Handles are opaque numbers. The null fence is the handle 0.
 */
module SubmitBatch {

  /** An opaque Vulkan handle (semaphore, command buffer, fence). */
  type Handle = nat

  /** `VK_NULL_HANDLE` for a fence: "no fence". */
  const NullFence: Handle := 0

  /** A pipeline stage mask (`VkPipelineStageFlags`, a 32-bit flag set). */
  type StageFlags = bv32

  /** Number of distinct values of a `u32`; `len() as u32` keeps the length
      modulo this. */
  const U32Modulus: nat := 0x1_0000_0000

  /** The content of a builder: wait semaphores with their parallel stage
      masks, signal semaphores, command buffers in execution order, and the
      fence to signal (`NullFence` for none). */
  datatype BuilderState = BuilderState(
    waitSemaphores: seq<Handle>,
    destinationStages: seq<StageFlags>,
    signalSemaphores: seq<Handle>,
    commandBuffers: seq<Handle>,
    fence: Handle)
  {
    /** Whether the batch will signal a fence. */
    predicate HasFence() {
      fence != NullFence
    }

    /** The number of semaphores to signal. */
    function NumSignalSemaphores(): nat {
      |signalSemaphores|
    }

    /** Every wait semaphore has its own stage mask, and no mask is empty. */
    predicate Valid() {
      && |waitSemaphores| == |destinationStages|
      && forall i :: 0 <= i < |destinationStages| ==> destinationStages[i] != 0
    }
  }

  /** A freshly built builder. */
  function Empty(): (s: BuilderState)
    ensures s.Valid() && !s.HasFence() && s.NumSignalSemaphores() == 0
    ensures s.waitSemaphores == s.commandBuffers == s.signalSemaphores == []
  {
    BuilderState([], [], [], [], NullFence)
  }

  /** One mutating call on a builder. */
  datatype Op =
    | SetFenceSignal(fence: Handle)
    | AddWaitSemaphore(semaphore: Handle, stages: StageFlags)
    | AddCommandBuffer(commandBuffer: Handle)
    | AddSignalSemaphore(semaphore: Handle)

  /** What the caller must guarantee for one call: a fence object always wraps
      a real handle, and the stage mask of a wait must not be empty. */
  predicate OpAllowed(op: Op) {
    match op
    case SetFenceSignal(f) => f != NullFence
    case AddWaitSemaphore(_, stages) => stages != 0
    case _ => true
  }

  /** The effect of one call: set the fence, or push onto the end of one list
      (of both wait lists for a wait). */
  function Apply(s: BuilderState, op: Op): (t: BuilderState)
  {
    match op
    case SetFenceSignal(f) => s.(fence := f)
    case AddWaitSemaphore(sem, stages) =>
      s.(waitSemaphores := s.waitSemaphores + [sem],
         destinationStages := s.destinationStages + [stages])
    case AddCommandBuffer(cb) => s.(commandBuffers := s.commandBuffers + [cb])
    case AddSignalSemaphore(sem) => s.(signalSemaphores := s.signalSemaphores + [sem])
  }

  /** A call keeps the lists aligned and every mask non-empty. */
  lemma ApplyKeepsValid(s: BuilderState, op: Op)
    requires s.Valid() && OpAllowed(op)
    ensures Apply(s, op).Valid()
  {
  }

  /** The builder obtained by `new()` followed by the calls in `ops`. */
  function Replay(ops: seq<Op>): BuilderState
  {
    if ops == [] then Empty() else Apply(Replay(ops[..|ops| - 1]), ops[|ops| - 1])
  }

  // Independent descriptions of each list: the arguments of the calls of
  // one kind, in call order.

  function WaitsOf(ops: seq<Op>): seq<Handle>
  {
    if ops == [] then []
    else
      var last := ops[|ops| - 1];
      WaitsOf(ops[..|ops| - 1]) + (if last.AddWaitSemaphore? then [last.semaphore] else [])
  }

  function StagesOf(ops: seq<Op>): seq<StageFlags>
  {
    if ops == [] then []
    else
      var last := ops[|ops| - 1];
      StagesOf(ops[..|ops| - 1]) + (if last.AddWaitSemaphore? then [last.stages] else [])
  }

  function CommandBuffersOf(ops: seq<Op>): seq<Handle>
  {
    if ops == [] then []
    else
      var last := ops[|ops| - 1];
      CommandBuffersOf(ops[..|ops| - 1]) + (if last.AddCommandBuffer? then [last.commandBuffer] else [])
  }

  function SignalsOf(ops: seq<Op>): seq<Handle>
  {
    if ops == [] then []
    else
      var last := ops[|ops| - 1];
      SignalsOf(ops[..|ops| - 1]) + (if last.AddSignalSemaphore? then [last.semaphore] else [])
  }

  /** The number of calls in `ops` that satisfy `kind`. */
  function CountCalls(ops: seq<Op>, kind: Op -> bool): nat
  {
    if ops == [] then 0
    else CountCalls(ops[..|ops| - 1], kind) + (if kind(ops[|ops| - 1]) then 1 else 0)
  }

  /** Whether some call in `ops` sets a fence. */
  predicate SetsFence(ops: seq<Op>)
  {
    exists i :: 0 <= i < |ops| && ops[i].SetFenceSignal?
  }

  /** The fence of the last `set_fence_signal` call in `ops`, or the null
      fence when there is none. */
  function LastFence(ops: seq<Op>): Handle
  {
    if ops == [] then NullFence
    else if ops[|ops| - 1].SetFenceSignal? then ops[|ops| - 1].fence
    else LastFence(ops[..|ops| - 1])
  }

  /** Every list of the replayed builder holds exactly the arguments of the
      calls of its kind, in the order of the calls (append-only, no
      reordering), and the fence is the last one set. */
  lemma {:induction false} ReplayContents(ops: seq<Op>)
    ensures Replay(ops).waitSemaphores == WaitsOf(ops)
    ensures Replay(ops).destinationStages == StagesOf(ops)
    ensures Replay(ops).commandBuffers == CommandBuffersOf(ops)
    ensures Replay(ops).signalSemaphores == SignalsOf(ops)
    ensures Replay(ops).fence == LastFence(ops)
  {
    if ops != [] {
      ReplayContents(ops[..|ops| - 1]);
    }
  }

  /** Each wait call pushes one semaphore and one mask, so the two wait lists
      always have the same length: the number of wait calls. */
  lemma {:induction false} WaitListsAligned(ops: seq<Op>)
    ensures |Replay(ops).waitSemaphores| == |Replay(ops).destinationStages|
            == CountCalls(ops, (op: Op) => op.AddWaitSemaphore?)
  {
    if ops != [] {
      WaitListsAligned(ops[..|ops| - 1]);
    }
  }

  /** `num_signal_semaphores()` is the number of `add_signal_semaphore`
      calls. */
  lemma {:induction false} SignalCountMatchesCalls(ops: seq<Op>)
    ensures Replay(ops).NumSignalSemaphores()
            == CountCalls(ops, (op: Op) => op.AddSignalSemaphore?)
  {
    if ops != [] {
      SignalCountMatchesCalls(ops[..|ops| - 1]);
    }
  }

  /** A builder obtained by allowed calls only is valid. */
  lemma {:induction false} ReplayValid(ops: seq<Op>)
    requires forall i :: 0 <= i < |ops| ==> OpAllowed(ops[i])
    ensures Replay(ops).Valid()
  {
    if ops != [] {
      ReplayValid(ops[..|ops| - 1]);
      ApplyKeepsValid(Replay(ops[..|ops| - 1]), ops[|ops| - 1]);
    }
  }

  /** `has_fence()` is false until a fence is set and true from then on,
      whatever other calls happen before or after. */
  lemma {:induction false} HasFenceIffFenceSet(ops: seq<Op>)
    requires forall i :: 0 <= i < |ops| ==> OpAllowed(ops[i])
    ensures Replay(ops).HasFence() <==> SetsFence(ops)
  {
    if ops != [] {
      var init := ops[..|ops| - 1];
      HasFenceIffFenceSet(init);
      if SetsFence(init) {
        var i :| 0 <= i < |init| && init[i].SetFenceSignal?;
        assert ops[i] == init[i];
      }
      if SetsFence(ops) && !ops[|ops| - 1].SetFenceSignal? {
        var i :| 0 <= i < |ops| && ops[i].SetFenceSignal?;
        assert init[i] == ops[i];
      }
    }
  }

  /** Whether two builders may be merged: at most one of them has a fence. */
  predicate CanMerge(a: BuilderState, b: BuilderState) {
    !a.HasFence() || !b.HasFence()
  }

  /** The merge of two builders: each of `a`'s lists followed by `b`'s, and
      `a`'s fence if it has one, otherwise `b`'s. */
  function Merged(a: BuilderState, b: BuilderState): (m: BuilderState)
    requires CanMerge(a, b)
    ensures m.HasFence() <==> a.HasFence() || b.HasFence()
    ensures a.HasFence() ==> m.fence == a.fence
    ensures b.HasFence() ==> m.fence == b.fence
    ensures m.NumSignalSemaphores() == a.NumSignalSemaphores() + b.NumSignalSemaphores()
    ensures a.Valid() && b.Valid() ==> m.Valid()
  {
    BuilderState(
      a.waitSemaphores + b.waitSemaphores,
      a.destinationStages + b.destinationStages,
      a.signalSemaphores + b.signalSemaphores,
      a.commandBuffers + b.commandBuffers,
      if a.fence == NullFence then b.fence else a.fence)
  }

  /** A fresh builder is a neutral element of the merge. */
  lemma MergeEmpty(a: BuilderState)
    ensures Merged(Empty(), a) == a && Merged(a, Empty()) == a
  {
  }

  /** Merging is associative whenever at most one of the three has a fence. */
  lemma MergeAssociative(a: BuilderState, b: BuilderState, c: BuilderState)
    requires (!a.HasFence() && !b.HasFence()) || (!a.HasFence() && !c.HasFence())
             || (!b.HasFence() && !c.HasFence())
    ensures Merged(Merged(a, b), c) == Merged(a, Merged(b, c))
  {
  }

  /** Building two batches separately and merging them gives the batch
      obtained by making all the calls on a single builder, provided that at
      most one of the two sequences sets a fence. */
  lemma {:induction false} MergeOfReplays(ops1: seq<Op>, ops2: seq<Op>)
    requires forall i :: 0 <= i < |ops1| ==> OpAllowed(ops1[i])
    requires forall i :: 0 <= i < |ops2| ==> OpAllowed(ops2[i])
    requires !SetsFence(ops1) || !SetsFence(ops2)
    ensures CanMerge(Replay(ops1), Replay(ops2))
    ensures Merged(Replay(ops1), Replay(ops2)) == Replay(ops1 + ops2)
  {
    HasFenceIffFenceSet(ops1);
    HasFenceIffFenceSet(ops2);
    if ops2 == [] {
      assert ops1 + ops2 == ops1;
    } else {
      var init := ops2[..|ops2| - 1];
      var last := ops2[|ops2| - 1];
      assert (ops1 + ops2)[..|ops1 + ops2| - 1] == ops1 + init;
      assert (ops1 + ops2)[|ops1 + ops2| - 1] == last;
      if SetsFence(init) {
        var i :| 0 <= i < |init| && init[i].SetFenceSignal?;
        assert ops2[i] == init[i];
      }
      MergeOfReplays(ops1, init);
      HasFenceIffFenceSet(init);
      if last.SetFenceSignal? {
        assert ops2[|ops2| - 1].SetFenceSignal?;
      }
    }
  }

  /** The `VkSubmitInfo` record built by `submit`. The counts are the list
      lengths converted with `as u32`. */
  datatype SubmitInfo = SubmitInfo(
    waitSemaphoreCount: nat,
    waitSemaphores: seq<Handle>,
    waitDstStageMask: seq<StageFlags>,
    commandBufferCount: nat,
    commandBuffers: seq<Handle>,
    signalSemaphoreCount: nat,
    signalSemaphores: seq<Handle>)

  /** The single `vkQueueSubmit` call: how many batches, the batch, the fence. */
  datatype QueueSubmitCall = QueueSubmitCall(submitCount: nat, batch: SubmitInfo, fence: Handle)

  /** Truncating conversion of a length to `u32`. */
  function AsU32(n: nat): (r: nat)
    ensures r < U32Modulus
    ensures n < U32Modulus ==> r == n
  {
    n % U32Modulus
  }

  /** The call that `submit` makes for a builder. */
  function SubmitCallOf(s: BuilderState): (c: QueueSubmitCall)
    ensures c.submitCount == 1 && c.fence == s.fence
    ensures c.batch.waitSemaphores == s.waitSemaphores
    ensures c.batch.waitDstStageMask == s.destinationStages
    ensures c.batch.commandBuffers == s.commandBuffers
    ensures c.batch.signalSemaphores == s.signalSemaphores
  {
    QueueSubmitCall(1, SubmitInfo(
      AsU32(|s.waitSemaphores|), s.waitSemaphores, s.destinationStages,
      AsU32(|s.commandBuffers|), s.commandBuffers,
      AsU32(|s.signalSemaphores|), s.signalSemaphores), s.fence)
  }

  /** The batch is well described: each count covers exactly its array
      (and the stage-mask array covers the waits), so the device reads all of
      the builder's entries and nothing more. */
  predicate WellDescribed(info: SubmitInfo) {
    && info.waitSemaphoreCount == |info.waitSemaphores| == |info.waitDstStageMask|
    && info.commandBufferCount == |info.commandBuffers|
    && info.signalSemaphoreCount == |info.signalSemaphores|
  }

  /** A valid builder whose lists are shorter than 2^32 entries is submitted as
      a well-described batch carrying its own fence; with 2^32 entries or more
      the `as u32` conversion truncates the count. */
  lemma SubmitCallFaithful(s: BuilderState)
    requires s.Valid()
    ensures |s.waitSemaphores| < U32Modulus && |s.commandBuffers| < U32Modulus
            && |s.signalSemaphores| < U32Modulus
            <==> WellDescribed(SubmitCallOf(s).batch)
    ensures SubmitCallOf(s).fence == s.fence
  {
  }

  /** Submitting a merged builder submits the concatenated lists. */
  lemma SubmitMerged(a: BuilderState, b: BuilderState)
    requires CanMerge(a, b)
    ensures SubmitCallOf(Merged(a, b)).batch.commandBuffers
            == SubmitCallOf(a).batch.commandBuffers + SubmitCallOf(b).batch.commandBuffers
    ensures SubmitCallOf(Merged(a, b)).batch.waitSemaphores
            == SubmitCallOf(a).batch.waitSemaphores + SubmitCallOf(b).batch.waitSemaphores
    ensures SubmitCallOf(Merged(a, b)).batch.waitDstStageMask
            == SubmitCallOf(a).batch.waitDstStageMask + SubmitCallOf(b).batch.waitDstStageMask
    ensures SubmitCallOf(Merged(a, b)).batch.signalSemaphores
            == SubmitCallOf(a).batch.signalSemaphores + SubmitCallOf(b).batch.signalSemaphores
  {
  }
}
