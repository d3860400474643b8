/**
 The submission builder as an object whose lists grow in place.

 Each mutating method states its new state both field by field and as the
 corresponding `SubmitBatch` operation on the old state, so every lemma proved
 about `SubmitBatch` holds of a builder driven through these methods.
 */
module SubmitBuilder {
  import opened SubmitBatch
  import opened SubmitErrors

  /** What the device reports for a `vkQueueSubmit` call. */
  datatype QueueSubmitResult = Success | Failed(error: VulkanError)

  /** The result of `submit`. */
  datatype SubmitResult = Submitted | SubmitFailed(error: SubmitCommandBufferError)

  class SubmitCommandBufferBuilder {
    var waitSemaphores: seq<Handle>
    var destinationStages: seq<StageFlags>
    var signalSemaphores: seq<Handle>
    var commandBuffers: seq<Handle>
    var fence: Handle

    /** The builder's content as a value. */
    function State(): BuilderState
      reads this
    {
      BuilderState(waitSemaphores, destinationStages, signalSemaphores, commandBuffers, fence)
    }

    /** The wait lists are aligned and no stage mask is empty. */
    predicate Valid()
      reads this
    {
      State().Valid()
    }

    /** Whether the builder will signal a fence when submitted. */
    predicate HasFence()
      reads this
    {
      State().HasFence()
    }

    /** The number of semaphores to signal. */
    function NumSignalSemaphores(): nat
      reads this
    {
      State().NumSignalSemaphores()
    }

    /** A new, empty builder: four empty lists and no fence. */
    constructor ()
      ensures Valid() && !HasFence() && NumSignalSemaphores() == 0
      ensures State() == Empty()
    {
      waitSemaphores := [];
      destinationStages := [];
      signalSemaphores := [];
      commandBuffers := [];
      fence := NullFence;
    }

    /** Sets the fence to signal when the batch finishes. A fence object always
        wraps a non-null handle. */
    method SetFenceSignal(f: Handle)
      requires Valid() && f != NullFence
      modifies this
      ensures Valid() && HasFence() && fence == f
      ensures waitSemaphores == old(waitSemaphores) && destinationStages == old(destinationStages)
      ensures signalSemaphores == old(signalSemaphores) && commandBuffers == old(commandBuffers)
      ensures State() == Apply(old(State()), Op.SetFenceSignal(f))
    {
      fence := f;
    }

    /** Adds a semaphore to wait on, with the stages that wait for it; the
        stage mask must not be empty. */
    method AddWaitSemaphore(semaphore: Handle, stages: StageFlags)
      requires Valid() && stages != 0
      modifies this
      ensures Valid()
      ensures waitSemaphores == old(waitSemaphores) + [semaphore]
      ensures destinationStages == old(destinationStages) + [stages]
      ensures |waitSemaphores| == |destinationStages|
      ensures signalSemaphores == old(signalSemaphores) && commandBuffers == old(commandBuffers)
      ensures fence == old(fence)
      ensures State() == Apply(old(State()), Op.AddWaitSemaphore(semaphore, stages))
    {
      waitSemaphores := waitSemaphores + [semaphore];
      destinationStages := destinationStages + [stages];
    }

    /** Adds a command buffer after the ones already added. */
    method AddCommandBuffer(commandBuffer: Handle)
      requires Valid()
      modifies this
      ensures Valid()
      ensures commandBuffers == old(commandBuffers) + [commandBuffer]
      ensures waitSemaphores == old(waitSemaphores) && destinationStages == old(destinationStages)
      ensures signalSemaphores == old(signalSemaphores) && fence == old(fence)
      ensures State() == Apply(old(State()), Op.AddCommandBuffer(commandBuffer))
    {
      commandBuffers := commandBuffers + [commandBuffer];
    }

    /** Adds a semaphore to signal at the end of the batch. */
    method AddSignalSemaphore(semaphore: Handle)
      requires Valid()
      modifies this
      ensures Valid()
      ensures signalSemaphores == old(signalSemaphores) + [semaphore]
      ensures NumSignalSemaphores() == old(NumSignalSemaphores()) + 1
      ensures waitSemaphores == old(waitSemaphores) && destinationStages == old(destinationStages)
      ensures commandBuffers == old(commandBuffers) && fence == old(fence)
      ensures State() == Apply(old(State()), Op.AddSignalSemaphore(semaphore))
    {
      signalSemaphores := signalSemaphores + [semaphore];
    }

    /** Submits the batch. The device's answer is a parameter; an answer
        other than success or one of the three errors `vkQueueSubmit` may
        return would make the error conversion panic. */
    method Submit(answer: QueueSubmitResult) returns (call: QueueSubmitCall, r: SubmitResult)
      requires Valid()
      requires answer.Failed? ==> Accepted(answer.error)
      ensures call.submitCount == 1 && call.fence == fence
      ensures call.batch.waitSemaphores == waitSemaphores
      ensures call.batch.waitDstStageMask == destinationStages
      ensures call.batch.commandBuffers == commandBuffers
      ensures call.batch.signalSemaphores == signalSemaphores
      ensures |waitSemaphores| < U32Modulus ==> call.batch.waitSemaphoreCount == |waitSemaphores|
      ensures |commandBuffers| < U32Modulus ==> call.batch.commandBufferCount == |commandBuffers|
      ensures |signalSemaphores| < U32Modulus
              ==> call.batch.signalSemaphoreCount == |signalSemaphores|
      ensures r.Submitted? <==> answer.Success?
      ensures answer.Failed? ==> r == SubmitFailed(FromError(answer.error))
    {
      call := SubmitCallOf(State());
      match answer
      case Success => r := Submitted;
      case Failed(e) => r := SubmitFailed(FromError(e));
    }

    /** Appends `other`'s lists to this builder's and takes `other`'s fence
        when this builder has none. Both builders having a fence is refused
        (the source panics). `other` is consumed, so it is a distinct
        object. */
    method Merge(other: SubmitCommandBufferBuilder)
      requires other != this
      requires Valid() && other.Valid()
      requires !HasFence() || !other.HasFence()
      modifies this
      ensures Valid()
      ensures waitSemaphores == old(waitSemaphores) + other.waitSemaphores
      ensures destinationStages == old(destinationStages) + other.destinationStages
      ensures signalSemaphores == old(signalSemaphores) + other.signalSemaphores
      ensures commandBuffers == old(commandBuffers) + other.commandBuffers
      ensures fence == if old(fence) == NullFence then other.fence else old(fence)
      ensures HasFence() <==> old(HasFence()) || other.HasFence()
      ensures State() == Merged(old(State()), other.State())
    {
      waitSemaphores := waitSemaphores + other.waitSemaphores;
      destinationStages := destinationStages + other.destinationStages;
      signalSemaphores := signalSemaphores + other.signalSemaphores;
      commandBuffers := commandBuffers + other.commandBuffers;
      if fence == NullFence {
        fence := other.fence;
      }
    }
  }

  /** The documented usage: a new builder has no fence, setting one makes
      `has_fence()` true, and merging two builders that both have a fence is
      refused, which the precondition of `Merge` expresses. */
  method FenceUsage(f1: Handle, f2: Handle) returns (first: bool, second: bool, mergeable: bool)
    requires f1 != NullFence && f2 != NullFence
    ensures !first && second && !mergeable
  {
    var b1 := new SubmitCommandBufferBuilder();
    first := b1.HasFence();
    b1.SetFenceSignal(f1);
    second := b1.HasFence();
    var b2 := new SubmitCommandBufferBuilder();
    b2.SetFenceSignal(f2);
    mergeable := !b1.HasFence() || !b2.HasFence();
  }
}
