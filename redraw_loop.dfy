/**
 The event-loop closure of the deferred-lighting example as an object: the
 variables it captures are fields that its handlers update in place. Each
 handler is proved to make exactly the transition `RedrawSpec` describes.
 */
module RedrawLoop {
  import opened RedrawSpec

  /** Drives the frame's passes to the end: every `Deferred` and `Lighting`
      pass is drawn and the future of the (last) `Finished` pass is kept. */
  method RunPasses(passes: seq<Pass>) returns (afterFuture: Option<GpuFuture>, calls: seq<Call>)
    ensures afterFuture == LastFinished(passes) && calls == PassCalls(passes)
    ensures afterFuture.Some? <==> exists i :: 0 <= i < |passes| && passes[i].Finished?
  {
    afterFuture := None;
    calls := [];
    var i := 0;
    while i < |passes|
      invariant 0 <= i <= |passes|
      invariant afterFuture == LastFinished(passes[..i])
      invariant calls == PassCalls(passes[..i])
    {
      assert passes[..i + 1][..i] == passes[..i];
      match passes[i] {
        case Deferred =>
          calls := calls + [DrawDeferred];
        case Lighting =>
          calls := calls + [DrawLighting];
        case Finished(af) =>
          afterFuture := Some(af);
      }
      i := i + 1;
    }
    assert passes[..i] == passes;
  }

  class EventLoopState {
    var recreateSwapchain: bool
    var previousFrameEnd: Option<GpuFuture>
    var swapchain: SwapchainId
    var images: seq<ImageView>

    function State(): LoopState
      reads this
    {
      LoopState(recreateSwapchain, previousFrameEnd, swapchain, images)
    }

    /** Between events there is always a previous-frame future. */
    predicate Valid()
      reads this
    {
      previousFrameEnd.Some?
    }

    /** The captured variables right after initialisation. */
    constructor (sc: SwapchainId, views: seq<ImageView>)
      ensures Valid() && !recreateSwapchain && previousFrameEnd == Some(Now)
      ensures swapchain == sc && images == views
      ensures State() == Initial(sc, views)
    {
      recreateSwapchain := false;
      previousFrameEnd := Some(Now);
      swapchain := sc;
      images := views;
    }

    /** A resize only records that the swapchain must be recreated. */
    method HandleResized()
      modifies this
      ensures recreateSwapchain
      ensures previousFrameEnd == old(previousFrameEnd)
      ensures swapchain == old(swapchain) && images == old(images)
      ensures State() == old(State()).(recreateSwapchain := true)
    {
      recreateSwapchain := true;
    }

    /** One `RedrawEventsCleared` iteration; a panic is reported as an
        `Aborted` outcome and leaves the fields as they were at that point. */
    method HandleRedraw(input: RedrawInputs) returns (calls: seq<Call>, outcome: Outcome)
      requires Valid()
      modifies this
      ensures StepResult(State(), calls, outcome) == Redraw(old(State()), input)
      ensures !outcome.Aborted? ==> Valid()
    {
      if Minimised(input.dimensions) {
        return [], Skipped;
      }
      calls := [CleanupFinished];

      if recreateSwapchain {
        calls := calls + [Recreate(input.dimensions)];
        match input.recreate {
          case ImageExtentNotSupported =>
            return calls, ExtentUnsupported;
          case RecreateError(_) =>
            return calls, Aborted(RecreateFailed);
          case Recreated(newSwapchain, newImages) =>
            swapchain := newSwapchain;
            images := newImages;
            recreateSwapchain := false;
        }
      }
      ghost var beforeAcquire := State();
      ghost var prefix := calls;
      assert beforeAcquire == AfterRecreation(old(State()), input);
      assert prefix == RecreationCalls(old(State()), input);

      calls := calls + [Acquire(swapchain)];
      if input.acquire.AcquireOutOfDate? {
        recreateSwapchain := true;
        return calls, AcquireStale;
      } else if input.acquire.AcquireError? {
        return calls, Aborted(AcquireFailed);
      }
      var imageIndex := input.acquire.imageIndex;
      if input.acquire.suboptimal {
        recreateSwapchain := true;
      }

      var dependency := Joined(previousFrameEnd.value, input.acquire.acquireFuture);
      previousFrameEnd := None;
      if imageIndex >= |images| {
        return calls, Aborted(ImageIndexOutOfRange);
      }
      calls := calls + [BeginFrame(dependency, images[imageIndex])];
      var afterFuture, passCalls := RunPasses(input.passes);
      calls := calls + passCalls;

      if afterFuture.None? {
        return calls, Aborted(NoFinishedPass);
      }
      var after := afterFuture.value;
      calls := calls + [PresentAndFlush(after, swapchain, imageIndex)];
      match input.flush {
        case FlushOk =>
          previousFrameEnd := Some(FenceSignalFuture(PresentFuture(after, swapchain, imageIndex)));
          outcome := FramePresented;
        case FlushOutOfDate =>
          recreateSwapchain := true;
          previousFrameEnd := Some(Now);
          outcome := PresentStale;
        case FlushError(_) =>
          previousFrameEnd := Some(Now);
          outcome := FlushFailedReset;
      }
      assert StepResult(State(), calls, outcome) == AcquireAndDraw(beforeAcquire, prefix, input);
    }

    /** The closure's dispatch: resize and redraw are handled, every other
        event (closing the window included) leaves the fields alone. */
    method HandleEvent(e: Event) returns (calls: seq<Call>, outcome: Outcome)
      requires Valid()
      modifies this
      ensures StepResult(State(), calls, outcome) == RedrawSpec.HandleEvent(old(State()), e)
      ensures !outcome.Aborted? ==> Valid()
    {
      match e {
        case Resized(_) =>
          HandleResized();
          calls, outcome := [], Flagged;
        case RedrawEventsCleared(input) =>
          calls, outcome := HandleRedraw(input);
        case CloseRequested =>
          calls, outcome := [], Ignored;
        case OtherEvent =>
          calls, outcome := [], Ignored;
      }
    }
  }
}
