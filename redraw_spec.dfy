/**
 The per-frame redraw policy of the deferred-lighting example as a pure
 transition: the state the event-loop closure captures, the answers of the
 swapchain, the frame system and the device as inputs, and for each event the
 new state, the calls made to the outside world and how the iteration ended.
 */
module RedrawSpec {

  datatype Option<T> = None | Some(value: T)

  /** Opaque identities of a swapchain and of an image view. */
  type SwapchainId = nat
  type ImageView = nat

  /** Inner size of the window, in physical pixels. */
  datatype Extent = Extent(width: nat, height: nat)

  /** A GPU future, kept as the chain of operations that produced it. */
  datatype GpuFuture =
    | Now                                                   // already signalled, no work
    | Opaque(id: nat)                                       // produced outside this code
    | Joined(first: GpuFuture, second: GpuFuture)
    | PresentFuture(prior: GpuFuture, swapchain: SwapchainId, imageIndex: nat)
    | FenceSignalFuture(prior: GpuFuture)                   // signalled fence, flushed

  /** Answer of the swapchain recreation. */
  datatype RecreateResult =
    | Recreated(newSwapchain: SwapchainId, newImages: seq<ImageView>)
    | ImageExtentNotSupported
    | RecreateError(code: int)

  /** Answer of `acquire_next_image`. */
  datatype AcquireResult =
    | Acquired(imageIndex: nat, suboptimal: bool, acquireFuture: GpuFuture)
    | AcquireOutOfDate
    | AcquireError(code: int)

  /** One stage handed out by the frame system. */
  datatype Pass = Deferred | Lighting | Finished(afterFuture: GpuFuture)

  /** Answer of presenting and flushing the frame. */
  datatype FlushResult = FlushOk | FlushOutOfDate | FlushError(code: int)

  /** Everything the outside world answers during one redraw. */
  datatype RedrawInputs = RedrawInputs(
    dimensions: Extent,
    recreate: RecreateResult,
    acquire: AcquireResult,
    passes: seq<Pass>,
    flush: FlushResult)

  /** A call the handler makes to a collaborator. */
  datatype Call =
    | CleanupFinished
    | Recreate(extent: Extent)
    | Acquire(swapchain: SwapchainId)
    | BeginFrame(dependency: GpuFuture, target: ImageView)
    | DrawDeferred
    | DrawLighting
    | PresentAndFlush(after: GpuFuture, swapchain: SwapchainId, imageIndex: nat)

  /** Why an iteration panicked. */
  datatype PanicReason =
    | RecreateFailed
    | AcquireFailed
    | ImageIndexOutOfRange
    | NoFinishedPass

  /** How one event's handling ended. */
  datatype Outcome =
    | Skipped              // minimised window: nothing done
    | ExtentUnsupported    // recreation refused the extent: retry next time
    | AcquireStale         // acquisition reported out-of-date
    | FramePresented       // frame flushed
    | PresentStale         // flush reported out-of-date
    | FlushFailedReset     // any other flush error
    | Flagged              // a resize was recorded
    | Ignored              // an event the handler does not act on
    | Aborted(reason: PanicReason)

  /** The variables captured by the event-loop closure. */
  datatype LoopState = LoopState(
    recreateSwapchain: bool,
    previousFrameEnd: Option<GpuFuture>,
    swapchain: SwapchainId,
    images: seq<ImageView>)

  datatype StepResult = StepResult(state: LoopState, calls: seq<Call>, outcome: Outcome)

  /** The state right after initialisation: no recreation pending, the
      previous frame is a no-op future. */
  function Initial(swapchain: SwapchainId, images: seq<ImageView>): (s: LoopState)
    ensures s.previousFrameEnd == Some(Now) && !s.recreateSwapchain
    ensures s.swapchain == swapchain && s.images == images
  {
    LoopState(false, Some(Now), swapchain, images)
  }

  predicate Minimised(e: Extent) {
    e.width == 0 || e.height == 0
  }

  /** The future of the last `Finished` pass, if any (the loop overwrites its
      variable at every `Finished`). */
  function LastFinished(passes: seq<Pass>): (r: Option<GpuFuture>)
    ensures r.Some? <==> exists i :: 0 <= i < |passes| && passes[i].Finished?
    ensures r.Some? ==> exists i :: 0 <= i < |passes| && passes[i] == Finished(r.value)
                          && forall j :: i < j < |passes| ==> !passes[j].Finished?
  {
    if passes == [] then None
    else
      var last := passes[|passes| - 1];
      if last.Finished? then
        assert passes[|passes| - 1] == Finished(last.afterFuture);
        Some(last.afterFuture)
      else
        var init := passes[..|passes| - 1];
        var r := LastFinished(init);
        assert forall i :: 0 <= i < |init| ==> init[i] == passes[i];
        assert r.Some? ==> exists i :: 0 <= i < |passes| && passes[i] == Finished(r.value)
                                 && forall j :: i < j < |passes| ==> !passes[j].Finished? by {
          if r.Some? {
            var i :| 0 <= i < |init| && init[i] == Finished(r.value)
                     && forall j :: i < j < |init| ==> !init[j].Finished?;
            assert forall j :: i < j < |passes| ==> !passes[j].Finished?;
          }
        }
        r
  }

  /** The draw calls the passes lead to: geometry for `Deferred`, lights for
      `Lighting`, nothing for `Finished`. */
  function PassCalls(passes: seq<Pass>): (r: seq<Call>)
    ensures forall i :: 0 <= i < |r| ==> r[i] == DrawDeferred || r[i] == DrawLighting
    ensures |r| <= |passes|
  {
    if passes == [] then []
    else
      var last := passes[|passes| - 1];
      PassCalls(passes[..|passes| - 1])
        + match last
          case Deferred => [DrawDeferred]
          case Lighting => [DrawLighting]
          case Finished(_) => []
  }

  /** Drawing the passes of two sequences one after the other issues the
      draws of the first, then those of the second. */
  lemma {:induction false} PassCallsConcat(a: seq<Pass>, b: seq<Pass>)
    ensures PassCalls(a + b) == PassCalls(a) + PassCalls(b)
  {
    if b == [] {
      assert a + b == a;
    } else {
      var init := b[..|b| - 1];
      assert (a + b)[..|a + b| - 1] == a + init;
      assert (a + b)[|a + b| - 1] == b[|b| - 1];
      PassCallsConcat(a, init);
    }
  }

  /** A `Deferred` pass draws the geometry, a `Lighting` pass the lights, and a
      `Finished` pass draws nothing. */
  lemma PassCallsSingle(after: GpuFuture)
    ensures PassCalls([Deferred]) == [DrawDeferred]
    ensures PassCalls([Lighting]) == [DrawLighting]
    ensures PassCalls([Finished(after)]) == []
  {
    assert [Deferred][..0] == [] && [Lighting][..0] == [] && [Finished(after)][..0] == [];
  }

  /** Whether some call submits work to the device. */
  predicate Submits(calls: seq<Call>) {
    exists i :: 0 <= i < |calls| && calls[i].PresentAndFlush?
  }

  /** The part of a redraw that starts at acquisition, on a state whose
      recreation step is done. */
  function AcquireAndDraw(s: LoopState, calls: seq<Call>, input: RedrawInputs): (r: StepResult)
    requires s.previousFrameEnd.Some?
    requires !Submits(calls)
    ensures Submits(r.calls) <==> r.outcome in {FramePresented, PresentStale, FlushFailedReset}
    ensures calls + [Acquire(s.swapchain)] <= r.calls
    // A failed acquisition, or an index with no image, ends the iteration
    // right after the acquisition.
    ensures !input.acquire.Acquired? || input.acquire.imageIndex >= |s.images|
            ==> r.calls == calls + [Acquire(s.swapchain)]
    // Without a `Finished` pass nothing is presented.
    ensures (input.acquire.Acquired? && input.acquire.imageIndex < |s.images|
             && LastFinished(input.passes).None?)
            ==> r.calls
                == calls
                   + [ Acquire(s.swapchain),
                       BeginFrame(Joined(s.previousFrameEnd.value, input.acquire.acquireFuture),
                                  s.images[input.acquire.imageIndex]) ]
                   + PassCalls(input.passes)
    ensures (input.acquire.Acquired? && input.acquire.imageIndex < |s.images|
             && LastFinished(input.passes).Some?)
            ==> r.calls
                == calls
                   + [ Acquire(s.swapchain),
                       BeginFrame(Joined(s.previousFrameEnd.value, input.acquire.acquireFuture),
                                  s.images[input.acquire.imageIndex]) ]
                   + PassCalls(input.passes)
                   + [PresentAndFlush(LastFinished(input.passes).value, s.swapchain,
                                      input.acquire.imageIndex)]
  {
    var calls := calls + [Acquire(s.swapchain)];
    match input.acquire
    case AcquireOutOfDate => StepResult(s.(recreateSwapchain := true), calls, AcquireStale)
    case AcquireError(_) => StepResult(s, calls, Aborted(AcquireFailed))
    case Acquired(index, suboptimal, acquireFuture) =>
      var flagged := if suboptimal then s.(recreateSwapchain := true) else s;
      var dependency := Joined(s.previousFrameEnd.value, acquireFuture);
      var taken := flagged.(previousFrameEnd := None);
      if index >= |s.images| then StepResult(taken, calls, Aborted(ImageIndexOutOfRange))
      else
        var calls := calls + [BeginFrame(dependency, s.images[index])] + PassCalls(input.passes);
        match LastFinished(input.passes)
        case None => StepResult(taken, calls, Aborted(NoFinishedPass))
        case Some(after) =>
          var calls := calls + [PresentAndFlush(after, s.swapchain, index)];
          assert calls[|calls| - 1].PresentAndFlush?;
          match input.flush
          case FlushOk =>
            StepResult(
              taken.(previousFrameEnd := Some(FenceSignalFuture(PresentFuture(after, s.swapchain, index)))),
              calls, FramePresented)
          case FlushOutOfDate =>
            StepResult(taken.(recreateSwapchain := true, previousFrameEnd := Some(Now)),
                       calls, PresentStale)
          case FlushError(_) =>
            StepResult(taken.(previousFrameEnd := Some(Now)), calls, FlushFailedReset)
  }

  /** The captured state once the recreation step of a redraw is done: the
      new swapchain and images, flag cleared, when a pending recreation
      succeeded, the state unchanged otherwise. */
  function AfterRecreation(s: LoopState, input: RedrawInputs): LoopState
  {
    if s.recreateSwapchain && input.recreate.Recreated? then
      s.(swapchain := input.recreate.newSwapchain, images := input.recreate.newImages,
         recreateSwapchain := false)
    else s
  }

  /** The redraw gets past the size check and the recreation step. */
  predicate Proceeds(s: LoopState, input: RedrawInputs) {
    !Minimised(input.dimensions) && (s.recreateSwapchain ==> input.recreate.Recreated?)
  }

  /** The redraw gets as far as presenting and flushing: it proceeds, acquires
      an image that exists, and the passes contain a `Finished`. */
  predicate ReachesFlush(s: LoopState, input: RedrawInputs) {
    && Proceeds(s, input)
    && input.acquire.Acquired?
    && input.acquire.imageIndex < |AfterRecreation(s, input).images|
    && LastFinished(input.passes).Some?
  }

  /** The calls a redraw that is not skipped makes before acquiring: the
      cleanup, then the recreation when one is pending. */
  function RecreationCalls(s: LoopState, input: RedrawInputs): seq<Call>
  {
    [CleanupFinished] + (if s.recreateSwapchain then [Recreate(input.dimensions)] else [])
  }

  /** How an iteration that reached the flush ends, by the flush's answer. */
  function FlushOutcome(f: FlushResult): Outcome
  {
    match f
    case FlushOk => FramePresented
    case FlushOutOfDate => PresentStale
    case FlushError(_) => FlushFailedReset
  }

  /** One `RedrawEventsCleared` iteration. */
  function Redraw(s: LoopState, input: RedrawInputs): (r: StepResult)
    requires s.previousFrameEnd.Some?
    // A minimised window is skipped without any effect.
    ensures Minimised(input.dimensions) <==> r.outcome == Skipped
    ensures Minimised(input.dimensions) ==> r.state == s && r.calls == []
    // Otherwise finished work is reclaimed first, then a pending recreation
    // comes before acquisition.
    ensures !Minimised(input.dimensions) ==> |r.calls| >= 2 && r.calls[0] == CleanupFinished
    ensures !Minimised(input.dimensions) && s.recreateSwapchain
            ==> r.calls[1] == Recreate(input.dimensions)
    ensures !Minimised(input.dimensions) && !s.recreateSwapchain
            ==> r.calls[1] == Acquire(s.swapchain)
    // The swapchain and images change only by a successful recreation.
    ensures if !Minimised(input.dimensions) && s.recreateSwapchain && input.recreate.Recreated?
            then r.state.swapchain == input.recreate.newSwapchain
                 && r.state.images == input.recreate.newImages
            else r.state.swapchain == s.swapchain && r.state.images == s.images
    // An unsupported extent leaves everything as it was, the flag still set.
    ensures r.outcome == ExtentUnsupported
            ==> r.state == s && s.recreateSwapchain && !Submits(r.calls)
    // Out-of-date at acquisition: flag set, nothing submitted, previous
    // future kept.
    ensures r.outcome == AcquireStale
            ==> r.state.recreateSwapchain && r.state.previousFrameEnd == s.previousFrameEnd
                && !Submits(r.calls)
    // A suboptimal image is still used; the flag then asks for a recreation
    // next time.
    ensures r.outcome in {FramePresented, FlushFailedReset}
            ==> input.acquire.Acquired?
                && r.state.recreateSwapchain == input.acquire.suboptimal
                && LastFinished(input.passes).Some?
                && r.calls[|r.calls| - 1]
                   == PresentAndFlush(LastFinished(input.passes).value, r.state.swapchain,
                                      input.acquire.imageIndex)
    ensures r.outcome == FramePresented
            ==> input.acquire.Acquired? && LastFinished(input.passes).Some?
                && r.state.previousFrameEnd
                == Some(FenceSignalFuture(PresentFuture(LastFinished(input.passes).value,
                                                        r.state.swapchain,
                                                        input.acquire.imageIndex)))
    ensures r.outcome == PresentStale
            ==> r.state.recreateSwapchain && r.state.previousFrameEnd == Some(Now)
    ensures r.outcome == FlushFailedReset ==> r.state.previousFrameEnd == Some(Now)
    // Work is submitted exactly when a frame reached the flush.
    ensures Submits(r.calls) <==> r.outcome in {FramePresented, PresentStale, FlushFailedReset}
    // Without a `Finished` pass the `unwrap` panics.
    ensures r.outcome == Aborted(NoFinishedPass)
            ==> !exists i :: 0 <= i < |input.passes| && input.passes[i].Finished?
    // Every iteration that completes leaves a previous-frame future.
    ensures !r.outcome.Aborted? ==> r.state.previousFrameEnd.Some?
    // Which answers lead to which outcome. A refused extent is retried, an
    // out-of-date acquisition recovers, and any frame that reaches the flush
    // (a suboptimal one included) is presented and ends by the flush's answer.
    ensures (!Minimised(input.dimensions) && s.recreateSwapchain
             && input.recreate.ImageExtentNotSupported?) ==> r.outcome == ExtentUnsupported
    ensures !Minimised(input.dimensions) && s.recreateSwapchain && input.recreate.RecreateError?
            ==> r.outcome == Aborted(RecreateFailed)
    ensures Proceeds(s, input) && input.acquire.AcquireOutOfDate? ==> r.outcome == AcquireStale
    ensures Proceeds(s, input) && input.acquire.AcquireError?
            ==> r.outcome == Aborted(AcquireFailed)
    ensures Proceeds(s, input) && input.acquire.Acquired?
            && input.acquire.imageIndex >= |AfterRecreation(s, input).images|
            ==> r.outcome == Aborted(ImageIndexOutOfRange)
    ensures (Proceeds(s, input) && input.acquire.Acquired?
             && input.acquire.imageIndex < |AfterRecreation(s, input).images|
             && LastFinished(input.passes).None?) ==> r.outcome == Aborted(NoFinishedPass)
    ensures ReachesFlush(s, input) ==> r.outcome == FlushOutcome(input.flush)
    // Once past the recreation step, the image is acquired from the current
    // swapchain (the new one after a recreation).
    ensures Proceeds(s, input)
            ==> RecreationCalls(s, input) + [Acquire(AfterRecreation(s, input).swapchain)]
                <= r.calls
    // The early returns make no further calls: a failed recreation stops
    // before acquiring, and a failed acquisition or an index with no image
    // stops right after it.
    ensures !Minimised(input.dimensions) && s.recreateSwapchain && !input.recreate.Recreated?
            ==> r.calls == RecreationCalls(s, input)
    ensures Proceeds(s, input)
            && (!input.acquire.Acquired?
                || input.acquire.imageIndex >= |AfterRecreation(s, input).images|)
            ==> r.calls == RecreationCalls(s, input) + [Acquire(AfterRecreation(s, input).swapchain)]
    // Without a `Finished` pass the passes are drawn but nothing is presented.
    ensures (Proceeds(s, input) && input.acquire.Acquired?
             && input.acquire.imageIndex < |AfterRecreation(s, input).images|
             && LastFinished(input.passes).None?)
            ==> var after := AfterRecreation(s, input);
                r.calls
                == RecreationCalls(s, input)
                   + [ Acquire(after.swapchain),
                       BeginFrame(Joined(s.previousFrameEnd.value, input.acquire.acquireFuture),
                                  after.images[input.acquire.imageIndex]) ]
                   + PassCalls(input.passes)
    // A frame that reaches the flush waits for the previous frame and the
    // acquisition, renders into the acquired image, draws every pass in
    // order, then presents that image and flushes.
    ensures ReachesFlush(s, input)
            ==> var after := AfterRecreation(s, input);
                var index := input.acquire.imageIndex;
                r.calls
                == RecreationCalls(s, input)
                   + [ Acquire(after.swapchain),
                       BeginFrame(Joined(s.previousFrameEnd.value, input.acquire.acquireFuture),
                                  after.images[index]) ]
                   + PassCalls(input.passes)
                   + [PresentAndFlush(LastFinished(input.passes).value, after.swapchain, index)]
  {
    if Minimised(input.dimensions) then StepResult(s, [], Skipped)
    else
      var calls := RecreationCalls(s, input);
      if s.recreateSwapchain then
        match input.recreate
        case ImageExtentNotSupported => StepResult(s, calls, ExtentUnsupported)
        case RecreateError(_) => StepResult(s, calls, Aborted(RecreateFailed))
        case Recreated(_, _) => AcquireAndDraw(AfterRecreation(s, input), calls, input)
      else
        AcquireAndDraw(s, calls, input)
  }

  /** A window event, with what the outside world answers if it is a redraw. */
  datatype Event =
    | CloseRequested
    | Resized(size: Extent)
    | RedrawEventsCleared(input: RedrawInputs)
    | OtherEvent

  /** The closure's dispatch on an event. */
  function HandleEvent(s: LoopState, e: Event): (r: StepResult)
    requires s.previousFrameEnd.Some?
    ensures e.Resized? ==> r.state == s.(recreateSwapchain := true) && r.calls == []
    ensures e.RedrawEventsCleared? ==> r == Redraw(s, e.input)
    ensures e.CloseRequested? || e.OtherEvent? ==> r.state == s && r.calls == []
    ensures !r.outcome.Aborted? ==> r.state.previousFrameEnd.Some?
  {
    match e
    case Resized(_) => StepResult(s.(recreateSwapchain := true), [], Flagged)
    case RedrawEventsCleared(input) => Redraw(s, input)
    case _ => StepResult(s, [], Ignored)
  }

  /** Handles events in order until one panics; returns the last state and
      whether a panic ended the run. */
  function Run(s: LoopState, events: seq<Event>): (r: (LoopState, bool))
    requires s.previousFrameEnd.Some?
    ensures !r.1 ==> r.0.previousFrameEnd.Some?
    decreases |events|
  {
    if events == [] then (s, false)
    else
      var step := HandleEvent(s, events[0]);
      if step.outcome.Aborted? then (step.state, true)
      else Run(step.state, events[1..])
  }

  /** The documented pass order Deferred, Lighting, Finished draws the geometry,
      then the lights, and yields the `Finished` future. */
  lemma CanonicalPasses(after: GpuFuture)
    ensures LastFinished([Deferred, Lighting, Finished(after)]) == Some(after)
    ensures PassCalls([Deferred, Lighting, Finished(after)]) == [DrawDeferred, DrawLighting]
  {
    var passes := [Deferred, Lighting, Finished(after)];
    assert passes[..2] == [Deferred, Lighting];
    assert passes[..2][..1] == [Deferred];
    assert [Deferred][..0] == [];
    assert PassCalls([Deferred]) == [DrawDeferred];
    assert PassCalls([Deferred, Lighting]) == [DrawDeferred, DrawLighting];
  }

  /** The flag, once raised, is only lowered by a redraw whose recreation
      succeeded, and that redraw installs the new swapchain and images. */
  lemma FlagClearedOnlyByRecreation(s: LoopState, e: Event)
    requires s.previousFrameEnd.Some? && s.recreateSwapchain
    ensures var r := HandleEvent(s, e);
            !r.state.recreateSwapchain
            ==> e.RedrawEventsCleared? && e.input.recreate.Recreated?
                && r.state.swapchain == e.input.recreate.newSwapchain
                && r.state.images == e.input.recreate.newImages
  {
  }

  /** An out-of-date acquisition, an out-of-date flush, a suboptimal image
      or a resize makes the next redraw of a visible window recreate the
      swapchain before it acquires an image again. */
  lemma RecreationFollowsStaleness(s: LoopState, e: Event, next: RedrawInputs)
    requires s.previousFrameEnd.Some?
    requires || e.Resized?
             || (&& e.RedrawEventsCleared?
                 && !Minimised(e.input.dimensions) && s.recreateSwapchain
                 && e.input.recreate.ImageExtentNotSupported?)
             || (e.RedrawEventsCleared? && Proceeds(s, e.input)
                 && e.input.acquire.AcquireOutOfDate?)
             || (&& e.RedrawEventsCleared? && ReachesFlush(s, e.input)
                 && (e.input.acquire.suboptimal || e.input.flush.FlushOutOfDate?))
    requires !Minimised(next.dimensions)
    ensures var r := HandleEvent(s, e);
            !r.outcome.Aborted? && r.state.previousFrameEnd.Some?
            && var n := Redraw(r.state, next);
               n.calls[1] == Recreate(next.dimensions)
               && forall i :: 0 <= i < 2 ==> !n.calls[i].Acquire?
  {
  }

  /** While the window stays minimised, redraws (and events the handler
      ignores) change nothing and call nothing, however many there are. */
  lemma {:induction false} MinimisedRunIsIdle(s: LoopState, events: seq<Event>)
    requires s.previousFrameEnd.Some?
    requires forall i :: 0 <= i < |events| ==>
               || events[i].CloseRequested? || events[i].OtherEvent?
               || (events[i].RedrawEventsCleared? && Minimised(events[i].input.dimensions))
    ensures Run(s, events) == (s, false)
  {
    if events != [] {
      MinimisedRunIsIdle(s, events[1..]);
    }
  }
}
