# Vulkano queue submission and the deferred example's redraw loop, in Dafny

This project models two parts of vulkano, the Rust wrapper around Vulkan.

1. **The submission builder** (`SubmitCommandBufferBuilder`). It gathers one
   `VkSubmitInfo` batch, as `vkQueueSubmit` defines it in the section "Queue
   Submission" of the Command Buffers chapter of the Vulkan 1.0
   specification. A batch holds:
   - the wait semaphores and their destination stage masks, in two parallel lists;
   - the command buffers, in execution order;
   - the signal semaphores;
   - one optional fence (the null handle means "no fence").

   The builder only grows. It is used up by `submit` or by `merge`. The model
   also covers the conversion of a Vulkan error into the submission's
   two-variant error.
2. **The redraw handler of the deferred-lighting example.** This is the
   event-loop closure that answers `Resized` and `RedrawEventsCleared`. It
   keeps three things between events: the "recreate swapchain" flag, the
   previous frame's GPU future, and the current swapchain with its images.
   It skips minimised windows and recreates the swapchain when asked to. It
   acquires an image, drives the frame's passes, and presents and flushes.
   When the surface is out of date or suboptimal, it raises the flag so the
   swapchain is recreated.

Files and modules:

- `submit_errors.dfy` (`SubmitErrors`): the Vulkan errors a submission can
  report, and the `From<Error>` conversion.
- `submit_batch.dfy` (`SubmitBatch`): the builder's content as a value. It
  holds the calls that grow it (`Op`, `Apply`, `Replay`), the merge, and the
  `VkSubmitInfo` record that `submit` builds, with the lemmas about them.
- `submit_builder.dfy` (`SubmitBuilder`): the builder as a class whose `seq`
  fields grow in place. Each method's postcondition ties the new state to
  the `SubmitBatch` function of the old state. So every `SubmitBatch` lemma
  applies to a builder driven through the methods.
- `redraw_spec.dfy` (`RedrawSpec`): the redraw policy as a pure transition.
  Each call `Redraw(state, inputs)` returns three things: the new captured
  state, the calls made to collaborators, and how the iteration ended. The
  file also holds the event dispatch, runs of events, and the multi-event
  lemmas.
- `redraw_loop.dfy` (`RedrawLoop`): the closure's captured variables as a
  class. Its handlers, including the `while let` loop over the passes, are
  proved to perform exactly the `RedrawSpec` transition.

Modelling conventions:

- Vulkan handles are opaque natural numbers. The null fence is 0.
- A stage mask is a `bv32` flag set. "Empty" means 0.
- Several things become inputs: the answers of the device, the swapchain,
  `acquire_next_image`, the frame system's pass sequence and the flush.
- GPU futures are terms that record how they were built: `Now`, `Joined`,
  `PresentFuture`, `FenceSignalFuture`, and `Opaque` for futures made
  elsewhere.
- A `panic!` or failed `unwrap` in the redraw handler becomes an
  `Aborted(reason)` outcome. The captured state is kept as it was at that
  point.
- In the builder, the panics of `merge` and of the error conversion become
  preconditions. So does the `debug_assert!` on a non-empty stage mask.

## Model

| member | source | states |
|---|---|---|
| `SubmitErrors.FromError` | vulkano/src/command_buffer/submit/queue_submit.rs:283-295 | Host and device out-of-memory become the out-of-memory error of the matching kind, and device loss becomes `DeviceLost`. Any other Vulkan error is outside the precondition, because the conversion panics on it. |
| `SubmitErrors.ToVulkanError` | vulkano/src/command_buffer/submit/queue_submit.rs:283-295 | Every submission error stands for one of the three Vulkan errors the conversion accepts. |
| `SubmitErrors.FromErrorBijective` | vulkano/src/command_buffer/submit/queue_submit.rs:283-295 | The conversion is a bijection between the accepted Vulkan errors and the submission errors, so no information is lost. |
| `SubmitBatch.Empty` | vulkano/src/command_buffer/submit/queue_submit.rs:40-49 | A new builder has four empty lists and the null fence. So it has no fence, zero signal semaphores, and aligned wait lists. |
| `SubmitBatch.ApplyKeepsValid` | vulkano/src/command_buffer/submit/queue_submit.rs:139-144 | Each call allowed to the caller (a non-null fence, a non-empty stage mask) keeps the two wait lists the same length, with no empty mask. |
| `SubmitBatch.ReplayContents` | vulkano/src/command_buffer/submit/queue_submit.rs:112-192 | Start from a new builder and apply calls one by one with `Apply`, which models one setter's push or assignment. After any sequence of calls, each list holds the arguments of its own kind of call, in call order. The fence is the last one set. Nothing is removed or reordered. |
| `SubmitBatch.WaitListsAligned` | vulkano/src/command_buffer/submit/queue_submit.rs:139-144 | After any sequence of calls, both wait lists have one entry per `add_wait_semaphore` call. This is the equality that `submit` asserts. |
| `SubmitBatch.SignalCountMatchesCalls` | vulkano/src/command_buffer/submit/queue_submit.rs:169-192 | `num_signal_semaphores()` equals the number of `add_signal_semaphore` calls. |
| `SubmitBatch.ReplayValid` | vulkano/src/command_buffer/submit/queue_submit.rs:138-144 | A builder built only through allowed calls has aligned wait lists and no empty stage mask. |
| `SubmitBatch.HasFenceIffFenceSet` | vulkano/src/command_buffer/submit/queue_submit.rs:70-114 | `has_fence()` is true exactly when some call set a fence, whatever other calls come before or after it. |
| `SubmitBatch.Merged` | vulkano/src/command_buffer/submit/queue_submit.rs:228-244 | Requires that at most one side has a fence. The result has a fence iff either side does. That fence is `self`'s if `self` has one, otherwise `other`'s. The signal counts add up, and validity is kept. |
| `SubmitBatch.MergeEmpty` | vulkano/src/command_buffer/submit/queue_submit.rs:228-244 | Merging with a new builder, on either side, changes nothing. |
| `SubmitBatch.MergeAssociative` | vulkano/src/command_buffer/submit/queue_submit.rs:228-244 | When at most one of three builders has a fence, the order in which they are merged does not matter. |
| `SubmitBatch.MergeOfReplays` | vulkano/src/command_buffer/submit/queue_submit.rs:222-244 | Build two batches from two call sequences, at most one of which sets a fence. Merging them gives the batch made by one builder doing all the calls in order. |
| `SubmitBatch.AsU32` | vulkano/src/command_buffer/submit/queue_submit.rs:207-212 | The `as u32` count is below 2^32, and it equals the length when the length fits. |
| `SubmitBatch.SubmitCallOf` | vulkano/src/command_buffer/submit/queue_submit.rs:199-220 | `submit` makes one `vkQueueSubmit` call with one batch. The batch carries the builder's four lists unchanged, and the call carries the builder's fence. |
| `SubmitBatch.SubmitCallFaithful` | vulkano/src/command_buffer/submit/queue_submit.rs:204-217 | For a valid builder, every count equals its array's length exactly when no list has 2^32 entries or more. The fence passes through unchanged. |
| `SubmitBatch.SubmitMerged` | vulkano/src/command_buffer/submit/queue_submit.rs:194-244 | Submitting a merged builder submits `self`'s command buffers, wait semaphores, stage masks and signal semaphores, each followed by `other`'s. |
| `SubmitBuilder.SubmitCommandBufferBuilder.constructor` | vulkano/src/command_buffer/submit/queue_submit.rs:40-49 | The new builder is the empty state, with no fence and no signal semaphores. |
| `SubmitBuilder.SubmitCommandBufferBuilder.SetFenceSignal` | vulkano/src/command_buffer/submit/queue_submit.rs:111-114 | Afterwards `has_fence()` is true and the fence is the given one. The four lists are unchanged. |
| `SubmitBuilder.SubmitCommandBufferBuilder.AddWaitSemaphore` | vulkano/src/command_buffer/submit/queue_submit.rs:138-144 | Requires a non-empty mask. Appends exactly one entry to each wait list, so they stay the same length. The other lists and the fence are unchanged. |
| `SubmitBuilder.SubmitCommandBufferBuilder.AddCommandBuffer` | vulkano/src/command_buffer/submit/queue_submit.rs:146-167 | Appends the command buffer at the end. The other lists and the fence are unchanged. |
| `SubmitBuilder.SubmitCommandBufferBuilder.AddSignalSemaphore` | vulkano/src/command_buffer/submit/queue_submit.rs:177-192 | Appends one signal semaphore, so `num_signal_semaphores()` goes up by one. Everything else is unchanged. |
| `SubmitBuilder.SubmitCommandBufferBuilder.Submit` | vulkano/src/command_buffer/submit/queue_submit.rs:199-220 | The submitted batch has the builder's lists, counts equal to their lengths (when under 2^32) and the builder's fence. It succeeds exactly when the device does. Otherwise it returns the converted error. |
| `SubmitBuilder.SubmitCommandBufferBuilder.Merge` | vulkano/src/command_buffer/submit/queue_submit.rs:222-244 | Requires that at most one side has a fence. Each list becomes `self`'s followed by `other`'s. The fence is `self`'s if set, otherwise `other`'s, and `has_fence()` is the disjunction. |
| `SubmitBuilder.FenceUsage` | vulkano/src/command_buffer/submit/queue_submit.rs:327-358 | The builder's unit tests: `has_fence()` is false on a new builder and true after setting a fence. Two fenced builders do not meet `merge`'s precondition. |
| `RedrawSpec.Initial` | examples/src/bin/deferred/main.rs:149-150 | The loop starts with no recreation pending and a previous-frame future of `now`. It holds the swapchain and images it was given. |
| `RedrawSpec.LastFinished` | examples/src/bin/deferred/main.rs:209-230 | `after_future` is set exactly when the passes contain a `Finished`. It is then the future of the last `Finished`. |
| `RedrawSpec.PassCalls` | examples/src/bin/deferred/main.rs:210-227 | The passes lead only to geometry draws and light draws, at most one per pass. |
| `RedrawSpec.PassCallsConcat` | examples/src/bin/deferred/main.rs:210-227 | The draws of two pass sequences run one after the other are the first's draws followed by the second's. So draws follow pass order. |
| `RedrawSpec.PassCallsSingle` | examples/src/bin/deferred/main.rs:212-225 | A `Deferred` pass draws the geometry, a `Lighting` pass draws the lights, and a `Finished` pass draws nothing. With `PassCallsConcat`, this fixes the draws of every pass sequence. |
| `RedrawSpec.AcquireAndDraw` | examples/src/bin/deferred/main.rs:192-246 | From acquisition on, work is submitted exactly when the iteration reaches the flush. The acquisition comes first and uses the current swapchain. A failed acquisition, or an index with no image, makes no further call. Otherwise the frame begins, rendering into the acquired image after the previous future joined with the acquisition future. The pass draws follow, zero or more calls. When a `Finished` pass is present, one present-and-flush call ends the list. |
| `RedrawSpec.Redraw` | examples/src/bin/deferred/main.rs:165-247 | A minimised window changes and calls nothing. Otherwise a pending recreation comes before acquisition. The swapchain and images change only by a successful recreation. An unsupported extent leaves the state untouched. An out-of-date acquisition sets the flag, submits nothing and keeps the previous future. A suboptimal image is still presented and sets the flag. A successful flush stores the future that presents the acquired image. An out-of-date flush sets the flag and resets the future to `now`; any other flush error only resets it. Every completed iteration leaves a previous-frame future. The contract also fixes the outcome from the inputs. A refused extent ends in `ExtentUnsupported` (retry next time), and any other recreation error panics. After a successful or unneeded recreation, an out-of-date acquisition ends in `AcquireStale`, and any other acquisition error panics. Then an out-of-range image index panics, and so does a missing `Finished`. Every frame that reaches the flush, suboptimal or not, ends as the flush says: `FramePresented`, `PresentStale` or `FlushFailedReset`. The calls are fixed on every path too. `RecreationCalls` is the cleanup call, then the recreation call when one is pending (main.rs:171-177). `AfterRecreation` is the state after the recreation step (main.rs:173-190). The early returns make no further calls: a failed recreation stops before acquiring; a failed acquisition or an index with no image stops right after it; and without a `Finished` pass the passes are drawn but nothing is presented. Past that step, the image is acquired from its swapchain, the new one after a recreation. A frame that reaches the flush then does four things: it begins rendering into the acquired image, after the previous frame's future joined with the acquisition future; it draws every pass in order; it presents that image; and it flushes. |
| `RedrawSpec.HandleEvent` | examples/src/bin/deferred/main.rs:152-249 | `Resized` sets the flag and changes nothing else. `RedrawEventsCleared` performs exactly `Redraw`. Closing the window and every other event change nothing and call nothing. After an event that does not panic, a previous-frame future is present. |
| `RedrawSpec.Run` | examples/src/bin/deferred/main.rs:150-249 | Over any sequence of events without a panic, the previous-frame future is always present (`Some`). |
| `RedrawSpec.CanonicalPasses` | examples/src/bin/deferred/main.rs:210-227 | The sequence Deferred, Lighting, Finished draws the geometry, then the lights, and yields the `Finished` future. |
| `RedrawSpec.FlagClearedOnlyByRecreation` | examples/src/bin/deferred/main.rs:173-190 | A raised flag is lowered only by a redraw whose recreation succeeded. That redraw installs the new swapchain and images. |
| `RedrawSpec.RecreationFollowsStaleness` | examples/src/bin/deferred/main.rs:159-246 | Stated on the inputs: a resize, an unsupported extent, an out-of-date acquisition, or a frame that reaches the flush with a suboptimal image or an out-of-date flush. None of these panics, and the next visible redraw recreates before it acquires. |
| `RedrawSpec.MinimisedRunIsIdle` | examples/src/bin/deferred/main.rs:166-169 | Any number of redraws of a minimised window, mixed with ignored events, leaves the state unchanged and panics nowhere. |
| `RedrawLoop.RunPasses` | examples/src/bin/deferred/main.rs:209-227 | The `while let` loop over the passes ends with the last `Finished` future, set exactly when there is a `Finished`. It issues the draw calls of the other passes, in order. |
| `RedrawLoop.EventLoopState.constructor` | examples/src/bin/deferred/main.rs:149-150 | The captured variables start as `Initial`: flag cleared, previous future `now`. |
| `RedrawLoop.EventLoopState.HandleResized` | examples/src/bin/deferred/main.rs:159-164 | Sets the flag and leaves the future, the swapchain and the images alone. |
| `RedrawLoop.EventLoopState.HandleRedraw` | examples/src/bin/deferred/main.rs:165-247 | Performs exactly the `Redraw` transition, with the same calls and the same outcome. A completed iteration restores the previous-frame future. |
| `RedrawLoop.EventLoopState.HandleEvent` | examples/src/bin/deferred/main.rs:152-249 | Dispatches the closure's events exactly as `RedrawSpec.HandleEvent` does. |

## Left out

- The `vkQueueSubmit` foreign call, `check_errors`, the device function table and the queue guard. The device's answer is an input of `Submit`.
- Lifetimes and the `unsafe` contracts of the builder's methods. These say that the fence, semaphores and command buffers outlive the GPU's use of them and belong to one device. They also say a semaphore signal feeds only one wait, and the fence is unsignalled at submission. Handles are plain numbers here, so none of this is expressed.
- Move semantics. Rust consumes the builder in `submit` and `merge`, and consumes `other` in `merge`. The class cannot make a consumed builder unusable. `Merge` only requires `other` to be a different object.
- `SubmitCommandBufferBuilder.HasFence` and `NumSignalSemaphores` on the class are plain queries with no postcondition of their own. The rows of `SubmitBatch.HasFenceIffFenceSet` and `SubmitBatch.SignalCountMatchesCalls` state their properties.
- GPU execution: a fence becoming ready after a wait, and an empty submission succeeding on a real device (queue_submit.rs:303-325).
- The `Display` text and `Error::source` of the submission error.
- `OomError::from` is not part of this model. Its mapping is taken as the variant of the same kind (host or device).
- The crate's other Vulkan error variants are folded into `OtherError`, because the conversion treats them all alike (it panics).
- `SubmitBuilder.SubmitCommandBufferBuilder.AddWaitSemaphore`: the `debug_assert!` on a non-empty mask is a precondition here. A release build would accept an empty mask silently.
- Device support for the requested stages is not checked, as in the source.
- All of the example's initialisation (lines 55-148): instance, device, surface and the first swapchain.
- The window-system event loop itself, and `ControlFlow::Exit` on `CloseRequested`. That event is treated as leaving the captured state alone.
- `cleanup_finished` is recorded as a call with no effect on the modelled state.
- Joining futures, presenting and the fence signal are kept only as future terms.
- The content of the passes (geometry, light colours and directions, matrices) belongs to the frame system and the triangle drawing system. Their source is not part of this model.
- The pass order comes from the frame system, so it is an input. Only the loop's handling of whatever sequence it gets is proved.
- `ImageView::new_default(..).unwrap()` on the recreated images is assumed to succeed. The recreation input already carries image views.
- The window dimensions and the `recreate` request (`SwapchainCreateInfo` with the new extent) are only recorded in the call trace.
- The `println!` of a failed flush.
