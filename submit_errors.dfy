/**
 Errors of a queue submission.

 The device layer reports a failed `vkQueueSubmit` as one of the crate-wide
 Vulkan errors. A submission can only fail with the three errors that section
 "Queue Submission" of the Vulkan 1.0 specification lists for `vkQueueSubmit`;
 the conversion into the submission's own two-variant error therefore accepts
 exactly those three and treats every other error as a broken contract.
 */
module SubmitErrors {

  /** The crate-wide Vulkan error, as far as a submission is concerned. Every
      variant that the conversion does not single out behaves identically
      (it aborts), so all of them are folded into `OtherError`. */
  datatype VulkanError =
    | OutOfHostMemory
    | OutOfDeviceMemory
    | DeviceLost
    | OtherError(code: int)

  /** Out-of-memory error: the host or the device ran out of memory. */
  datatype OomError = HostMemory | DeviceMemory

  /** The error type returned by a failed submission. */
  datatype SubmitCommandBufferError =
    | SubmitOom(oom: OomError)
    | SubmitDeviceLost

  /** The Vulkan errors that `vkQueueSubmit` may return. */
  predicate Accepted(e: VulkanError) {
    e.OutOfHostMemory? || e.OutOfDeviceMemory? || e.DeviceLost?
  }

  /** Conversion of a Vulkan error into a submission error. Any error outside
      the accepted three makes the conversion panic; here that is a
      precondition. */
  function FromError(e: VulkanError): (r: SubmitCommandBufferError)
    requires Accepted(e)
    ensures r.SubmitOom? <==> (e.OutOfHostMemory? || e.OutOfDeviceMemory?)
    ensures r.SubmitDeviceLost? <==> e.DeviceLost?
    ensures r.SubmitOom? ==> (r.oom == HostMemory <==> e.OutOfHostMemory?)
  {
    match e
    case OutOfHostMemory => SubmitOom(HostMemory)
    case OutOfDeviceMemory => SubmitOom(DeviceMemory)
    case DeviceLost => SubmitDeviceLost
  }

  /** The Vulkan error a submission error stands for: the inverse of
      `FromError`. */
  function ToVulkanError(r: SubmitCommandBufferError): (e: VulkanError)
    ensures Accepted(e)
  {
    match r
    case SubmitOom(HostMemory) => OutOfHostMemory
    case SubmitOom(DeviceMemory) => OutOfDeviceMemory
    case SubmitDeviceLost => DeviceLost
  }

  /** The conversion loses no information: it is a bijection between the
      accepted Vulkan errors and the submission errors. */
  lemma FromErrorBijective(e: VulkanError, r: SubmitCommandBufferError)
    ensures Accepted(e) ==> ToVulkanError(FromError(e)) == e
    ensures FromError(ToVulkanError(r)) == r
  {
  }
}
