/** Abstract stand-ins for the Vulkan objects and query results that the
    bootstrap code consumes. Nothing here talks to a driver: every enumeration,
    query or creation call of the program is represented by the value it returns. */
module Vk {

  datatype Option<+T> = None | Some(value: T)

  /** The VkResult codes the model distinguishes. The program compares every
      result with `Success` only, so `Incomplete` (a non-error status) counts as
      a failure exactly like the error codes. */
  datatype VkResult =
    | Success
    | Incomplete
    | ErrorOutOfHostMemory
    | ErrorOutOfDeviceMemory
    | ErrorInitializationFailed
    | ErrorLayerNotPresent
    | ErrorExtensionNotPresent
    | ErrorIncompatibleDriver
    | ErrorSurfaceLost

  /** vk::ResultValue: a result code together with the value the call produced.
      The value is there whatever the code, and some callers read it without
      looking at the code. */
  datatype ResultValue<T> = ResultValue(result: VkResult, value: T)

  predicate Succeeded<T>(r: ResultValue<T>) {
    r.result == Success
  }

  /** `a & b` is non-zero for two flag masks given as sets of bits: the masks
      share at least one bit. */
  predicate SharesBit<T>(a: set<T>, b: set<T>) {
    a * b != {}
  }

  datatype LayerProperties = LayerProperties(layerName: string)

  datatype ExtensionProperties = ExtensionProperties(extensionName: string, specVersion: nat)

  const kValidationLayerName: string := "VK_LAYER_KHRONOS_validation"
  const kPortabilityEnumerationExtensionName: string := "VK_KHR_portability_enumeration"
  const kSurfaceExtensionName: string := "VK_KHR_surface"
  const kSwapchainExtensionName: string := "VK_KHR_swapchain"

  datatype QueueFlagBit =
    | Graphics | Compute | Transfer | SparseBinding | Protected | VideoDecode | VideoEncode | OpticalFlow

  datatype QueueFamilyProperties = QueueFamilyProperties(queueFlags: set<QueueFlagBit>, queueCount: nat)

  /** An enumerated (hence non-null) physical device, with the answers it gives
      to the two queries the bootstrap code makes of it. */
  datatype PhysicalDevice = PhysicalDevice(
    handle: nat,
    extensions: ResultValue<seq<ExtensionProperties>>,
    queueFamilies: seq<QueueFamilyProperties>)

  /** std::string's operator< : lexicographic on characters, a proper prefix first. */
  predicate StringLess(a: string, b: string) {
    if a == [] then b != []
    else if b == [] then false
    else if a[0] != b[0] then a[0] < b[0]
    else StringLess(a[1..], b[1..])
  }

  /** A std::set<std::string> as it is iterated: strictly ascending, hence without duplicates. */
  predicate IsOrderedSet(s: seq<string>) {
    forall i, j :: 0 <= i < j < |s| ==> StringLess(s[i], s[j])
  }
}
