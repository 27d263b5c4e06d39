/** Swapchain configuration (swapchain.cc): the preference-ordered pickers for
    surface format, pre-transform, composite alpha and present mode, the
    image-usage gate, the field-by-field create request, and the fail-fast
    construction chain that marks the swapchain valid as its last step. */
module SwapchainSetup {
  import opened Vk

  datatype Format =
    | Undefined
    | R8G8B8A8Unorm
    | R8G8B8A8Srgb
    | B8G8R8A8Unorm
    | B8G8R8A8Srgb
    | A2B10G10R10UnormPack32
    | R16G16B16A16Sfloat

  datatype ColorSpace = SrgbNonlinear | DisplayP3Nonlinear | ExtendedSrgbLinear | Hdr10St2084

  datatype SurfaceFormat = SurfaceFormat(format: Format, colorSpace: ColorSpace)

  datatype SurfaceTransformBit =
    | Identity | Rotate90 | Rotate180 | Rotate270
    | HorizontalMirror | HorizontalMirrorRotate90 | HorizontalMirrorRotate180 | HorizontalMirrorRotate270
    | InheritTransform

  datatype CompositeAlphaBit = Opaque | PreMultiplied | PostMultiplied | InheritAlpha

  datatype PresentMode = Immediate | Mailbox | Fifo | FifoRelaxed

  datatype ImageUsageBit =
    | TransferSrc | TransferDst | Sampled | Storage
    | ColorAttachment | DepthStencilAttachment | TransientAttachment | InputAttachment

  datatype SharingMode = Exclusive | Concurrent

  datatype SwapchainCreateFlagBit = SplitInstanceBindRegions | ProtectedSwapchain | MutableFormat

  datatype Extent2D = Extent2D(width: nat, height: nat)

  datatype SurfaceCapabilities = SurfaceCapabilities(
    minImageCount: nat,
    maxImageCount: nat,
    currentExtent: Extent2D,
    supportedTransforms: set<SurfaceTransformBit>,
    supportedCompositeAlpha: set<CompositeAlphaBit>,
    supportedUsageFlags: set<ImageUsageBit>)

  datatype Surface = Surface(handle: nat)

  datatype SwapchainCreateInfo = SwapchainCreateInfo(
    flags: set<SwapchainCreateFlagBit>,
    surface: Option<Surface>,
    minImageCount: nat,
    imageFormat: Format,
    imageColorSpace: ColorSpace,
    imageExtent: Extent2D,
    imageArrayLayers: nat,
    imageUsage: set<ImageUsageBit>,
    imageSharingMode: SharingMode,
    preTransform: SurfaceTransformBit,
    compositeAlpha: CompositeAlphaBit,
    presentMode: PresentMode,
    clipped: bool,
    oldSwapchain: Option<nat>)

  /** vk::SwapchainCreateInfoKHR as default-constructed, before any field is set. */
  const kDefaultSwapchainCreateInfo := SwapchainCreateInfo(
    {}, None, 0, Undefined, SrgbNonlinear, Extent2D(0, 0), 0, {}, Exclusive,
    Identity, Opaque, Immediate, false, None)

  /** A swapchain created from a request. */
  datatype SwapchainHandle = SwapchainHandle(info: SwapchainCreateInfo)

  /** The driver's answers to the queries and the create call the construction makes. */
  datatype SurfaceResults = SurfaceResults(
    capabilities: ResultValue<SurfaceCapabilities>,
    formats: ResultValue<seq<SurfaceFormat>>,
    presentModes: ResultValue<seq<PresentMode>>,
    createSwapchainResult: VkResult)

  /** The usage every swapchain image is requested with. */
  const kSwapchainImageUsage: set<ImageUsageBit> := {TransferDst, ColorAttachment, InputAttachment}

  // ------------------------------------------------------------------ pickers

  predicate IsAcceptedFormat(format: Format) {
    format == B8G8R8A8Unorm || format == R8G8B8A8Unorm
  }

  /** PickSurfaceFormat: the first entry, in list order, with one of the two
      8-bit UNORM formats, colour space included; none when no entry has one. */
  function PickSurfaceFormat(formats: seq<SurfaceFormat>): (r: Option<SurfaceFormat>)
    ensures r.Some? ==> exists i :: 0 <= i < |formats| && formats[i] == r.value && IsAcceptedFormat(r.value.format)
                                    && forall j :: 0 <= j < i ==> !IsAcceptedFormat(formats[j].format)
    ensures r.None? <==> forall i :: 0 <= i < |formats| ==> !IsAcceptedFormat(formats[i].format)
  {
    if formats == [] then None
    else if IsAcceptedFormat(formats[0].format) then Some(formats[0])
    else
      var rest := PickSurfaceFormat(formats[1..]);
      assert forall i :: 1 <= i < |formats| ==> formats[i] == formats[1..][i - 1];
      rest
  }

  /** Pick for transforms: Identity when supported, otherwise Inherit, whether
      or not Inherit is supported. */
  function PickTransform(supported: set<SurfaceTransformBit>): (r: SurfaceTransformBit)
    ensures r == Identity <==> Identity in supported
    ensures r == Identity || r == InheritTransform
  {
    if Identity in supported then Identity
    else if InheritTransform in supported then InheritTransform
    else InheritTransform
  }

  /** Pick for composite alpha: Opaque when supported, otherwise Inherit,
      whether or not Inherit is supported. */
  function PickCompositeAlpha(supported: set<CompositeAlphaBit>): (r: CompositeAlphaBit)
    ensures r == Opaque <==> Opaque in supported
    ensures r == Opaque || r == InheritAlpha
  {
    if Opaque in supported then Opaque
    else if InheritAlpha in supported then InheritAlpha
    else InheritAlpha
  }

  /** The present mode the program settles on for a list of supported modes. */
  function PreferredPresentMode(modes: seq<PresentMode>): PresentMode {
    if Mailbox in modes then Mailbox else Fifo
  }

  /** Pick for present modes: gathers the list into a set, then prefers Mailbox
      and otherwise falls back to Fifo, supported or not. */
  method PickPresentMode(supportedModes: seq<PresentMode>) returns (r: PresentMode)
    ensures r == Mailbox <==> Mailbox in supportedModes
    ensures r == Mailbox || r == Fifo
    ensures r == PreferredPresentMode(supportedModes)
  {
    var supported: set<PresentMode> := {};
    for i := 0 to |supportedModes|
      invariant supported == set j | 0 <= j < i :: supportedModes[j]
    {
      supported := supported + {supportedModes[i]};
    }
    assert Mailbox in supportedModes ==> Mailbox in supported;
    if Mailbox in supported {
      return Mailbox;
    }
    if Fifo in supported {
      return Fifo;
    }
    return Fifo;
  }

  /** The chosen present mode depends only on which modes are listed, not on
      their order or repetitions. */
  lemma PresentModeIgnoresOrderAndDuplicates(a: seq<PresentMode>, b: seq<PresentMode>)
    requires forall m :: m in a <==> m in b
    ensures PreferredPresentMode(a) == PreferredPresentMode(b)
  {
  }

  // -------------------------------------------------------------- construction

  /** The create request filled in field by field once the gate is passed. */
  function SwapchainRequest(surface: Surface, caps: SurfaceCapabilities, format: SurfaceFormat,
                            modes: seq<PresentMode>): SwapchainCreateInfo
  {
    kDefaultSwapchainCreateInfo.(
      flags := {},
      surface := Some(surface),
      minImageCount := caps.minImageCount,
      imageFormat := format.format,
      imageColorSpace := format.colorSpace,
      imageExtent := caps.currentExtent,
      imageArrayLayers := 1,
      imageUsage := kSwapchainImageUsage,
      imageSharingMode := Exclusive,
      preTransform := PickTransform(caps.supportedTransforms),
      compositeAlpha := PickCompositeAlpha(caps.supportedCompositeAlpha),
      presentMode := PreferredPresentMode(modes),
      clipped := false,
      oldSwapchain := None)
  }

  /** What Swapchain::Swapchain leaves observable: the request it handed to
      the driver, if it got that far, and its validity. */
  datatype SwapchainOutcome = SwapchainOutcome(request: Option<SwapchainCreateInfo>, isValid: bool)

  /** The construction chain as written: the capabilities result is checked
      twice and the formats result after the present-mode query, whose own
      result is never checked. */
  function ConstructSwapchain(surface: Surface, results: SurfaceResults): SwapchainOutcome
  {
    if !Succeeded(results.capabilities) then SwapchainOutcome(None, false)
    else if !Succeeded(results.formats) then SwapchainOutcome(None, false)
    else match PickSurfaceFormat(results.formats.value)
      case None => SwapchainOutcome(None, false)
      case Some(format) =>
        if !SharesBit(results.capabilities.value.supportedUsageFlags, kSwapchainImageUsage) then
          SwapchainOutcome(None, false)
        else
          SwapchainOutcome(
            Some(SwapchainRequest(surface, results.capabilities.value, format, results.presentModes.value)),
            results.createSwapchainResult == Success)
  }

  /** The swapchain is valid exactly when the capabilities and formats queries
      succeed, an accepted format is listed, the usage gate passes and the
      driver creates the swapchain. */
  lemma SwapchainValidIffEveryStepSucceeds(surface: Surface, results: SurfaceResults)
    ensures ConstructSwapchain(surface, results).isValid
            <==> Succeeded(results.capabilities) && Succeeded(results.formats)
                 && PickSurfaceFormat(results.formats.value).Some?
                 && SharesBit(results.capabilities.value.supportedUsageFlags, kSwapchainImageUsage)
                 && results.createSwapchainResult == Success
  {
  }

  /** A failed present-mode query goes unnoticed: validity is the same as if
      the query had succeeded with the same list. */
  lemma PresentModeQueryResultIgnored(surface: Surface, results: SurfaceResults)
    ensures ConstructSwapchain(surface, results)
            == ConstructSwapchain(surface, results.(presentModes := ResultValue(Success, results.presentModes.value)))
  {
  }

  /** The request copies minImageCount (whatever maxImageCount is) and the
      current extent verbatim, uses the picked format with its colour space,
      one array layer, the fixed three-bit usage, exclusive sharing, the picked
      transform, alpha and present mode, no clipping and no old swapchain. */
  lemma RequestFields(surface: Surface, results: SurfaceResults)
    ensures var outcome := ConstructSwapchain(surface, results);
            var caps := results.capabilities.value;
            outcome.request.Some? ==>
              var info := outcome.request.value;
              info.surface == Some(surface)
              && info.minImageCount == caps.minImageCount
              && info.imageExtent == caps.currentExtent
              && IsAcceptedFormat(info.imageFormat)
              && PickSurfaceFormat(results.formats.value) == Some(SurfaceFormat(info.imageFormat, info.imageColorSpace))
              && info.imageArrayLayers == 1
              && info.imageUsage == {TransferDst, ColorAttachment, InputAttachment}
              && info.imageSharingMode == Exclusive
              && info.preTransform == PickTransform(caps.supportedTransforms)
              && (info.preTransform == Identity <==> Identity in caps.supportedTransforms)
              && info.compositeAlpha == PickCompositeAlpha(caps.supportedCompositeAlpha)
              && (info.compositeAlpha == Opaque <==> Opaque in caps.supportedCompositeAlpha)
              && info.presentMode == PreferredPresentMode(results.presentModes.value)
              && (info.presentMode == Mailbox <==> Mailbox in results.presentModes.value)
              && (info.presentMode == Mailbox || info.presentMode == Fifo)
              && !info.clipped && info.flags == {} && info.oldSwapchain.None?
  {
  }

  /** A surface listing only an undefined format gets no swapchain. */
  lemma UndefinedFormatOnlyIsInvalid(surface: Surface, results: SurfaceResults, colorSpace: ColorSpace)
    requires results.formats.value == [SurfaceFormat(Undefined, colorSpace)]
    ensures !ConstructSwapchain(surface, results).isValid
    ensures ConstructSwapchain(surface, results).request.None?
  {
  }

  /** The usage gate lets through a surface supporting only one of the three
      requested usages, and the request still asks for all three. */
  lemma UsageGateNeedsOnlyOneSharedBit(surface: Surface)
    ensures var caps := SurfaceCapabilities(2, 0, Extent2D(800, 600), {Identity}, {Opaque}, {TransferDst});
            var results := SurfaceResults(ResultValue(Success, caps),
                                          ResultValue(Success, [SurfaceFormat(B8G8R8A8Unorm, SrgbNonlinear)]),
                                          ResultValue(Success, [Fifo]), Success);
            var outcome := ConstructSwapchain(surface, results);
            outcome.isValid && outcome.request.Some?
            && !(outcome.request.value.imageUsage <= caps.supportedUsageFlags)
            && outcome.request.value.minImageCount == 2
  {
    var caps := SurfaceCapabilities(2, 0, Extent2D(800, 600), {Identity}, {Opaque}, {TransferDst});
    assert TransferDst in caps.supportedUsageFlags * kSwapchainImageUsage;
    assert ColorAttachment !in caps.supportedUsageFlags;
  }

  class Swapchain {
    var surface: Surface
    /** The swapchain member; the constructor's structured binding declares a
        local of the same name, so this is never assigned. */
    var swapchain: Option<SwapchainHandle>
    var isValid: bool
    /** The request handed to the driver's create call, if the chain got there. */
    ghost var request: Option<SwapchainCreateInfo>

    /** Swapchain::Swapchain, given the surface it takes over and the driver's
        answers to its queries and its create call. */
    constructor (surface: Surface, results: SurfaceResults)
      ensures this.surface == surface
      ensures request == ConstructSwapchain(surface, results).request
      ensures isValid == ConstructSwapchain(surface, results).isValid
      ensures swapchain.None?
    {
      this.surface := surface;
      swapchain := None;
      isValid := false;
      request := None;
      new;
      var capsResult, caps := results.capabilities.result, results.capabilities.value;
      if capsResult != Success {
        return;
      }
      var formatsResult, formats := results.formats.result, results.formats.value;
      if capsResult != Success {
        return;
      }
      var modesResult, modes := results.presentModes.result, results.presentModes.value;
      if formatsResult != Success {
        return;
      }
      var surfaceFormat := PickSurfaceFormat(formats);
      if surfaceFormat.None? {
        return;
      }
      var info := kDefaultSwapchainCreateInfo;
      if !SharesBit(caps.supportedUsageFlags, kSwapchainImageUsage) {
        return;
      }
      info := info.(flags := {});
      info := info.(surface := Some(surface));
      info := info.(minImageCount := caps.minImageCount);
      info := info.(imageFormat := surfaceFormat.value.format);
      info := info.(imageColorSpace := surfaceFormat.value.colorSpace);
      info := info.(imageExtent := caps.currentExtent);
      info := info.(imageArrayLayers := 1);
      info := info.(imageUsage := kSwapchainImageUsage);
      info := info.(imageSharingMode := Exclusive);
      info := info.(preTransform := PickTransform(caps.supportedTransforms));
      info := info.(compositeAlpha := PickCompositeAlpha(caps.supportedCompositeAlpha));
      var presentMode := PickPresentMode(modes);
      info := info.(presentMode := presentMode);
      info := info.(clipped := false);
      info := info.(oldSwapchain := None);

      request := Some(info);
      // The binding declares a local `swapchain` that hides the member, which
      // therefore stays unassigned; the created handle is dropped on return.
      var swapchainResult, swapchain := results.createSwapchainResult,
        if results.createSwapchainResult == Success then Some(SwapchainHandle(info)) else None;
      if swapchainResult != Success {
        return;
      }
      isValid := true;
    }
  }
}
