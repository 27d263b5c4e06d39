# Vulkan bootstrap core of justone, modelled in Dafny

This project models how the renderer sets up Vulkan. It covers three pieces:

- **Capability probing** (`capabilities.cc`, `caps.cc`): the probe reads the instance layers and extensions. From them it derives the extension-name set and the validation-layer flag. It also answers "every required extension is present" for the instance and for a physical device.
- **Context construction** (`context.cc`): PickQueue takes the first queue family whose flags match. PickPhysicalDevice looks only at the first enumerated device. The constructor assembles the instance extension list and requests a logical device with one queue. Construction is a fail-fast chain that sets `is_valid_` only as its last step.
- **Swapchain configuration** (`swapchain.cc`): pickers in preference order choose the surface format, pre-transform, composite alpha and present mode. An image-usage gate can stop construction. The create request is filled field by field, and construction is a fail-fast chain that sets `is_valid_` last.

Every Vulkan call is a foreign driver call, so the model takes each call's answer as an input. `ResultValue<T>` mirrors `vk::ResultValue`: it holds a result code and the value, and the value is present whatever the code. Enumerations are sequences of records. Flag masks are sets of bits, and `SharesBit(a, b)` stands for `a & b` being non-zero.

Files:

- `vk.dfy`: the abstract driver types, shared by all modules (`Vk`).
- `capabilities.dfy`: `CapabilityProbe`, including class `Capabilities`.
- `caps.dfy`: `LayerProbe`, including class `Caps`.
- `context.dfy`: `GraphicsContext`, including class `Context`.
- `swapchain.dfy`: `SwapchainSetup`, including class `Swapchain`.

Three constructors update fields step by step: the two probes and `Context`. They are Dafny class constructors with early `return`s, like the source. `Swapchain` is built the same way and is covered further down. The `Context` constructor is proved equal to the pure chain `ConstructContext`, and the lemmas about the chain state what the program guarantees. `Swapchain` follows the same pattern with `ConstructSwapchain`. Its create request is built by successive field updates on a default `SwapchainCreateInfo`, and a ghost field records the request handed to the driver.

A caller passes its additional instance extensions as a `std::set<std::string>`, so they are iterated in ascending order. The model takes them as a sequence that `IsOrderedSet` requires to be strictly ascending.

Quirks of the code that the model keeps, each shown by a lemma or a contract:

- `PickPhysicalDevice` returns from inside its loop, so it looks only at the first enumerated device. `OnlyFirstDeviceConsidered` gives two devices where the second qualifies and the result is still none. `FirstQualifying` is first-fit over all candidates, a reference the code's selection is compared with: the model proves that the code's answer agrees with first-fit whenever the code finds a device.
- The queue-flag test and the image-usage test accept any shared bit rather than a superset (`QueueFlagsNeedOnlyOneSharedBit`, `UsageGateNeedsOnlyOneSharedBit`). A superset test would reject a family or surface that these tests let through.
- The swapchain's `minImageCount` is copied from the surface unclamped (`RequestFields`). It is neither raised to `min+1` nor clamped to the surface's maximum.
- The result check after the formats query re-tests the capabilities result. The check after the present-mode query re-tests the formats result. So a failed present-mode query is never caught (`PresentModeQueryResultIgnored`).
- The created swapchain is bound to a local that hides the `swapchain_` member. The member is never assigned (`Swapchain.constructor` ensures `swapchain.None?`).
- The all-extensions checks stop at the first missing name and report only that one. Later missing names are not reported (`ScanRequired`, `FirstMissing`).

## Model

| member | source | states |
|---|---|---|
| CapabilityProbe.FindValidationLayer | src/capabilities.cc:15-19 | `find_if` over the layers: the position of the first layer named VK_LAYER_KHRONOS_validation, or the end. It is the end exactly when no layer has that name. |
| CapabilityProbe.ExtensionNamesMembership | src/capabilities.cc:25-27 | A name is in the probed set iff some enumerated extension has that name. |
| CapabilityProbe.ExtensionNamesCollapseDuplicates | src/capabilities.cc:25-27 | Inserting into the set collapses duplicates, so the set is never larger than the enumeration. |
| CapabilityProbe.CollectExtensionNames | src/capabilities.cc:64-67 | The insert loop produces exactly the set of enumerated names. |
| CapabilityProbe.FirstMissingFrom | src/capabilities.cc:68-73 | The scan from a position stops at the first unsupported name and yields it. Every earlier name is supported. It yields none iff all remaining names are supported. |
| CapabilityProbe.FirstMissing | src/capabilities.cc:68-73 | The reported name is a required name that is unsupported. None is reported iff every required name is supported. |
| CapabilityProbe.ScanRequired | src/capabilities.cc:68-74 | The early-return scan returns true iff all required names are supported. When it fails it reports exactly the first missing name. |
| CapabilityProbe.InstanceHasAllExtensions | src/capabilities.cc:62-75 | True iff every required name is among the enumerated instance extensions. The enumeration is read whatever its result code. Only the first missing name is reported. |
| CapabilityProbe.DeviceHasAllExtensions | src/capabilities.cc:77-93 | The same check over a physical device's extension enumeration. |
| CapabilityProbe.NothingRequiredIsAlwaysPresent | src/capabilities.cc:68-74 | An empty required list always passes. |
| CapabilityProbe.MissingNameIsReported | src/capabilities.cc:68-74 | With {"X","Y"} supported, ["X"] passes. ["X","Z"] fails naming "Z". |
| CapabilityProbe.Capabilities.constructor | src/capabilities.cc:10-29 | Valid iff both enumerations succeed. The validation flag is set iff the layer enumeration succeeds and lists the validation layer, and it stays set when the extension enumeration then fails. The extension set is the set of enumerated names after success and empty otherwise. `HasExtension` is membership in that set. |
| LayerProbe.Caps.constructor | src/caps.cc:7-18 | `IsValid()` is true iff the layer enumeration succeeds. `HasValidationLayers()` is true iff it succeeds and lists the validation layer. Both stay false on failure. |
| GraphicsContext.FirstQueueFrom | src/context.cc:31-37 | The first family from a position whose flags share a bit with the requested flags, with queue index 0. None iff no family from there shares a bit. |
| GraphicsContext.PickQueue | src/context.cc:26-38 | The lowest-index family sharing any bit with the flags, with queue index 0. None exactly when no family shares a bit, including when there are no families. |
| GraphicsContext.PickPhysicalDevice | src/context.cc:40-57 | None when enumeration fails or the list is empty. Otherwise the first device iff it has the swapchain extension and a qualifying queue, and none if it lacks either. A found device equals the first-fit choice. |
| GraphicsContext.OnlyFirstDeviceConsidered | src/context.cc:46-55 | A list whose second device qualifies still yields none when the first device does not. |
| GraphicsContext.QueueFlagsNeedOnlyOneSharedBit | src/context.cc:31-35 | A family with only Transfer is picked for graphics, compute and transfer. |
| GraphicsContext.DeviceRequest | src/context.cc:63-77 | The device request has exactly one queue create info: the selected family, one queue, one priority. It enables exactly the required device extensions (the swapchain extension) and no features. |
| GraphicsContext.CreateDevice | src/context.cc:59-84 | The push_back loop copies the required extensions in order. A device is returned iff the driver's create call succeeds, and it carries the request above for the given family. |
| GraphicsContext.InstanceRequestEnablesOnlySupported | src/context.cc:112-132 | An instance is requested iff the surface extension and every additional extension are supported. Every enabled extension is then supported, and the surface extension is enabled. The portability flag is set iff portability enumeration is supported, and that extension then comes first. The caller's extensions end the list. |
| GraphicsContext.NullLoaderLeavesContextInvalid | src/context.cc:99-102 | A null loader returns at once: invalid, with no probe, no instance and no device. |
| GraphicsContext.AbortsBeforeInstanceCreation | src/context.cc:108-132 | An invalid probe, a missing surface extension or an unsupported additional extension each stop the chain before the instance is created. |
| GraphicsContext.InstanceCreatedWithAssembledExtensions | src/context.cc:112-149 | A created instance enables, in order: portability enumeration when supported, then the surface extension, then the caller's extensions in set order. The create flag matches portability support. |
| GraphicsContext.ContextValidIffEveryStepSucceeds | src/context.cc:97-171 | The context is valid iff the loader is non-null and both enumerations succeed. The instance request must be possible and accepted, and device enumeration must succeed and be non-empty. The first device must qualify, and device creation must succeed. |
| GraphicsContext.ValidContextHoldsEveryHandle | src/context.cc:153-170 | A valid context holds the instance and the first enumerated device. Its queue index is queue 0 of a family sharing a bit with graphics, compute and transfer. Its device was created with one queue in that family and only the swapchain extension. |
| GraphicsContext.EmptyDeviceListLeavesContextInvalid | src/context.cc:153-156 | With no physical devices the context is invalid and has no device. |
| GraphicsContext.DeviceFailureLeavesContextInvalid | src/context.cc:165-168 | A failed device creation leaves the context invalid, whatever was created before. |
| GraphicsContext.Context.constructor | src/context.cc:97-171 | The fields after construction are the state of the `ConstructContext` chain. The probe is fresh. It is valid iff both enumerations succeed. It records the validation layer iff the layer enumeration succeeds and lists that layer. Its extension set is exactly the enumerated names when both enumerations succeed, and empty otherwise. `is_valid_` is assigned only as the last step. |
| GraphicsContext.Context.Make | src/context.cc:86-95 | Returns null iff the constructed context is invalid. Otherwise it returns a fresh valid context in the chain's state. |
| SwapchainSetup.PickSurfaceFormat | src/swapchain.cc:13-25 | The first entry, in list order, whose format is B8G8R8A8Unorm or R8G8B8A8Unorm, with its colour space. None iff no entry has one. |
| SwapchainSetup.PickTransform | src/swapchain.cc:27-38 | Identity iff Identity is supported, otherwise Inherit. The result is always one of the two. |
| SwapchainSetup.PickCompositeAlpha | src/swapchain.cc:40-51 | Opaque iff Opaque is supported, otherwise Inherit. The result is always one of the two. |
| SwapchainSetup.PickPresentMode | src/swapchain.cc:53-66 | The modes are gathered into a set. The result is Mailbox iff Mailbox is listed and Fifo otherwise, even when Fifo is not listed. |
| SwapchainSetup.PresentModeIgnoresOrderAndDuplicates | src/swapchain.cc:53-66 | Two lists with the same modes give the same choice, whatever their order or repetitions. |
| SwapchainSetup.SwapchainValidIffEveryStepSucceeds | src/swapchain.cc:68-127 | The swapchain is valid iff the capabilities and formats queries succeed, an accepted format is listed, the usage gate passes, and creation succeeds. |
| SwapchainSetup.PresentModeQueryResultIgnored | src/swapchain.cc:77-88 | A failed present-mode query changes nothing, because the check that follows re-tests the formats result. |
| SwapchainSetup.RequestFields | src/swapchain.cc:105-118 | The request copies minImageCount unclamped and currentExtent verbatim, and takes the picked format with its colour space. It has one array layer, the fixed three-bit usage, exclusive sharing, and no clipping. Transform, alpha and present mode equal what `PickTransform`, `PickCompositeAlpha` and `PreferredPresentMode` choose: Identity, Opaque and Mailbox exactly when supported, and otherwise Inherit, Inherit and Fifo. There are no flags and no old swapchain. |
| SwapchainSetup.UndefinedFormatOnlyIsInvalid | src/swapchain.cc:89-92 | A surface listing only an undefined format gets no request and no valid swapchain. |
| SwapchainSetup.UsageGateNeedsOnlyOneSharedBit | src/swapchain.cc:96-103 | A surface supporting only TransferDst passes the gate. The request still asks for all three usages and copies minImageCount 2 although the maximum is 0. |
| SwapchainSetup.Swapchain.constructor | src/swapchain.cc:68-127 | Validity and the request handed to the driver are those of the `ConstructSwapchain` chain. The `swapchain_` member is never assigned, because the binding shadows it. |

## Left out

- Driver calls (enumerations, surface queries, instance, device and swapchain creation): each is represented only by the result it returns. The driver's create calls are a result code. A device handle is present iff that code is success.
- `VULKAN_HPP_DEFAULT_DISPATCHER` initialisation (context.cc:14, 104, 151): process-global loader state. The loader is modelled only as present or null.
- Application and engine names and versions (context.cc:134-139): descriptive constants. The queue priority is the exact constant 1.0.
- `Capabilities::DumpToLog` (both overloads) and all log output. The name the all-extensions checks log is modelled as the `reported` out-parameter.
- `Swapchain::Render`, the `Synchronizer` class, `frame_count_`, `synchronizers_` and `images_`: swapchain.h declares them, but no definition exists, so the model has no frame loop.
- `Swapchain::IsValid` is declared in swapchain.h without a definition. The model exposes the `isValid` field.
- The `Context` accessors (`GetInstance`, `GetPhysicalDevice`, `GetCapabilities`, `GetDevice`) return the fields unchanged. The model exposes those fields through `Context.State()`.
- The swapchain's weak reference to the context: the surface queries go through the context's physical device, and the model takes their answers directly. The model also does not check the source's unguarded use of an invalid context.
- Unique handles, `shared_ptr`/`weak_ptr` ownership and destruction carry no checkable logic here.
- Image decoding, the GLFW/gtest test harness, the Fuchsia path helpers, the stale context.h and vk.h's `IsSuccess` are not part of this model.
- `StringLess` compares characters by code point. `std::string` compares them as unsigned bytes, which is the same order for the ASCII extension names involved.
- Enumerations of formats, colour spaces, transforms and other flags list representative members, not every value Vulkan defines.
