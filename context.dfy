/** Graphics context construction (context.cc): queue-family and physical-device
    selection, the instance and logical-device create requests, and the
    fail-fast construction chain that marks the context valid as its last step. */
module GraphicsContext {
  import opened Vk
  import opened CapabilityProbe

  /** QueueIndexVK: a queue family and a queue within it. Its declaration is
      not part of this model; the default-constructed value is taken to be
      {0, 0}, as for a struct of two value-initialised integers. */
  datatype QueueIndex = QueueIndex(family: nat, index: nat)

  const kDefaultQueueIndex := QueueIndex(0, 0)

  /** The device extensions every selected device must support and the logical
      device enables. */
  const kRequiredDeviceExtensions: seq<string> := [kSwapchainExtensionName]

  /** The queue capabilities asked of a family: graphics | compute | transfer. */
  const kAllCapabilitiesQueue: set<QueueFlagBit> := {Graphics, Compute, Transfer}

  datatype InstanceCreateFlagBit = EnumeratePortability

  /** The parts of vk::InstanceCreateInfo that depend on the probe. */
  datatype InstanceCreateInfo = InstanceCreateInfo(
    flags: set<InstanceCreateFlagBit>,
    enabledExtensionNames: seq<string>)

  /** A created instance, together with the request it was created from. */
  datatype Instance = Instance(info: InstanceCreateInfo)

  datatype DeviceQueueCreateInfo = DeviceQueueCreateInfo(
    queueFamilyIndex: nat,
    queueCount: nat,
    queuePriorities: seq<real>)

  datatype DeviceCreateInfo = DeviceCreateInfo(
    queueCreateInfos: seq<DeviceQueueCreateInfo>,
    enabledExtensionNames: seq<string>,
    enabledFeatures: set<string>)

  /** A created logical device, the physical device it runs on and its request. */
  datatype Device = Device(physicalDevice: PhysicalDevice, info: DeviceCreateInfo)

  /** The loader entry point handed to the context (never called by the model). */
  datatype ProcAddressCallback = ProcAddressCallback(address: nat)

  /** What the driver answers to each call the construction chain makes. */
  datatype DriverResults = DriverResults(
    instanceLayers: ResultValue<seq<LayerProperties>>,
    instanceExtensions: ResultValue<seq<ExtensionProperties>>,
    createInstanceResult: VkResult,
    physicalDevices: ResultValue<seq<PhysicalDevice>>,
    createDeviceResult: VkResult)

  // ---------------------------------------------------------------- selection

  /** The first family from position `from` on whose flags share a bit with `flags`. */
  function FirstQueueFrom(families: seq<QueueFamilyProperties>, flags: set<QueueFlagBit>, from: nat): (r: Option<QueueIndex>)
    requires from <= |families|
    decreases |families| - from
    ensures r.Some? ==> from <= r.value.family < |families| && r.value.index == 0
                        && SharesBit(families[r.value.family].queueFlags, flags)
                        && forall j :: from <= j < r.value.family ==> !SharesBit(families[j].queueFlags, flags)
    ensures r.None? <==> forall j :: from <= j < |families| ==> !SharesBit(families[j].queueFlags, flags)
  {
    if from == |families| then None
    else if SharesBit(families[from].queueFlags, flags) then Some(QueueIndex(from, 0))
    else FirstQueueFrom(families, flags, from + 1)
  }

  /** PickQueue: the lowest-index family sharing any bit with `flags` (not
      necessarily all of them), always queue 0; none when no family does. */
  function PickQueue(device: PhysicalDevice, flags: set<QueueFlagBit>): (r: Option<QueueIndex>)
    ensures r.Some? ==> r.value.family < |device.queueFamilies| && r.value.index == 0
                        && SharesBit(device.queueFamilies[r.value.family].queueFlags, flags)
                        && forall j :: 0 <= j < r.value.family ==> !SharesBit(device.queueFamilies[j].queueFlags, flags)
    ensures r.None? <==> forall j :: 0 <= j < |device.queueFamilies| ==> !SharesBit(device.queueFamilies[j].queueFlags, flags)
  {
    FirstQueueFrom(device.queueFamilies, flags, 0)
  }

  /** A device the selection accepts: it supports every required device
      extension (the answer of DeviceHasAllExtensions) and has a family PickQueue
      accepts. */
  predicate Qualifies(device: PhysicalDevice) {
    AllPresent(ExtensionNames(device.extensions.value), kRequiredDeviceExtensions)
    && PickQueue(device, kAllCapabilitiesQueue).Some?
  }

  /** First-fit over all candidates: a reference selection that the program's
      own selection is compared with. */
  function FirstQualifying(devices: seq<PhysicalDevice>): (r: Option<PhysicalDevice>)
    ensures r.Some? ==> r.value in devices && Qualifies(r.value)
    ensures r.None? <==> forall d :: d in devices ==> !Qualifies(d)
  {
    if devices == [] then None
    else if Qualifies(devices[0]) then Some(devices[0])
    else FirstQualifying(devices[1..])
  }

  /** PickPhysicalDevice. The loop body returns on its first iteration, so only
      the first enumerated device is ever looked at. */
  function PickPhysicalDevice(devices: ResultValue<seq<PhysicalDevice>>): (r: Option<PhysicalDevice>)
    ensures !Succeeded(devices) || devices.value == [] ==> r.None?
    ensures r.Some? <==> Succeeded(devices) && devices.value != [] && Qualifies(devices.value[0])
    ensures r.Some? ==> r.value == devices.value[0] && r == FirstQualifying(devices.value)
  {
    if devices.result != Success then None
    else if devices.value == [] then None
    else
      var device := devices.value[0];
      if !AllPresent(ExtensionNames(device.extensions.value), kRequiredDeviceExtensions) then None
      else if PickQueue(device, kAllCapabilitiesQueue).None? then None
      else Some(device)
  }

  /** A later qualifying device is never chosen: the program is not first-fit. */
  lemma OnlyFirstDeviceConsidered()
    ensures var bad := PhysicalDevice(1, ResultValue(Success, []), [QueueFamilyProperties({Graphics}, 1)]);
            var good := PhysicalDevice(2, ResultValue(Success, [ExtensionProperties(kSwapchainExtensionName, 70)]),
                                       [QueueFamilyProperties({Graphics}, 1)]);
            FirstQualifying([bad, good]) == Some(good)
            && PickPhysicalDevice(ResultValue(Success, [bad, good])) == None
  {
    var bad := PhysicalDevice(1, ResultValue(Success, []), [QueueFamilyProperties({Graphics}, 1)]);
    var good := PhysicalDevice(2, ResultValue(Success, [ExtensionProperties(kSwapchainExtensionName, 70)]),
                               [QueueFamilyProperties({Graphics}, 1)]);
    assert ExtensionNames(good.extensions.value) == {kSwapchainExtensionName};
    assert ExtensionNames(bad.extensions.value) == {};
    assert kRequiredDeviceExtensions[0] !in ExtensionNames(bad.extensions.value);
    assert !Qualifies(bad);
    assert Graphics in good.queueFamilies[0].queueFlags * kAllCapabilitiesQueue;
    assert Qualifies(good);
    assert [bad, good][1..] == [good];
  }

  /** A family that has only one of the three requested capabilities is picked:
      the flag test asks for a shared bit, not for all of them. */
  lemma QueueFlagsNeedOnlyOneSharedBit()
    ensures var device := PhysicalDevice(0, ResultValue(Success, []), [QueueFamilyProperties({Transfer}, 1)]);
            PickQueue(device, kAllCapabilitiesQueue) == Some(QueueIndex(0, 0))
            && !(kAllCapabilitiesQueue <= device.queueFamilies[0].queueFlags)
  {
    var device := PhysicalDevice(0, ResultValue(Success, []), [QueueFamilyProperties({Transfer}, 1)]);
    assert Transfer in device.queueFamilies[0].queueFlags * kAllCapabilitiesQueue;
    assert Graphics !in device.queueFamilies[0].queueFlags;
  }

  // ----------------------------------------------------------- create requests

  /** The logical-device request CreateDevice makes for a selected queue. */
  function DeviceRequest(queueIndex: QueueIndex): (info: DeviceCreateInfo)
    ensures |info.queueCreateInfos| == 1
    ensures info.queueCreateInfos[0].queueFamilyIndex == queueIndex.family
    ensures info.queueCreateInfos[0].queueCount == |info.queueCreateInfos[0].queuePriorities| == 1
    ensures info.enabledExtensionNames == kRequiredDeviceExtensions
    ensures info.enabledFeatures == {}
  {
    DeviceCreateInfo([DeviceQueueCreateInfo(queueIndex.family, 1, [1.0])], kRequiredDeviceExtensions, {})
  }

  /** CreateDevice: copies the required extension names one by one into the
      request, asks for one queue in the selected family, and yields a device
      only when the driver's create call succeeds. */
  method CreateDevice(device: PhysicalDevice, queueIndex: QueueIndex, createResult: VkResult) returns (r: Option<Device>)
    ensures r.Some? <==> createResult == Success
    ensures r.Some? ==> r.value.physicalDevice == device && r.value.info == DeviceRequest(queueIndex)
  {
    var requiredExtensions: seq<string> := [];
    for i := 0 to |kRequiredDeviceExtensions|
      invariant requiredExtensions == kRequiredDeviceExtensions[..i]
    {
      requiredExtensions := requiredExtensions + [kRequiredDeviceExtensions[i]];
    }
    var queuePriorities: seq<real> := [1.0];
    var queueInfo := DeviceQueueCreateInfo(queueIndex.family, |queuePriorities|, queuePriorities);
    var deviceInfo := DeviceCreateInfo([queueInfo], requiredExtensions, {});
    if createResult == Success {
      r := Some(Device(device, deviceInfo));
    } else {
      r := None;
    }
  }

  /** The instance request the constructor assembles from the probed extension
      set, or None when it gives up before creating the instance. */
  function InstanceRequest(supported: set<string>, additional: seq<string>): Option<InstanceCreateInfo>
  {
    if kSurfaceExtensionName !in supported then None
    else if !AllPresent(supported, additional) then None
    else
      var portable := kPortabilityEnumerationExtensionName in supported;
      Some(InstanceCreateInfo(
        if portable then {EnumeratePortability} else {},
        (if portable then [kPortabilityEnumerationExtensionName] else []) + [kSurfaceExtensionName] + additional))
  }

  /** The instance is requested exactly when the surface extension and every
      additional extension are supported; it then enables only supported
      extensions, the surface one included, the portability flag is set iff
      portability enumeration is supported, and the caller's extensions come
      last, in their own order. */
  lemma InstanceRequestEnablesOnlySupported(supported: set<string>, additional: seq<string>)
    ensures InstanceRequest(supported, additional).Some?
            <==> kSurfaceExtensionName in supported && AllPresent(supported, additional)
    ensures InstanceRequest(supported, additional).Some? ==>
              var info := InstanceRequest(supported, additional).value;
              var exts := info.enabledExtensionNames;
              (forall i :: 0 <= i < |exts| ==> exts[i] in supported)
              && kSurfaceExtensionName in exts
              && (EnumeratePortability in info.flags <==> kPortabilityEnumerationExtensionName in supported)
              && (kPortabilityEnumerationExtensionName in supported ==> exts[0] == kPortabilityEnumerationExtensionName)
              && |exts| >= |additional| + 1
              && exts[|exts| - |additional|..] == additional
  {
  }

  // ------------------------------------------------------------ construction

  /** The context's observable state: whether a capability probe was made, and
      the instance, physical device, queue index, device and validity fields. */
  datatype ContextState = ContextState(
    probed: bool,
    instance: Option<Instance>,
    physicalDevice: Option<PhysicalDevice>,
    queueIndex: QueueIndex,
    device: Option<Device>,
    isValid: bool)

  /** The state Context::Context leaves behind: each step either aborts, keeping
      what earlier steps stored, or goes on; validity is stored last. */
  function ConstructContext(procAddress: Option<ProcAddressCallback>, additional: seq<string>, driver: DriverResults): ContextState
  {
    if procAddress.None? then ContextState(false, None, None, kDefaultQueueIndex, None, false)
    else if !Succeeded(driver.instanceLayers) || !Succeeded(driver.instanceExtensions) then
      ContextState(true, None, None, kDefaultQueueIndex, None, false)
    else match InstanceRequest(ExtensionNames(driver.instanceExtensions.value), additional)
      case None => ContextState(true, None, None, kDefaultQueueIndex, None, false)
      case Some(info) =>
        if driver.createInstanceResult != Success then ContextState(true, None, None, kDefaultQueueIndex, None, false)
        else
          var instance := Some(Instance(info));
          match PickPhysicalDevice(driver.physicalDevices)
          case None => ContextState(true, instance, None, kDefaultQueueIndex, None, false)
          case Some(physical) =>
            match PickQueue(physical, kAllCapabilitiesQueue)
            case None => ContextState(true, instance, Some(physical), kDefaultQueueIndex, None, false)
            case Some(queueIndex) =>
              if driver.createDeviceResult != Success then
                ContextState(true, instance, Some(physical), queueIndex, None, false)
              else
                ContextState(true, instance, Some(physical), queueIndex,
                             Some(Device(physical, DeviceRequest(queueIndex))), true)
  }

  /** A null loader stops construction before anything is probed or created. */
  lemma NullLoaderLeavesContextInvalid(additional: seq<string>, driver: DriverResults)
    ensures var s := ConstructContext(None, additional, driver);
            !s.isValid && !s.probed && s.instance.None? && s.device.None?
  {
  }

  /** Construction gives up before creating the instance when the probe is
      invalid, the surface extension is missing, or any additional extension is
      unsupported. */
  lemma AbortsBeforeInstanceCreation(procAddress: Option<ProcAddressCallback>, additional: seq<string>, driver: DriverResults)
    requires !Succeeded(driver.instanceLayers) || !Succeeded(driver.instanceExtensions)
             || kSurfaceExtensionName !in ExtensionNames(driver.instanceExtensions.value)
             || exists i :: 0 <= i < |additional| && additional[i] !in ExtensionNames(driver.instanceExtensions.value)
    ensures var s := ConstructContext(procAddress, additional, driver);
            !s.isValid && s.instance.None? && s.physicalDevice.None? && s.device.None?
  {
  }

  /** A created instance enables exactly the assembled list: portability
      enumeration first when supported (with its create flag), then the surface
      extension, then the caller's extensions in set order. */
  lemma InstanceCreatedWithAssembledExtensions(procAddress: Option<ProcAddressCallback>, additional: seq<string>, driver: DriverResults)
    ensures var s := ConstructContext(procAddress, additional, driver);
            var supported := ExtensionNames(driver.instanceExtensions.value);
            var portable := kPortabilityEnumerationExtensionName in supported;
            s.instance.Some? ==>
              s.instance.value.info.enabledExtensionNames
                == (if portable then [kPortabilityEnumerationExtensionName] else []) + [kSurfaceExtensionName] + additional
              && (EnumeratePortability in s.instance.value.info.flags <==> portable)
              && AllPresent(supported, s.instance.value.info.enabledExtensionNames)
  {
  }

  /** The context is valid exactly when every step succeeds: a loader is given,
      both enumerations succeed, the instance request is possible and accepted,
      the first enumerated device qualifies, and the device is created. */
  lemma ContextValidIffEveryStepSucceeds(procAddress: Option<ProcAddressCallback>, additional: seq<string>, driver: DriverResults)
    ensures ConstructContext(procAddress, additional, driver).isValid
            <==> procAddress.Some?
                 && Succeeded(driver.instanceLayers) && Succeeded(driver.instanceExtensions)
                 && kSurfaceExtensionName in ExtensionNames(driver.instanceExtensions.value)
                 && AllPresent(ExtensionNames(driver.instanceExtensions.value), additional)
                 && driver.createInstanceResult == Success
                 && Succeeded(driver.physicalDevices) && driver.physicalDevices.value != []
                 && Qualifies(driver.physicalDevices.value[0])
                 && driver.createDeviceResult == Success
  {
  }

  /** A valid context holds every handle: the instance, the first enumerated
      device, queue 0 of that device's first family sharing a bit with the
      requested flags, and a device created with one queue in that family and
      exactly the required device extensions. */
  lemma ValidContextHoldsEveryHandle(procAddress: Option<ProcAddressCallback>, additional: seq<string>, driver: DriverResults)
    ensures var s := ConstructContext(procAddress, additional, driver);
            s.isValid ==>
              s.instance.Some? && s.physicalDevice == Some(driver.physicalDevices.value[0])
              && s.queueIndex.index == 0
              && s.queueIndex.family < |driver.physicalDevices.value[0].queueFamilies|
              && SharesBit(driver.physicalDevices.value[0].queueFamilies[s.queueIndex.family].queueFlags, kAllCapabilitiesQueue)
              && s.device.Some? && s.device.value.physicalDevice == driver.physicalDevices.value[0]
              && s.device.value.info.queueCreateInfos == [DeviceQueueCreateInfo(s.queueIndex.family, 1, [1.0])]
              && s.device.value.info.enabledExtensionNames == [kSwapchainExtensionName]
  {
  }

  /** With no physical devices the context is invalid and holds neither a
      physical device nor a device. */
  lemma EmptyDeviceListLeavesContextInvalid(procAddress: Option<ProcAddressCallback>, additional: seq<string>, driver: DriverResults)
    requires driver.physicalDevices.value == []
    ensures var s := ConstructContext(procAddress, additional, driver);
            !s.isValid && s.physicalDevice.None? && s.device.None?
  {
  }

  /** A failed device creation leaves the context invalid even though the
      instance and the physical device were already stored. */
  lemma DeviceFailureLeavesContextInvalid(procAddress: Option<ProcAddressCallback>, additional: seq<string>, driver: DriverResults)
    requires driver.createDeviceResult != Success
    ensures !ConstructContext(procAddress, additional, driver).isValid
    ensures ConstructContext(procAddress, additional, driver).device.None?
  {
  }

  class Context {
    var caps: Capabilities?
    var instance: Option<Instance>
    var physicalDevice: Option<PhysicalDevice>
    var queueIndex: QueueIndex
    var device: Option<Device>
    var isValid: bool

    function IsValid(): bool
      reads this
    {
      isValid
    }

    function State(): ContextState
      reads this
    {
      ContextState(caps != null, instance, physicalDevice, queueIndex, device, isValid)
    }

    /** Context::Context, given the loader, the caller's additional instance
        extensions (a std::set, hence ascending) and the driver's answers. */
    constructor (procAddress: Option<ProcAddressCallback>, additional: seq<string>, driver: DriverResults)
      requires IsOrderedSet(additional)
      ensures State() == ConstructContext(procAddress, additional, driver)
      ensures caps != null ==> fresh(caps)
                               && (caps.IsValid() <==> Succeeded(driver.instanceLayers) && Succeeded(driver.instanceExtensions))
                               && (caps.hasValidationLayers <==> Succeeded(driver.instanceLayers)
                                                                 && HasValidationLayer(driver.instanceLayers.value))
                               && caps.extensions == (if Succeeded(driver.instanceLayers) && Succeeded(driver.instanceExtensions)
                                                      then ExtensionNames(driver.instanceExtensions.value) else {})
    {
      caps := null;
      instance := None;
      physicalDevice := None;
      queueIndex := kDefaultQueueIndex;
      device := None;
      isValid := false;
      new;
      if procAddress.None? {
        return;
      }
      caps := new Capabilities(driver.instanceLayers, driver.instanceExtensions);
      if !caps.IsValid() {
        return;
      }
      ghost var supported := ExtensionNames(driver.instanceExtensions.value);
      assert caps.extensions == supported;

      var instanceFlags: set<InstanceCreateFlagBit> := {};
      var exts: seq<string> := [];
      if caps.HasExtension(kPortabilityEnumerationExtensionName) {
        exts := exts + [kPortabilityEnumerationExtensionName];
        instanceFlags := instanceFlags + {EnumeratePortability};
      }
      ghost var portable := kPortabilityEnumerationExtensionName in supported;
      assert exts == (if portable then [kPortabilityEnumerationExtensionName] else []);
      assert instanceFlags == (if portable then {EnumeratePortability} else {});
      if !caps.HasExtension(kSurfaceExtensionName) {
        return;
      } else {
        exts := exts + [kSurfaceExtensionName];
      }
      ghost var head := exts;
      for i := 0 to |additional|
        invariant exts == head + additional[..i]
        invariant forall j :: 0 <= j < i ==> additional[j] in supported
        invariant caps.extensions == supported && caps.isValid
        invariant State() == ContextState(true, None, None, kDefaultQueueIndex, None, false)
      {
        if !caps.HasExtension(additional[i]) {
          return;
        } else {
          exts := exts + [additional[i]];
        }
      }
      assert additional[..|additional|] == additional;
      assert AllPresent(supported, additional);
      assert kSurfaceExtensionName in supported;
      var instanceInfo := InstanceCreateInfo(instanceFlags, exts);
      assert InstanceRequest(supported, additional) == Some(instanceInfo);

      if driver.createInstanceResult != Success {
        return;
      }
      instance := Some(Instance(instanceInfo));

      var physical := PickPhysicalDevice(driver.physicalDevices);
      if physical.None? {
        return;
      }
      physicalDevice := physical;

      var queue := PickQueue(physical.value, kAllCapabilitiesQueue);
      if queue.None? {
        return;
      }
      queueIndex := queue.value;

      device := CreateDevice(physical.value, queueIndex, driver.createDeviceResult);
      if device.None? {
        return;
      }

      isValid := true;
    }

    /** Context::Make: a context only when construction left it valid. */
    static method Make(procAddress: Option<ProcAddressCallback>, additional: seq<string>, driver: DriverResults)
      returns (context: Context?)
      requires IsOrderedSet(additional)
      ensures context == null <==> !ConstructContext(procAddress, additional, driver).isValid
      ensures context != null ==> fresh(context) && context.IsValid()
                                  && context.State() == ConstructContext(procAddress, additional, driver)
    {
      var made := new Context(procAddress, additional, driver);
      if !made.IsValid() {
        return null;
      }
      return made;
    }
  }
}
