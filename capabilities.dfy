/** Instance capability probing (capabilities.cc): the set of instance
    extension names, whether the Khronos validation layer is present, and the
    "every required extension is supported" checks for the instance and for a
    physical device. */
module CapabilityProbe {
  import opened Vk

  predicate IsValidationLayer(layer: LayerProperties) {
    layer.layerName == kValidationLayerName
  }

  /** Some enumerated layer is the Khronos validation layer. */
  predicate HasValidationLayer(layers: seq<LayerProperties>) {
    exists i :: 0 <= i < |layers| && IsValidationLayer(layers[i])
  }

  /** std::find_if with the layer-name predicate: the position of the first
      validation layer, or |layers| (the end iterator) when there is none. */
  method FindValidationLayer(layers: seq<LayerProperties>) returns (pos: nat)
    ensures pos <= |layers|
    ensures pos < |layers| ==> IsValidationLayer(layers[pos])
    ensures forall j :: 0 <= j < pos ==> !IsValidationLayer(layers[j])
    ensures pos < |layers| <==> HasValidationLayer(layers)
  {
    pos := 0;
    while pos < |layers| && !IsValidationLayer(layers[pos])
      invariant pos <= |layers|
      invariant forall j :: 0 <= j < pos ==> !IsValidationLayer(layers[j])
    {
      pos := pos + 1;
    }
  }

  /** The names inserted into a std::set<std::string>, one enumerated extension
      after another. */
  function ExtensionNames(exts: seq<ExtensionProperties>): set<string>
  {
    if exts == [] then {}
    else ExtensionNames(exts[..|exts| - 1]) + {exts[|exts| - 1].extensionName}
  }

  /** The set holds exactly the enumerated names. */
  lemma {:induction false} ExtensionNamesMembership(exts: seq<ExtensionProperties>, name: string)
    ensures name in ExtensionNames(exts) <==> exists i :: 0 <= i < |exts| && exts[i].extensionName == name
  {
    if exts != [] {
      var init := exts[..|exts| - 1];
      ExtensionNamesMembership(init, name);
      if name in ExtensionNames(init) {
        var i :| 0 <= i < |init| && init[i].extensionName == name;
        assert exts[i].extensionName == name;
      }
      if exists i :: 0 <= i < |exts| && exts[i].extensionName == name {
        var i :| 0 <= i < |exts| && exts[i].extensionName == name;
        if i < |init| {
          assert init[i].extensionName == name;
        }
      }
    }
  }

  /** Duplicate names collapse: the set is never larger than the enumeration. */
  lemma {:induction false} ExtensionNamesCollapseDuplicates(exts: seq<ExtensionProperties>)
    ensures |ExtensionNames(exts)| <= |exts|
  {
    if exts != [] {
      ExtensionNamesCollapseDuplicates(exts[..|exts| - 1]);
    }
  }

  /** The insert loop of both `*HasAllExtensions` checks. The constructor runs
      its own copy of this loop inline, on its `extensions` field. */
  method CollectExtensionNames(exts: seq<ExtensionProperties>) returns (names: set<string>)
    ensures names == ExtensionNames(exts)
  {
    names := {};
    for i := 0 to |exts|
      invariant names == ExtensionNames(exts[..i])
    {
      assert exts[..i + 1][..i] == exts[..i];
      names := names + {exts[i].extensionName};
    }
    assert exts[..|exts|] == exts;
  }

  /** Every required name is supported. */
  predicate AllPresent(supported: set<string>, required: seq<string>) {
    forall i :: 0 <= i < |required| ==> required[i] in supported
  }

  /** The first required name, from position `from` on, that is not supported. */
  function FirstMissingFrom(supported: set<string>, required: seq<string>, from: nat): (r: Option<string>)
    requires from <= |required|
    decreases |required| - from
    ensures r.None? <==> forall j :: from <= j < |required| ==> required[j] in supported
    ensures r.Some? ==> exists k :: from <= k < |required| && required[k] == r.value && r.value !in supported
                                    && forall j :: from <= j < k ==> required[j] in supported
  {
    if from == |required| then None
    else if required[from] !in supported then Some(required[from])
    else FirstMissingFrom(supported, required, from + 1)
  }

  /** The single name the checks report when they give up: the first missing one. */
  function FirstMissing(supported: set<string>, required: seq<string>): (r: Option<string>)
    ensures r.None? <==> AllPresent(supported, required)
    ensures r.Some? ==> r.value in required && r.value !in supported
  {
    FirstMissingFrom(supported, required, 0)
  }

  /** The scan of the `*HasAllExtensions` checks: stops at the first missing
      name and reports that one only. */
  method ScanRequired(supported: set<string>, required: seq<string>) returns (ok: bool, reported: Option<string>)
    ensures ok <==> AllPresent(supported, required)
    ensures reported == FirstMissing(supported, required)
  {
    for i := 0 to |required|
      invariant FirstMissing(supported, required) == FirstMissingFrom(supported, required, i)
    {
      if required[i] !in supported {
        return false, Some(required[i]);
      }
    }
    return true, None;
  }

  /** Capabilities::InstanceHasAllExtensions. The instance enumeration is read
      without looking at its result code. `reported` is the name the check logs. */
  method InstanceHasAllExtensions(instanceExtensions: ResultValue<seq<ExtensionProperties>>, required: seq<string>)
    returns (ok: bool, reported: Option<string>)
    ensures ok <==> forall i :: 0 <= i < |required| ==> required[i] in ExtensionNames(instanceExtensions.value)
    ensures reported == FirstMissing(ExtensionNames(instanceExtensions.value), required)
  {
    var supported := CollectExtensionNames(instanceExtensions.value);
    ok, reported := ScanRequired(supported, required);
  }

  /** Capabilities::DeviceHasAllExtensions: the same check over the device's
      extension enumeration, also read without looking at its result code. */
  method DeviceHasAllExtensions(device: PhysicalDevice, required: seq<string>)
    returns (ok: bool, reported: Option<string>)
    ensures ok <==> forall i :: 0 <= i < |required| ==> required[i] in ExtensionNames(device.extensions.value)
    ensures reported == FirstMissing(ExtensionNames(device.extensions.value), required)
  {
    var supported := CollectExtensionNames(device.extensions.value);
    ok, reported := ScanRequired(supported, required);
  }

  /** An empty requirement list is always met, whatever is supported. */
  lemma NothingRequiredIsAlwaysPresent(supported: set<string>)
    ensures FirstMissing(supported, []) == None
  {
  }

  /** With {"X", "Y"} supported, ["X"] is met and ["X", "Z"] fails naming "Z". */
  lemma MissingNameIsReported()
    ensures FirstMissing({"X", "Y"}, ["X"]) == None
    ensures FirstMissing({"X", "Y"}, ["X", "Z"]) == Some("Z")
  {
  }

  /** The probed instance capabilities. All three fields keep their initial
      values when an enumeration fails. */
  class Capabilities {
    var hasValidationLayers: bool
    var extensions: set<string>
    var isValid: bool

    function IsValid(): bool
      reads this
    {
      isValid
    }

    function HasExtension(ext: string): bool
      reads this
    {
      ext in extensions
    }

    /** Capabilities::Capabilities, given the two instance enumerations it makes. */
    constructor (layers: ResultValue<seq<LayerProperties>>, exts: ResultValue<seq<ExtensionProperties>>)
      ensures IsValid() <==> Succeeded(layers) && Succeeded(exts)
      ensures hasValidationLayers <==> Succeeded(layers) && HasValidationLayer(layers.value)
      ensures extensions == if Succeeded(layers) && Succeeded(exts) then ExtensionNames(exts.value) else {}
      ensures forall e :: HasExtension(e) <==> IsValid() && e in ExtensionNames(exts.value)
    {
      hasValidationLayers := false;
      extensions := {};
      isValid := false;
      new;
      if layers.result != Success {
        return;
      }
      var pos := FindValidationLayer(layers.value);
      hasValidationLayers := pos != |layers.value|;
      if exts.result != Success {
        return;
      }
      for i := 0 to |exts.value|
        invariant extensions == ExtensionNames(exts.value[..i])
        invariant !isValid
        invariant hasValidationLayers <==> HasValidationLayer(layers.value)
      {
        assert exts.value[..i + 1][..i] == exts.value[..i];
        extensions := extensions + {exts.value[i].extensionName};
      }
      assert exts.value[..|exts.value|] == exts.value;
      isValid := true;
    }
  }
}
