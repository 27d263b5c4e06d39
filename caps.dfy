/** The older, layer-only capability probe (caps.cc): valid once the instance
    layers can be enumerated, and remembers whether the validation layer is
    among them. */
module LayerProbe {
  import opened Vk
  import CapabilityProbe

  class Caps {
    var hasValidationLayers: bool
    var isValid: bool

    function IsValid(): bool
      reads this
    {
      isValid
    }

    function HasValidationLayers(): bool
      reads this
    {
      hasValidationLayers
    }

    /** Caps::Caps, given the layer enumeration it makes. */
    constructor (layers: ResultValue<seq<LayerProperties>>)
      ensures IsValid() <==> Succeeded(layers)
      ensures HasValidationLayers() <==> Succeeded(layers) && CapabilityProbe.HasValidationLayer(layers.value)
    {
      hasValidationLayers := false;
      isValid := false;
      new;
      if layers.result != Success {
        return;
      }
      var pos := CapabilityProbe.FindValidationLayer(layers.value);
      hasValidationLayers := pos != |layers.value|;
      isValid := true;
    }
  }
}
