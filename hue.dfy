/**
 * The adapter of lights/hue.py, the one the command-line program builds. A
 * `HueLight` wraps one native light and converts between the core's [0, 1]
 * brightness and the native scale by the factor 255, without rounding. It
 * does not override `color`, so the base class's colour members apply.
 */
module Hue {
  import opened Errors
  import opened Native
  import LightBase

  const BRIGHTNESS_FACTOR: real := 255.0

  /** The native brightness stored for a brightness `value`. */
  function EncodeBrightness(value: real): real {
    value * BRIGHTNESS_FACTOR
  }

  /** The brightness read back from a native brightness `n`. */
  function DecodeBrightness(n: real): real {
    n / BRIGHTNESS_FACTOR
  }

  /** The two conversions are inverse to each other: no brightness is lost either way. */
  lemma BrightnessRoundTrip(value: real, n: real)
    ensures DecodeBrightness(EncodeBrightness(value)) == value
    ensures EncodeBrightness(DecodeBrightness(n)) == n
  {
  }

  /** `HueLight`: the wrapper keeps one native light for its whole life. */
  datatype HueLight = HueLight(native: NativeLight)
  {
    /** `name`: read from the native light; there is no setter. */
    function Name(): (r: string)
      ensures r == native.name
    {
      native.name
    }

    /** `brightness`: the native brightness divided by 255. */
    function Brightness(): (r: real)
      reads native
      ensures EncodeBrightness(r) == native.brightness
      ensures native.brightness == 0.0 ==> r == 0.0
      ensures native.brightness == BRIGHTNESS_FACTOR ==> r == 1.0
    {
      DecodeBrightness(native.brightness)
    }

    /** `brightness = value`: stores `value * 255`; reading it back gives `value` exactly. */
    method SetBrightness(value: real)
      modifies native
      ensures native.brightness == EncodeBrightness(value)
      ensures Brightness() == value
      ensures native.on == old(native.on)
      ensures native.hue == old(native.hue) && native.saturation == old(native.saturation)
    {
      native.brightness := EncodeBrightness(value);
    }

    /** `on`: read from the native light. */
    function On(): (r: bool)
      reads native
      ensures r == native.on
    {
      native.on
    }

    /** `on = value`: reading it back gives `value`, and nothing else changes. */
    method SetOn(value: bool)
      modifies native
      ensures On() == value
      ensures native.brightness == old(native.brightness)
      ensures native.hue == old(native.hue) && native.saturation == old(native.saturation)
    {
      native.on := value;
    }

    /** `color`: not overridden (the override is commented out), so the base getter answers. */
    function Color<C>(): (r: Option<C>)
      ensures r == LightBase.Color<C>()
      ensures r.None?
    {
      LightBase.Color<C>()
    }

    /** `color = c`: not overridden, so the base setter refuses it, and no native field changes. */
    function SetColor<C>(color: C): (r: Outcome)
      ensures r == Fail(LightBase.COLOR_NOT_SUPPORTED)
    {
      LightBase.SetColor(color)
    }
  }

  /** `HueSystem`: a bridge and the wrappers around its lights. */
  datatype HueSystem = HueSystem(bridge: Bridge)
  {
    /** `connect`: the bridge's handshake. */
    method Connect() returns (r: Outcome)
      modifies bridge
      ensures r == Pass <==> bridge.reachable
      ensures r != Pass ==> r == Fail(ConnectionError)
      ensures bridge.connected == (bridge.reachable || old(bridge.connected))
    {
      r := bridge.Connect();
    }

    /** `lights`: one wrapper per bridge light, in the bridge's order. */
    function Lights(): (ls: seq<HueLight>)
      ensures |ls| == |bridge.lights|
      ensures forall i :: 0 <= i < |ls| ==> ls[i].native == bridge.lights[i]
    {
      seq(|bridge.lights|, i requires 0 <= i < |bridge.lights| => HueLight(bridge.lights[i]))
    }
  }
}
