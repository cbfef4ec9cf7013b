/**
 * The adapter of lights/system/hue.py. A `HueLight` wraps one native light
 * and converts between the core's [0, 1] components and the native integer
 * scales with Python's `int()`, which truncates toward zero: brightness and
 * saturation by 254, hue by 56635 (the constant as the source writes it).
 * The brightness and the colour's brightness are one native field.
 */
module SystemHue {
  import opened Errors
  import opened Native
  import Hsb

  const HUE_FACTOR: int := 56635
  const SATURATION_FACTOR: int := 254
  const BRIGHTNESS_FACTOR: int := 254

  /** Python's `int(x)` on a float: the integer part, truncated toward zero. */
  function Int(x: real): (n: int)
    ensures 0.0 <= x ==> 0 <= n && n as real <= x < n as real + 1.0
    ensures x < 0.0 ==> n <= 0 && n as real - 1.0 < x <= n as real
  {
    if x >= 0.0 then x.Floor else -((-x).Floor)
  }

  /** `int()` leaves a whole number as it is. */
  lemma IntOfWhole(k: int)
    ensures Int(k as real) == k
  {
  }

  /** The native value stored for a [0, 1] component under `factor`. */
  function Encode(value: real, factor: int): real {
    Int(value * factor as real) as real
  }

  /** The [0, 1] component read back from a native value under `factor`. */
  function Decode(n: real, factor: int): real
    requires factor > 0
  {
    n / factor as real
  }

  /**
   * What truncation costs at the brightness and saturation scale: reading
   * back a written `value` gives at most `value` and misses it by less than
   * 1/254 (the mirror image for a negative value), and a reading that was
   * itself read back survives another write unchanged.
   */
  lemma ReadBack254(value: real)
    ensures var r := Decode(Encode(value, 254), 254);
      (0.0 <= value ==> 0.0 <= r <= value && value - r < 1.0 / 254.0) &&
      (value < 0.0 ==> value <= r <= 0.0 && r - value < 1.0 / 254.0)
    ensures var r := Decode(Encode(value, 254), 254);
      Encode(r, 254) == Encode(value, 254)
  {
    var n := Int(value * 254.0);
    assert Encode(value, 254) == n as real;
    assert Decode(n as real, 254) * 254.0 == n as real;
    IntOfWhole(n);
  }

  /** The same at the hue scale, 1/56635. */
  lemma ReadBack56635(value: real)
    ensures var r := Decode(Encode(value, 56635), 56635);
      (0.0 <= value ==> 0.0 <= r <= value && value - r < 1.0 / 56635.0) &&
      (value < 0.0 ==> value <= r <= 0.0 && r - value < 1.0 / 56635.0)
    ensures var r := Decode(Encode(value, 56635), 56635);
      Encode(r, 56635) == Encode(value, 56635)
  {
    var n := Int(value * 56635.0);
    assert Encode(value, 56635) == n as real;
    assert Decode(n as real, 56635) * 56635.0 == n as real;
    IntOfWhole(n);
  }

  /** `HueLight`: the wrapper keeps one native light for its whole life. */
  datatype HueLight = HueLight(native: NativeLight)
  {
    /** `name`: read from the native light; there is no setter. */
    function Name(): (r: string)
      ensures r == native.name
    {
      native.name
    }

    /** `brightness`: the native brightness divided by 254. */
    function Brightness(): (r: real)
      reads native
      ensures r * 254.0 == native.brightness
    {
      Decode(native.brightness, BRIGHTNESS_FACTOR)
    }

    /**
     * `brightness = value`: stores `int(value * 254)`. Reading back gives at
     * most `value`, less than 1/254 below it, for a non-negative `value`.
     */
    method SetBrightness(value: real)
      modifies native
      ensures native.brightness == Encode(value, BRIGHTNESS_FACTOR)
      ensures 0.0 <= value ==> Brightness() <= value && value - Brightness() < 1.0 / 254.0
      ensures value < 0.0 ==> value <= Brightness() && Brightness() - value < 1.0 / 254.0
      ensures native.on == old(native.on)
      ensures native.hue == old(native.hue) && native.saturation == old(native.saturation)
    {
      native.brightness := Encode(value, BRIGHTNESS_FACTOR);
      ReadBack254(value);
    }

    /** `on`: read from the native light. */
    function On(): (r: bool)
      reads native
      ensures r == native.on
    {
      native.on
    }

    /** `on = value`: reading it back gives `value`, and hue, saturation and brightness are kept. */
    method SetOn(value: bool)
      modifies native
      ensures On() == value
      ensures native.brightness == old(native.brightness)
      ensures native.hue == old(native.hue) && native.saturation == old(native.saturation)
    {
      native.on := value;
    }

    /** `color`: the three native fields, each divided by its factor. */
    function Color(): (c: Hsb.HSBColor)
      reads native
      ensures c.hue * 56635.0 == native.hue
      ensures c.saturation * 254.0 == native.saturation
      ensures c.brightness == Brightness()
    {
      Hsb.HSBColor(
        Decode(native.hue, HUE_FACTOR),
        Decode(native.saturation, SATURATION_FACTOR),
        Decode(native.brightness, BRIGHTNESS_FACTOR))
    }

    /**
     * `color = c`: writes all three native fields, each truncated. The
     * brightness getter then answers `int(c.brightness * 254) / 254`, and
     * every component read back is within one step of its scale of what was
     * written, on the side of zero.
     */
    method SetColor(color: Hsb.HSBColor)
      modifies native
      ensures native.hue == Encode(color.hue, HUE_FACTOR)
      ensures native.saturation == Encode(color.saturation, SATURATION_FACTOR)
      ensures native.brightness == Encode(color.brightness, BRIGHTNESS_FACTOR)
      ensures Brightness() == Decode(Encode(color.brightness, 254), 254)
      ensures 0.0 <= color.hue ==> Color().hue <= color.hue && color.hue - Color().hue < 1.0 / 56635.0
      ensures 0.0 <= color.saturation ==>
        Color().saturation <= color.saturation && color.saturation - Color().saturation < 1.0 / 254.0
      ensures 0.0 <= color.brightness ==>
        Color().brightness <= color.brightness && color.brightness - Color().brightness < 1.0 / 254.0
      ensures color.hue < 0.0 ==> color.hue <= Color().hue && Color().hue - color.hue < 1.0 / 56635.0
      ensures color.saturation < 0.0 ==>
        color.saturation <= Color().saturation && Color().saturation - color.saturation < 1.0 / 254.0
      ensures color.brightness < 0.0 ==>
        color.brightness <= Color().brightness && Color().brightness - color.brightness < 1.0 / 254.0
      ensures native.on == old(native.on)
    {
      native.hue := Encode(color.hue, HUE_FACTOR);
      native.saturation := Encode(color.saturation, SATURATION_FACTOR);
      native.brightness := Encode(color.brightness, BRIGHTNESS_FACTOR);
      ReadBack56635(color.hue);
      ReadBack254(color.saturation);
      ReadBack254(color.brightness);
    }
  }

  /** `HueSystem`: a bridge and the wrappers around its lights. */
  datatype HueSystem = HueSystem(bridge: Bridge)
  {
    /** `connect`: the bridge's handshake. */
    method Connect() returns (r: Outcome)
      modifies bridge
      ensures r == Pass <==> bridge.reachable
      ensures r != Pass ==> r == Fail(ConnectionError)
      ensures bridge.connected == (bridge.reachable || old(bridge.connected))
    {
      r := bridge.Connect();
    }

    /** `lights`: one wrapper per bridge light, in the bridge's order. */
    function Lights(): (ls: seq<HueLight>)
      ensures |ls| == |bridge.lights|
      ensures forall i :: 0 <= i < |ls| ==> ls[i].native == bridge.lights[i]
    {
      seq(|bridge.lights|, i requires 0 <= i < |bridge.lights| => HueLight(bridge.lights[i]))
    }
  }
}
