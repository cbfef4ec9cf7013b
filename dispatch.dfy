/**
 * The light and light-system objects a program holds, over which Python
 * dispatches each attribute access to the class of the object: a wrapper of
 * lights/hue.py or of lights/system/hue.py, and a bare base `LightSystem` or
 * one of the two `HueSystem` classes. Nested combined systems are not part of
 * this model.
 */
module Dispatch {
  import opened Errors
  import opened Native
  import LightBase
  import Hue
  import SystemHue
  import Hsb

  /** A light object, by class. */
  datatype Light =
    | Legacy(legacy: Hue.HueLight)
    | Current(current: SystemHue.HueLight)
  {
    /** The native light the wrapper holds. */
    function Wrapped(): NativeLight {
      match this
      case Legacy(l) => l.native
      case Current(l) => l.native
    }

    /** `light.name`. */
    function Name(): (r: string)
      ensures r == Wrapped().name
    {
      match this
      case Legacy(l) => l.Name()
      case Current(l) => l.Name()
    }

    /** `light.on`. */
    function On(): (r: bool)
      reads Wrapped()
      ensures r == Wrapped().on
    {
      Wrapped().on
    }

    /** `light.on = value`: only the native `on` changes. */
    method SetOn(value: bool)
      modifies Wrapped()
      ensures On() == value
      ensures Wrapped().brightness == old(Wrapped().brightness)
      ensures Wrapped().hue == old(Wrapped().hue) && Wrapped().saturation == old(Wrapped().saturation)
    {
      match this
      case Legacy(l) => l.SetOn(value);
      case Current(l) => l.SetOn(value);
    }

    /**
     * What a `toggle` method would do, had the light classes one: flip `on`
     * and nothing else. Neither adapter class nor the base class defines it.
     */
    method Toggle()
      modifies Wrapped()
      ensures On() == !old(On())
      ensures Wrapped().brightness == old(Wrapped().brightness)
      ensures Wrapped().hue == old(Wrapped().hue) && Wrapped().saturation == old(Wrapped().saturation)
    {
      SetOn(!On());
    }

    /** `light.brightness`. */
    function Brightness(): (r: real)
      reads Wrapped()
      ensures Legacy? ==> Hue.EncodeBrightness(r) == Wrapped().brightness
      ensures Current? ==> r * 254.0 == Wrapped().brightness
    {
      match this
      case Legacy(l) => l.Brightness()
      case Current(l) => l.Brightness()
    }

    /** The native brightness this light's class stores for a brightness `value`. */
    function EncodeBrightness(value: real): real {
      match this
      case Legacy(_) => Hue.EncodeBrightness(value)
      case Current(_) => SystemHue.Encode(value, SystemHue.BRIGHTNESS_FACTOR)
    }

    /** `light.brightness = value`: only the native brightness changes. */
    method SetBrightness(value: real)
      modifies Wrapped()
      ensures Wrapped().brightness == EncodeBrightness(value)
      ensures Wrapped().on == old(Wrapped().on)
      ensures Wrapped().hue == old(Wrapped().hue) && Wrapped().saturation == old(Wrapped().saturation)
    {
      match this
      case Legacy(l) => l.SetBrightness(value);
      case Current(l) => l.SetBrightness(value);
    }

    /** Whether the light's class overrides the colour setter. */
    predicate SupportsColor() {
      Current?
    }

    /** `light.color`: `None` from the base class where the class does not override it. */
    function Color(): (r: Option<Hsb.HSBColor>)
      reads Wrapped()
      ensures r.Some? <==> SupportsColor()
      ensures Current? ==> r == Some(current.Color())
    {
      match this
      case Legacy(l) => l.Color<Hsb.HSBColor>()
      case Current(l) => Some(l.Color())
    }

    /**
     * `light.color = color`: the base class refuses it and nothing changes;
     * the newer adapter writes the three encoded native fields.
     */
    method SetColor(color: Hsb.HSBColor) returns (r: Outcome)
      modifies Wrapped()
      ensures r == Pass <==> SupportsColor()
      ensures r != Pass ==> r == Fail(LightBase.COLOR_NOT_SUPPORTED)
      ensures r != Pass ==> unchanged(Wrapped())
      ensures r == Pass ==> HasColor(Wrapped(), color)
      ensures Wrapped().on == old(Wrapped().on)
    {
      match this
      case Legacy(l) =>
        r := l.SetColor(color);
      case Current(l) =>
        l.SetColor(color);
        r := Pass;
    }
  }

  /** The native fields hold `color` as the newer adapter encodes it. */
  ghost predicate HasColor(n: NativeLight, color: Hsb.HSBColor)
    reads n
  {
    n.hue == SystemHue.Encode(color.hue, SystemHue.HUE_FACTOR) &&
    n.saturation == SystemHue.Encode(color.saturation, SystemHue.SATURATION_FACTOR) &&
    n.brightness == SystemHue.Encode(color.brightness, SystemHue.BRIGHTNESS_FACTOR)
  }

  /** The native lights a selection wraps, in selection order. */
  function Natives(lights: seq<Light>): (ns: seq<NativeLight>)
    ensures |ns| == |lights|
    ensures forall i :: 0 <= i < |lights| ==> ns[i] == lights[i].Wrapped()
  {
    seq(|lights|, i requires 0 <= i < |lights| => lights[i].Wrapped())
  }

  /** A light-system object, by class. */
  datatype LightSystem =
    | Base
    | LegacyHue(legacy: Hue.HueSystem)
    | CurrentHue(current: SystemHue.HueSystem)
  {
    /** The bridges the system talks to. */
    function Bridges(): set<Bridge> {
      match this
      case Base => {}
      case LegacyHue(s) => {s.bridge}
      case CurrentHue(s) => {s.bridge}
    }

    /** Whether `connect` returns normally. */
    predicate Reachable() {
      match this
      case Base => true
      case LegacyHue(s) => s.bridge.reachable
      case CurrentHue(s) => s.bridge.reachable
    }

    /** `system.connect()`: the base class does nothing; a Hue system shakes hands with its bridge. */
    method Connect() returns (r: Outcome)
      modifies Bridges()
      ensures r == Pass <==> Reachable()
      ensures r != Pass ==> r == Fail(ConnectionError)
      ensures forall b :: b in Bridges() ==> b.connected == (b.reachable || old(b.connected))
      ensures r == Pass ==> forall b :: b in Bridges() ==> b.connected
    {
      match this
      case Base =>
        r := LightBase.Connect();
      case LegacyHue(s) =>
        r := s.Connect();
      case CurrentHue(s) =>
        r := s.Connect();
    }

    /** The number of lights the system lists when it can list them. */
    function LightCount(): nat {
      match this
      case Base => 0
      case LegacyHue(s) => |s.bridge.lights|
      case CurrentHue(s) => |s.bridge.lights|
    }

    /**
     * `system.lights`: the base class raises; a Hue system lists one wrapper
     * of its own adapter class per bridge light, in the bridge's order.
     */
    function Lights(): (r: Result<seq<Light>>)
      ensures r.Ok? <==> !Base?
      ensures r.Err? ==> r.error == LightBase.CANNOT_FETCH_LIGHTS
      ensures r.Ok? ==> |r.value| == LightCount()
      ensures LegacyHue? ==> forall i :: 0 <= i < |r.value| ==>
        r.value[i].Legacy? && r.value[i].Wrapped() == legacy.bridge.lights[i]
      ensures CurrentHue? ==> forall i :: 0 <= i < |r.value| ==>
        r.value[i].Current? && r.value[i].Wrapped() == current.bridge.lights[i]
    {
      match this
      case Base => LightBase.Lights()
      case LegacyHue(s) =>
        var ls := s.Lights();
        Ok(seq(|ls|, i requires 0 <= i < |ls| => Legacy(ls[i])))
      case CurrentHue(s) =>
        var ls := s.Lights();
        Ok(seq(|ls|, i requires 0 <= i < |ls| => Current(ls[i])))
    }
  }
}
