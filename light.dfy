/**
 * The base classes of lights/light.py. A base `Light` has no state: its
 * getters return `None` and its setters raise. A base `LightSystem` connects
 * without doing anything and cannot list lights. The adapters fall back on
 * these wherever they do not override a member.
 */
module LightBase {
  import opened Errors

  /** What setting the brightness of a base light raises. */
  const BRIGHTNESS_NOT_SUPPORTED := NotImplementedError("Setting the brightness is not supported")

  /** What setting the colour of a base light raises. */
  const COLOR_NOT_SUPPORTED := NotImplementedError("Setting the color is not supported")

  /** What asking a base light system for its lights raises. */
  const CANNOT_FETCH_LIGHTS := NotImplementedError("Cannot fetch lights")

  /** `Light.name`: no name. */
  function Name(): (r: Option<string>)
    ensures r.None?
  {
    None
  }

  /** `Light.brightness`: no brightness. */
  function Brightness(): (r: Option<real>)
    ensures r.None?
  {
    None
  }

  /** `Light.brightness = value`: refused, whatever the value. */
  function SetBrightness(value: real): (r: Outcome)
    ensures r.Fail? && r.error == BRIGHTNESS_NOT_SUPPORTED
  {
    Fail(BRIGHTNESS_NOT_SUPPORTED)
  }

  /** `Light.color`: no colour, whatever colour class is asked for. */
  function Color<C>(): (r: Option<C>)
    ensures r.None?
  {
    None
  }

  /** `Light.color = color`: refused, whatever the colour. */
  function SetColor<C>(color: C): (r: Outcome)
    ensures r.Fail? && r.error == COLOR_NOT_SUPPORTED
  {
    Fail(COLOR_NOT_SUPPORTED)
  }

  /** `LightSystem.connect`: returns without doing anything; as a function it changes no state. */
  function Connect(): (r: Outcome)
    ensures r.Pass?
  {
    Pass
  }

  /** `LightSystem.lights`: always raises. */
  function Lights<L>(): (r: Result<seq<L>>)
    ensures r.Err? && r.error == CANNOT_FETCH_LIGHTS
  {
    Err(CANNOT_FETCH_LIGHTS)
  }
}
