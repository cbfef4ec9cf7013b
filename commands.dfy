/**
 * The batch commands of lights/__init__.py and the light selection of its
 * `main`. Each command loops over the selected lights in selection order and
 * assigns an attribute of each; `dim` and `color` first work out the value
 * to assign and raise before any light is touched when they cannot.
 * Parsing a float and `lights_with_name` are passed in as functions; the
 * colour palette is passed in as a dictionary.
 */
module Commands {
  import opened Errors
  import opened Dicts
  import opened Native
  import opened Dispatch
  import LightBase
  import Hsb

  /** The message `dim` raises when its argument is missing or not a number. */
  const DIM_USAGE := "Please enter an integer between 0 and 100!"

  /** The prefix of the message `color` raises for an unknown colour name. */
  const UNKNOWN_COLOR := "Unrecognized color, try one of these: "

  /**
   * The selection: every light with `--all`, else the lights carrying the
   * name when a non-empty name is given, else none (the program only warns).
   */
  function Select(selectAll: bool, name: Option<string>, allLights: Result<seq<Light>>,
                  lightsWithName: string -> Result<seq<Light>>): (r: Result<seq<Light>>)
    ensures selectAll ==> r == allLights
    ensures !selectAll && name.Some? && name.value != "" ==> r == lightsWithName(name.value)
    ensures !selectAll && (name.None? || name.value == "") ==> r == Ok([])
  {
    if selectAll then allLights
    else if name.Some? && name.value != "" then lightsWithName(name.value)
    else Ok([])
  }

  /**
   * Without `--all` and without a name, nothing is selected, so the set of
   * native lights any command may change is empty.
   */
  lemma NoSelectionChangesNothing(name: Option<string>, allLights: Result<seq<Light>>,
                                  lightsWithName: string -> Result<seq<Light>>)
    requires name.None? || name.value == ""
    ensures Select(false, name, allLights, lightsWithName).Ok?
    ensures (set l | l in Select(false, name, allLights, lightsWithName).value :: l.Wrapped()) == {}
  {
  }

  /** Sets `on` to `value` on every selected light; no other attribute of any native light changes. */
  method SwitchAll(lights: seq<Light>, value: bool)
    modifies set l | l in lights :: l.Wrapped()
    ensures forall i :: 0 <= i < |lights| ==> lights[i].On() == value
    ensures forall i :: 0 <= i < |lights| ==> var n := lights[i].Wrapped();
      n.brightness == old(n.brightness) && n.hue == old(n.hue) && n.saturation == old(n.saturation)
  {
    var i := 0;
    while i < |lights|
      invariant 0 <= i <= |lights|
      invariant forall j :: 0 <= j < i ==> lights[j].On() == value
      invariant forall j :: 0 <= j < |lights| ==> var n := lights[j].Wrapped();
        n.brightness == old(n.brightness) && n.hue == old(n.hue) && n.saturation == old(n.saturation)
    {
      lights[i].SetOn(value);
      i := i + 1;
    }
  }

  /** `on_command`: every selected light is on. */
  method OnCommand(lights: seq<Light>)
    modifies set l | l in lights :: l.Wrapped()
    ensures forall i :: 0 <= i < |lights| ==> lights[i].On()
    ensures forall i :: 0 <= i < |lights| ==> var n := lights[i].Wrapped();
      n.brightness == old(n.brightness) && n.hue == old(n.hue) && n.saturation == old(n.saturation)
  {
    SwitchAll(lights, true);
  }

  /** `off_command`: every selected light is off. */
  method OffCommand(lights: seq<Light>)
    modifies set l | l in lights :: l.Wrapped()
    ensures forall i :: 0 <= i < |lights| ==> !lights[i].On()
    ensures forall i :: 0 <= i < |lights| ==> var n := lights[i].Wrapped();
      n.brightness == old(n.brightness) && n.hue == old(n.hue) && n.saturation == old(n.saturation)
  {
    SwitchAll(lights, false);
  }

  /**
   * The brightness of the native light `n`, from `before`, once `value` has
   * been assigned through every light of `lights` in turn: each light that
   * wraps `n` stores `value` in its own class's encoding, so the last of
   * them decides.
   */
  function BrightnessAfter(lights: seq<Light>, n: NativeLight, value: real, before: real): real {
    if lights == [] then before
    else if lights[|lights| - 1].Wrapped() == n then lights[|lights| - 1].EncodeBrightness(value)
    else BrightnessAfter(lights[..|lights| - 1], n, value, before)
  }

  /** Extending a prefix by one light makes that light the last writer of its native light only. */
  lemma BrightnessAfterStep(lights: seq<Light>, i: nat, value: real)
    requires i < |lights|
    ensures forall n, before ::
      BrightnessAfter(lights[..i + 1], n, value, before) ==
        (if lights[i].Wrapped() == n then lights[i].EncodeBrightness(value)
         else BrightnessAfter(lights[..i], n, value, before))
  {
    var prefix := lights[..i + 1];
    assert prefix[..i] == lights[..i];
    assert prefix[i] == lights[i];
    forall n, before
      ensures BrightnessAfter(prefix, n, value, before) ==
        (if lights[i].Wrapped() == n then lights[i].EncodeBrightness(value) else BrightnessAfter(lights[..i], n, value, before))
    {
    }
  }

  /**
   * Assigns `value` as the brightness of every selected light, in order;
   * no other attribute changes.
   */
  method DimAll(lights: seq<Light>, value: real)
    modifies set l | l in lights :: l.Wrapped()
    ensures forall i :: 0 <= i < |lights| ==> var n := lights[i].Wrapped();
      n.brightness == BrightnessAfter(lights, n, value, old(n.brightness))
    ensures forall i :: 0 <= i < |lights| ==> var n := lights[i].Wrapped();
      n.on == old(n.on) && n.hue == old(n.hue) && n.saturation == old(n.saturation)
  {
    var i := 0;
    while i < |lights|
      invariant 0 <= i <= |lights|
      invariant forall j :: 0 <= j < |lights| ==> var n := lights[j].Wrapped();
        n.brightness == BrightnessAfter(lights[..i], n, value, old(n.brightness))
      invariant forall j :: 0 <= j < |lights| ==> var n := lights[j].Wrapped();
        n.on == old(n.on) && n.hue == old(n.hue) && n.saturation == old(n.saturation)
    {
      BrightnessAfterStep(lights, i, value);
      lights[i].SetBrightness(value);
      i := i + 1;
    }
    assert lights[..i] == lights;
  }

  /**
   * `dim_command`: reads the first argument as a float, raising a
   * `ValueError` before any light changes when it is missing or not a
   * number; then assigns `arg / 100` as the brightness of every selected
   * light, without clamping.
   */
  method DimCommand(lights: seq<Light>, args: seq<string>, parseFloat: string -> Option<real>) returns (r: Outcome)
    modifies set l | l in lights :: l.Wrapped()
    ensures r == Pass <==> |args| > 0 && parseFloat(args[0]).Some?
    ensures r != Pass ==> r == Fail(ValueError(DIM_USAGE))
    ensures r != Pass ==> forall i :: 0 <= i < |lights| ==> unchanged(lights[i].Wrapped())
    ensures r == Pass ==> forall i :: 0 <= i < |lights| ==> var n := lights[i].Wrapped();
      n.brightness == BrightnessAfter(lights, n, parseFloat(args[0]).value / 100.0, old(n.brightness))
    ensures forall i :: 0 <= i < |lights| ==> var n := lights[i].Wrapped();
      n.on == old(n.on) && n.hue == old(n.hue) && n.saturation == old(n.saturation)
  {
    if |args| == 0 {
      return Fail(ValueError(DIM_USAGE));
    }
    var parsed := parseFloat(args[0]);
    if parsed.None? {
      return Fail(ValueError(DIM_USAGE));
    }
    DimAll(lights, parsed.value / 100.0);
    r := Pass;
  }

  /**
   * Over a selection of one adapter class, `dim` leaves every selected
   * native light holding the value in that class's encoding, whatever it
   * held before.
   */
  lemma {:induction false} BrightnessAfterUniform(lights: seq<Light>, i: nat, value: real, before: real)
    requires i < |lights|
    requires forall j :: 0 <= j < |lights| ==> lights[j].Legacy? == lights[i].Legacy?
    ensures BrightnessAfter(lights, lights[i].Wrapped(), value, before) == lights[i].EncodeBrightness(value)
  {
    var last := |lights| - 1;
    if lights[last].Wrapped() != lights[i].Wrapped() {
      var init := lights[..last];
      assert init[i] == lights[i];
      BrightnessAfterUniform(init, i, value, before);
    }
  }

  /**
   * Over a selection in which no two lights wrap the same native light,
   * `dim` leaves every selected native light holding the value in its own
   * light's encoding, whatever the classes and whatever it held before.
   */
  lemma {:induction false} BrightnessAfterDistinct(lights: seq<Light>, i: nat, value: real, before: real)
    requires i < |lights|
    requires forall j, k :: 0 <= j < k < |lights| ==> lights[j].Wrapped() != lights[k].Wrapped()
    ensures BrightnessAfter(lights, lights[i].Wrapped(), value, before) == lights[i].EncodeBrightness(value)
  {
    var last := |lights| - 1;
    if i < last {
      var init := lights[..last];
      assert init[i] == lights[i];
      BrightnessAfterDistinct(init, i, value, before);
    }
  }

  /**
   * What a light of a one-class selection reads back after `dim` sets
   * `value`: exactly `value` through lights/hue.py, and `value` truncated to
   * the 1/254 grid, toward zero, through lights/system/hue.py (`dim` does
   * not clamp, so a negative value is read back too).
   */
  lemma DimReadBack(lights: seq<Light>, i: nat, value: real, before: real)
    requires i < |lights|
    requires forall j :: 0 <= j < |lights| ==> lights[j].Legacy? == lights[i].Legacy?
    ensures var stored := BrightnessAfter(lights, lights[i].Wrapped(), value, before);
      (lights[i].Legacy? ==> Hue.DecodeBrightness(stored) == value) &&
      (lights[i].Current? && 0.0 <= value ==>
        SystemHue.Decode(stored, 254) <= value < SystemHue.Decode(stored, 254) + 1.0 / 254.0) &&
      (lights[i].Current? && value < 0.0 ==>
        value <= SystemHue.Decode(stored, 254) && SystemHue.Decode(stored, 254) - value < 1.0 / 254.0)
  {
    BrightnessAfterUniform(lights, i, value, before);
    SystemHue.ReadBack254(value);
  }

  /**
   * The colour `color` assigns: the palette entry named by the first
   * argument, or `default` without arguments. An unknown name raises a
   * `ValueError` listing the palette's names; a palette without `default`
   * raises its `KeyError` when no name is given.
   */
  function ChooseColor(args: seq<string>, palette: Dict<Hsb.HSBColor>): (r: Result<Hsb.HSBColor>)
    ensures var key := if |args| > 0 then args[0] else "default";
      (r.Ok? <==> key in Keys(palette)) && (r.Ok? ==> (key, r.value) in palette)
    ensures |args| > 0 && r.Err? ==> r.error == ValueError(UNKNOWN_COLOR + Join(Keys(palette), ", "))
    ensures |args| == 0 && r.Err? ==> r.error == KeyError("default")
  {
    if |args| > 0 then
      match Get(palette, args[0])
      case Some(c) => Ok(c)
      case None => Err(ValueError(UNKNOWN_COLOR + Join(Keys(palette), ", ")))
    else
      match Get(palette, "default")
      case Some(c) => Ok(c)
      case None => Err(KeyError("default"))
  }

  /**
   * Over the palette of lights/color/hsb.py: no argument gives its
   * `default` entry, and `red` gives the default-constructed colour.
   */
  lemma ChooseFromHsbPalette()
    ensures ChooseColor([], Hsb.HSB_COLORS) == Ok(Hsb.HSBColor(0.149, 0.551, 1.0))
    ensures ChooseColor(["red"], Hsb.HSB_COLORS) == Ok(Hsb.HSBColor())
  {
    Hsb.PaletteInUnitCube();
    Hsb.Defaults();
  }

  /** The position of the first selected light whose class cannot set a colour, or the number of lights. */
  function FirstWithoutColor(lights: seq<Light>): (k: nat)
    ensures k <= |lights|
    ensures forall j :: 0 <= j < k ==> lights[j].SupportsColor()
    ensures k < |lights| ==> !lights[k].SupportsColor()
  {
    if lights == [] || !lights[0].SupportsColor() then 0
    else 1 + FirstWithoutColor(lights[1..])
  }

  /** The native lights of a prefix one light longer. */
  lemma NativesStep(lights: seq<Light>, i: nat)
    requires i < |lights|
    ensures Natives(lights[..i + 1]) == Natives(lights[..i]) + [lights[i].Wrapped()]
  {
  }

  /**
   * Assigns `color` to every selected light in order, stopping with the
   * base class's error at the first light whose class does not override
   * the colour setter: the lights before it hold the colour, and every
   * native light none of them wraps is unchanged.
   */
  method PaintAll(lights: seq<Light>, color: Hsb.HSBColor) returns (r: Outcome)
    modifies set l | l in lights :: l.Wrapped()
    ensures var k := FirstWithoutColor(lights);
      (r == Pass <==> k == |lights|) &&
      (r != Pass ==> r == Fail(LightBase.COLOR_NOT_SUPPORTED)) &&
      (forall j :: 0 <= j < k ==> HasColor(lights[j].Wrapped(), color)) &&
      (forall j :: 0 <= j < |lights| && lights[j].Wrapped() !in Natives(lights[..k]) ==>
         unchanged(lights[j].Wrapped()))
    ensures forall j :: 0 <= j < |lights| ==> lights[j].Wrapped().on == old(lights[j].Wrapped().on)
  {
    var i := 0;
    ghost var painted: seq<NativeLight> := [];
    while i < |lights|
      invariant 0 <= i <= |lights|
      invariant painted == Natives(lights[..i])
      invariant forall j :: 0 <= j < i ==> lights[j].SupportsColor()
      invariant forall n :: n in painted ==> HasColor(n, color)
      invariant forall j :: 0 <= j < |lights| && lights[j].Wrapped() !in painted ==>
        unchanged(lights[j].Wrapped())
      invariant forall j :: 0 <= j < |lights| ==> lights[j].Wrapped().on == old(lights[j].Wrapped().on)
    {
      NativesStep(lights, i);
      r := lights[i].SetColor(color);
      if r != Pass {
        assert i == FirstWithoutColor(lights);
        return;
      }
      painted := painted + [lights[i].Wrapped()];
      i := i + 1;
    }
    assert i == FirstWithoutColor(lights);
    r := Pass;
  }

  /**
   * `color_command`: works out the colour first, raising before any light
   * changes when it cannot, then assigns it to the selected lights.
   */
  method ColorCommand(lights: seq<Light>, args: seq<string>, palette: Dict<Hsb.HSBColor>) returns (r: Outcome)
    modifies set l | l in lights :: l.Wrapped()
    ensures ChooseColor(args, palette).Err? ==>
      r == Fail(ChooseColor(args, palette).error) &&
      forall j :: 0 <= j < |lights| ==> unchanged(lights[j].Wrapped())
    ensures ChooseColor(args, palette).Ok? ==> var k := FirstWithoutColor(lights);
      (r == Pass <==> k == |lights|) &&
      (r != Pass ==> r == Fail(LightBase.COLOR_NOT_SUPPORTED)) &&
      (forall j :: 0 <= j < k ==> HasColor(lights[j].Wrapped(), ChooseColor(args, palette).value)) &&
      (forall j :: 0 <= j < |lights| && lights[j].Wrapped() !in Natives(lights[..k]) ==>
         unchanged(lights[j].Wrapped()))
    ensures forall j :: 0 <= j < |lights| ==> lights[j].Wrapped().on == old(lights[j].Wrapped().on)
  {
    var chosen := ChooseColor(args, palette);
    if chosen.Err? {
      return Fail(chosen.error);
    }
    r := PaintAll(lights, chosen.value);
  }

  /**
   * What `light.toggle()` does: neither lights/light.py's `Light` nor the
   * `HueLight` of lights/hue.py or lights/system/hue.py defines
   * `toggle`, so Python raises `AttributeError` on every light.
   */
  function ToggleAsWritten(light: Light): (r: Outcome)
    ensures r.Fail? && r.error.AttributeError?
  {
    Fail(AttributeError("HueLight", "toggle"))
  }

  /** The position of the first light on which `toggle` raises, or the number of lights. */
  function FirstFailure(lights: seq<Light>, toggle: Light -> Outcome): (k: nat)
    ensures k <= |lights|
    ensures forall j :: 0 <= j < k ==> toggle(lights[j]) == Pass
    ensures k < |lights| ==> toggle(lights[k]) != Pass
  {
    if lights == [] || toggle(lights[0]) != Pass then 0
    else 1 + FirstFailure(lights[1..], toggle)
  }

  /**
   * `toggle_command`, with `toggle` an opaque call whose effect on the light
   * is not modelled: it is called once per selected light, in selection
   * order, until a call raises, and that error ends the command.
   */
  method ToggleCommand(lights: seq<Light>, toggle: Light -> Outcome) returns (called: seq<Light>, r: Outcome)
    ensures var k := FirstFailure(lights, toggle);
      (r == Pass <==> k == |lights|) &&
      (r == Pass ==> called == lights) &&
      (r != Pass ==> called == lights[..k + 1] && r == toggle(lights[k]))
  {
    called := [];
    var i := 0;
    while i < |lights|
      invariant 0 <= i <= FirstFailure(lights, toggle)
      invariant called == lights[..i]
    {
      called := called + [lights[i]];
      r := toggle(lights[i]);
      if r != Pass {
        return;
      }
      i := i + 1;
    }
    assert lights[..i] == lights;
    r := Pass;
  }

  /**
   * As written, `toggle_command` raises on the first selected light and
   * toggles nothing; it only succeeds on an empty selection.
   */
  lemma ToggleAsWrittenFails(lights: seq<Light>)
    ensures FirstFailure(lights, ToggleAsWritten) == 0
    ensures |lights| > 0 ==> ToggleAsWritten(lights[0]) == Fail(AttributeError("HueLight", "toggle"))
  {
  }

  /**
   * Whether flipping `on` once for every selected light wrapping `n` leaves
   * it flipped: an odd number of selected lights wrap it.
   */
  function Flipped(lights: seq<Light>, n: NativeLight): bool {
    if lights == [] then false
    else Flipped(lights[..|lights| - 1], n) != (lights[|lights| - 1].Wrapped() == n)
  }

  /** Extending a prefix by one light flips the parity of that light's native light only. */
  lemma FlippedStep(lights: seq<Light>, i: nat)
    requires i < |lights|
    ensures forall n ::
      Flipped(lights[..i + 1], n) == (Flipped(lights[..i], n) != (lights[i].Wrapped() == n))
  {
    var prefix := lights[..i + 1];
    assert prefix[..i] == lights[..i];
    assert prefix[i] == lights[i];
    forall n
      ensures Flipped(prefix, n) == (Flipped(lights[..i], n) != (lights[i].Wrapped() == n))
    {
    }
  }

  /**
   * The toggle command as evidently intended: every selected light flips
   * `on` once, so a native light wrapped by an odd number of selected
   * lights ends up flipped and one wrapped an even number of times is back
   * where it was; nothing else changes.
   */
  method ToggleCommandIntended(lights: seq<Light>)
    modifies set l | l in lights :: l.Wrapped()
    ensures forall i :: 0 <= i < |lights| ==> var n := lights[i].Wrapped();
      n.on == (old(n.on) != Flipped(lights, n))
    ensures forall i :: 0 <= i < |lights| ==> var n := lights[i].Wrapped();
      n.brightness == old(n.brightness) && n.hue == old(n.hue) && n.saturation == old(n.saturation)
  {
    var i := 0;
    while i < |lights|
      invariant 0 <= i <= |lights|
      invariant forall j :: 0 <= j < |lights| ==> var n := lights[j].Wrapped();
        n.on == (old(n.on) != Flipped(lights[..i], n))
      invariant forall j :: 0 <= j < |lights| ==> var n := lights[j].Wrapped();
        n.brightness == old(n.brightness) && n.hue == old(n.hue) && n.saturation == old(n.saturation)
    {
      FlippedStep(lights, i);
      lights[i].Toggle();
      i := i + 1;
    }
    assert lights[..i] == lights;
  }

  /** Over distinct native lights, the intended toggle flips every selected light. */
  lemma {:induction false} DistinctAllFlipped(lights: seq<Light>, i: nat)
    requires i < |lights|
    requires forall j, k :: 0 <= j < k < |lights| ==> lights[j].Wrapped() != lights[k].Wrapped()
    ensures Flipped(lights, lights[i].Wrapped())
  {
    var last := |lights| - 1;
    var init := lights[..last];
    if i == last {
      NotFlippedWhenAbsent(init, lights[i].Wrapped());
    } else {
      DistinctAllFlipped(init, i);
    }
  }

  /** A native light no selected light wraps is not flipped. */
  lemma {:induction false} NotFlippedWhenAbsent(lights: seq<Light>, n: NativeLight)
    requires forall j :: 0 <= j < |lights| ==> lights[j].Wrapped() != n
    ensures !Flipped(lights, n)
  {
    if lights != [] {
      NotFlippedWhenAbsent(lights[..|lights| - 1], n);
    }
  }
}
