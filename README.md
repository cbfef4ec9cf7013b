# lampctl in Dafny

A model of the core of lampctl, a small command-line tool that drives smart
lights (Philips Hue) from a shell. It has these parts:

- **Colour values.** The immutable colour types `RGBColor` (lights/color/rgb.py), `HSBColor` (lights/color/hsb.py) and the older `HSBColor` (lights/utils/color.py). Each has component-wise `+` and scalar `*` with Python's operand type checks, an `average` and a fixed palette; `RGBColor` also has `-`, a distance and approximate equality.
  - Modules `Rgb`, `Hsb`, `UtilsColor`.
  - Operands are a small datatype (`Operands.Operand`: colour, float, int, other class), so that `TypeError` cases can be stated.
  - Python floats are reals.
- **Base classes.** The base `Light` and `LightSystem` of lights/light.py, whose getters return `None`, whose setters and `lights` raise `NotImplementedError`, and whose `connect` does nothing.
  - Module `LightBase`.
- **Hue adapters.** The two Hue adapters convert between the [0, 1] values of the program and the native values of a bridge light:
  - lights/hue.py: factor 255, no rounding; module `Hue`.
  - lights/system/hue.py: factors 254, 254 and 56635, truncated with `int()`; module `SystemHue`.

  The native bridge light is a class with mutable fields and the bridge is a class holding a sequence of them (module `Native`). Python's dynamic dispatch over the wrapper classes is the datatypes `Dispatch.Light` and `Dispatch.LightSystem`.
- **Combined systems.** `CombinedLightSystem`, whose class body is the same in lights/combined.py and lights/system/combined.py (module `Combined`); only their imports and type annotations differ.
  - It is a class holding its list of child systems by reference, a `SystemList` object the caller may share.
  - `add` appends in place.
  - `connect` visits the children in order and stops at the first that raises.
  - `lights` is the order-preserving concatenation of the children's lights.
- **Commands.** The batch commands of lights/__init__.py and the light selection of its `main` (module `Commands`). Each command is a loop over the selected lights, proved against a specification function of the sequence of selected lights.
  - For brightness this is `BrightnessAfter`, "the last writer wins", since two selected wrappers may share one native light.
  - For toggling it is `Flipped`, the parity of the wrappers of a native light.

Errors are values: `Errors.Result` for functions, `Errors.Outcome` for methods. An `Err`/`Fail` stands for the Python exception named by its `Error` constructor.

## Model

| member | source | states |
|---|---|---|
| Rgb.RGBColor.Average | lights/color/rgb.py:13-15 | the result is the midpoint: doubled it is the sum of the two colours, it lies as far from one as from the other, and averaging a colour with itself gives it back |
| Rgb.AverageSymmetric | lights/color/rgb.py:13-15 | `a.average(b) == b.average(a)` |
| Rgb.RGBColor.SquaredNorm | lights/color/rgb.py:17-20 | the square of `norm` is never negative, and it is zero for black only |
| Rgb.RGBColor.SquaredDistance | lights/color/rgb.py:22-24 | the square of `distance` is never negative, and it is zero exactly between equal colours, so `distance(c, c) == 0` |
| Rgb.DistanceSymmetric | lights/color/rgb.py:22-24 | `distance(a, b) == distance(b, a)` |
| Rgb.RGBColor.Approximately | lights/color/rgb.py:26-28 | `approximately` can hold only for a positive `eps`; it is stated as "squared distance below eps²" |
| Rgb.ApproximatelyIsDistanceBelow | lights/color/rgb.py:26-28 | for the non-negative `d` whose square is the squared distance, `approximately(other, eps)` holds exactly when `d < eps`, which is `distance(other) < eps` |
| Rgb.ApproximatelyReflexive | lights/color/rgb.py:26-28 | `c.approximately(c, eps)` for every `eps > 0` |
| Rgb.ApproximatelySymmetric | lights/color/rgb.py:26-28 | approximate equality does not depend on the order of the operands |
| Rgb.RGBColor.Add | lights/color/rgb.py:30-33 | `+` succeeds exactly for an `RGBColor` operand, and subtracting the operand again gives back the left side; any other operand raises `TypeError` naming `+`, `RGBColor` and the operand's class |
| Rgb.RGBColor.Sub | lights/color/rgb.py:35-38 | `-` succeeds exactly for an `RGBColor` operand, and adding the operand back gives the left side; any other operand raises `TypeError` |
| Rgb.RGBColor.Mul | lights/color/rgb.py:40-43 | `*` succeeds exactly for a `float` (an `int` is refused); dividing the result by a non-zero factor gives back the colour, and a zero factor gives black; any other operand raises `TypeError` |
| Rgb.AddSubInverse | lights/color/rgb.py:30-38 | `+` is commutative and `(a + b) - b == a` |
| Rgb.DefaultIsBlack | lights/color/rgb.py:9-11 | a colour built without arguments is (0, 0, 0), and it is the palette's `black` |
| Rgb.PaletteInUnitCube | lights/color/rgb.py:48-58 | no name occurs twice in `RGB_COLORS` and every entry has all components in [0, 1], as the class comment requires |
| Hsb.Defaults | lights/color/hsb.py:7-9 | the defaults are hue 0, saturation 1, brightness 1, which is the palette's `red` |
| Hsb.HSBColor.Average | lights/color/hsb.py:11-12 | the result is the midpoint of the two colours and averaging a colour with itself gives it back |
| Hsb.AverageSymmetric | lights/color/hsb.py:11-12 | `a.average(b) == b.average(a)` |
| Hsb.HSBColor.Add | lights/color/hsb.py:14-17 | `+` succeeds exactly for an `HSBColor` operand and is undone by the component-wise difference (the helper `Minus`; the class has no `-`); any other operand raises `TypeError` |
| Hsb.AddCommutativeAssociative | lights/color/hsb.py:14-17 | `+` on colours is commutative and associative |
| Hsb.HSBColor.Mul | lights/color/hsb.py:19-22 | `*` succeeds exactly for a `float`, and a non-zero factor is undone by its inverse; an `int` or anything else raises `TypeError` |
| Hsb.PaletteKeysUnique | lights/color/hsb.py:27-39 | no name occurs twice in `HSB_COLORS` |
| Hsb.PaletteInUnitCube | lights/color/hsb.py:27-39 | every `HSB_COLORS` entry lies in [0, 1]³, and `default` is (0.149, 0.551, 1) |
| Hsb.WhiteAndBlack | lights/color/hsb.py:29-32 | `white` and `black` have saturation 0, with brightness 1 and 0 |
| UtilsColor.Defaults | lights/utils/color.py:6-8 | the older class has the same defaults, hue 0, saturation 1, brightness 1 |
| UtilsColor.HSBColor.Average | lights/utils/color.py:10-11 | the older `average` is the newer one's midpoint |
| UtilsColor.AverageSymmetricIdempotent | lights/utils/color.py:10-11 | `average` is symmetric and `average(c, c) == c` |
| UtilsColor.HSBColor.Add | lights/utils/color.py:13-16 | `+` succeeds exactly for an `HSBColor` operand and is undone by the component-wise difference (the helper `Minus`; the class has no `-`); any other operand raises `TypeError` |
| UtilsColor.HSBColor.Mul | lights/utils/color.py:18-21 | `*` scales all three components by a `float`; any other operand, an `int` included, raises `TypeError` |
| UtilsColor.AgreesWithNewer | lights/utils/color.py:10-21 | the older class computes exactly what the newer one does for every operand, error values included |
| UtilsColor.PaletteAgreesWithNewer | lights/utils/color.py:26-38 | `COLORS` has unique names, entries in [0, 1]³ and a `default` key, and it is `HSB_COLORS` entry by entry |
| LightBase.Name | lights/light.py:5-8 | the base `name` is `None` |
| LightBase.Brightness | lights/light.py:10-13 | the base `brightness` is `None` |
| LightBase.SetBrightness | lights/light.py:15-18 | setting the brightness on a base light raises `NotImplementedError` with its message |
| LightBase.Color | lights/light.py:20-23 | the base `color` is `None` |
| LightBase.SetColor | lights/light.py:25-28 | setting the colour on a base light raises `NotImplementedError` with its message |
| LightBase.Connect | lights/light.py:31-33 | the base `connect` returns normally and changes nothing |
| LightBase.Lights | lights/light.py:35-38 | the base `lights` always raises `NotImplementedError("Cannot fetch lights")` |
| Hue.HueLight.Name | lights/hue.py:11-13 | `name` is the native light's name |
| Hue.HueLight.Brightness | lights/hue.py:15-17 | the brightness times 255 is the native brightness: native 0 reads 0, native 255 reads 1 |
| Hue.BrightnessRoundTrip | lights/hue.py:15-21 | dividing by 255 and multiplying by 255 are inverse both ways, so nothing is lost over the reals |
| Hue.HueLight.SetBrightness | lights/hue.py:19-21 | the native brightness becomes `value * 255`, reading back gives exactly `value`, and `on`, hue and saturation do not change |
| Hue.HueLight.On | lights/hue.py:23-25 | `on` is the native light's `on`, which `SetOn` writes back |
| Hue.HueLight.SetOn | lights/hue.py:27-29 | reading `on` back gives the written value; brightness, hue and saturation do not change |
| Hue.HueLight.Color | lights/hue.py:31-36 | `color` is not overridden, so it is the base class's `None` |
| Hue.HueLight.SetColor | lights/hue.py:31-36 | the colour setter is not overridden, so it raises the base class's not-supported error |
| Hue.HueSystem.Connect | lights/hue.py:42-43 | `connect` succeeds exactly when the bridge answers, leaving it connected; otherwise it raises a connection error |
| Hue.HueSystem.Lights | lights/hue.py:45-47 | one wrapper per bridge light, in the bridge's order |
| SystemHue.Int | lights/system/hue.py:24 | `int()` truncates toward zero: for `x >= 0` the result is the largest integer not above `x`, and for `x < 0` the smallest not below it |
| SystemHue.IntOfWhole | lights/system/hue.py:24 | `int()` of a whole number is that number |
| SystemHue.ReadBack254 | lights/system/hue.py:18-24 | writing `v >= 0` at factor 254 reads back `r` with `0 <= r <= v` and `v - r < 1/254` (mirrored for `v < 0`), and writing `r` again stores the same native value |
| SystemHue.ReadBack56635 | lights/system/hue.py:34-44 | the same at the hue factor 56635, with error below 1/56635 |
| SystemHue.HueLight.Name | lights/system/hue.py:14-16 | `name` is the native light's name |
| SystemHue.HueLight.Brightness | lights/system/hue.py:18-20 | the brightness times 254 is the native brightness |
| SystemHue.HueLight.SetBrightness | lights/system/hue.py:22-24 | the native brightness becomes `int(value * 254)`; reading back misses `value` by less than 1/254 on the side of zero; nothing else changes |
| SystemHue.HueLight.On | lights/system/hue.py:26-28 | `on` is the native light's `on`, which `SetOn` writes back |
| SystemHue.HueLight.SetOn | lights/system/hue.py:30-32 | reading `on` back gives the written value; hue, saturation and brightness do not change |
| SystemHue.HueLight.Color | lights/system/hue.py:34-40 | the three components are the native fields over 56635, 254 and 254, and the colour's brightness is the `brightness` getter |
| SystemHue.HueLight.SetColor | lights/system/hue.py:42-46 | all three native fields are written truncated, so the `brightness` getter then reads `int(b * 254) / 254`; each component reads back less than one step of its scale from the written one, on the side of zero, for either sign; `on` does not change |
| SystemHue.HueSystem.Connect | lights/system/hue.py:52-53 | `connect` succeeds exactly when the bridge answers, leaving it connected; otherwise it raises a connection error |
| SystemHue.HueSystem.Lights | lights/system/hue.py:55-57 | one wrapper per bridge light, in the bridge's order |
| Dispatch.Light.Name | lights/hue.py:11-13 | whichever adapter class a light has, its name is the native light's |
| Dispatch.Light.On | lights/hue.py:23-25 | whichever adapter class a light has, `on` is the native light's `on` |
| Dispatch.Light.SetOn | lights/system/hue.py:30-32 | assigning `on` through either adapter sets it and leaves brightness, hue and saturation as they were |
| Dispatch.Light.Brightness | lights/system/hue.py:18-20 | the brightness is the native value over the light's own class's factor: times 255 it is the native value for lights/hue.py, times 254 for lights/system/hue.py |
| Dispatch.Light.SetBrightness | lights/system/hue.py:22-24 | assigning the brightness through either adapter stores that class's encoding and changes nothing else |
| Dispatch.Light.Color | lights/system/hue.py:34-40 | a light has a colour exactly when its class overrides the getter, and then it is the newer adapter's colour, the native fields over 56635, 254 and 254; otherwise it is the base `None` |
| Dispatch.Light.SetColor | lights/system/hue.py:42-46 | assigning a colour succeeds exactly for the newer adapter, and then the native fields hold its encoding; the older adapter raises not-supported and changes nothing; `on` never changes |
| Dispatch.LightSystem.Connect | lights/light.py:31-33 | a base system connects without doing anything; a Hue system connects exactly when its bridge answers, and only its bridge changes |
| Dispatch.LightSystem.Lights | lights/light.py:35-38 | a base system raises "Cannot fetch lights"; a Hue system lists one wrapper of its own class per bridge light, in order |
| Dicts.Get | lights/__init__.py:41 | dictionary lookup finds a key exactly when it is present and then returns its entry |
| Combined.CombinedLightSystem.constructor | lights/combined.py:5-6 | the system keeps the caller's list object itself, so later changes to it are seen through the caller's reference |
| Combined.DefaultListShared | lights/combined.py:5-6 | two systems built on the one default list are distinct objects over the same list, and an `add` on one appears in both |
| Combined.CombinedLightSystem.Empty | lights/system/combined.py:4-5 | as evidently intended: a system built without an argument gets a fresh, empty list of its own (the source instead shares one default list, see Findings) |
| Combined.FreshListsIndependent | lights/system/combined.py:4-5 | with one list per instance, an `add` on one system leaves another empty and without lights |
| Combined.CombinedLightSystem.Add | lights/combined.py:8-9 | the list becomes the old list plus the new child at the end; the lights gain the new child's lights at the end, and the system can list lights exactly when it could before and the child is not a bare base system |
| Combined.GatherAppend | lights/system/combined.py:7-8 | appending a child appends its lights to the concatenation |
| Combined.FirstUnreachable | lights/combined.py:11-13 | the first child whose `connect` raises: every child before it connects |
| Combined.CombinedLightSystem.Connect | lights/combined.py:11-13 | the children are connected in list order until the first one that raises: the call succeeds exactly when none raises, otherwise it raises that child's connection error; the bridges of the children before it end up connected and every other bridge keeps its state |
| Combined.Gather | lights/combined.py:15-17 | the concatenation succeeds exactly when no child is a bare base system (otherwise it raises "Cannot fetch lights"), and its length is the sum of the children's light counts, zero without children |
| Combined.CombinedLightSystem.Lights | lights/combined.py:15-17 | `lights` can be listed exactly when no child is a bare base system (otherwise it raises "Cannot fetch lights"); there are as many as the children list together, and none without children |
| Combined.GatherOrder | lights/system/combined.py:14-16 | the `j`-th light of child `i` sits right after the lights of the children before it, so child order and each child's own order are both kept |
| Commands.Select | lights/__init__.py:103-109 | `--all` selects every light, else a non-empty name selects the lights with that name, else nothing is selected |
| Commands.NoSelectionChangesNothing | lights/__init__.py:103-109 | without `--all` and without a name the selection is empty, so the set of native lights a command may change is empty |
| Commands.SwitchAll | lights/__init__.py:21-27 | every selected light ends with `on == value`, and no brightness, hue or saturation of any selected light changes |
| Commands.OnCommand | lights/__init__.py:21-23 | every selected light is on and nothing else changes |
| Commands.OffCommand | lights/__init__.py:25-27 | every selected light is off and nothing else changes |
| Commands.DimAll | lights/__init__.py:35-36 | each selected native light ends with the brightness its last selected wrapper stores for the value, and `on`, hue and saturation do not change |
| Commands.DimCommand | lights/__init__.py:29-36 | a missing or non-numeric first argument raises `ValueError` with the usage message before any light changes; otherwise every selected light gets brightness `arg / 100`, unclamped, as above |
| Commands.BrightnessAfterUniform | lights/__init__.py:35-36 | over a selection of one adapter class, each selected native light holds that class's encoding of the value, whatever it held before |
| Commands.BrightnessAfterDistinct | lights/__init__.py:35-36 | when no two selected lights wrap the same native light, each selected light holds its own class's encoding of `arg / 100`, whatever the classes |
| Commands.DimReadBack | lights/__init__.py:35-36 | after `dim`, a light of lights/hue.py reads back exactly the value; one of lights/system/hue.py reads it truncated toward zero to the 1/254 grid, for negative (unclamped) values too |
| Commands.ChooseColor | lights/__init__.py:38-45 | with an argument, the colour is the palette entry of that name when there is one, else `ValueError` listing the palette's names; without, it is the `default` entry, else `KeyError` |
| Commands.ChooseFromHsbPalette | lights/__init__.py:38-45 | over `HSB_COLORS`, no argument chooses (0.149, 0.551, 1) and `red` chooses the default-constructed colour (0, 1, 1) |
| Commands.FirstWithoutColor | lights/__init__.py:47-48 | the first selected light whose class does not override the colour setter |
| Commands.PaintAll | lights/__init__.py:47-48 | the colour is assigned in selection order up to the first light that raises not-supported: those before it hold the colour, every other native light is untouched, and no `on` changes |
| Commands.ColorCommand | lights/__init__.py:38-48 | an unknown name or a missing `default` raises before any light changes; otherwise the chosen colour is painted as above |
| Commands.ToggleAsWritten | lights/__init__.py:51-52 | `light.toggle()` raises `AttributeError`, since neither lights/light.py's `Light` nor the `HueLight` of lights/hue.py or lights/system/hue.py defines `toggle` |
| Commands.FirstFailure | lights/__init__.py:50-52 | the first selected light on which `toggle` raises: every call before it returns normally |
| Commands.ToggleCommand | lights/__init__.py:50-52 | `toggle` is called once per selected light in selection order up to and including the first call that raises, whose error ends the command |
| Commands.ToggleAsWrittenFails | lights/__init__.py:50-52 | as written, the command raises on the first selected light and toggles nothing |
| Dispatch.Light.Toggle | lights/__init__.py:51-52 | an intended `toggle` flips `on` and leaves the rest of the light alone |
| Commands.ToggleCommandIntended | lights/__init__.py:50-52 | as intended, each selected native light ends flipped exactly when an odd number of selected wrappers hold it, and nothing but `on` changes |
| Commands.DistinctAllFlipped | lights/__init__.py:50-52 | over distinct native lights, the intended command flips every selected light |
| Commands.NotFlippedWhenAbsent | lights/__init__.py:50-52 | a native light that no selected wrapper holds is not flipped |

## Left out

- Conversion between HSB and RGB colours. It does not exist in the code; lights/test/test_colors.py calls an `as_rgb` that no class defines.
- `math.sqrt` and floating point. Colours have real components. `norm` and `distance` are given squared (`SquaredNorm`, `SquaredDistance`), so no rounding, NaN or infinity is modelled.
- Rgb.RGBColor.Approximately: is stated through the squared distance. `Rgb.ApproximatelyIsDistanceBelow` proves it equivalent to `distance < eps` over the reals, but nothing about the rounding of `math.sqrt` is modelled.
- `__str__` of the colour classes (text formatting only).
- lights/color/hsb.py places its `from __future__` import after another import, which Python rejects when the module is loaded. The model gives the class its evident meaning.
- `main`, `list_command`, argument parsing, the configuration file, environment variables and printing in lights/__init__.py and lights/__main__.py. lights/lamp.py, lights/color.py and setup.py are not part of this model.
- The `phue` library and the network. A bridge is an object with a list of native lights, a `reachable` flag standing for whether `connect` succeeds, and a `connected` flag. Pairing, retries and the light states a real bridge reports are not modelled.
- `lights_with_name` (neither `lights.combined.CombinedLightSystem` nor its base `lights.light.LightSystem` defines it) and `float()` parsing of the `dim` argument are function parameters of `Commands.Select` and `Commands.DimCommand`.
- The palette that `color_command` reads is a parameter of `Commands.ChooseColor` and `Commands.ColorCommand`. Which `COLORS` the module's import resolves to is ambiguous (lights/color.py has no `default` key), so both outcomes are covered.
- lights/system/__init__.py, whose `Light` and `LightSystem` the newer adapter inherits, is not part of this model. The newer adapter is given the base behaviour of lights/light.py.
- A combined system as the child of another combined system, and a bare base `Light` among the selected lights. Only the two Hue adapters produce lights.
- Commands.ToggleCommand: models `toggle` as an opaque call returning normally or raising. Its effect on a light is not modelled, since neither lights/light.py's `Light` nor the `HueLight` of lights/hue.py or lights/system/hue.py defines `toggle`.
- Combined.CombinedLightSystem.Connect: "every other bridge keeps its state" is stated for bridges allocated before the call. No bridge is created during the call.

## Findings

| source | as written | input that shows it | evidently intended | confidence | as-written member | corrected member |
|---|---|---|---|---|---|---|
| lights/__init__.py:50-52 | `toggle_command` calls `light.toggle()`, but neither lights/light.py's `Light` nor the `HueLight` of lights/hue.py or lights/system/hue.py defines `toggle`, so Python raises `AttributeError` | any non-empty selection, e.g. one lights/hue.py light | each selected light flips `on` once | not executed; `main` builds only lights/hue.py lights, so lights/system/__init__.py does not affect it | Commands.ToggleAsWrittenFails | Commands.ToggleCommandIntended |
| lights/combined.py:5-6 | the default argument `systems=[]` is one list made when the class is defined, so every instance built without an argument shares it | `a = CombinedLightSystem(); b = CombinedLightSystem(); a.add(s)`: then `b.systems == [s]` | each default-built instance starts with an empty list of its own | not executed | Combined.DefaultListShared | Combined.FreshListsIndependent |
