/**
 * The older `HSBColor` of lights/utils/color.py and its `COLORS` palette. It
 * is a class of its own (an `isinstance` check against it refuses the newer
 * class and the other way round), with the same fields, defaults, operators
 * and palette entries as the newer class, which `AgreesWithNewer` and
 * `PaletteAgreesWithNewer` state.
 */
module UtilsColor {
  import opened Errors
  import opened Dicts
  import opened Operands
  import Hsb

  /** The dataclass; its defaults are hue 0, saturation 1 and brightness 1. */
  datatype HSBColor = HSBColor(hue: real := 0.0, saturation: real := 1.0, brightness: real := 1.0)
  {
    /** Every component lies in [0, 1]. */
    predicate InUnitCube() {
      0.0 <= hue <= 1.0 && 0.0 <= saturation <= 1.0 && 0.0 <= brightness <= 1.0
    }

    /** The colour with the same components in the newer class. */
    function ToNewer(): Hsb.HSBColor {
      Hsb.HSBColor(hue, saturation, brightness)
    }

    /** `average`: the component-wise mean of this colour and `other`. */
    function Average(other: HSBColor): (r: HSBColor)
      ensures r.ToNewer() == ToNewer().Average(other.ToNewer())
    {
      HSBColor((hue + other.hue) / 2.0, (saturation + other.saturation) / 2.0, (brightness + other.brightness) / 2.0)
    }

    /** `self + other`: only an `HSBColor` of this class is accepted. */
    function Add(other: Operand<HSBColor>): (r: Result<HSBColor>)
      ensures r.Ok? <==> other.Color?
      ensures r.Ok? ==> r.value.ToNewer().Minus(other.color.ToNewer()) == ToNewer()
      ensures r.Err? ==> r.error == TypeError("+", "HSBColor", other.TypeName("HSBColor"))
    {
      if other.Color? then
        Ok(HSBColor(hue + other.color.hue, saturation + other.color.saturation, brightness + other.color.brightness))
      else Err(TypeError("+", "HSBColor", other.TypeName("HSBColor")))
    }

    /** `self * other`: only a `float` is accepted; an `int` is refused too. */
    function Mul(other: Operand<HSBColor>): (r: Result<HSBColor>)
      ensures r.Ok? <==> other.Float?
      ensures r.Ok? ==> r.value.ToNewer() == ToNewer().Scaled(other.f)
      ensures r.Err? ==> r.error == TypeError("*", "HSBColor", other.TypeName("HSBColor"))
    {
      if other.Float? then
        Ok(HSBColor(hue * other.f, saturation * other.f, brightness * other.f))
      else Err(TypeError("*", "HSBColor", other.TypeName("HSBColor")))
    }
  }

  /** The operand as the same operator of the newer class would see it. */
  function NewerOperand(other: Operand<HSBColor>): Operand<Hsb.HSBColor> {
    match other
    case Color(c) => Color(c.ToNewer())
    case Float(f) => Float(f)
    case Int(n) => Int(n)
    case Other(name) => Other(name)
  }

  /** The newer result, where an older one stands. */
  function NewerResult(r: Result<HSBColor>): Result<Hsb.HSBColor> {
    match r
    case Ok(c) => Ok(c.ToNewer())
    case Err(e) => Err(e)
  }

  /** `COLORS`, in the order the source lists it. */
  const COLORS: Dict<HSBColor> := [
    ("default", HSBColor(hue := 0.149, saturation := 0.551)),
    ("white", HSBColor(saturation := 0.0, brightness := 1.0)),
    ("warm", HSBColor(hue := 0.127, saturation := 0.886)),
    ("cold", HSBColor(hue := 0.733, saturation := 0.307)),
    ("black", HSBColor(saturation := 0.0, brightness := 0.0)),
    ("red", HSBColor(hue := 0.0)),
    ("orange", HSBColor(hue := 0.08)),
    ("yellow", HSBColor(hue := 0.17)),
    ("green", HSBColor(hue := 0.45)),
    ("blue", HSBColor(hue := 0.82)),
    ("purple", HSBColor(hue := 0.88))
  ]

  /** The older class computes exactly what the newer one does, error messages included. */
  lemma AgreesWithNewer(a: HSBColor, b: HSBColor, other: Operand<HSBColor>)
    ensures a.Average(b).ToNewer() == a.ToNewer().Average(b.ToNewer())
    ensures NewerResult(a.Add(other)) == a.ToNewer().Add(NewerOperand(other))
    ensures NewerResult(a.Mul(other)) == a.ToNewer().Mul(NewerOperand(other))
  {
  }

  /** The defaults are hue 0, saturation 1 and brightness 1. */
  lemma Defaults()
    ensures HSBColor() == HSBColor(0.0, 1.0, 1.0)
    ensures HSBColor().ToNewer() == Hsb.HSBColor()
  {
  }

  /** Averaging is symmetric and leaves a colour averaged with itself unchanged. */
  lemma AverageSymmetricIdempotent(a: HSBColor, b: HSBColor)
    ensures a.Average(b) == b.Average(a)
    ensures a.Average(a) == a
  {
  }

  /** Every entry lies in the unit cube, `default` is present, and the palette is the newer one entry by entry. */
  lemma PaletteAgreesWithNewer()
    ensures UniqueKeys(COLORS)
    ensures forall i :: 0 <= i < |COLORS| ==> COLORS[i].1.InUnitCube()
    ensures Get(COLORS, "default").Some?
    ensures |COLORS| == |Hsb.HSB_COLORS|
    ensures forall i :: 0 <= i < |COLORS| ==>
      COLORS[i].0 == Hsb.HSB_COLORS[i].0 && COLORS[i].1.ToNewer() == Hsb.HSB_COLORS[i].1
  {
  }
}
