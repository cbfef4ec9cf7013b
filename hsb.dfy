/**
 * `HSBColor` of lights/color/hsb.py: an immutable hue-saturation-brightness
 * triple (each component meant to lie in [0, 1]) with Python's `+` and `*`
 * operators, an average, and the `HSB_COLORS` palette.
 */
module Hsb {
  import opened Errors
  import opened Dicts
  import opened Operands

  /** The dataclass; a colour built without arguments is fully saturated and bright red. */
  datatype HSBColor = HSBColor(hue: real := 0.0, saturation: real := 1.0, brightness: real := 1.0)
  {
    /** Every component lies in [0, 1], as the class comment says. */
    predicate InUnitCube() {
      0.0 <= hue <= 1.0 && 0.0 <= saturation <= 1.0 && 0.0 <= brightness <= 1.0
    }

    /** Component-wise sum of two colours. */
    function Plus(other: HSBColor): HSBColor {
      HSBColor(hue + other.hue, saturation + other.saturation, brightness + other.brightness)
    }

    /** Component-wise difference; the class has no `-`, this only states what `+` undoes. */
    function Minus(other: HSBColor): HSBColor {
      HSBColor(hue - other.hue, saturation - other.saturation, brightness - other.brightness)
    }

    /** Every component multiplied by `k`. */
    function Scaled(k: real): HSBColor {
      HSBColor(hue * k, saturation * k, brightness * k)
    }

    /** `average`: the component-wise mean of this colour and `other`. */
    function Average(other: HSBColor): (r: HSBColor)
      ensures r.Plus(r) == Plus(other)
      ensures r.Minus(this) == other.Minus(r)
      ensures other == this ==> r == this
    {
      HSBColor((hue + other.hue) / 2.0, (saturation + other.saturation) / 2.0, (brightness + other.brightness) / 2.0)
    }

    /** `self + other`: only another `HSBColor` of this class is accepted. */
    function Add(other: Operand<HSBColor>): (r: Result<HSBColor>)
      ensures r.Ok? <==> other.Color?
      ensures r.Ok? ==> r.value.Minus(other.color) == this
      ensures r.Err? ==> r.error == TypeError("+", "HSBColor", other.TypeName("HSBColor"))
    {
      if other.Color? then Ok(Plus(other.color))
      else Err(TypeError("+", "HSBColor", other.TypeName("HSBColor")))
    }

    /** `self * other`: only a `float` is accepted; an `int` is refused too. */
    function Mul(other: Operand<HSBColor>): (r: Result<HSBColor>)
      ensures r.Ok? <==> other.Float?
      ensures r.Ok? && other.f != 0.0 ==> r.value.Scaled(1.0 / other.f) == this
      ensures r.Ok? && other.f == 0.0 ==> r.value == HSBColor(0.0, 0.0, 0.0)
      ensures r.Err? ==> r.error == TypeError("*", "HSBColor", other.TypeName("HSBColor"))
    {
      if other.Float? then
        var k := other.f;
        var s := Scaled(k);
        assert k != 0.0 ==> s.Scaled(1.0 / k) == this by {
          if k != 0.0 {
            assert hue * k * (1.0 / k) == hue;
            assert saturation * k * (1.0 / k) == saturation;
            assert brightness * k * (1.0 / k) == brightness;
          }
        }
        Ok(s)
      else Err(TypeError("*", "HSBColor", other.TypeName("HSBColor")))
    }
  }

  /** `HSB_COLORS`, in the order the source lists it. */
  const HSB_COLORS: Dict<HSBColor> := [
    ("default", HSBColor(hue := 0.149, saturation := 0.551)),
    ("white", HSBColor(saturation := 0.0, brightness := 1.0)),
    ("warm", HSBColor(hue := 0.127, saturation := 0.886)),
    ("cold", HSBColor(hue := 0.733, saturation := 0.307)),
    ("black", HSBColor(saturation := 0.0, brightness := 0.0)),
    ("red", HSBColor(hue := 0.0)),
    ("orange", HSBColor(hue := 0.08)),
    ("yellow", HSBColor(hue := 0.17)),
    ("green", HSBColor(hue := 0.45)),
    ("blue", HSBColor(hue := 0.82)),
    ("purple", HSBColor(hue := 0.88))
  ]

  /** No name occurs twice in the palette. */
  lemma PaletteKeysUnique()
    ensures UniqueKeys(HSB_COLORS)
  {
  }

  /** The defaults are hue 0, saturation 1 and brightness 1; the palette's `red` is the default colour. */
  lemma Defaults()
    ensures HSBColor() == HSBColor(0.0, 1.0, 1.0)
    ensures Get(HSB_COLORS, "red") == Some(HSBColor())
  {
    PaletteKeysUnique();
    assert HSB_COLORS[5] == ("red", HSBColor());
  }

  /** Every palette entry lies in the unit cube, and `default` is present. */
  lemma PaletteInUnitCube()
    ensures forall i :: 0 <= i < |HSB_COLORS| ==> HSB_COLORS[i].1.InUnitCube()
    ensures Get(HSB_COLORS, "default") == Some(HSBColor(0.149, 0.551, 1.0))
  {
    PaletteKeysUnique();
    assert HSB_COLORS[0] == ("default", HSBColor(0.149, 0.551, 1.0));
  }

  /** `white` and `black` are unsaturated, at full and at zero brightness. */
  lemma WhiteAndBlack()
    ensures Get(HSB_COLORS, "white") == Some(HSBColor(0.0, 0.0, 1.0))
    ensures Get(HSB_COLORS, "black") == Some(HSBColor(0.0, 0.0, 0.0))
  {
    PaletteKeysUnique();
    assert HSB_COLORS[1] == ("white", HSBColor(0.0, 0.0, 1.0));
    assert HSB_COLORS[4] == ("black", HSBColor(0.0, 0.0, 0.0));
  }

  /** Averaging does not depend on the order of the operands. */
  lemma AverageSymmetric(a: HSBColor, b: HSBColor)
    ensures a.Average(b) == b.Average(a)
  {
  }

  /** `+` is commutative and associative. */
  lemma AddCommutativeAssociative(a: HSBColor, b: HSBColor, c: HSBColor)
    ensures a.Add(Color(b)) == b.Add(Color(a))
    ensures a.Add(Color(b)).value.Add(Color(c)) == a.Add(Color(b.Add(Color(c)).value))
  {
  }
}
