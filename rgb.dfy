/**
 * `RGBColor` of lights/color/rgb.py: an immutable red-green-blue triple (each
 * component meant to lie in [0, 1]) with Python's `+`, `-` and `*` operators,
 * an average, a Euclidean distance and an approximate equality. Python floats
 * are modelled as reals; the square root of the norm is left out, so the norm
 * and the distance are given squared.
 */
module Rgb {
  import opened Errors
  import opened Dicts
  import opened Operands

  /** The dataclass; its field defaults are all 0. */
  datatype RGBColor = RGBColor(red: real := 0.0, green: real := 0.0, blue: real := 0.0)
  {
    /** Every component lies in [0, 1], as the class comment says. */
    predicate InUnitCube() {
      0.0 <= red <= 1.0 && 0.0 <= green <= 1.0 && 0.0 <= blue <= 1.0
    }

    /** Component-wise sum of two colours. */
    function Plus(other: RGBColor): RGBColor {
      RGBColor(red + other.red, green + other.green, blue + other.blue)
    }

    /** Component-wise difference of two colours. */
    function Minus(other: RGBColor): RGBColor {
      RGBColor(red - other.red, green - other.green, blue - other.blue)
    }

    /** Every component multiplied by `k`. */
    function Scaled(k: real): RGBColor {
      RGBColor(red * k, green * k, blue * k)
    }

    /** `average`: the arithmetic mean of this colour and `other`. */
    function Average(other: RGBColor): (r: RGBColor)
      ensures r.Plus(r) == Plus(other)
      ensures r.Minus(this) == other.Minus(r)
      ensures other == this ==> r == this
    {
      RGBColor((red + other.red) / 2.0, (green + other.green) / 2.0, (blue + other.blue) / 2.0)
    }

    /** The square of `norm`: never negative, and zero for black only. */
    function SquaredNorm(): (r: real)
      ensures r >= 0.0
      ensures r == 0.0 <==> this == RGBColor(0.0, 0.0, 0.0)
    {
      SquareFacts(red);
      SquareFacts(green);
      SquareFacts(blue);
      SquareZero(red);
      SquareZero(green);
      SquareZero(blue);
      assert this == RGBColor(0.0, 0.0, 0.0) <==> red == 0.0 && green == 0.0 && blue == 0.0;
      red * red + green * green + blue * blue
    }

    /**
     * The square of `distance(other)`, which is `(self - other).norm`: never
     * negative, and zero exactly between equal colours.
     */
    function SquaredDistance(other: RGBColor): (r: real)
      ensures r >= 0.0
      ensures r == 0.0 <==> this == other
    {
      var d := Minus(other);
      assert d == RGBColor(0.0, 0.0, 0.0) <==> this == other;
      d.SquaredNorm()
    }

    /**
     * `approximately(other, eps)`: `distance(other) < eps`. A square root is
     * never negative, so this holds exactly when `eps` is positive and the
     * squared distance is below `eps * eps`.
     */
    function Approximately(other: RGBColor, eps: real := 0.001): (b: bool)
      ensures b ==> eps > 0.0
    {
      eps > 0.0 && SquaredDistance(other) < eps * eps
    }

    /** `self + other`: only another `RGBColor` is accepted. */
    function Add(other: Operand<RGBColor>): (r: Result<RGBColor>)
      ensures r.Ok? <==> other.Color?
      ensures r.Ok? ==> r.value.Minus(other.color) == this
      ensures r.Err? ==> r.error == TypeError("+", "RGBColor", other.TypeName("RGBColor"))
    {
      if other.Color? then Ok(Plus(other.color))
      else Err(TypeError("+", "RGBColor", other.TypeName("RGBColor")))
    }

    /** `self - other`: only another `RGBColor` is accepted. */
    function Sub(other: Operand<RGBColor>): (r: Result<RGBColor>)
      ensures r.Ok? <==> other.Color?
      ensures r.Ok? ==> r.value.Plus(other.color) == this
      ensures r.Err? ==> r.error == TypeError("-", "RGBColor", other.TypeName("RGBColor"))
    {
      if other.Color? then Ok(Minus(other.color))
      else Err(TypeError("-", "RGBColor", other.TypeName("RGBColor")))
    }

    /** `self * other`: only a `float` is accepted; an `int` is refused too. */
    function Mul(other: Operand<RGBColor>): (r: Result<RGBColor>)
      ensures r.Ok? <==> other.Float?
      ensures r.Ok? && other.f != 0.0 ==> r.value.Scaled(1.0 / other.f) == this
      ensures r.Ok? && other.f == 0.0 ==> r.value == RGBColor()
      ensures r.Err? ==> r.error == TypeError("*", "RGBColor", other.TypeName("RGBColor"))
    {
      if other.Float? then
        var k := other.f;
        var s := Scaled(k);
        assert k != 0.0 ==> s.Scaled(1.0 / k) == this by {
          if k != 0.0 {
            assert red * k * (1.0 / k) == red;
            assert green * k * (1.0 / k) == green;
            assert blue * k * (1.0 / k) == blue;
          }
        }
        Ok(s)
      else Err(TypeError("*", "RGBColor", other.TypeName("RGBColor")))
    }
  }

  /** `RGB_COLORS`, in the order the source lists it. */
  const RGB_COLORS: Dict<RGBColor> := [
    ("white", RGBColor(red := 1.0, green := 1.0, blue := 1.0)),
    ("gray", RGBColor(red := 0.5, green := 0.5, blue := 0.5)),
    ("black", RGBColor(red := 0.0, green := 0.0, blue := 0.0)),
    ("red", RGBColor(red := 1.0, green := 0.0, blue := 0.0)),
    ("green", RGBColor(red := 0.0, green := 1.0, blue := 0.0)),
    ("blue", RGBColor(red := 0.0, green := 0.0, blue := 1.0)),
    ("magenta", RGBColor(red := 1.0, green := 0.0, blue := 1.0)),
    ("cyan", RGBColor(red := 0.0, green := 1.0, blue := 1.0)),
    ("yellow", RGBColor(red := 1.0, green := 1.0, blue := 0.0))
  ]

  /** A colour built without arguments is black, the palette's `black`. */
  lemma DefaultIsBlack()
    ensures RGBColor() == RGBColor(0.0, 0.0, 0.0)
    ensures Get(RGB_COLORS, "black") == Some(RGBColor())
  {
  }

  /** Every palette entry lies in the unit cube, and no name occurs twice. */
  lemma PaletteInUnitCube()
    ensures UniqueKeys(RGB_COLORS)
    ensures forall i :: 0 <= i < |RGB_COLORS| ==> RGB_COLORS[i].1.InUnitCube()
  {
  }

  /** Averaging does not depend on the order of the operands. */
  lemma AverageSymmetric(a: RGBColor, b: RGBColor)
    ensures a.Average(b) == b.Average(a)
  {
  }

  /** Distance is symmetric. */
  lemma DistanceSymmetric(a: RGBColor, b: RGBColor)
    ensures a.SquaredDistance(b) == b.SquaredDistance(a)
  {
    NegatedSquare(a.red - b.red);
    NegatedSquare(a.green - b.green);
    NegatedSquare(a.blue - b.blue);
  }

  /** A square is never negative. */
  lemma SquareFacts(x: real)
    ensures x * x >= 0.0
  {
    if x < 0.0 {
      var y := -x;
      assert y * y > 0.0;
      assert x * x == y * y;
    }
  }

  /** A square is zero exactly at zero. */
  lemma SquareZero(x: real)
    ensures x * x == 0.0 <==> x == 0.0
  {
    if x == 0.0 {
      assert x * x == 0.0 * 0.0;
    } else {
      assert x * (1.0 / x) == 1.0;
      assert x * x * (1.0 / x) == x;
    }
  }

  /** The square of a positive number is positive. */
  lemma PositiveSquare(x: real)
    requires x > 0.0
    ensures 0.0 < x * x
  {
  }

  /** `(-x)^2 == x^2`. */
  lemma NegatedSquare(x: real)
    ensures (-x) * (-x) == x * x
  {
  }

  /**
   * Approximate equality is reflexive for every positive `eps`: a colour is
   * at distance zero from itself, and zero is below every positive square.
   */
  lemma ApproximatelyReflexive(a: RGBColor, eps: real)
    requires eps > 0.0
    ensures a.Approximately(a, eps)
  {
    calc {
      a.SquaredDistance(a);
    ==
      0.0;
    < { PositiveSquare(eps); }
      eps * eps;
    }
  }

  /**
   * `approximately` is `distance(other) < eps`: for any non-negative `d`
   * whose square is the squared distance (the square root `norm` takes),
   * it holds exactly when `d < eps`.
   */
  lemma ApproximatelyIsDistanceBelow(a: RGBColor, b: RGBColor, eps: real, d: real)
    requires d >= 0.0 && d * d == a.SquaredDistance(b)
    ensures a.Approximately(b, eps) <==> d < eps
  {
    if eps > 0.0 {
      if d < eps {
        SquareMonotone(d, eps);
      } else {
        SquareMonotone(eps, d);
      }
    }
  }

  /** Squaring is monotone on the non-negative reals. */
  lemma SquareMonotone(x: real, y: real)
    requires 0.0 <= x <= y
    ensures x * x <= y * y
    ensures x < y ==> x * x < y * y
  {
    assert x * x <= x * y;
    assert x * y <= y * y;
    if x < y {
      calc {
        x * x;
      <=
        x * y;
      <
        y * y;
      }
    }
  }

  /** Approximate equality does not depend on the order of the operands. */
  lemma ApproximatelySymmetric(a: RGBColor, b: RGBColor, eps: real)
    ensures a.Approximately(b, eps) <==> b.Approximately(a, eps)
  {
    DistanceSymmetric(a, b);
  }

  /** `a + b` is commutative, and `(a + b) - b` gives back `a`. */
  lemma AddSubInverse(a: RGBColor, b: RGBColor)
    ensures a.Add(Color(b)) == b.Add(Color(a))
    ensures a.Add(Color(b)).value.Sub(Color(b)) == Ok(a)
  {
  }
}
