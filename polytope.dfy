/** The size measures of the shapes in polytope.py.

    Every shape's "volume" is an extent measure: a line's is its length, a
    circle's is its area, and a cylinder's is the product of the two. The
    number `math.pi` enters only as a positive constant. */
module Polytopes {
  import opened Builtins

  type PositiveReal = r: real | r > 0.0 witness 1.0

  /** `math.pi`; only its being positive is used. */
  const PI: PositiveReal

  /** A line: its dimension vector `d` is a VecX holding the length. */
  datatype Line = Line(d: seq<real>)

  /** A circle, sized by the line that is its diameter. */
  datatype Circle = Circle(diameterLine: Line)

  /** A cylinder: an end cap and the line along its length. */
  datatype Cylinder = Cylinder(cap: Circle, line: Line)

  /** A SizePolygon with a density. */
  datatype MassPolygon = MassPolygon(d: seq<real>, p: real)

  /** The product of a list of numbers, starting from 1. */
  function Product(s: seq<real>): real
  {
    if s == [] then 1.0 else s[0] * Product(s[1..])
  }

  /** `functools.reduce(operator.mul, rest, acc)`: a left fold. */
  function FoldMul(acc: real, rest: seq<real>): real
    decreases |rest|
  {
    if rest == [] then acc else FoldMul(acc * rest[0], rest[1..])
  }

  /** The left fold multiplies the start value by the product. */
  lemma {:induction false} FoldMulIsProduct(acc: real, rest: seq<real>)
    ensures FoldMul(acc, rest) == acc * Product(rest)
    decreases |rest|
  {
    if rest != [] {
      FoldMulIsProduct(acc * rest[0], rest[1..]);
      assert acc * rest[0] * Product(rest[1..]) == acc * (rest[0] * Product(rest[1..]));
    }
  }

  /** `SizePolygon.volume`: `reduce(operator.mul, self.d)`, which without an
      initial value raises TypeError on an empty list and otherwise is the
      product of all the dimensions. */
  function Volume(d: seq<real>): (r: Result<real>)
    ensures d == [] <==> r == Raise(TypeError)
    ensures d != [] ==> r == Ok(Product(d))
  {
    if d == [] then Raise(TypeError)
    else
      FoldMulIsProduct(d[0], d[1..]);
      assert FoldMul(d[0], d[1..]) == d[0] * Product(d[1..]);
      assert Product(d) == d[0] * Product(d[1..]);
      Ok(FoldMul(d[0], d[1..]))
  }

  predicate NonNegative(s: seq<real>)
  {
    forall i :: 0 <= i < |s| ==> s[i] >= 0.0
  }

  lemma {:induction false} ProductNonNegative(s: seq<real>)
    ensures NonNegative(s) ==> Product(s) >= 0.0
  {
    if s != [] && NonNegative(s) {
      assert NonNegative(s[1..]) by {
        forall i | 0 <= i < |s| - 1
          ensures s[1..][i] >= 0.0
        {
          assert s[1..][i] == s[i + 1];
        }
      }
      ProductNonNegative(s[1..]);
      assert s[0] >= 0.0;
    }
  }

  /** Non-negative dimensions give a non-negative volume. */
  lemma VolumeNonNegative(d: seq<real>)
    requires d != [] && NonNegative(d)
    ensures Volume(d).Ok? && Volume(d).value >= 0.0
  {
    ProductNonNegative(d);
  }

  /** `Line.volume`: a line's volume is its single length component. */
  function LineVolume(l: Line): (r: Result<real>)
    ensures |l.d| == 1 ==> r == Ok(l.d[0])
    ensures l.d == [] ==> r == Raise(TypeError)
  {
    Volume(l.d)
  }

  /** `MassPolygon.mass`: volume times density. */
  function Mass(m: MassPolygon): (r: Result<real>)
    ensures m.d == [] ==> r == Raise(TypeError)
    ensures m.d != [] ==> r == Ok(Product(m.d) * m.p)
    ensures m.d != [] && NonNegative(m.d) && m.p >= 0.0 ==> r.Ok? && r.value >= 0.0
  {
    match Volume(m.d)
    case Raise(e) => Raise(e)
    case Ok(v) =>
      assert v == Product(m.d);
      assert v * m.p == Product(m.d) * m.p;
      ProductNonNegative(m.d);
      Ok(v * m.p)
  }

  /** `Circle.diameter`: the `x` of the diameter line's VecX, an IndexError
      when that vector is empty. */
  function Diameter(c: Circle): (r: Result<real>)
    ensures c.diameterLine.d == [] <==> r == Raise(IndexError)
    ensures c.diameterLine.d != [] ==> r == Ok(c.diameterLine.d[0])
  {
    Subscript(c.diameterLine.d, 0)
  }

  /** `Circle.radius`: half the diameter. */
  function Radius(c: Circle): (r: Result<real>)
    ensures r.Raise? <==> Diameter(c).Raise?
    ensures r.Ok? ==> 2.0 * r.value == Diameter(c).value
  {
    match Diameter(c)
    case Raise(e) => Raise(e)
    case Ok(dm) => Ok(dm / 2.0)
  }

  /** `Circle.volume`: the area `PI * radius ** 2`, never negative. */
  function CircleVolume(c: Circle): (r: Result<real>)
    ensures r.Raise? <==> c.diameterLine.d == []
    ensures r.Ok? ==> r.value >= 0.0
    ensures r.Ok? ==> r.value * 4.0 == PI * c.diameterLine.d[0] * c.diameterLine.d[0]
  {
    match Radius(c)
    case Raise(e) => Raise(e)
    case Ok(rad) =>
      assert rad * rad >= 0.0;
      assert (rad * 2.0) * (rad * 2.0) == 4.0 * (rad * rad);
      Ok(PI * (rad * rad))
  }

  /** `Cylinder.volume`: `line.volume * cap.volume`, length times cap area.
      The line's volume is taken first, so its TypeError comes before the
      cap's IndexError. */
  function CylinderVolume(cy: Cylinder): (r: Result<real>)
    ensures cy.line.d == [] ==> r == Raise(TypeError)
    ensures cy.line.d != [] && cy.cap.diameterLine.d == [] ==> r == Raise(IndexError)
    ensures r.Ok? <==> cy.line.d != [] && cy.cap.diameterLine.d != []
    ensures r.Ok? ==> r.value == Product(cy.line.d) * CircleVolume(cy.cap).value
  {
    match LineVolume(cy.line)
    case Raise(e) => Raise(e)
    case Ok(len) =>
      match CircleVolume(cy.cap)
      case Raise(e) => Raise(e)
      case Ok(area) => Ok(len * area)
  }

  /** For a line of length `L` and a cap of diameter `D`, the cylinder's
      volume is `L * PI * (D / 2) ** 2`, not negative when `L` is not. */
  lemma CylinderOfLengthAndDiameter(length: real, diameter: real)
    ensures CylinderVolume(Cylinder(Circle(Line([diameter])), Line([length]))).Ok?
    ensures CylinderVolume(Cylinder(Circle(Line([diameter])), Line([length]))).value
            == length * (PI * ((diameter / 2.0) * (diameter / 2.0)))
    ensures length >= 0.0 ==> CylinderVolume(Cylinder(Circle(Line([diameter])), Line([length]))).value >= 0.0
  {
  }
}
