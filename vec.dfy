/** The generic component-wise vector of vec.py, over integer components.

    Arithmetic builds new vectors through two combinators, a map over the
    components and a map over the `zip` of two component lists, so every
    binary operation silently truncates to the shorter operand. */
module Vectors {
  import opened Builtins

  function Min(a: nat, b: nat): nat { if a <= b then a else b }

  // ---------------------------------------------------------------------------
  // Construction

  /** One positional argument of `Vec(*args)`: a number, a list or a tuple. */
  datatype Arg = Num(n: int) | ListArg(items: seq<int>) | TupleArg(items: seq<int>)

  /** The container that ends up in `components`: a Python list can be
      assigned into, a tuple cannot. */
  datatype Container = List | Tuple

  predicate Numeric(args: seq<Arg>)
  {
    forall i :: 0 <= i < |args| ==> args[i].Num?
  }

  /** True when `Vec(*args)` takes its single argument as the component list. */
  predicate SingleSequence(args: seq<Arg>)
  {
    |args| == 1 && !args[0].Num?
  }

  /** The components `Vec(*args)` ends up with. An integer vector cannot hold
      a list as one of several components, hence the requires. */
  function Components(args: seq<Arg>): seq<int>
    requires |args| == 1 || Numeric(args)
  {
    if SingleSequence(args) then args[0].items
    else seq(|args|, i requires 0 <= i < |args| => args[i].n)
  }

  /** Only a single list argument is kept as a list; in every other case the
      components are a tuple (the argument tuple itself, or the tuple passed). */
  function ContainerOf(args: seq<Arg>): Container
  {
    if |args| == 1 && args[0].ListArg? then List else Tuple
  }

  // ---------------------------------------------------------------------------
  // The two combinators and the arithmetic built on them

  /** `_fmap(f)(v)`: `f` applied to every component. */
  function FMap(f: int -> int, c: seq<int>): (r: seq<int>)
    ensures |r| == |c|
    ensures forall i :: 0 <= i < |c| ==> r[i] == f(c[i])
  {
    if c == [] then [] else [f(c[0])] + FMap(f, c[1..])
  }

  /** `_fmap2(f)(v)(w)`: `f` applied to the pairs of `zip`, which stops at
      the end of the shorter list. */
  function ZipWith(f: (int, int) -> int, a: seq<int>, b: seq<int>): (r: seq<int>)
    ensures |r| == Min(|a|, |b|)
    ensures forall i :: 0 <= i < |r| ==> r[i] == f(a[i], b[i])
  {
    if a == [] || b == [] then [] else [f(a[0], b[0])] + ZipWith(f, a[1..], b[1..])
  }

  /** Python's `sum` over a list of integers (start value 0). */
  function Sum(c: seq<int>): int
  {
    if c == [] then 0 else c[0] + Sum(c[1..])
  }

  /** `x ** p` for a non-negative integer exponent (`0 ** 0 == 1`). */
  function IntPow(x: int, p: nat): int
  {
    if p == 0 then 1 else x * IntPow(x, p - 1)
  }

  /** `-v`: `_fmap(operator.neg)`. */
  function Negated(c: seq<int>): (r: seq<int>)
    ensures |r| == |c|
    ensures forall i :: 0 <= i < |c| ==> r[i] == -c[i]
  {
    FMap(x => -x, c)
  }

  /** `v + w`: `_fmap2(operator.add)`. */
  function Added(a: seq<int>, b: seq<int>): (r: seq<int>)
    ensures |r| == Min(|a|, |b|)
    ensures forall i :: 0 <= i < |r| ==> r[i] == a[i] + b[i]
  {
    ZipWith((x, y) => x + y, a, b)
  }

  /** `v - w`, written in the source as `_fmap2(operator.add)(v)(-w)`; its
      contract is the component-wise difference that this encoding amounts to. */
  function Subtracted(a: seq<int>, b: seq<int>): (r: seq<int>)
    ensures |r| == Min(|a|, |b|)
    ensures forall i :: 0 <= i < |r| ==> r[i] == a[i] - b[i]
  {
    Added(a, Negated(b))
  }

  /** `v * w`: the sum of the pairwise products, a number and not a vector. */
  function Dot(a: seq<int>, b: seq<int>): int
  {
    Sum(ZipWith((x, y) => x * y, a, b))
  }

  /** `v ** p`: the sum of the components raised to `p`. */
  function PowerSum(c: seq<int>, p: nat): int
  {
    Sum(FMap(x => IntPow(x, p), c))
  }

  // ---------------------------------------------------------------------------
  // Operand broadcasting

  /** The right operand of `+`, `-`, `*` and `+=`: another Vec, a list or
      tuple, or a number. */
  datatype Operand = OfVec(v: Vec) | OfSeq(items: seq<int>) | OfScalar(x: int)

  /** `_expand_other`: a Vec is used as it is, a list or tuple is wrapped
      (`Vec(other)` takes it as its component list), and a number is
      repeated once per component of the left operand. */
  function ExpandOther(n: nat, other: Operand): seq<int>
    reads if other.OfVec? then {other.v} else {}
  {
    match other
    case OfVec(v) => v.components
    case OfSeq(items) => Components([ListArg(items)])
    case OfScalar(x) => seq(n, _ => x)
  }

  /** `_expand_other` as the source writes it: its first test,
      `isinstance(other, Vec[T])`, checks against a subscripted generic
      alias, which `isinstance` refuses with TypeError whatever `other` is.
      Every `+`, `-`, `*` and `+=` expands its operand this way first. */
  function ExpandOtherAsWritten(n: nat, other: Operand): Result<seq<int>>
  {
    Raise(TypeError)
  }

  /** `Vec(1, 2) + 1` raises TypeError as written, while the intended
      dispatch of `ExpandOther` makes it `Vec([2, 3])`. */
  lemma ScalarAddAsWritten()
    ensures ExpandOtherAsWritten(2, OfScalar(1)) == Raise(TypeError)
    ensures Added([1, 2], ExpandOther(2, OfScalar(1))) == [2, 3]
  {
  }

  // ---------------------------------------------------------------------------
  // The mutable vector object

  class Vec {
    var components: seq<int>
    var container: Container

    /** `Vec(*args)`. */
    constructor (args: seq<Arg>)
      requires |args| == 1 || Numeric(args)
      ensures components == Components(args) && container == ContainerOf(args)
    {
      components := Components(args);
      container := ContainerOf(args);
    }

    /** `len(v)`: the bound of indexing, every index below it (and down to
        its negation) is valid and the index equal to it is not. */
    function Len(): (n: nat)
      reads this
      ensures GetItem(n) == Raise(IndexError) && GetItem(-(n as int) - 1) == Raise(IndexError)
      ensures forall i :: -(n as int) <= i < n ==> GetItem(i).Ok?
    {
      |components|
    }

    /** `v[idx]`, with Python's negative indices and IndexError. */
    function GetItem(idx: int): (r: Result<int>)
      reads this
      ensures r.Ok? <==> -|components| <= idx < |components|
      ensures r.Raise? ==> r.exc == IndexError
      ensures r.Ok? ==> r.value in components
      ensures 0 <= idx < |components| ==> r == Ok(components[idx])
      ensures -|components| <= idx < 0 ==> r == Ok(components[|components| + idx])
    {
      Subscript(components, idx)
    }

    /** `v[idx] = val`: replaces exactly one component of a list; a tuple
        refuses assignment with TypeError before the index is looked at. */
    method SetItem(idx: int, val: int) returns (r: Result<()>)
      modifies this
      ensures container == old(container)
      ensures old(container) == Tuple ==> r == Raise(TypeError) && components == old(components)
      ensures old(container) == List && !(-|old(components)| <= idx < |old(components)|) ==>
                r == Raise(IndexError) && components == old(components)
      ensures r == Ok(()) <==> old(container) == List && -|old(components)| <= idx < |old(components)|
      ensures r.Ok? ==> components == old(components)[ResolveIndex(|old(components)|, idx).value := val]
      ensures |components| == |old(components)|
      ensures r.Ok? ==> GetItem(idx) == Ok(val)
    {
      if container == Tuple {
        return Raise(TypeError);
      }
      match ResolveIndex(|components|, idx)
      case Raise(e) =>
        r := Raise(e);
      case Ok(k) =>
        components := components[k := val];
        r := Ok(());
    }

    /** `-v`: a fresh list-backed vector. */
    method Neg() returns (r: Vec)
      ensures fresh(r) && r.container == List
      ensures r.components == Negated(components)
    {
      r := new Vec([ListArg(Negated(components))]);
    }

    /** `v + other`. */
    method Add(other: Operand) returns (r: Vec)
      ensures fresh(r) && r.container == List
      ensures r.components == Added(components, ExpandOther(|components|, other))
    {
      r := new Vec([ListArg(Added(components, ExpandOther(|components|, other)))]);
    }

    /** `v - other`. */
    method Sub(other: Operand) returns (r: Vec)
      ensures fresh(r) && r.container == List
      ensures r.components == Subtracted(components, ExpandOther(|components|, other))
    {
      var w := ExpandOther(|components|, other);
      r := new Vec([ListArg(Added(components, Negated(w)))]);
    }

    /** `v * other`: a number. Against a number it is that number times the
        sum of the components; against a Vec the operands may be swapped. */
    function Mul(other: Operand): (r: int)
      reads this, if other.OfVec? then {other.v} else {}
      ensures other.OfScalar? ==> r == other.x * Sum(components)
      ensures other.OfVec? ==> r == Dot(other.v.components, components)
      ensures other.OfSeq? ==> r == Dot(components, other.items)
    {
      var w := ExpandOther(|components|, other);
      DotCommutes(components, w);
      if other.OfScalar? then ScaledDot(components, other.x); Dot(components, w)
      else Dot(components, w)
    }

    /** `v ** p`; with `p == 2` the squared length, never negative. */
    function Pow(p: nat): (r: int)
      reads this
      ensures p == 2 ==> r == Dot(components, components) && r >= 0
      ensures p == 0 ==> r == |components|
      ensures p == 1 ==> r == Sum(components)
    {
      SumOfSquares(components);
      PowerSumZeroOne(components);
      PowerSum(components, p)
    }

    /** `v += other`: the components become a list holding `v + other`, and
        the same object is returned. */
    method IAdd(other: Operand) returns (r: Vec)
      modifies this
      ensures r == this && container == List
      ensures components == Added(old(components), old(ExpandOther(|components|, other)))
    {
      var w := ExpandOther(|components|, other);
      components := Added(components, w);
      container := List;
      r := this;
    }
  }

  /** `Vec(1, 2)` keeps its argument tuple, so `v[0] = 5` raises TypeError;
      `Vec([1, 2])` keeps the list, and the same assignment goes through. */
  method ItemAssignment() returns (fromArgs: Result<()>, fromList: Result<()>, after: seq<int>)
    ensures fromArgs == Raise(TypeError)
    ensures fromList == Ok(())
    ensures after == [5, 2]
  {
    var v := new Vec([Num(1), Num(2)]);
    fromArgs := v.SetItem(0, 5);
    var w := new Vec([ListArg([1, 2])]);
    assert w.components == [1, 2];
    fromList := w.SetItem(0, 5);
    assert ResolveIndex(2, 0) == Ok(0);
    after := w.components;
  }

  /** For every construction, assigning into an in-range index succeeds
      exactly when the single argument was a list, and then replaces that
      one component; otherwise the components stay as constructed. */
  method AssignAfterConstruction(args: seq<Arg>, idx: int, val: int) returns (r: Result<()>, after: seq<int>)
    requires |args| == 1 || Numeric(args)
    requires -|Components(args)| <= idx < |Components(args)|
    ensures r == Ok(()) <==> |args| == 1 && args[0].ListArg?
    ensures r.Raise? ==> r == Raise(TypeError) && after == Components(args)
    ensures r.Ok? ==> after == Components(args)[ResolveIndex(|Components(args)|, idx).value := val]
  {
    var v := new Vec(args);
    r := v.SetItem(idx, val);
    after := v.components;
  }

  /** The numbers as separate arguments of `Vec(*args)`. */
  function Spread(xs: seq<int>): (args: seq<Arg>)
    ensures |args| == |xs| && Numeric(args)
  {
    seq(|xs|, i requires 0 <= i < |xs| => Num(xs[i]))
  }

  /** `Vec(*xs)`, `Vec(list(xs))` and `Vec(tuple(xs))` hold the same
      components; only the list form can be assigned into. */
  lemma ConstructionForms(xs: seq<int>)
    ensures Components(Spread(xs)) == xs
    ensures Components([ListArg(xs)]) == xs && Components([TupleArg(xs)]) == xs
    ensures ContainerOf(Spread(xs)) == Tuple && ContainerOf([TupleArg(xs)]) == Tuple
    ensures ContainerOf([ListArg(xs)]) == List
  {
  }

  // ---------------------------------------------------------------------------
  // Properties of the arithmetic

  /** `-(-v) == v`. */
  lemma NegNeg(a: seq<int>)
    ensures Negated(Negated(a)) == a
  {
  }

  /** `(a + b) - b` gives back `a`, cut to the length of the shorter operand;
      for operands of equal length that is `a` itself. */
  lemma AddSubCancel(a: seq<int>, b: seq<int>)
    ensures Subtracted(Added(a, b), b) == a[..Min(|a|, |b|)]
    ensures |a| == |b| ==> Subtracted(Added(a, b), b) == a
  {
  }

  /** Adding a number adds it to every component and keeps the length. */
  lemma AddScalarBroadcasts(a: seq<int>, x: int)
    ensures |Added(a, ExpandOther(|a|, OfScalar(x)))| == |a|
    ensures forall i :: 0 <= i < |a| ==> Added(a, ExpandOther(|a|, OfScalar(x)))[i] == a[i] + x
  {
  }

  lemma {:induction false} SumOfEqual(s: seq<int>, t: seq<int>)
    requires |s| == |t| && forall i :: 0 <= i < |s| ==> s[i] == t[i]
    ensures Sum(s) == Sum(t)
  {
    assert s == t;
  }

  /** `a * b == b * a`. */
  lemma DotCommutes(a: seq<int>, b: seq<int>)
    ensures Dot(a, b) == Dot(b, a)
  {
    SumOfEqual(ZipWith((x, y) => x * y, a, b), ZipWith((x, y) => x * y, b, a));
  }

  /** Multiplying by a broadcast number is scaling the sum. */
  lemma {:induction false} ScaledDot(a: seq<int>, x: int)
    ensures Dot(a, ExpandOther(|a|, OfScalar(x))) == x * Sum(a)
  {
    if a != [] {
      var w := ExpandOther(|a|, OfScalar(x));
      var z := ZipWith((p, q) => p * q, a, w);
      ScaledDot(a[1..], x);
      SumOfEqual(z[1..], ZipWith((p, q) => p * q, a[1..], ExpandOther(|a[1..]|, OfScalar(x))));
      assert z[0] == a[0] * x;
    }
  }

  lemma {:induction false} SumNonNegative(s: seq<int>)
    requires forall i :: 0 <= i < |s| ==> s[i] >= 0
    ensures Sum(s) >= 0
  {
    if s != [] {
      SumNonNegative(s[1..]);
    }
  }

  /** `v ** 2` is the dot product of `v` with itself and is never negative. */
  lemma {:induction false} SumOfSquares(c: seq<int>)
    ensures PowerSum(c, 2) == Dot(c, c)
    ensures PowerSum(c, 2) >= 0
  {
    var sq := FMap(x => IntPow(x, 2), c);
    var pr := ZipWith((x, y) => x * y, c, c);
    forall i | 0 <= i < |c| ensures sq[i] == pr[i] && sq[i] >= 0 {
      assert IntPow(c[i], 1) == c[i];
      assert IntPow(c[i], 2) == c[i] * c[i];
    }
    SumOfEqual(sq, pr);
    SumNonNegative(sq);
  }

  /** `v ** 0` counts the components, `v ** 1` sums them. */
  lemma {:induction false} PowerSumZeroOne(c: seq<int>)
    ensures PowerSum(c, 0) == |c|
    ensures PowerSum(c, 1) == Sum(c)
  {
    if c != [] {
      PowerSumZeroOne(c[1..]);
      SumOfEqual(FMap(x => IntPow(x, 0), c)[1..], FMap(x => IntPow(x, 0), c[1..]));
      SumOfEqual(FMap(x => IntPow(x, 1), c)[1..], FMap(x => IntPow(x, 1), c[1..]));
      SumOfEqual(FMap(x => IntPow(x, 1), c), c);
    }
  }

  // ---------------------------------------------------------------------------
  // Axis views: VecXZ, VecX, VecY and VecXYZ name components by axis

  datatype View = VecXZ | VecX | VecY | VecXYZ
  datatype Axis = X | Y | Z

  /** How many components each view is meant for: 2D position, force and
      velocity; a line length; an angle; 3D vectors. */
  function Arity(view: View): nat
  {
    match view
    case VecXZ => 2
    case VecX => 1
    case VecY => 1
    case VecXYZ => 3
  }

  /** The component index each axis property reads, as the source writes
      it; `z` of a VecXYZ reads index 3. A missing property is an
      AttributeError. */
  function AxisSlotAsWritten(view: View, axis: Axis): (r: Result<nat>)
    ensures r.Raise? ==> r.exc == AttributeError
    ensures view == VecXYZ && axis == Z ==> r == Ok(3)
    ensures !(view == VecXYZ && axis == Z) ==> r == AxisSlot(view, axis)
  {
    match (view, axis)
    case (VecXZ, X) => Ok(0)
    case (VecXZ, Z) => Ok(1)
    case (VecX, X) => Ok(0)
    case (VecY, Y) => Ok(0)
    case (VecXYZ, X) => Ok(0)
    case (VecXYZ, Y) => Ok(1)
    case (VecXYZ, Z) => Ok(3)
    case _ => Raise(AttributeError)
  }

  /** The corrected layout: each axis of a view reads its own component,
      and every index lies inside the view's arity. */
  function AxisSlot(view: View, axis: Axis): (r: Result<nat>)
    ensures r.Raise? ==> r.exc == AttributeError
    ensures r.Ok? ==> r.value < Arity(view)
  {
    match (view, axis)
    case (VecXZ, X) => Ok(0)
    case (VecXZ, Z) => Ok(1)
    case (VecX, X) => Ok(0)
    case (VecY, Y) => Ok(0)
    case (VecXYZ, X) => Ok(0)
    case (VecXYZ, Y) => Ok(1)
    case (VecXYZ, Z) => Ok(2)
    case _ => Raise(AttributeError)
  }

  /** In the corrected layout two different axes of a view never read the
      same component, and every component of the view has an axis. */
  lemma AxisSlotsDistinct(view: View, a: Axis, b: Axis)
    requires a != b && AxisSlot(view, a).Ok? && AxisSlot(view, b).Ok?
    ensures AxisSlot(view, a).value != AxisSlot(view, b).value
  {
  }

  /** An axis property, e.g. `v.x`, read as the source writes it. */
  function PropertyAsWritten(view: View, axis: Axis, c: seq<int>): Result<int>
  {
    match AxisSlotAsWritten(view, axis)
    case Raise(e) => Raise(e)
    case Ok(k) => Subscript(c, k)
  }

  /** An axis property with the corrected layout: on a vector of the view's
      arity it never fails for an axis the view has. */
  function Property(view: View, axis: Axis, c: seq<int>): (r: Result<int>)
    ensures AxisSlot(view, axis).Raise? ==> r == Raise(AttributeError)
    ensures AxisSlot(view, axis).Ok? && |c| == Arity(view) ==> r == Ok(c[AxisSlot(view, axis).value])
  {
    match AxisSlot(view, axis)
    case Raise(e) => Raise(e)
    case Ok(k) => Subscript(c, k)
  }

  /** As written, `z` of a three-component VecXYZ is out of range. */
  lemma XyzZOutOfRange(c: seq<int>)
    requires |c| == Arity(VecXYZ)
    ensures PropertyAsWritten(VecXYZ, Z, c) == Raise(IndexError)
    ensures Property(VecXYZ, Z, c) == Ok(c[2])
  {
  }

  /** Apart from that one property, the written layout is the corrected one. */
  lemma PropertiesAgreeElsewhere(view: View, axis: Axis, c: seq<int>)
    requires !(view == VecXYZ && axis == Z)
    ensures PropertyAsWritten(view, axis, c) == Property(view, axis, c)
  {
  }
}
