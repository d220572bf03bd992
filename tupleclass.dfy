/** TupleClass of tupleclass.py: a mutable record whose annotated fields,
    in declaration order, also make it behave like a tuple.

    An instance is its attribute dictionary. A subclass contributes its
    field names (the annotations, in order) and its class-level defaults.
    Calling the class runs the generated `__new__` and then
    `TupleClass.__init__`; reading a field looks in the instance first and
    in the class defaults second, like Python's attribute lookup. */
module TupleClasses {
  import opened Builtins

  /** The Python values the records hold in this model. */
  datatype Value = NoneValue | Int(i: int) | Str(s: string)

  /** A subclass of TupleClass: annotated field names in declaration order,
      and the defaults given as class attributes. */
  datatype Schema = Schema(fields: seq<string>, defaults: map<string, Value>)

  /** Annotation names are dictionary keys, so they never repeat. */
  predicate DistinctFields(fields: seq<string>)
  {
    forall i, j :: 0 <= i < j < |fields| ==> fields[i] != fields[j]
  }

  type Attrs = map<string, Value>
  type Pair = (string, Value)

  // ---------------------------------------------------------------------------
  // What the setattr loops do to the instance dictionary

  /** `zip(field_names, args)`: stops at the shorter of the two. */
  function Zip(fields: seq<string>, args: seq<Value>): seq<Pair>
  {
    if |args| <= |fields| then seq(|args|, i requires 0 <= i < |args| => (fields[i], args[i]))
    else seq(|fields|, i requires 0 <= i < |fields| => (fields[i], args[i]))
  }

  /** `for name, value in pairs: setattr(self, name, value)`. */
  function Assign(m: Attrs, ps: seq<Pair>): Attrs
  {
    if ps == [] then m
    else Assign(m, ps[..|ps| - 1])[ps[|ps| - 1].0 := ps[|ps| - 1].1]
  }

  /** The value the last pair naming `name` carries, if any. */
  function LastValue(ps: seq<Pair>, name: string): Option<Value>
  {
    if ps == [] then None
    else if ps[|ps| - 1].0 == name then Some(ps[|ps| - 1].1)
    else LastValue(ps[..|ps| - 1], name)
  }

  /** The default loop of `__init__`: every field `hasattr` does not find,
      neither in the instance nor among the class defaults, is set to None. */
  function FillMissing(names: seq<string>, defaults: map<string, Value>, m: Attrs): Attrs
  {
    if names == [] then m
    else
      var m' := FillMissing(names[..|names| - 1], defaults, m);
      var f := names[|names| - 1];
      if f in m' || f in defaults then m' else m'[f := NoneValue]
  }

  /** The instance dictionary the generated `__new__` leaves behind. Its
      positional loop zips `fields(cls)`, the dataclass fields, and a
      subclass inherits those from TupleClass itself, which declares none:
      the class `make_dataclass` returns has `type` as its metaclass, so the
      metaclass never runs for a subclass. Only the keywords are set. */
  function NewAttrs(kwargs: seq<Pair>): Attrs
  {
    Assign(map[], kwargs)
  }

  /** The instance dictionary after `__init__` has run on `m`. */
  function InitAttrs(schema: Schema, m: Attrs, args: seq<Value>, kwargs: seq<Pair>): Attrs
  {
    Assign(Assign(FillMissing(schema.fields, schema.defaults, m), Zip(schema.fields, args)), kwargs)
  }

  /** `getattr(instance, name)`: the instance dictionary, then the class. */
  function Lookup(schema: Schema, m: Attrs, name: string): (r: Result<Value>)
    ensures r.Raise? <==> name !in m && name !in schema.defaults
    ensures r.Raise? ==> r.exc == AttributeError
    ensures name in m ==> r == Ok(m[name])
    ensures name !in m && name in schema.defaults ==> r == Ok(schema.defaults[name])
  {
    if name in m then Ok(m[name])
    else if name in schema.defaults then Ok(schema.defaults[name])
    else Raise(AttributeError)
  }

  /** What field `k` holds after `Cls(*args, **kwargs)`, as the in-file
      tests describe it: the keyword if given, else the positional argument,
      else the class default, else None. */
  function Expected(schema: Schema, args: seq<Value>, kwargs: seq<Pair>, k: nat): Value
    requires k < |schema.fields|
  {
    var f := schema.fields[k];
    match LastValue(kwargs, f)
    case Some(v) => v
    case None =>
      if k < |args| then args[k]
      else if f in schema.defaults then schema.defaults[f]
      else NoneValue
  }

  function ExpectedTuple(schema: Schema, args: seq<Value>, kwargs: seq<Pair>): (t: seq<Value>)
    ensures |t| == |schema.fields|
  {
    seq(|schema.fields|, k requires 0 <= k < |schema.fields| => Expected(schema, args, kwargs, k))
  }

  // ---------------------------------------------------------------------------
  // Lemmas about the setattr loops

  /** After the setattr loop a name holds the last value assigned to it, or
      what it held before. */
  lemma {:induction false} AssignLookup(m: Attrs, ps: seq<Pair>, name: string)
    ensures name in Assign(m, ps) <==> name in m || LastValue(ps, name).Some?
    ensures LastValue(ps, name).Some? ==> Assign(m, ps)[name] == LastValue(ps, name).value
    ensures LastValue(ps, name).None? && name in m ==> Assign(m, ps)[name] == m[name]
  {
    if ps != [] {
      AssignLookup(m, ps[..|ps| - 1], name);
    }
  }

  /** With distinct field names, `zip(field_names, args)` names field `k`
      exactly when there is a `k`-th positional argument. */
  lemma {:induction false} ZipNamesField(fields: seq<string>, args: seq<Value>, k: nat)
    requires DistinctFields(fields) && k < |fields|
    ensures LastValue(Zip(fields, args), fields[k]) == if k < |args| then Some(args[k]) else None
  {
    var ps := Zip(fields, args);
    var n := |ps|;
    assert ps[..n] == ps;
    ZipLast(fields, args, fields[k], n, k);
  }

  lemma {:induction false} ZipLast(fields: seq<string>, args: seq<Value>, name: string, n: nat, k: nat)
    requires DistinctFields(fields) && k < |fields| && name == fields[k]
    requires n <= |Zip(fields, args)|
    ensures LastValue(Zip(fields, args)[..n], name) == if k < n then Some(args[k]) else None
  {
    var ps := Zip(fields, args);
    if n > 0 {
      assert ps[..n][..n - 1] == ps[..n - 1];
      ZipLast(fields, args, name, n - 1, k);
      assert ps[..n][n - 1] == (fields[n - 1], args[n - 1]);
    }
  }

  /** The default loop sets exactly the missing, default-less fields to
      None and touches nothing else. */
  lemma {:induction false} FillMissingLookup(names: seq<string>, defaults: map<string, Value>, m: Attrs, f: string)
    ensures f in FillMissing(names, defaults, m) <==> f in m || (f in names && f !in defaults)
    ensures f in m ==> FillMissing(names, defaults, m)[f] == m[f]
    ensures f !in m && f in names && f !in defaults ==> FillMissing(names, defaults, m)[f] == NoneValue
  {
    if names != [] {
      var init := names[..|names| - 1];
      FillMissingLookup(init, defaults, m, f);
      assert f in names <==> f in init || f == names[|names| - 1];
    }
  }

  /** `Cls(*args, **kwargs)` gives field `k` the value the tests describe:
      positional arguments in declaration order, keywords applied afterwards
      and overriding them, then the class default, then None. */
  lemma FieldAfterConstruction(schema: Schema, args: seq<Value>, kwargs: seq<Pair>, k: nat)
    requires DistinctFields(schema.fields) && |args| <= |schema.fields| && k < |schema.fields|
    ensures Lookup(schema, InitAttrs(schema, NewAttrs(kwargs), args, kwargs), schema.fields[k])
            == Ok(Expected(schema, args, kwargs, k))
  {
    var f := schema.fields[k];
    var zs := Zip(schema.fields, args);
    var m0 := NewAttrs(kwargs);
    var filled := FillMissing(schema.fields, schema.defaults, m0);
    var positional := Assign(filled, zs);
    ZipNamesField(schema.fields, args, k);
    AssignLookup(positional, kwargs, f);
    AssignLookup(filled, zs, f);
    AssignLookup(map[], kwargs, f);
    FillMissingLookup(schema.fields, schema.defaults, m0, f);
  }

  /** Every field resolves once `__init__` has run: each is in the
      instance, or has a class default. */
  lemma FieldsResolve(schema: Schema, m: Attrs, args: seq<Value>, kwargs: seq<Pair>, f: string)
    requires f in schema.fields
    ensures f in InitAttrs(schema, m, args, kwargs) || f in schema.defaults
  {
    var filled := FillMissing(schema.fields, schema.defaults, m);
    FillMissingLookup(schema.fields, schema.defaults, m, f);
    AssignLookup(filled, Zip(schema.fields, args), f);
    AssignLookup(Assign(filled, Zip(schema.fields, args)), kwargs, f);
  }

  // ---------------------------------------------------------------------------
  // Tuple order: `tuple(self) < tuple(other)`

  /** `<` on two strings: code point by code point, a prefix first. */
  function StrLt(s: string, t: string): bool
  {
    if s == [] || t == [] then |s| < |t|
    else if s[0] == t[0] then StrLt(s[1..], t[1..])
    else s[0] < t[0]
  }

  /** The four order operators of Python. */
  datatype Order = Less | LessEq | Greater | GreaterEq

  function IntCompare(op: Order, i: int, j: int): bool
  {
    match op
    case Less => i < j
    case LessEq => i <= j
    case Greater => i > j
    case GreaterEq => i >= j
  }

  /** The string order: `StrLt` and its mirror image, with equality for the
      non-strict operators. */
  function StrCompare(op: Order, s: string, t: string): bool
  {
    match op
    case Less => StrLt(s, t)
    case LessEq => s == t || StrLt(s, t)
    case Greater => StrLt(t, s)
    case GreaterEq => s == t || StrLt(t, s)
  }

  /** `x op y` on two values: integers and strings among themselves; anything
      else (None, or an int against a str) raises TypeError. */
  function ValueCompare(op: Order, x: Value, y: Value): (r: Result<bool>)
    ensures r.Ok? <==> (x.Int? && y.Int?) || (x.Str? && y.Str?)
    ensures r.Raise? ==> r.exc == TypeError
  {
    match (x, y)
    case (Int(i), Int(j)) => Ok(IntCompare(op, i, j))
    case (Str(s), Str(t)) => Ok(StrCompare(op, s, t))
    case _ => Raise(TypeError)
  }

  /** `x < y` on two values. */
  function ValueLt(x: Value, y: Value): (r: Result<bool>)
    ensures r.Ok? <==> (x.Int? && y.Int?) || (x.Str? && y.Str?)
    ensures r.Raise? ==> r.exc == TypeError
    ensures x.Int? && y.Int? ==> r == Ok(x.i < y.i)
    ensures x.Str? && y.Str? ==> r == Ok(StrLt(x.s, y.s))
  {
    ValueCompare(Less, x, y)
  }

  /** `a op b` on two tuples: the first position where they differ decides,
      with the values' own operator; with no difference the lengths do. */
  function TupleCompare(op: Order, a: seq<Value>, b: seq<Value>): Result<bool>
  {
    if a == [] || b == [] then Ok(IntCompare(op, |a|, |b|))
    else if a[0] == b[0] then TupleCompare(op, a[1..], b[1..])
    else ValueCompare(op, a[0], b[0])
  }

  /** A tuple comparison fails only with the TypeError of two values that
      cannot be ordered. */
  lemma {:induction false} TupleCompareRaisesTypeError(op: Order, a: seq<Value>, b: seq<Value>)
    ensures TupleCompare(op, a, b).Raise? ==> TupleCompare(op, a, b).exc == TypeError
  {
    if a != [] && b != [] && a[0] == b[0] {
      TupleCompareRaisesTypeError(op, a[1..], b[1..]);
    }
  }

  /** `a < b` on two tuples. */
  function TupleLt(a: seq<Value>, b: seq<Value>): Result<bool>
  {
    TupleCompare(Less, a, b)
  }

  lemma {:induction false} StrLtIrreflexive(s: string)
    ensures !StrLt(s, s)
  {
    if s != [] {
      StrLtIrreflexive(s[1..]);
    }
  }

  lemma {:induction false} StrLtTrichotomy(s: string, t: string)
    ensures s != t ==> StrLt(s, t) != StrLt(t, s)
  {
    if s != [] && t != [] && s[0] == t[0] {
      StrLtTrichotomy(s[1..], t[1..]);
      assert s == [s[0]] + s[1..] && t == [t[0]] + t[1..];
    }
  }

  lemma {:induction false} StrLtTransitive(s: string, t: string, u: string)
    requires StrLt(s, t) && StrLt(t, u)
    ensures StrLt(s, u)
  {
    if s != [] && t != [] && u != [] && s[0] == t[0] && t[0] == u[0] {
      StrLtTransitive(s[1..], t[1..], u[1..]);
    }
  }

  lemma ValueLtIrreflexive(x: Value)
    ensures ValueLt(x, x) != Ok(true)
  {
    if x.Str? {
      StrLtIrreflexive(x.s);
    }
  }

  /** Two values are comparable in both directions or in neither, and two
      different comparable values are ordered one way exactly. */
  lemma ValueLtConverse(x: Value, y: Value)
    ensures ValueLt(x, y).Raise? <==> ValueLt(y, x).Raise?
    ensures ValueLt(x, y).Raise? ==> ValueLt(x, y) == ValueLt(y, x)
    ensures ValueLt(x, y).Ok? && x != y ==> ValueLt(x, y).value != ValueLt(y, x).value
  {
    if x.Str? && y.Str? {
      StrLtTrichotomy(x.s, y.s);
    }
  }

  lemma ValueLtTransitive(x: Value, y: Value, z: Value)
    requires ValueLt(x, y) == Ok(true) && ValueLt(y, z) == Ok(true)
    ensures ValueLt(x, z) == Ok(true)
  {
    if x.Str? {
      StrLtTransitive(x.s, y.s, z.s);
    }
  }

  /** No tuple is smaller than itself, so `<` agrees with `==`. */
  lemma {:induction false} TupleLtIrreflexive(a: seq<Value>)
    ensures TupleLt(a, a) == Ok(false)
  {
    if a != [] {
      TupleLtIrreflexive(a[1..]);
    }
  }

  /** Trichotomy: two tuples are comparable both ways or neither (with the
      same TypeError), and when they are, exactly one of `a < b`, `a == b`
      and `b < a` holds. */
  lemma {:induction false} TupleLtConverse(a: seq<Value>, b: seq<Value>)
    ensures TupleLt(a, b).Raise? <==> TupleLt(b, a).Raise?
    ensures TupleLt(a, b).Raise? ==> TupleLt(a, b) == TupleLt(b, a)
    ensures TupleLt(a, b).Ok? && a != b ==> TupleLt(a, b).value != TupleLt(b, a).value
    ensures a == b ==> TupleLt(a, b) == Ok(false)
  {
    if a == b {
      TupleLtIrreflexive(a);
    } else if a != [] && b != [] {
      if a[0] == b[0] {
        TupleLtConverse(a[1..], b[1..]);
        assert a == [a[0]] + a[1..] && b == [b[0]] + b[1..];
      } else {
        ValueLtConverse(a[0], b[0]);
      }
    }
  }

  /** `<` on tuples is transitive wherever it is defined. */
  lemma {:induction false} TupleLtTransitive(a: seq<Value>, b: seq<Value>, c: seq<Value>)
    requires TupleLt(a, b) == Ok(true) && TupleLt(b, c) == Ok(true)
    ensures TupleLt(a, c) == Ok(true)
  {
    if a != [] && b != [] && c != [] {
      if a[0] == b[0] && b[0] == c[0] {
        TupleLtTransitive(a[1..], b[1..], c[1..]);
      } else if a[0] != b[0] && b[0] != c[0] {
        ValueLtTransitive(a[0], b[0], c[0]);
        ValueLtIrreflexive(a[0]);
      }
    }
  }

  // ---------------------------------------------------------------------------
  // The comparisons `functools.total_ordering` would derive from `__lt__` and
  // `__eq__`. It derives them only for operators the class inherits from
  // `object`; a tuple subclass inherits tuple's own, so none is derived.

  /** `a > b` as `not a < b and a != b`. */
  function DerivedGt(a: seq<Value>, b: seq<Value>): Result<bool>
  {
    match TupleLt(a, b)
    case Ok(lt) => Ok(!lt && a != b)
    case Raise(e) => Raise(e)
  }

  /** `a <= b` as `a < b or a == b`. */
  function DerivedLe(a: seq<Value>, b: seq<Value>): Result<bool>
  {
    match TupleLt(a, b)
    case Ok(lt) => Ok(lt || a == b)
    case Raise(e) => Raise(e)
  }

  /** `a >= b` as `not a < b`. */
  function DerivedGe(a: seq<Value>, b: seq<Value>): Result<bool>
  {
    match TupleLt(a, b)
    case Ok(lt) => Ok(!lt)
    case Raise(e) => Raise(e)
  }

  /** The derived operators are the mirror images a total order needs:
      `a > b` is `b < a` and `a <= b` is `b >= a`. */
  lemma DerivedMirror(a: seq<Value>, b: seq<Value>)
    ensures DerivedGt(a, b) == TupleLt(b, a)
    ensures DerivedLe(a, b) == DerivedGe(b, a)
  {
    TupleLtConverse(a, b);
  }

  /** On one and the same pair of tuples, tuple's own `>`, `<=` and `>=`
      agree with the ones derived from `<` and `==`. */
  lemma {:induction false} TupleComparisonsAgree(a: seq<Value>, b: seq<Value>)
    ensures TupleCompare(Greater, a, b) == TupleLt(b, a)
    ensures TupleCompare(LessEq, a, b) == DerivedLe(a, b)
    ensures TupleCompare(GreaterEq, a, b) == DerivedGe(a, b)
  {
    if a != [] && b != [] {
      if a[0] == b[0] {
        TupleComparisonsAgree(a[1..], b[1..]);
        assert a == b <==> a[1..] == b[1..] by {
          assert a == [a[0]] + a[1..] && b == [b[0]] + b[1..];
        }
      } else if a[0].Str? && b[0].Str? {
        StrLtTrichotomy(a[0].s, b[0].s);
      }
    }
  }

  // ---------------------------------------------------------------------------
  // The instance

  class TupleClass {
    const schema: Schema
    /** The tuple part, `original_new(cls, tuple(args))`: the positional
        arguments given at construction. `len`, `>`, `<=`, `>=` and `!=`
        are tuple's own and see only this. */
    const stored: seq<Value>
    var attrs: Attrs

    /** The class has distinct fields and every field resolves. */
    predicate Valid()
      reads this
    {
      DistinctFields(schema.fields) &&
      forall f :: f in schema.fields ==> f in attrs || f in schema.defaults
    }

    /** The generated `__new__`: the positional arguments become the tuple
        part; the zip over `fields(cls)` sets nothing (see `NewAttrs`), and
        the keyword arguments are set in order. */
    constructor (schema: Schema, args: seq<Value>, kwargs: seq<Pair>)
      ensures this.schema == schema && stored == args && attrs == NewAttrs(kwargs)
    {
      this.schema := schema;
      stored := args;
      attrs := map[];
      new;
      SetAll(kwargs);
    }

    /** `setattr(self, name, value)` for each pair in turn. */
    method SetAll(ps: seq<Pair>)
      modifies this
      ensures attrs == Assign(old(attrs), ps)
    {
      ghost var start := attrs;
      for i := 0 to |ps|
        invariant attrs == Assign(start, ps[..i])
      {
        assert ps[..i + 1][..i] == ps[..i];
        attrs := attrs[ps[i].0 := ps[i].1];
      }
      assert ps[..|ps|] == ps;
    }

    /** The default loop of `__init__`: each field that is neither set on
        the instance nor defaulted by the class becomes None. */
    method FillDefaults()
      modifies this
      ensures attrs == FillMissing(schema.fields, schema.defaults, old(attrs))
    {
      ghost var start := attrs;
      var names := schema.fields;
      for k := 0 to |names|
        invariant attrs == FillMissing(names[..k], schema.defaults, start)
      {
        var f := names[k];
        assert names[..k + 1][..k] == names[..k] && names[..k + 1][k] == f;
        if !(f in attrs || f in schema.defaults) {
          attrs := attrs[f := NoneValue];
        }
      }
      assert names[..|names|] == names;
    }

    /** `TupleClass.__init__`: too many positional arguments raise
        TypeError; otherwise missing fields without a default become None,
        then the positional and the keyword arguments are set again. */
    method Init(args: seq<Value>, kwargs: seq<Pair>) returns (r: Result<()>)
      requires DistinctFields(schema.fields)
      modifies this
      ensures |args| > |schema.fields| ==> r == Raise(TypeError) && attrs == old(attrs)
      ensures |args| <= |schema.fields| ==> r == Ok(()) && attrs == InitAttrs(schema, old(attrs), args, kwargs)
      ensures r.Ok? ==> Valid()
    {
      if |args| > |schema.fields| {
        return Raise(TypeError);
      }
      FillDefaults();
      SetAll(Zip(schema.fields, args));
      SetAll(kwargs);
      forall f | f in schema.fields ensures f in attrs || f in schema.defaults {
        FieldsResolve(schema, old(attrs), args, kwargs, f);
      }
      r := Ok(());
    }

    /** `getattr(self, name)`, e.g. `d.x`. */
    function GetAttr(name: string): (r: Result<Value>)
      reads this
      ensures r.Raise? ==> r.exc == AttributeError
      ensures Valid() && name in schema.fields ==> r.Ok?
    {
      Lookup(schema, attrs, name)
    }

    /** `tuple(self)` or `list(self)`: `__iter__` yields the fields in
        declaration order. */
    function Items(): (t: seq<Value>)
      reads this
      requires Valid()
      ensures |t| == |schema.fields|
      ensures forall k :: 0 <= k < |t| ==> GetAttr(schema.fields[k]) == Ok(t[k])
    {
      seq(|schema.fields|, k requires 0 <= k < |schema.fields| && Valid() reads this =>
        GetAttr(schema.fields[k]).value)
    }

    /** `self[key]`: the field at that position of the declaration order,
        i.e. the same as indexing the iterated tuple. */
    function GetItem(key: int): (r: Result<Value>)
      reads this
      requires Valid()
      ensures r == Subscript(Items(), key)
    {
      match Subscript(schema.fields, key)
      case Raise(e) => Raise(e)
      case Ok(name) =>
        var k := ResolveIndex(|schema.fields|, key).value;
        assert GetAttr(schema.fields[k]) == Ok(Items()[k]);
        GetAttr(name)
    }

    /** `self.name = val`: sets that field only; a name that is not a field
        becomes a plain attribute and leaves the tuple as it was. */
    method SetAttr(name: string, val: Value)
      requires Valid()
      modifies this
      ensures Valid() && attrs == old(attrs)[name := val]
      ensures |Items()| == |old(Items())|
      ensures forall k :: 0 <= k < |Items()| ==>
                Items()[k] == if schema.fields[k] == name then val else old(Items())[k]
    {
      attrs := attrs[name := val];
    }

    /** `self[key] = val`: sets exactly the field at that position. */
    method SetItem(key: int, val: Value) returns (r: Result<()>)
      requires Valid()
      modifies this
      ensures Valid()
      ensures r.Ok? <==> -|schema.fields| <= key < |schema.fields|
      ensures r.Raise? ==> r.exc == IndexError && attrs == old(attrs)
      ensures r.Ok? ==> attrs == old(attrs)[schema.fields[ResolveIndex(|schema.fields|, key).value] := val]
      ensures r.Ok? ==> Items() == old(Items())[ResolveIndex(|schema.fields|, key).value := val]
    {
      match ResolveIndex(|schema.fields|, key)
      case Raise(e) =>
        r := Raise(e);
      case Ok(k) =>
        ghost var before := Items();
        SetAttr(schema.fields[k], val);
        assert forall j :: 0 <= j < |Items()| ==> (schema.fields[j] == schema.fields[k] <==> j == k);
        assert Items() == before[k := val];
        r := Ok(());
    }

    /** `self == other`: equality of the tuples; equal records are never
        ordered with `<` either way, as a total order requires. */
    function Eq(other: seq<Value>): (r: bool)
      reads this
      requires Valid()
      ensures r <==> Items() == other
      ensures r ==> TupleLt(Items(), other) == Ok(false) && TupleLt(other, Items()) == Ok(false)
    {
      TupleLtIrreflexive(other);
      Items() == other
    }

    /** `self < other`: the tuples' lexicographic order; where it is defined
        it is asymmetric. */
    function Lt(other: seq<Value>): (r: Result<bool>)
      reads this
      requires Valid()
      ensures r == TupleLt(Items(), other)
      ensures r == Ok(true) ==> TupleLt(other, Items()) == Ok(false)
    {
      TupleLtConverse(Items(), other);
      TupleLt(Items(), other)
    }

    /** `self > other`: tuple's own `>` on the stored positional
        arguments, which is `other < stored`. */
    function Gt(other: seq<Value>): (r: Result<bool>)
      ensures r == TupleLt(other, stored)
    {
      TupleComparisonsAgree(stored, other);
      TupleCompare(Greater, stored, other)
    }

    /** `self <= other`: tuple's own `<=` on the stored positional
        arguments, the negation of `other < stored`. */
    function Le(other: seq<Value>): (r: Result<bool>)
      ensures TupleLt(other, stored).Ok? ==> r == Ok(!TupleLt(other, stored).value)
      ensures TupleLt(other, stored).Raise? ==> r == Raise(TypeError)
    {
      TupleComparisonsAgree(stored, other);
      TupleCompareRaisesTypeError(Less, other, stored);
      DerivedMirror(stored, other);
      TupleCompare(LessEq, stored, other)
    }

    /** `self >= other`: tuple's own `>=` on the stored positional
        arguments, the negation of `stored < other`. */
    function Ge(other: seq<Value>): (r: Result<bool>)
      ensures TupleLt(stored, other).Ok? ==> r == Ok(!TupleLt(stored, other).value)
      ensures TupleLt(stored, other).Raise? ==> r == Raise(TypeError)
    {
      TupleComparisonsAgree(stored, other);
      TupleCompareRaisesTypeError(Less, stored, other);
      TupleCompare(GreaterEq, stored, other)
    }
  }

  /** `Cls(*args, **kwargs)`: `__new__`, then `__init__` on the new
      instance; a TypeError from `__init__` means no instance is returned. */
  method Construct(schema: Schema, args: seq<Value>, kwargs: seq<Pair>) returns (r: Result<TupleClass>)
    requires DistinctFields(schema.fields)
    ensures r.Raise? <==> |args| > |schema.fields|
    ensures r.Raise? ==> r.exc == TypeError
    ensures r.Ok? ==> fresh(r.value) && r.value.schema == schema && r.value.stored == args && r.value.Valid()
    ensures r.Ok? ==> r.value.Items() == ExpectedTuple(schema, args, kwargs)
  {
    var instance := new TupleClass(schema, args, kwargs);
    var init := instance.Init(args, kwargs);
    if init.Raise? {
      return Raise(init.exc);
    }
    forall k | 0 <= k < |schema.fields|
      ensures instance.Items()[k] == ExpectedTuple(schema, args, kwargs)[k]
    {
      FieldAfterConstruction(schema, args, kwargs, k);
    }
    r := Ok(instance);
  }

  // ---------------------------------------------------------------------------
  // The in-file tests, on the class `Dummy(x: int, y: str = 'default')`

  function Dummy(): Schema
  {
    Schema(["x", "y"], map["y" := Str("default")])
  }

  /** `Dummy(10, 'hi')` indexes, compares and iterates as `(10, 'hi')`. */
  method TupleBehavior() returns (first: Result<Value>, second: Result<Value>, items: seq<Value>, same: bool, length: nat)
    ensures first == Ok(Int(10)) && second == Ok(Str("hi"))
    ensures items == [Int(10), Str("hi")] && same && length == 2
  {
    var r := Construct(Dummy(), [Int(10), Str("hi")], []);
    var d := r.value;
    first, second := d.GetItem(0), d.GetItem(1);
    items := d.Items();
    same := d.Eq([Int(10), Str("hi")]);
    length := |d.stored|;
  }

  /** `Dummy(x=10, y='hi')` stores no positional arguments, so tuple's own
      `len`, `>` and `<=` see the empty tuple while its fields read
      `(10, 'hi')`: against `(5, 'a')`, `>` is false and `<=` is true, the
      reverse of what the derived operators give on the fields. */
  method KeywordRecordComparesStored() returns (items: seq<Value>, length: nat, gt: Result<bool>, le: Result<bool>)
    ensures items == [Int(10), Str("hi")] && length == 0
    ensures gt == Ok(false) && le == Ok(true)
    ensures DerivedGt(items, [Int(5), Str("a")]) == Ok(true)
    ensures DerivedLe(items, [Int(5), Str("a")]) == Ok(false)
  {
    var r := Construct(Dummy(), [], [("x", Int(10)), ("y", Str("hi"))]);
    var d := r.value;
    items := d.Items();
    length := |d.stored|;
    gt, le := d.Gt([Int(5), Str("a")]), d.Le([Int(5), Str("a")]);
  }

  /** Attribute access by name, and the class default for a field left out. */
  method AttributeAccess() returns (x: Result<Value>, y: Result<Value>, defaulted: Result<Value>)
    ensures x == Ok(Int(10)) && y == Ok(Str("hi")) && defaulted == Ok(Str("default"))
  {
    var r := Construct(Dummy(), [Int(10), Str("hi")], []);
    assert r.value.GetAttr(Dummy().fields[0]) == Ok(r.value.Items()[0]);
    assert r.value.GetAttr(Dummy().fields[1]) == Ok(r.value.Items()[1]);
    x, y := r.value.GetAttr("x"), r.value.GetAttr("y");
    r := Construct(Dummy(), [Int(10)], []);
    assert r.value.GetAttr(Dummy().fields[1]) == Ok(r.value.Items()[1]);
    defaulted := r.value.GetAttr("y");
  }

  /** Keyword arguments, alone, with a default, and after a positional one. */
  method KeywordArguments() returns (byKeyword: seq<Value>, keywordDefault: seq<Value>, mixed: seq<Value>)
    ensures byKeyword == [Int(10), Str("hi")]
    ensures keywordDefault == [Int(10), Str("default")]
    ensures mixed == [Int(10), Str("hi")]
  {
    var r := Construct(Dummy(), [], [("x", Int(10)), ("y", Str("hi"))]);
    byKeyword := r.value.Items();
    r := Construct(Dummy(), [], [("x", Int(10))]);
    keywordDefault := r.value.Items();
    r := Construct(Dummy(), [Int(10)], [("y", Str("hi"))]);
    mixed := r.value.Items();
  }

  /** `d.x = 11` is read back as 11 and leaves `y` alone. */
  method Mutability() returns (x: Result<Value>, y: Result<Value>)
    ensures x == Ok(Int(11)) && y == Ok(Str("hi"))
  {
    var r := Construct(Dummy(), [Int(10), Str("hi")], []);
    var d := r.value;
    assert d.Items() == [Int(10), Str("hi")];
    d.SetAttr("x", Int(11));
    assert d.schema.fields == ["x", "y"];
    assert d.Items()[1] == Str("hi");
    assert d.GetAttr(d.schema.fields[1]) == Ok(d.Items()[1]);
    x, y := d.GetAttr("x"), d.GetAttr("y");
  }

  /** A third positional argument for a two-field class is a TypeError. */
  method TooManyArguments() returns (r: Result<TupleClass>)
    ensures r == Raise(TypeError)
  {
    r := Construct(Dummy(), [Int(1), Int(2), Int(3)], []);
  }
}
