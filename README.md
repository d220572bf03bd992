# py-submarine-simulator: the verified core

This project models four self-contained pieces of the Python submarine
simulator nickramsay19/py-submarine-simulator, and proves what they compute.

- **`Vec`** (vec.py) is a generic component-wise vector.
  - Construction takes either varargs or a single list or tuple.
  - Index get and set follow Python's rules for negative indices.
  - The right operand of `+`, `-`, `*` and `+=` is meant to be broadcast first: a Vec used as it is, a list or tuple wrapped, a number repeated. As written, the first `isinstance` test of that dispatch raises TypeError for every operand (see Findings). The arithmetic below is the intended behaviour.
  - Negation, addition and subtraction are built on `map` and `zip`. `zip` silently truncates to the shorter vector.
  - `*` is the dot product and `**` is a sum of powers.
  - `+=` rebinds the components of the same object.
  - The axis views `VecXZ`, `VecX`, `VecY` and `VecXYZ` name components `x`, `y` and `z`.
- **`TupleClass`** (tupleclass.py) is a mutable record that also behaves as a tuple.
  - Calling the class runs the generated `__new__` and then `__init__`.
  - `__new__` stores the positional arguments as the tuple part and sets the keywords. Its loop over the positional arguments zips the dataclass fields, which a subclass inherits empty from TupleClass, so it sets nothing.
  - `__init__` sets the positional arguments by declaration order, then the keywords, each with a `setattr` loop.
  - `__init__` raises TypeError on too many positional arguments, and sets fields with neither a value nor a class default to None.
  - Iteration and indexing follow the declaration order.
  - Equality and `<` are those of the tuple of field values.
  - `functools.total_ordering` derives nothing, because a tuple subclass already has tuple's own `>`, `<=` and `>=`. Those, like `len`, act on the stored positional arguments (see Findings).
- **`hex_to_tuple`** (main.py) splits a positive integer into bytes, most significant first.
  - It masks with `0xFF << 8i` and shifts back down.
  - The number of steps is `int(log h / log 0xFF) + 1`.
- **Shape extents** (polytope.py) are the rest.
  - A `SizePolygon`'s volume is the product of its dimension vector.
  - A line's volume is its length.
  - A circle's volume is `PI * radius ** 2`.
  - A cylinder's volume is length × cap area.
  - Mass is volume × density.

## Layout

Each Python file is one module:

- `builtins.dfy` (`Builtins`) holds the Python behaviour the others rely on:
  - the exceptions;
  - a `Result` for "value or raised exception";
  - `ResolveIndex` and `Subscript` for `s[i]` with negative indices.
- `vec.dfy` (`Vectors`) models vec.py.
  - The vector is a class with a `components` sequence, and the methods that change it have `modifies` clauses.
  - The class also records whether that sequence is a Python list or a tuple. `Vec(1, 2)` keeps its argument tuple, so item assignment on it raises TypeError.
  - The arithmetic is functions on sequences.
- `tupleclass.dfy` (`TupleClasses`) models tupleclass.py.
  - A subclass is a `Schema`: its field names in declaration order and its class-level defaults.
  - An instance is a class holding its attribute dictionary and the stored tuple of positional arguments.
  - Construction and `__init__` are methods with `for` loops, proved against specification functions of the dictionary.
- `hex.dfy` (`HexTuple`) models `hex_to_tuple` as a method with the source's loop.
  - `&`, `<<` and `>>` on non-negative integers are written out as `BitAnd` and as products and quotients by powers of two.
  - The loop invariant says that `mask` is `0xFF << 8i` and that the list holds the `i` low bytes.
- `polytope.dfy` (`Polytopes`) gives the shapes' measures as functions over `real`.
  - `PI` is an unspecified positive constant.

## Model

| member | source | states |
|---|---|---|
| Builtins.ResolveIndex | vec.py:16-17 | an index is valid exactly when `-n <= idx < n`, otherwise IndexError; a valid one names a slot below `n` congruent to it modulo `n` |
| Builtins.Subscript | vec.py:16-17 | `s[idx]` succeeds exactly for `-len(s) <= idx < len(s)`, giving `s[idx]`, or `s[len(s)+idx]` for a negative index |
| Vectors.Vec.constructor | vec.py:11-14 | a new Vec holds those components in that container |
| Vectors.ConstructionForms | vec.py:11-14 | `Vec(*xs)`, `Vec(list(xs))` and `Vec(tuple(xs))` hold the components `xs`; only the list form keeps a list, the other two a tuple |
| Vectors.AssignAfterConstruction | vec.py:11-20 | for every construction, `v[idx] = val` at an in-range index succeeds exactly when the single argument was a list, and then replaces that one component; otherwise it raises TypeError and the components stay as constructed |
| Vectors.Vec.Len | vec.py:22-23 | `len(v)` is the bound of indexing: every index from `-len(v)` to `len(v)-1` is valid, and `len(v)` and `-len(v)-1` raise IndexError |
| Vectors.Vec.GetItem | vec.py:16-17 | `v[idx]` succeeds exactly for an index in range, giving `components[idx]`, or `components[len+idx]` for a negative index; otherwise it raises IndexError |
| Vectors.Vec.SetItem | vec.py:19-20 | a tuple container raises TypeError and an out-of-range index raises IndexError, both leaving `v` unchanged; otherwise exactly component `idx` becomes `val`, the length is kept, and `v[idx]` reads `val` back |
| Vectors.ItemAssignment | vec.py:11-20 | `Vec(1, 2)[0] = 5` raises TypeError, while after `Vec([1, 2])[0] = 5` the components are `[5, 2]` |
| Vectors.FMap | vec.py:47-51 | `_fmap(f)` keeps the length and applies `f` to every component |
| Vectors.ZipWith | vec.py:53-59 | `_fmap2(f)` has the length of the shorter operand and applies `f` to the pairs at equal positions |
| Vectors.Negated | vec.py:67-68 | `-v` keeps the length and negates every component |
| Vectors.Added | vec.py:70-72 | `a + b` is the component-wise sum, truncated to `min(len a, len b)` |
| Vectors.Subtracted | vec.py:74-76 | `a + (-b)` is the component-wise difference, truncated to the shorter operand |
| Vectors.Vec.Neg | vec.py:67-68 | `-v` is a new list-backed Vec holding the negated components |
| Vectors.Vec.Add | vec.py:70-72 | `v + other` is a new list-backed Vec holding the component-wise sum with the broadcast operand |
| Vectors.Vec.Sub | vec.py:74-76 | `v - other` is a new list-backed Vec holding the component-wise difference with the broadcast operand |
| Vectors.Vec.Mul | vec.py:78-80 | `v * other` is a number: the dot product with the broadcast operand, the operands may be swapped, and a number `x` gives `x * sum(v)` |
| Vectors.Vec.Pow | vec.py:82-83 | `v ** 2` is the dot product of `v` with itself and never negative; `v ** 0` is the length; `v ** 1` is the sum |
| Vectors.Vec.IAdd | vec.py:85-88 | `v += other` returns the same object, whose components become a list holding the old `v + other` |
| Vectors.NegNeg | vec.py:67-68 | `-(-v)` has the components of `v` |
| Vectors.AddSubCancel | vec.py:70-76 | `(a + b) - b` is `a` cut to the shorter length, and is `a` itself when the lengths agree |
| Vectors.ScalarAddAsWritten | vec.py:31-37 | `Vec(1, 2) + 1` raises TypeError as written, while the intended broadcast gives `[2, 3]` |
| Vectors.AddScalarBroadcasts | vec.py:31-37 | adding a number keeps the length and adds it to every component |
| Vectors.DotCommutes | vec.py:78-80 | the dot product is commutative |
| Vectors.ScaledDot | vec.py:78-80 | the dot product with a broadcast number `x` is `x` times the sum of the components |
| Vectors.SumOfSquares | vec.py:82-83 | the sum of squares is the dot product of a vector with itself, and is non-negative |
| Vectors.PowerSumZeroOne | vec.py:82-83 | the sum of zeroth powers counts the components; the sum of first powers is their sum |
| Vectors.AxisSlotAsWritten | vec.py:90-124 | the component each axis property reads as written: the corrected slot everywhere except `VecXYZ.z`, which reads index 3; a property the view lacks is an AttributeError |
| Vectors.AxisSlot | vec.py:90-124 | in the corrected layout every axis property reads an index below its view's arity |
| Vectors.AxisSlotsDistinct | vec.py:90-124 | two different axes of one view never read the same component |
| Vectors.Property | vec.py:90-124 | with the corrected layout, on a vector of the view's arity, an axis the view has never fails |
| Vectors.XyzZOutOfRange | vec.py:122-124 | on a three-component VecXYZ, `z` as written raises IndexError, while the corrected `z` is the third component |
| Vectors.PropertiesAgreeElsewhere | vec.py:90-120 | every other axis property reads the same as in the corrected layout |
| HexTuple.FloorLog | main.py:15 | the exponent `k` with `b^k <= h < b^(k+1)` |
| HexTuple.ByteCount | main.py:15 | the loop runs `c >= 1` times, with `255^(c-1) <= h < 255^c` |
| HexTuple.MaskedByte | main.py:17 | `(h & (0xFF << 8i)) >> 8i` is byte `i` of `h`, counted from the least significant end |
| HexTuple.LowBytesAreBytes | main.py:14-18 | every element produced is in `0..255` |
| HexTuple.BigEndianOrder | main.py:17 | element `k` of `n` is byte `n-1-k` of `h`, so the first element is the most significant |
| HexTuple.LowBytesRoundTrip | main.py:13-19 | reading `n` produced bytes back big-endian gives `h mod 256^n` |
| HexTuple.Recombines | main.py:15-19 | the produced bytes read back big-endian give `h` itself |
| HexTuple.HexToTuple | main.py:12-19 | a non-positive `h` raises ValueError; otherwise the result has `ByteCount(h)` elements, all bytes, big-endian, equal to `h` when read back |
| HexTuple.AssertedExamples | main.py:22-24 | `0x12`, `0x1234` and `0x123456` give `(18,)`, `(18, 52)` and `(18, 52, 86)` |
| HexTuple.LeadingZeroAt255 | main.py:15-19 | `h = 255` gives `(0, 255)`, with a leading zero |
| HexTuple.WhiteHasFourBytes | main.py:15 | `0xFFFFFF` gives `(0, 255, 255, 255)` as written and `(255, 255, 255)` with the base-256 count |
| HexTuple.MinimalByteCount | main.py:15 | the base-256 count `m >= 1` with `256^(m-1) <= h < 256^m` |
| HexTuple.MinimalBytes | main.py:12-19 | with the base-256 count, a positive `h` gives bytes that read back as `h` and whose first element is not zero |
| HexTuple.WrittenCountCoversMinimal | main.py:15 | the written count is never below the base-256 one, and the written result is the base-256 result with zeros in front |
| TupleClasses.Lookup | tupleclass.py:74 | attribute lookup gives the instance value if there is one, else the class default, and raises AttributeError exactly when there is neither |
| TupleClasses.AssignLookup | tupleclass.py:23-26 | after a `setattr` loop a name holds the last value assigned to it, or what it held before |
| TupleClasses.ZipNamesField | tupleclass.py:77-78 | with distinct field names, `__init__`'s `zip(field_names, args)` assigns field `k` exactly when there is a `k`-th positional argument, and assigns it that argument |
| TupleClasses.FillMissingLookup | tupleclass.py:72-75 | the default loop sets exactly the fields that neither the instance nor the class defines to None, and changes nothing else |
| TupleClasses.FieldAfterConstruction | tupleclass.py:21-80 | after `__new__` and `__init__`, field `k` holds its last keyword value, else its positional argument, else the class default, else None |
| TupleClasses.FieldsResolve | tupleclass.py:72-80 | once `__init__` has run every field resolves |
| TupleClasses.ValueLt | tupleclass.py:86-87 | `x < y` succeeds exactly when both are ints or both are strings, giving the integer order or the string order, and otherwise raises TypeError |
| TupleClasses.ValueLtIrreflexive | tupleclass.py:86-87 | no value is less than itself |
| TupleClasses.ValueLtConverse | tupleclass.py:86-87 | two values are comparable both ways or neither way, and two different comparable values are ordered one way only |
| TupleClasses.ValueLtTransitive | tupleclass.py:86-87 | value order is transitive |
| TupleClasses.TupleLtIrreflexive | tupleclass.py:83-87 | no tuple is less than itself |
| TupleClasses.TupleLtConverse | tupleclass.py:83-87 | tuples are comparable both ways or neither way with the same TypeError; when comparable, exactly one of `<`, `==` and `>` holds |
| TupleClasses.TupleLtTransitive | tupleclass.py:86-87 | tuple order is transitive where it is defined |
| TupleClasses.DerivedMirror | tupleclass.py:56 | the operators derived from `<` and `==` are mirror images: `a > b` is `b < a`, and `a <= b` is `b >= a` |
| TupleClasses.TupleComparisonsAgree | tupleclass.py:56 | on the same two tuples, tuple's own `>`, `<=` and `>=` equal `b < a`, `a < b or a == b` and `not a < b` |
| TupleClasses.TupleClass.constructor | tupleclass.py:21-27 | the generated `__new__` stores the positional arguments as the tuple part and leaves the dictionary the keywords assign; the zip over the inherited, empty dataclass fields assigns nothing |
| TupleClasses.TupleClass.SetAll | tupleclass.py:23-26 | a `setattr` loop leaves the dictionary that assigning the pairs in order gives |
| TupleClasses.TupleClass.FillDefaults | tupleclass.py:72-75 | the default loop leaves the dictionary with the missing, default-less fields set to None |
| TupleClasses.TupleClass.Init | tupleclass.py:67-80 | too many positional arguments raise TypeError and change nothing; otherwise the defaults, positionals and keywords are applied in that order and every field resolves |
| TupleClasses.TupleClass.GetAttr | tupleclass.py:117-118 | `d.name` raises only AttributeError, and never does for a declared field |
| TupleClasses.TupleClass.Items | tupleclass.py:31-35 | iteration yields one value per field, in declaration order, each the field's attribute value |
| TupleClasses.TupleClass.GetItem | tupleclass.py:38-40 | `d[key]` is the iterated tuple indexed by `key`, with negative indices and IndexError |
| TupleClasses.TupleClass.SetAttr | tupleclass.py:128-132 | `d.name = val` changes exactly that field of the tuple and leaves the others |
| TupleClasses.TupleClass.SetItem | tupleclass.py:43-45 | `d[key] = val` succeeds exactly for an index in range and then sets exactly that field's attribute, every other attribute kept, so exactly that slot of the tuple changes; otherwise it raises IndexError and changes nothing |
| TupleClasses.TupleClass.Eq | tupleclass.py:83-84 | `d == other` exactly when the tuples are equal, and then neither is less than the other |
| TupleClasses.TupleClass.Lt | tupleclass.py:86-87 | `d < other` is the tuple order, and is asymmetric |
| TupleClasses.TupleClass.Gt | tupleclass.py:56 | `d > other` is tuple's own `>` on the stored positional arguments, which is `other < stored` |
| TupleClasses.TupleClass.Le | tupleclass.py:56 | `d <= other` is tuple's own `<=` on the stored positional arguments: the negation of `other < stored`, raising TypeError when that does |
| TupleClasses.TupleClass.Ge | tupleclass.py:56 | `d >= other` is tuple's own `>=` on the stored positional arguments: the negation of `stored < other`, raising TypeError when that does |
| TupleClasses.Construct | tupleclass.py:21-80 | `Cls(*args, **kwargs)` raises TypeError exactly for too many positional arguments; otherwise it gives a fresh valid record storing the positional arguments, whose iterated tuple is, field by field, the last keyword, else the positional, else the default, else None |
| TupleClasses.TupleBehavior | tupleclass.py:96-110 | `Dummy(10, 'hi')` has `d[0] == 10` and `d[1] == 'hi'`, iterates as `[10, 'hi']`, equals `(10, 'hi')`, and has length 2 |
| TupleClasses.KeywordRecordComparesStored | tupleclass.py:21-27 | `Dummy(x=10, y='hi')` iterates as `(10, 'hi')` but stores no positional arguments: its length is 0, and against `(5, 'a')` its `>` is false and `<=` true, the reverse of the operators derived on its fields |
| TupleClasses.AttributeAccess | tupleclass.py:112-121 | `d.x == 10` and `d.y == 'hi'`, and `Dummy(10).y == 'default'` |
| TupleClasses.KeywordArguments | tupleclass.py:123-126 | `Dummy(x=10, y='hi')`, `Dummy(x=10)` and `Dummy(10, y='hi')` give `(10, 'hi')`, `(10, 'default')` and `(10, 'hi')` |
| TupleClasses.Mutability | tupleclass.py:128-132 | after `d.x = 11`, `d.x` reads 11 and `d.y` is unchanged |
| TupleClasses.TooManyArguments | tupleclass.py:69-70 | a third positional argument for a two-field class raises TypeError |
| Polytopes.FoldMulIsProduct | polytope.py:32 | the left fold of `*` from `acc` is `acc` times the product |
| Polytopes.Volume | polytope.py:30-32 | an empty dimension vector raises TypeError; otherwise the volume is the product of the dimensions |
| Polytopes.VolumeNonNegative | polytope.py:30-32 | non-negative dimensions give a non-negative volume |
| Polytopes.LineVolume | polytope.py:53-54 | a line's volume is its single length component |
| Polytopes.Mass | polytope.py:37-39 | mass is volume × density, never negative for non-negative dimensions and density, and TypeError for an empty vector |
| Polytopes.Diameter | polytope.py:59-61 | the diameter is the `x` of the diameter line, or IndexError when that vector is empty |
| Polytopes.Radius | polytope.py:63-65 | the radius is half the diameter, failing exactly when it does |
| Polytopes.CircleVolume | polytope.py:67-71 | the area is `PI * d² / 4` for diameter `d`, never negative |
| Polytopes.CylinderVolume | polytope.py:77-80 | the line's error comes first, then the cap's; otherwise the volume is the line's product times the cap area |
| Polytopes.CylinderOfLengthAndDiameter | polytope.py:73-80 | length `L` and diameter `D` give `L * PI * (D/2)²`, not negative when `L` is not |

## Left out

- The constant `PI` is only known to be positive. Floating-point arithmetic is modelled as exact `real` arithmetic.
- `int(math.log(h) / math.log(0xFF))`: the byte count is the exact `floor(log_255 h)`. Float rounding at and near powers of 255 is not modelled: there the float quotient can land on the other side of an integer (for example `255**7 - 1` converts to the same float as `255**7`), and the count can differ by one.
- The debug `print` in `hex_to_tuple` (main.py:16) is I/O and has no effect on the result.
- `hex_to_tuple` returns a Python tuple. The model returns a sequence.
- Vec holds integer components only. `v ** p` has a non-negative integer exponent, because a negative one yields floats.
- Vectors.Components: a list argument mixed with numbers (`Vec([1], 2)`) cannot be held by an integer vector, so it is excluded by the requires.
- `Vec(some_list)` shares the caller's list, so changing one changes the other. The model copies the values, and this aliasing is not captured.
- Vectors.ExpandOther: as written, `isinstance(other, Vec[T])` (vec.py:32) raises TypeError, because `isinstance` refuses a subscripted generic, so every `+`, `-`, `*` and `+=` raises before any broadcast. `Vectors.ExpandOtherAsWritten` is that behaviour; `ExpandOther` and the arithmetic built on it follow the intended three-way dispatch on a Vec, a sequence or a number.
- Vectors.Vec.Add, Vectors.Vec.Sub, Vectors.Vec.Mul and Vectors.Vec.IAdd: these state the intended results, not the TypeError the source raises as written.
- `Vec.__repr__` and `Vec.__iter__` are display and iteration helpers. The model reads `components` directly instead.
- `magnitude` and `direction` (vec.py:61-65) call `sum` on a number and divide a Vec, which defines no division.
- `Polytope.apply_force` and `MassPolygon.apply_gravitational_force` (polytope.py:15-16, 41-46) rely on Vec division and on multiplying a number by a Vec, neither of which vec.py defines.
- The metaclass and dataclass plumbing of tupleclass.py is not modelled:
  - the copy of class attributes;
  - the generated dataclass `__init__` and `__eq__`;
  - tuple's own `!=`, `in`, `bool`, `count` and `index`, which act on the stored positional arguments like `len` and the order operators do;
  - `hash(d)`, which raises TypeError: the dataclass sets `__hash__` to None and the copied class body does not restore it;
  - the `isinstance`/`issubclass` checks of the tests.
- The inheritance tests (tupleclass.py:134-176), `__str__` formatting and the commented trailer of tupleclass.py are not modelled.
- TupleClasses.FillMissing: `hasattr` also finds attributes inherited from `tuple`, so a field named `count` or `index` is never set to None and reads back as a bound method. The model's class defaults stand only for the class's own attributes.
- Values a TupleClass holds are None, integers and strings. Other Python values and their comparisons are not modelled.
- The rest of the repository is not part of this model:
  - 3d.py, 2d.py, resistance.py, resistance_functional.py, buoyancy.py and tmp.py;
  - the pygame drawing and main loop;
  - `config.toml` loading.

## Findings

| source | as written | input that shows it | evidently intended | confidence | as-written member | corrected member |
|---|---|---|---|---|---|---|
| vec.py:122-124 | `VecXYZ.z` returns `components[3]` | `VecXYZ(1, 2, 3).z` raises IndexError | the third component, `components[2]` | high; not executed | Vectors.XyzZOutOfRange | Vectors.Property |
| main.py:15 | the step count uses `math.log(0xFF)`, so it counts in base 255 | `hex_to_tuple(0xFFFFFF)` gives `(0, 255, 255, 255)`, and `hex_to_tuple(255)` gives `(0, 255)` | one step per byte of `h`, counting in base 256 and giving no leading zero | medium; not executed | HexTuple.WhiteHasFourBytes | HexTuple.MinimalBytes |
| vec.py:31-37 | `_expand_other` first tests `isinstance(other, Vec[T])`, a subscripted generic | `Vec(1, 2) + 1` raises TypeError, as does every `+`, `-`, `*` and `+=` | a Vec operand used as it is, a sequence wrapped, a number repeated | high; not executed | Vectors.ScalarAddAsWritten | Vectors.AddScalarBroadcasts |
| tupleclass.py:56 | `functools.total_ordering` derives nothing for a tuple subclass, so `>`, `<=` and `>=` are tuple's own, on the positional arguments stored by `__new__` (tupleclass.py:22) | `Dummy(x=10, y='hi') > (5, 'a')` is False and `<=` is True, though the fields are `(10, 'hi')` | `>`, `<=` and `>=` derived from `__lt__` and `__eq__` on the fields | high; not executed | TupleClasses.KeywordRecordComparesStored | TupleClasses.DerivedMirror |
