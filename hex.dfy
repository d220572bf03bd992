/** `hex_to_tuple` of main.py: splits a positive integer into bytes, most
    significant first, by sliding the mask 0xFF up eight bits per step.

    Python's `&`, `<<` and `>>` on non-negative integers are written out:
    `BitAnd` is the bitwise and, a left shift multiplies by a power of two and
    a right shift divides by one. The number of steps is
    `int(math.log(h) / math.log(0xFF)) + 1`, taken here as the exact
    `floor(log_255 h) + 1`; note that the base is 255, not 256. */
module HexTuple {
  import opened Builtins

  function Pow(b: nat, e: nat): (r: nat)
    ensures b > 0 ==> r > 0
  {
    if e == 0 then 1 else b * Pow(b, e - 1)
  }

  /** `a & b` on non-negative integers. */
  function BitAnd(a: nat, b: nat): nat
  {
    if a == 0 || b == 0 then 0
    else 2 * BitAnd(a / 2, b / 2) + (if a % 2 == 1 && b % 2 == 1 then 1 else 0)
  }

  /** `a << n`. */
  function ShiftLeft(a: nat, n: nat): nat
  {
    a * Pow(2, n)
  }

  /** `a >> n`. */
  function ShiftRight(a: nat, n: nat): nat
  {
    a / Pow(2, n)
  }

  /** `floor(log_b h)` for `h >= 1`: the exponent of the largest power of
      `b` that does not exceed `h`. */
  function FloorLog(b: nat, h: nat): (k: nat)
    requires b >= 2 && h >= 1
    ensures Pow(b, k) <= h < Pow(b, k + 1)
  {
    if h < b then 0
    else
      DivShrinks(h, b);
      var k := FloorLog(b, h / b);
      FloorLogStep(b, h, k);
      k + 1
  }

  /** Dividing by `b >= 2` shrinks a number that is at least `b`, not to zero. */
  lemma DivShrinks(h: nat, b: nat)
    requires b >= 2 && h >= b
    ensures 1 <= h / b < h
  {
  }

  /** One more factor of `b`: if `b^k <= h / b < b^(k+1)` then
      `b^(k+1) <= h < b^(k+2)`. */
  lemma FloorLogStep(b: nat, h: nat, k: nat)
    requires b >= 2 && Pow(b, k) <= h / b < Pow(b, k + 1)
    ensures Pow(b, k + 1) <= h < Pow(b, k + 2)
  {
    var p1, p2 := Pow(b, k + 1), Pow(b, k + 2);
    assert p1 == b * Pow(b, k) && p2 == b * p1;
    DivDecompose(h, b);
    ScaleBounds(b, Pow(b, k), p1, h / b, h % b, h);
  }

  /** Euclidean division: quotient times divisor plus remainder. */
  lemma DivDecompose(h: int, b: nat)
    requires b > 0
    ensures h == b * (h / b) + h % b && 0 <= h % b < b
  {
  }

  /** A quotient between `lo` and `hi` puts the number between `b * lo`
      and `b * hi`. */
  lemma ScaleBounds(b: nat, lo: int, hi: int, q: int, r: int, h: int)
    requires h == b * q + r && 0 <= r < b && lo <= q < hi
    ensures b * lo <= h < b * hi
  {
    MulMonotone(b, lo, q);
    MulMonotone(b, q + 1, hi);
    MulDistributes(b, q, 1);
  }

  /** How many bytes `hex_to_tuple(h)` produces: the `c` with
      `255^(c-1) <= h < 255^c`. */
  function ByteCount(h: nat): (c: nat)
    requires h >= 1
    ensures c >= 1
    ensures Pow(255, c - 1) <= h < Pow(255, c)
  {
    FloorLog(255, h) + 1
  }

  /** The `n` low-order base-256 digits of `h`, most significant first:
      what the list holds after `n` steps of the loop. */
  function LowBytes(h: nat, n: nat): (s: seq<nat>)
    ensures |s| == n
  {
    if n == 0 then [] else [(h / Pow(256, n - 1)) % 256] + LowBytes(h, n - 1)
  }

  /** Reads a byte list back as a big-endian number. */
  function FromBigEndian(s: seq<nat>): nat
  {
    if s == [] then 0 else s[0] * Pow(256, |s| - 1) + FromBigEndian(s[1..])
  }

  predicate AllBytes(s: seq<nat>)
  {
    forall k :: 0 <= k < |s| ==> s[k] < 256
  }

  // ---------------------------------------------------------------------------
  // Arithmetic facts behind the mask

  // Single steps of integer multiplication, each stated on its own so that
  // the proofs below stay linear.

  lemma MulDistributes(p: int, u: int, v: int)
    ensures p * (u + v) == p * u + p * v
  {
  }

  lemma MulAssociates(p: int, q: int, y: int)
    ensures p * (q * y) == (p * q) * y
  {
  }

  lemma MulMonotone(p: nat, z: int, w: int)
    requires z <= w
    ensures p * z <= p * w
  {
    MulDistributes(p, z, w - z);
  }

  lemma MulPositive(p: int, q: int)
    requires p > 0 && q > 0
    ensures p * q > 0
  {
  }

  /** A multiple of `d` other than zero is at least `d` away from zero. */
  lemma MulAwayFromZero(d: int, t: int)
    requires d > 0
    ensures t >= 1 ==> d * t >= d
    ensures t <= -1 ==> d * t <= -d
  {
  }

  /** Quotient and remainder are unique. */
  lemma DivMod(a: nat, d: nat, q: nat, m: nat)
    requires d > 0 && a == d * q + m && m < d
    ensures a / d == q && a % d == m
  {
    var q', m' := a / d, a % d;
    DivDecompose(a, d);
    MulDistributes(d, q', q - q');
    MulAwayFromZero(d, q - q');
  }

  /** Two digits, `z` in base `q` above `r` in base `p`, make one digit in
      base `p * q`. */
  lemma Recompose(a: int, p: nat, q: nat, x: int, r: int, y: int, z: int)
    requires a == p * x + r && 0 <= r < p
    requires x == q * y + z && 0 <= z < q
    ensures a == (p * q) * y + (p * z + r)
    ensures 0 <= p * z + r < p * q
  {
    MulDistributes(p, q * y, z);
    MulAssociates(p, q, y);
    MulMonotone(p, 0, z);
    MulMonotone(p, z, q - 1);
    MulDistributes(p, q, -1);
  }

  /** Splitting the remainder by a product into two digits. */
  lemma ModProduct(a: nat, p: nat, q: nat)
    requires p > 0 && q > 0
    ensures p * q > 0
    ensures a % (p * q) == p * ((a / p) % q) + a % p
    ensures a / (p * q) == (a / p) / q
  {
    MulPositive(p, q);
    var x, r := a / p, a % p;
    var y, z := x / q, x % q;
    DivDecompose(a, p);
    DivDecompose(x, q);
    Recompose(a, p, q, x, r, y, z);
    DivMod(a, p * q, y, p * z + r);
  }

  lemma {:induction false} PowAdd(b: nat, m: nat, n: nat)
    ensures Pow(b, m + n) == Pow(b, m) * Pow(b, n)
    decreases n
  {
    if n > 0 {
      PowAdd(b, m, n - 1);
      assert Pow(b, m + n) == b * Pow(b, m + n - 1);
      MulSwap(b, Pow(b, m), Pow(b, n - 1));
    }
  }

  /** `2^(8i) == 256^i`: shifting by `8i` bits moves `i` bytes. */
  lemma {:induction false} PowEightBits(i: nat)
    ensures Pow(2, 8 * i) == Pow(256, i)
  {
    if i > 0 {
      PowEightBits(i - 1);
      PowAdd(2, 8, 8 * (i - 1));
      assert 8 + 8 * (i - 1) == 8 * i;
      assert Pow(2, 8) == 256;
    }
  }

  lemma {:induction false} PowBaseMonotone(c: nat)
    ensures Pow(255, c) <= Pow(256, c)
  {
    if c > 0 {
      PowBaseMonotone(c - 1);
      assert Pow(255, c) == 255 * Pow(255, c - 1) <= 256 * Pow(255, c - 1) <= 256 * Pow(256, c - 1);
    }
  }

  /** `2^n - 1` is odd, and halving it gives `2^(n-1) - 1`. */
  lemma LowMaskHalves(n: nat)
    requires n > 0
    ensures Pow(2, n - 1) > 0 && Pow(2, n) == 2 * Pow(2, n - 1)
    ensures (Pow(2, n) - 1) % 2 == 1 && (Pow(2, n) - 1) / 2 == Pow(2, n - 1) - 1
  {
    var half := Pow(2, n - 1);
    DivMod(Pow(2, n) - 1, 2, half - 1, 1);
  }

  /** Anding with an odd mask keeps the lowest bit of `a`. */
  lemma AndOddMask(a: nat, m: nat)
    requires m % 2 == 1
    ensures BitAnd(a, m) == 2 * BitAnd(a / 2, m / 2) + a % 2
  {
    if a == 0 {
      assert BitAnd(0, m / 2) == 0;
    }
  }

  /** Anding with `2^n - 1` keeps the `n` low bits. */
  lemma {:induction false} AndLowBits(a: nat, n: nat)
    ensures Pow(2, n) >= 1
    ensures BitAnd(a, Pow(2, n) - 1) == a % Pow(2, n)
  {
    if n == 0 {
      assert BitAnd(a, 0) == 0;
      DivMod(a, 1, a, 0);
    } else {
      AndLowBits(a / 2, n - 1);
      AndLowBitsStep(a, n);
    }
  }

  /** The inductive step of `AndLowBits`: one more low bit. */
  lemma AndLowBitsStep(a: nat, n: nat)
    requires n > 0 && Pow(2, n - 1) >= 1
    requires BitAnd(a / 2, Pow(2, n - 1) - 1) == (a / 2) % Pow(2, n - 1)
    ensures BitAnd(a, Pow(2, n) - 1) == a % Pow(2, n)
  {
    var full, half := Pow(2, n), Pow(2, n - 1);
    LowMaskHalves(n);
    AndOddMask(a, full - 1);
    ModProduct(a, 2, half);
  }

  lemma DivNonNegative(a: nat, d: nat)
    requires d > 0
    ensures 0 <= a / d
  {
    var q, r := a / d, a % d;
    assert a == d * q + r && 0 <= r < d;
  }

  lemma MulNonNegative(x: nat, y: nat)
    ensures x * y >= 0
  {
  }

  lemma MulSwap(x: int, y: int, z: int)
    ensures x * (y * z) == y * (x * z)
  {
  }

  /** Anding with a mask shifted left by `k` is anding the shifted-down
      value with the mask, shifted back up. */
  lemma {:induction false} AndShifted(a: nat, m: nat, k: nat)
    ensures BitAnd(a, m * Pow(2, k)) == BitAnd(a / Pow(2, k), m) * Pow(2, k)
  {
    if k > 0 {
      var pk, p2 := Pow(2, k - 1), Pow(2, k);
      assert pk > 0 && p2 == 2 * pk;
      MulNonNegative(m, pk);
      var big: nat := m * pk;
      assert m * p2 == 2 * big by {
        MulSwap(m, 2, pk);
      }
      assert BitAnd(a, 2 * big) == 2 * BitAnd(a / 2, big) by {
        AndEvenMask(a, big);
      }
      DivNonNegative(a, p2);
      var q: nat := a / p2;
      assert (a / 2) / pk == q by {
        ModProduct(a, 2, pk);
      }
      var low := BitAnd(q, m);
      assert BitAnd(a / 2, big) == low * pk by {
        AndShifted(a / 2, m, k - 1);
      }
      MulSwap(2, low, pk);
    } else {
      DivMod(a, 1, a, 0);
    }
  }

  /** Anding with an even mask clears the lowest bit of `a`. */
  lemma AndEvenMask(a: nat, b: nat)
    ensures BitAnd(a, 2 * b) == 2 * BitAnd(a / 2, b)
  {
    if a > 0 && b > 0 {
      DivMod(2 * b, 2, b, 0);
    }
  }

  /** Step `i` of the loop extracts byte `i` of `h`, counted from the
      least significant end. */
  lemma MaskedByte(h: nat, i: nat)
    ensures ShiftRight(BitAnd(h, ShiftLeft(255, 8 * i)), 8 * i) == (h / Pow(256, i)) % 256
  {
    var p := Pow(2, 8 * i);
    assert p > 0;
    var low := BitAnd(h / p, 255);
    assert BitAnd(h, 255 * p) == low * p by {
      AndShifted(h, 255, 8 * i);
    }
    assert low == (h / p) % 256 by {
      AndLowBits(h / p, 8);
      assert Pow(2, 8) == 256;
    }
    assert (low * p) / p == low by {
      DivMod(low * p, p, low, 0);
    }
    PowEightBits(i);
  }

  // ---------------------------------------------------------------------------
  // Properties of the byte split

  /** Every element is a byte. */
  lemma {:induction false} LowBytesAreBytes(h: nat, n: nat)
    ensures AllBytes(LowBytes(h, n))
  {
    if n > 0 {
      LowBytesAreBytes(h, n - 1);
    }
  }

  /** Reading `n` low bytes back big-endian gives `h` modulo `256^n`. */
  lemma {:induction false} LowBytesRoundTrip(h: nat, n: nat)
    ensures FromBigEndian(LowBytes(h, n)) == h % Pow(256, n)
  {
    if n > 0 {
      var s := LowBytes(h, n);
      var p := Pow(256, n - 1);
      assert p > 0;
      assert FromBigEndian(s) == ((h / p) % 256) * p + FromBigEndian(s[1..]) by {
        assert s[1..] == LowBytes(h, n - 1);
        MulSwap(1, (h / p) % 256, p);
      }
      assert FromBigEndian(s[1..]) == h % p by {
        assert s[1..] == LowBytes(h, n - 1);
        LowBytesRoundTrip(h, n - 1);
      }
      assert h % Pow(256, n) == p * ((h / p) % 256) + h % p by {
        assert Pow(256, n) == p * 256;
        ModProduct(h, p, 256);
      }
      MulSwap(1, p, (h / p) % 256);
    } else {
      DivMod(h, 1, h, 0);
    }
  }

  /** Enough bytes are produced to hold `h`: since `h < 255^c <= 256^c`,
      recombining the result gives `h` back. */
  lemma Recombines(h: nat)
    requires h >= 1
    ensures FromBigEndian(LowBytes(h, ByteCount(h))) == h
  {
    var c := ByteCount(h);
    PowBaseMonotone(c);
    LowBytesRoundTrip(h, c);
    DivMod(h, Pow(256, c), 0, h);
  }

  /** The most significant byte is element 0: each element is worth 256
      times the one after it. */
  lemma {:induction false} BigEndianOrder(h: nat, n: nat, k: nat)
    requires k < n
    ensures LowBytes(h, n)[k] == (h / Pow(256, n - 1 - k)) % 256
  {
    if k > 0 {
      BigEndianOrder(h, n - 1, k - 1);
    }
  }

  // ---------------------------------------------------------------------------
  // The byte count as evidently intended: base 256, no leading zero

  /** The number of bytes `h` needs: the `m` with `256^(m-1) <= h < 256^m`. */
  function MinimalByteCount(h: nat): (m: nat)
    requires h >= 1
    ensures m >= 1
    ensures Pow(256, m - 1) <= h < Pow(256, m)
  {
    FloorLog(256, h) + 1
  }

  lemma MulLe(p: nat, z: int, w: int)
    ensures z <= w ==> p * z <= p * w
  {
    if z <= w {
      MulMonotone(p, z, w);
    }
  }

  /** A number between `p * lo` and `p * hi` has its quotient by `p` there. */
  lemma QuotientBounds(h: nat, p: nat, lo: nat, hi: nat)
    requires p > 0 && p * lo <= h < p * hi
    ensures lo <= h / p < hi
  {
    var q, r := h / p, h % p;
    DivDecompose(h, p);
    MulLe(p, q, lo - 1);
    MulDistributes(p, lo, -1);
    MulLe(p, hi, q);
  }

  lemma {:induction false} PowExponentMonotone(b: nat, i: nat, j: nat)
    requires b >= 1
    ensures i <= j ==> Pow(b, i) <= Pow(b, j)
  {
    if i < j {
      PowExponentMonotone(b, i, j - 1);
      MulMonotone(Pow(b, j - 1), 1, b);
    }
  }

  /** `hex_to_tuple` with the base-256 count: the same digits, most
      significant first, without a leading zero. */
  function MinimalBytes(h: int): (r: Result<seq<nat>>)
    ensures h <= 0 <==> r == Raise(ValueError)
    ensures h > 0 ==> r.Ok? && |r.value| == MinimalByteCount(h) && AllBytes(r.value)
    ensures h > 0 ==> FromBigEndian(r.value) == h && r.value[0] != 0
  {
    if h <= 0 then Raise(ValueError)
    else
      MinimalDigits(h);
      Ok(LowBytes(h, MinimalByteCount(h)))
  }

  /** The base-256 digits of `h` are bytes, read back as `h`, and start
      with a non-zero one. */
  lemma MinimalDigits(h: nat)
    requires h >= 1
    ensures AllBytes(LowBytes(h, MinimalByteCount(h)))
    ensures FromBigEndian(LowBytes(h, MinimalByteCount(h))) == h
    ensures LowBytes(h, MinimalByteCount(h))[0] != 0
  {
    var m := MinimalByteCount(h);
    var p := Pow(256, m - 1);
    LowBytesAreBytes(h, m);
    LowBytesRoundTrip(h, m);
    DivMod(h, Pow(256, m), 0, h);
    BigEndianOrder(h, m, 0);
    QuotientBounds(h, p, 1, 256);
    DivMod(h / p, 256, 0, h / p);
  }

  /** The written count is never below the minimal one. */
  lemma WrittenCountAtLeastMinimal(h: nat)
    requires h >= 1
    ensures ByteCount(h) >= MinimalByteCount(h)
  {
    var c, m := ByteCount(h), MinimalByteCount(h);
    PowBaseMonotone(c);
    PowExponentMonotone(256, c, m - 1);
  }

  /** So the written result is the minimal one with leading zeros in front. */
  lemma WrittenCountCoversMinimal(h: nat)
    requires h >= 1
    ensures ByteCount(h) >= MinimalByteCount(h)
    ensures LowBytes(h, ByteCount(h))[ByteCount(h) - MinimalByteCount(h)..] == MinimalBytes(h).value
    ensures forall j :: 0 <= j < ByteCount(h) - MinimalByteCount(h) ==> LowBytes(h, ByteCount(h))[j] == 0
  {
    var c, m := ByteCount(h), MinimalByteCount(h);
    WrittenCountAtLeastMinimal(h);
    LowBytesSuffix(h, c, m);
    assert MinimalBytes(h) == Ok(LowBytes(h, m));
    forall j | 0 <= j < c - m
      ensures LowBytes(h, c)[j] == 0
    {
      LeadingByteZero(h, j);
    }
  }

  /** A byte in front of the minimal count is zero: it lies at or above
      `256^m`, past every digit of `h`. */
  lemma LeadingByteZero(h: nat, j: nat)
    requires h >= 1 && j + MinimalByteCount(h) < ByteCount(h)
    ensures LowBytes(h, ByteCount(h))[j] == 0
  {
    ZeroDigit(h, ByteCount(h), MinimalByteCount(h), j);
  }

  /** Below `256^m`, digit `j` of `n` is zero when `j + m < n`. */
  lemma ZeroDigit(h: nat, n: nat, m: nat, j: nat)
    requires h < Pow(256, m) && j + m < n
    ensures LowBytes(h, n)[j] == 0
  {
    var e := n - 1 - j;
    BigEndianOrder(h, n, j);
    PowExponentMonotone(256, m, e);
    SmallQuotient(h, Pow(256, e));
  }

  lemma SmallQuotient(h: nat, p: nat)
    requires h < p
    ensures h / p == 0
  {
  }

  /** The last `m` of `n` low bytes are the `m` low bytes. */
  lemma {:induction false} LowBytesSuffix(h: nat, n: nat, m: nat)
    requires m <= n
    ensures LowBytes(h, n)[n - m..] == LowBytes(h, m)
  {
    if m < n {
      LowBytesSuffix(h, n - 1, m);
      assert LowBytes(h, n)[1..] == LowBytes(h, n - 1);
      assert LowBytes(h, n)[n - m..] == LowBytes(h, n)[1..][n - 1 - m..];
    }
  }

  /** At `h = 0xFFFFFF`, a full RGB triple, the written count gives four
      bytes where three carry the value. */
  lemma WhiteHasFourBytes()
    ensures LowBytes(0xFFFFFF, ByteCount(0xFFFFFF)) == [0, 255, 255, 255]
    ensures MinimalBytes(0xFFFFFF) == Ok([255, 255, 255])
  {
    assert FloorLog(255, 0xFFFFFF / 255 / 255 / 255) == 0;
    assert FloorLog(255, 0xFFFFFF / 255 / 255) == 1;
    assert FloorLog(255, 0xFFFFFF / 255) == 2;
    assert ByteCount(0xFFFFFF) == 4;
    assert FloorLog(256, 0xFFFFFF / 256 / 256) == 0;
    assert FloorLog(256, 0xFFFFFF / 256) == 1;
    assert MinimalByteCount(0xFFFFFF) == 3;
    assert Pow(256, 2) == 65536 && Pow(256, 3) == 16777216;
    assert LowBytes(0xFFFFFF, 3) == [255, 255, 255];
    assert MinimalBytes(0xFFFFFF) == Ok(LowBytes(0xFFFFFF, 3));
  }

  /** `hex_to_tuple(h)`. A non-positive `h` makes `math.log` raise
      ValueError. */
  method HexToTuple(h: int) returns (r: Result<seq<nat>>)
    ensures h <= 0 <==> r == Raise(ValueError)
    ensures h > 0 ==> r.Ok? && r.value == LowBytes(h, ByteCount(h))
    ensures h > 0 ==> |r.value| == ByteCount(h) && AllBytes(r.value) && FromBigEndian(r.value) == h
  {
    if h <= 0 {
      return Raise(ValueError);
    }
    var l: seq<nat> := [];
    var mask: nat := 0xFF;
    var c := ByteCount(h);
    for i := 0 to c
      invariant mask == ShiftLeft(0xFF, 8 * i)
      invariant l == LowBytes(h, i)
    {
      MaskedByte(h, i);
      l := [ShiftRight(BitAnd(h, mask), i * 8)] + l;
      assert Pow(2, 8 * (i + 1)) == Pow(2, 8 * i) * Pow(2, 8) by {
        PowAdd(2, 8 * i, 8);
      }
      mask := ShiftLeft(mask, 8);
    }
    LowBytesAreBytes(h, c);
    Recombines(h);
    r := Ok(l);
  }

  /** The three results asserted next to the definition in main.py. */
  lemma AssertedExamples()
    ensures LowBytes(0x12, ByteCount(0x12)) == [18]
    ensures LowBytes(0x1234, ByteCount(0x1234)) == [18, 52]
    ensures LowBytes(0x123456, ByteCount(0x123456)) == [18, 52, 86]
  {
    assert ByteCount(0x12) == 1;
    assert FloorLog(255, 0x1234 / 255) == 0;
    assert ByteCount(0x1234) == 2;
    assert FloorLog(255, 0x123456 / 255 / 255) == 0;
    assert FloorLog(255, 0x123456 / 255) == 1;
    assert ByteCount(0x123456) == 3;
    assert Pow(256, 2) == 65536;
  }

  /** Base 255 counts one byte too many at 255 itself: the result has a
      leading zero. */
  lemma LeadingZeroAt255()
    ensures LowBytes(255, ByteCount(255)) == [0, 255]
  {
    assert FloorLog(255, 255 / 255) == 0;
    assert ByteCount(255) == 2;
  }
}
