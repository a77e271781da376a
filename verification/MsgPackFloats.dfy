/** Floats of four bytes become doubles of the same value. */
module MsgPackFloats {
  import opened JsonTree
  import opened MsgPackFormat
  import opened MsgPackTheorems
  import opened MsgPackForms

  // ---------------------------------------------------------------------------------------------
  // What the bit patterns of IEEE 754 stand for
  // ---------------------------------------------------------------------------------------------

  function FloatExponent(u: nat): nat { u / 0x80_0000 % 0x100 }

  function FloatFraction(u: nat): nat { u % 0x80_0000 }

  function ExponentOf(d: nat): nat { d / 0x10_0000_0000_0000 % 0x800 }

  function FractionOf(d: nat): nat { d % 0x10_0000_0000_0000 }

  /** The magnitude of a finite float, in units of 2^-149, the least one. */
  function FloatUnits(u: nat): nat {
    if FloatExponent(u) == 0 then FloatFraction(u) else (0x80_0000 + FloatFraction(u)) * Pow2(FloatExponent(u) - 1)
  }

  /** The magnitude of a finite double, in units of 2^-1074. */
  function DoubleUnits(d: nat): nat {
    if ExponentOf(d) == 0 then FractionOf(d) else (0x10_0000_0000_0000 + FractionOf(d)) * Pow2(ExponentOf(d) - 1)
  }

  /** A float and a double of the same sign and the same value: both finite and equal, both infinite, or
      both no number. */
  predicate SameNumber(u: nat, d: nat) {
    && u / 0x8000_0000 == d / 0x8000_0000_0000_0000 <= 1
    && (FloatExponent(u) == 0xff <==> ExponentOf(d) == 0x7ff)
    && if FloatExponent(u) == 0xff then (FloatFraction(u) == 0 <==> FractionOf(d) == 0)
       else DoubleUnits(d) == FloatUnits(u) * Pow2(1074 - 149)
  }

  // ---------------------------------------------------------------------------------------------
  // Powers of two
  // ---------------------------------------------------------------------------------------------

  lemma {:induction false} PowerSum(a: nat, b: nat)
    ensures Pow2(a + b) == Pow2(a) * Pow2(b)
  {
    if a > 0 {
      PowerSum(a - 1, b);
      assert Pow2(a + b) == 2 * Pow2(a - 1 + b);
      assert 2 * (Pow2(a - 1) * Pow2(b)) == 2 * Pow2(a - 1) * Pow2(b);
    }
  }

  lemma Powers()
    ensures Pow2(23) == 0x80_0000 && Pow2(29) == 0x2000_0000 && Pow2(52) == 0x10_0000_0000_0000
  {
    assert Pow2(8) == 0x100;
    assert Pow2(16) == 0x1_0000 by { PowerSum(8, 8); }
    assert Pow2(23) == 0x80_0000 by { assert Pow2(7) == 0x80; PowerSum(16, 7); }
    assert Pow2(29) == 0x2000_0000 by { assert Pow2(6) == 0x40; PowerSum(23, 6); }
    assert Pow2(52) == 0x10_0000_0000_0000 by { PowerSum(23, 29); }
  }

  lemma {:induction false} LogBounds(n: nat)
    requires n > 0
    ensures Pow2(Log2(n)) <= n < 2 * Pow2(Log2(n))
  {
    if n > 1 { LogBounds(n / 2); }
  }

  lemma LogOfFraction(m: nat)
    requires 0 < m < 0x80_0000
    ensures Log2(m) <= 22
  {
    LogBounds(m);
    Powers();
    if Log2(m) > 22 { PowerSum(23, Log2(m) - 23); }
  }

  // ---------------------------------------------------------------------------------------------
  // Widening
  // ---------------------------------------------------------------------------------------------

  lemma Fields(sign: nat, e: nat, m: nat)
    requires sign <= 1 && e < 0x800 && m < 0x10_0000_0000_0000
    ensures var d := sign * 0x8000_0000_0000_0000 + e * 0x10_0000_0000_0000 + m;
            && d < UINT64_END && d / 0x8000_0000_0000_0000 == sign && ExponentOf(d) == e && FractionOf(d) == m
  {
    var d := sign * 0x8000_0000_0000_0000 + e * 0x10_0000_0000_0000 + m;
    assert d / 0x10_0000_0000_0000 == sign * 0x800 + e;
  }

  lemma NormalValue(e: nat, m: nat)
    requires 0 < e < 0xff
    ensures (0x10_0000_0000_0000 + m * 0x2000_0000) * Pow2(e + 895) == (0x80_0000 + m) * Pow2(e - 1) * Pow2(925)
  {
    hide Pow2;
    Powers();
    PowerSum(29, e + 895);
    PowerSum(e - 1, 925);
    assert 29 + (e + 895) == e - 1 + 925;
    Regroup(0x80_0000 + m, 0x2000_0000, Pow2(e + 895), Pow2(e - 1), Pow2(925));
  }

  lemma Regroup(a: nat, b: nat, c: nat, d: nat, e: nat)
    requires b * c == d * e
    ensures a * b * c == a * d * e
  {
    assert a * b * c == a * (b * c) && a * d * e == a * (d * e);
  }

  lemma SubnormalValue(m: nat, log: nat)
    requires log <= 22 && Pow2(log) <= m < 2 * Pow2(log)
    ensures var fraction := (m - Pow2(log)) * Pow2(52 - log);
            && fraction < 0x10_0000_0000_0000
            && (0x10_0000_0000_0000 + fraction) * Pow2(log + 873) == m * Pow2(925)
  {
    hide Pow2;
    Powers();
    PowerSum(log, 52 - log);
    PowerSum(52 - log, log + 873);
    Scaled(m, Pow2(log), Pow2(52 - log), Pow2(log + 873));
  }

  lemma Scaled(m: nat, p: nat, q: nat, r: nat)
    requires p <= m < 2 * p && q > 0
    ensures (m - p) * q < p * q
    ensures (p * q + (m - p) * q) * r == m * (q * r)
  {
    assert p * q - (m - p) * q == (2 * p - m) * q;
    assert p * q + (m - p) * q == m * q;
  }

  lemma NormalIsExact(u: nat)
    requires u < 0x1_0000_0000 && 0 < FloatExponent(u) < 0xff
    ensures Widen(u) < UINT64_END && SameNumber(u, Widen(u))
  {
    hide Pow2, Log2;
    var (sign, e, m) := (u / 0x8000_0000, FloatExponent(u), FloatFraction(u));
    assert sign <= 1 && sign % 2 == sign;
    Fields(sign, e + 896, m * 0x2000_0000);
    NormalValue(e, m);
  }

  lemma SubnormalIsExact(u: nat)
    requires u < 0x1_0000_0000 && FloatExponent(u) == 0 && FloatFraction(u) > 0
    ensures Widen(u) < UINT64_END && SameNumber(u, Widen(u))
  {
    hide Pow2, Log2, Times;
    var (sign, m) := (u / 0x8000_0000, FloatFraction(u));
    assert sign <= 1 && sign % 2 == sign;
    var log := Log2(m);
    LogBounds(m);
    LogOfFraction(m);
    SubnormalValue(m, log);
    var fraction := Times(m - Pow2(log), Pow2(52 - log));
    TimesIs(m - Pow2(log), Pow2(52 - log));
    Fields(sign, log + 874, fraction);
  }

  lemma TimesIs(a: nat, b: nat)
    ensures Times(a, b) == a * b
  {}

  lemma SpecialIsExact(u: nat)
    requires u < 0x1_0000_0000 && (FloatExponent(u) == 0xff || (FloatExponent(u) == 0 && FloatFraction(u) == 0))
    ensures Widen(u) < UINT64_END && SameNumber(u, Widen(u))
  {
    hide Pow2, Log2;
    var (sign, e, m) := (u / 0x8000_0000, FloatExponent(u), FloatFraction(u));
    assert sign <= 1 && sign % 2 == sign;
    Fields(sign, DoubleExponent(e, m), DoubleMantissa(e, m));
  }

  /** The double that the parser makes of a float is the same number. */
  lemma WidenIsExact(u: nat)
    requires u < 0x1_0000_0000
    ensures Widen(u) < UINT64_END && SameNumber(u, Widen(u))
  {
    hide Widen, SameNumber;
    if FloatExponent(u) == 0xff || (FloatExponent(u) == 0 && FloatFraction(u) == 0) {
      SpecialIsExact(u);
    } else if FloatExponent(u) == 0 {
      SubnormalIsExact(u);
    } else {
      NormalIsExact(u);
    }
  }

  /** A float item is read as a double of its value. */
  lemma FloatItem(raw: seq<byte>, bs: seq<byte>, pos: nat, depth: nat)
    requires depth >= 1 && |raw| == 4 && At(bs, pos, [0xca] + raw)
    ensures var r := ParseOne(bs, pos, depth);
            && r.Ok? && r.value.Num? && r.pos == pos + 5 && !r.plain
            && |r.value.bits| == 8 && SameNumber(FromBig(raw), FromBig(r.value.bits))
  {
    hide At, TakeUInt, FromBig, Widen, SameNumber, Pow256, BigEndian;
    AtSplit(bs, pos, [0xca], raw);
    AtHead(bs, pos, [0xca]);
    TakeUIntRaw(bs, pos + 1, raw);
    FromBigBound(raw);
    PowValues();
    WidenIsExact(FromBig(raw));
    BigRoundTrip(Widen(FromBig(raw)), 8);
    FloatHead(bs, pos, depth);
  }

  lemma FloatHead(bs: seq<byte>, pos: nat, depth: nat)
    requires depth >= 1 && pos < |bs| && bs[pos] == 0xca
    ensures ParseOne(bs, pos, depth) == Floats(TakeUInt(bs, pos + 1, 4))
  {
    hide TakeUInt, Floats;
  }
}
