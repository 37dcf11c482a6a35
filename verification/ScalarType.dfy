/** vllm/scalar_type.py: the packed id of a scalar type, and the largest and smallest
    value it can represent.

    A float format is decoded as section 3.4 of IEEE 754-2019 prescribes, for any
    number of exponent and mantissa bits; a double is the format with 11 and 52. */
module ScalarTypes {
  import opened Bits

  datatype NanRepr = None | Ieee754 | ExtendedRangeMaxMin {
    function Code(): nat {
      match this case None => 0 case Ieee754 => 1 case ExtendedRangeMaxMin => 2
    }
  }

  datatype ScalarType = ScalarType(exponent: int, mantissa: int, signed: bool, bias: int,
                                   finiteValuesOnly: bool, nanRepr: NanRepr) {
    function SizeBits(): int {
      exponent + mantissa + if signed then 1 else 0
    }
  }

  datatype Result<T> = Ok(value: T) | AssertionError

  // ----- the id

  function BoolBit(b: bool): nat {
    if b then 1 else 0
  }

  const WIDTHS: seq<nat> := [8, 8, 1, 32, 1, 8]

  /** The fields in constructor order. */
  function Members(t: ScalarType): seq<int> {
    [t.exponent, t.mantissa, BoolBit(t.signed), t.bias, BoolBit(t.finiteValuesOnly), t.nanRepr.Code()]
  }

  ghost function Offset(widths: seq<nat>, k: nat): nat
    requires k <= |widths|
  {
    if k == 0 then 0 else Offset(widths, k - 1) + widths[k - 1]
  }

  /** The number whose bits are the first `k` members side by side. */
  ghost function Packed(members: seq<int>, widths: seq<nat>, k: nat): nat
    requires k <= |members| == |widths|
  {
    if k == 0 then 0
    else Packed(members, widths, k - 1) +
         ShiftLeft(members[k - 1] % Pow2(widths[k - 1]), Offset(widths, k - 1))
  }

  /** The bits of `x` from position `offset` on, `width` of them. */
  function Field(x: nat, offset: nat, width: nat): nat {
    (x / Pow2(offset)) % Pow2(width)
  }

  lemma {:induction false} PackedBound(members: seq<int>, widths: seq<nat>, k: nat)
    requires k <= |members| == |widths|
    ensures Packed(members, widths, k) < Pow2(Offset(widths, k))
  {
    if k > 0 {
      PackedBound(members, widths, k - 1);
      var p, w := Pow2(Offset(widths, k - 1)), Pow2(widths[k - 1]);
      Pow2Add(Offset(widths, k - 1), widths[k - 1]);
      FieldFits(Packed(members, widths, k - 1), members[k - 1] % w, p, w);
    }
  }

  lemma FieldFits(low: nat, field: nat, p: nat, w: nat)
    requires low < p && field < w
    ensures low + field * p < p * w
  {
    assert (field + 1) * p <= w * p;
  }

  /** Every member can be read back from its bit range. */
  lemma {:induction false} PackedField(members: seq<int>, widths: seq<nat>, n: nat, k: nat)
    requires k < n <= |members| == |widths|
    ensures Field(Packed(members, widths, n), Offset(widths, k), widths[k]) == members[k] % Pow2(widths[k])
  {
    hide Pow2, ShiftLeft, Field;
    var low := Packed(members, widths, n - 1);
    var f := members[n - 1] % Pow2(widths[n - 1]);
    if k == n - 1 {
      PackedBound(members, widths, n - 1);
      TopField(low, f, Offset(widths, k), widths[k]);
    } else {
      PackedField(members, widths, n - 1, k);
      var rest := OffsetGap(widths, k + 1, n - 1);
      HigherBits(low, f, Offset(widths, k), widths[k], rest);
    }
  }

  lemma TopField(low: nat, f: nat, offset: nat, width: nat)
    requires low < Pow2(offset) && f < Pow2(width)
    ensures Field(low + ShiftLeft(f, offset), offset, width) == f
  {
    hide Pow2;
    ModUnique(low + ShiftLeft(f, offset), Pow2(offset), f, low);
    ModUnique(f, Pow2(width), 0, f);
  }

  lemma {:induction false} OffsetGap(widths: seq<nat>, j: nat, k: nat) returns (gap: nat)
    requires j <= k <= |widths|
    ensures Offset(widths, k) == Offset(widths, j) + gap
  {
    gap := 0;
    if j < k {
      gap := OffsetGap(widths, j, k - 1);
      gap := gap + widths[k - 1];
    }
  }

  /** Bits added above a field leave it alone. */
  lemma HigherBits(low: nat, f: nat, offset: nat, width: nat, rest: nat)
    ensures Field(low + ShiftLeft(f, offset + width + rest), offset, width) == Field(low, offset, width)
  {
    hide Pow2;
    var p, w, r := Pow2(offset), Pow2(width), Pow2(rest);
    Pow2Add(offset + width, rest);
    Pow2Add(offset, width);
    calc {
      Field(low + ShiftLeft(f, offset + width + rest), offset, width);
      ((low + f * ((p * w) * r)) / p) % w;
      { Regroup(f, p, w, r); }
      ((low + (f * r * w) * p) / p) % w;
      { SplitDivision(low, p, f * r * w); }
      (low / p + f * r * w) % w;
      { SplitRemainder(low / p, w, f * r); }
      (low / p) % w;
    }
  }

  lemma Regroup(f: nat, p: nat, w: nat, r: nat)
    ensures f * ((p * w) * r) == (f * r * w) * p
  {
    assert f * ((p * w) * r) == f * (p * (w * r)) == (f * (w * r)) * p;
    assert f * (w * r) == f * r * w;
  }

  lemma SplitDivision(x: nat, p: nat, k: nat)
    requires p > 0
    ensures (x + k * p) / p == x / p + k
  {
    var q, r := x / p, x % p;
    assert (q + k) * p == q * p + k * p;
    ModUnique(x + k * p, p, q + k, r);
  }

  lemma SplitRemainder(x: nat, w: nat, k: nat)
    requires w > 0
    ensures (x + k * w) % w == x % w
  {
    var q, r := x / w, x % w;
    assert (q + k) * w == q * w + k * w;
    ModUnique(x + k * w, w, q + k, r);
  }

  /** One step of the packing: masks a member and ors it in above the bits used so far. */
  method OrAndAdvance(val: nat, offset: nat, member: int, width: nat,
                      ghost members: seq<int>, ghost widths: seq<nat>, ghost k: nat)
    returns (val': nat, offset': nat)
    requires k < |members| == |widths| && member == members[k] && width == widths[k]
    requires val == Packed(members, widths, k) && offset == Offset(widths, k)
    ensures val' == Packed(members, widths, k + 1) && offset' == Offset(widths, k + 1)
  {
    var mask := Pow2(width) - 1;
    AndMask(member, width);
    PackedBound(members, widths, k);
    OrDisjoint(val, member % Pow2(width), offset);
    val' := BitOr(val, ShiftLeft(BitAnd(member, mask), offset));
    offset' := offset + width;
  }

  method Id(t: ScalarType) returns (val: nat)
    ensures val == Packed(Members(t), WIDTHS, 6)
  {
    ghost var m := Members(t);
    var offset;
    hide Packed, Offset;
    assert Packed(m, WIDTHS, 0) == 0 && Offset(WIDTHS, 0) == 0 by { PackedStart(m, WIDTHS); }
    val, offset := OrAndAdvance(0, 0, t.exponent, 8, m, WIDTHS, 0);
    val, offset := OrAndAdvance(val, offset, t.mantissa, 8, m, WIDTHS, 1);
    val, offset := OrAndAdvance(val, offset, BoolBit(t.signed), 1, m, WIDTHS, 2);
    val, offset := OrAndAdvance(val, offset, t.bias, 32, m, WIDTHS, 3);
    val, offset := OrAndAdvance(val, offset, BoolBit(t.finiteValuesOnly), 1, m, WIDTHS, 4);
    val, offset := OrAndAdvance(val, offset, t.nanRepr.Code(), 8, m, WIDTHS, 5);
  }

  lemma PackedStart(members: seq<int>, widths: seq<nat>)
    requires |members| == |widths|
    ensures Packed(members, widths, 0) == 0 && Offset(widths, 0) == 0
  {
  }

  ghost function IdOf(t: ScalarType): nat {
    Packed(Members(t), WIDTHS, 6)
  }

  /** The C++ side's `from_id`: extracts each bit range and casts it to the member's
      type, so the 32-bit bias is sign-extended.  A NaN code above 2 names no member
      of the enumeration. */
  function FromId(id: nat): Result<ScalarType> {
    var bias := Field(id, 17, 32);
    var code := Field(id, 50, 8);
    if code > 2 then AssertionError
    else Ok(ScalarType(Field(id, 0, 8), Field(id, 8, 8), Field(id, 16, 1) != 0,
                       if bias >= 0x8000_0000 then bias - 0x1_0000_0000 else bias,
                       Field(id, 49, 1) != 0,
                       if code == 0 then None else if code == 1 then Ieee754 else ExtendedRangeMaxMin))
  }

  predicate FieldsFit(t: ScalarType) {
    && 0 <= t.exponent < 256 && 0 <= t.mantissa < 256
    && -0x8000_0000 <= t.bias < 0x8000_0000
  }

  lemma IdFields(t: ScalarType)
    ensures Field(IdOf(t), 0, 8) == t.exponent % 256
    ensures Field(IdOf(t), 8, 8) == t.mantissa % 256
    ensures Field(IdOf(t), 16, 1) == BoolBit(t.signed)
    ensures Field(IdOf(t), 17, 32) == t.bias % 0x1_0000_0000
    ensures Field(IdOf(t), 49, 1) == BoolBit(t.finiteValuesOnly)
    ensures Field(IdOf(t), 50, 8) == t.nanRepr.Code()
    ensures IdOf(t) < Pow2(58)
  {
    hide Field, Packed, Pow2, Offset;
    var m := Members(t);
    IdLayout();
    PackedField(m, WIDTHS, 6, 0);
    PackedField(m, WIDTHS, 6, 1);
    PackedField(m, WIDTHS, 6, 2);
    PackedField(m, WIDTHS, 6, 3);
    PackedField(m, WIDTHS, 6, 4);
    PackedField(m, WIDTHS, 6, 5);
    PackedBound(m, WIDTHS, 6);
  }

  lemma IdLayout()
    ensures Offset(WIDTHS, 0) == 0 && Offset(WIDTHS, 1) == 8 && Offset(WIDTHS, 2) == 16
    ensures Offset(WIDTHS, 3) == 17 && Offset(WIDTHS, 4) == 49 && Offset(WIDTHS, 5) == 50
    ensures Offset(WIDTHS, 6) == 58
    ensures Pow2(8) == 256 && Pow2(1) == 2 && Pow2(32) == 0x1_0000_0000
  {
    assert Offset(WIDTHS, 2) == 16;
    assert Offset(WIDTHS, 4) == 49;
    assert Pow2(8) == 256;
    Pow2Add(8, 8);
    Pow2Add(16, 16);
  }

  /** The id determines the type, and decodes to it, exactly when the fields fit. */
  lemma IdRoundTrip(t: ScalarType)
    ensures FromId(IdOf(t)) == Ok(t) <==> FieldsFit(t)
  {
    hide IdOf, Field;
    IdFields(t);
    ByteRoundTrip(t.exponent);
    ByteRoundTrip(t.mantissa);
    BiasRoundTrip(t.bias);
  }

  lemma ByteRoundTrip(x: int)
    ensures x % 256 == x <==> 0 <= x < 256
  {
  }

  lemma BiasRoundTrip(x: int)
    ensures var f := x % 0x1_0000_0000;
            (if f >= 0x8000_0000 then f - 0x1_0000_0000 else f) == x <==> -0x8000_0000 <= x < 0x8000_0000
  {
    if -0x8000_0000 <= x < 0 {
      ModUnique(x, 0x1_0000_0000, -1, x + 0x1_0000_0000);
    }
  }

  lemma IdInjective(t: ScalarType, u: ScalarType)
    requires FieldsFit(t) && FieldsFit(u)
    ensures IdOf(t) == IdOf(u) <==> t == u
  {
    IdRoundTrip(t);
    IdRoundTrip(u);
  }

  // ----- decoding floats

  /** 2 to an integer power of either sign. */
  ghost function Exp2(k: int): real {
    if k >= 0 then Pow2(k) as real else 1.0 / Pow2(-k) as real
  }

  /** The magnitude of a code with the given exponent and mantissa fields, in a format
      with `e` exponent bits, `m` mantissa bits and the standard bias. */
  ghost function Magnitude(e: nat, m: nat, expField: nat, manField: nat): real
    requires e > 0
  {
    if expField == 0 then (manField as real / Pow2(m) as real) * Exp2(1 - Bias(e))
    else (1.0 + manField as real / Pow2(m) as real) * Exp2(expField - Bias(e))
  }

  function Bias(e: nat): int
    requires e > 0
  {
    Pow2(e - 1) - 1
  }

  ghost function Signed(negative: bool, x: real): real {
    if negative then -x else x
  }

  datatype Double = Infinite | NotANumber | Finite(normal: bool, value: real)

  /** What the 64 bits of an IEEE double denote. */
  ghost function DecodeDouble(bits: nat): Double {
    var expField, manField := Field(bits, 52, 11), Field(bits, 0, 52);
    if expField == 2047 then (if manField == 0 then Infinite else NotANumber)
    else Finite(expField != 0, Signed(Field(bits, 63, 1) == 1, Magnitude(11, 52, expField, manField)))
  }

  /** The float types the constructors `float_IEEE754` and `float_` build, the latter
      with finite values only. */
  predicate BuiltFloat(t: ScalarType) {
    && t.exponent > 0 && t.mantissa > 0 && t.signed && t.bias == 0
    && (t.nanRepr.Ieee754? <==> !t.finiteValuesOnly)
  }

  /** The codes of `t` that denote numbers. */
  ghost predicate FiniteCode(t: ScalarType, expField: nat, manField: nat)
    requires BuiltFloat(t)
  {
    var top := Pow2(t.exponent) - 1;
    && expField <= top && manField < Pow2(t.mantissa)
    && match t.nanRepr
       case None => true
       case Ieee754 => expField != top
       case ExtendedRangeMaxMin => !(expField == top && manField == Pow2(t.mantissa) - 1)
  }

  ghost function CodeValue(t: ScalarType, negative: bool, expField: nat, manField: nat): real
    requires BuiltFloat(t)
  {
    Signed(negative, Magnitude(t.exponent, t.mantissa, expField, manField))
  }

  // ----- the largest value

  /** `_floating_point_max_int` on the types the constructors build. */
  function FloatMaxBits(t: ScalarType): Result<nat>
    requires BuiltFloat(t)
  {
    if t.mantissa > 52 || t.exponent > 11 then AssertionError
    else if !t.nanRepr.Ieee754? && t.exponent >= 11 then AssertionError
    else
      var maxDouble := MaxExponent(t) - Bias(t.exponent) + 1023;
      assert maxDouble >= 0 by { ExponentRange(t); }
      Ok(BitOr(ShiftLeft(MaxMantissa(t), 52 - t.mantissa), ShiftLeft(maxDouble, 52)))
  }

  function MaxMantissa(t: ScalarType): nat
    requires BuiltFloat(t)
  {
    if t.nanRepr.ExtendedRangeMaxMin? then Pow2(t.mantissa) - 1 - 1 else Pow2(t.mantissa) - 1
  }

  function MaxExponent(t: ScalarType): nat
    requires BuiltFloat(t)
  {
    if t.nanRepr.Ieee754? then Pow2(t.exponent) - 2 else Pow2(t.exponent) - 2 + 1
  }

  /** `_raw_min` of a float: the same bits with the sign bit set. */
  function FloatMinBits(t: ScalarType): Result<nat>
    requires BuiltFloat(t)
  {
    match FloatMaxBits(t)
    case AssertionError => AssertionError
    case Ok(bits) => Ok(BitOr(bits, ShiftLeft(1, 63)))
  }

  lemma ExponentRange(t: ScalarType)
    requires BuiltFloat(t) && t.exponent <= 11 && (t.nanRepr.Ieee754? || t.exponent < 11)
    ensures var d := MaxExponent(t) - Bias(t.exponent) + 1023;
            1023 <= d <= 2046
  {
    Pow2Monotone(t.exponent - 1, if t.nanRepr.Ieee754? then 10 else 9);
    assert Pow2(10) == 1024 && Pow2(9) == 512;
  }

  /** The bits of a double with the given fields. */
  ghost function DoubleBits(expField: nat, manField: nat, negative: bool): nat {
    Packed([manField, expField, BoolBit(negative)], [52, 11, 1], 3)
  }

  lemma DoubleFields(expField: nat, manField: nat, negative: bool)
    requires expField < 2048 && manField < Pow2(52)
    ensures var bits := DoubleBits(expField, manField, negative);
            && Field(bits, 0, 52) == manField && Field(bits, 52, 11) == expField
            && Field(bits, 63, 1) == BoolBit(negative)
  {
    hide Field, Pow2, Offset, BitOr, Packed;
    var m, w := [manField, expField, BoolBit(negative)], [52, 11, 1];
    DoubleLayout();
    PackedField(m, w, 3, 0);
    PackedField(m, w, 3, 1);
    PackedField(m, w, 3, 2);
    ModUnique(manField, Pow2(52), 0, manField);
  }

  /** Or-ing the shifted fields together builds exactly those bits. */
  lemma OrBuildsDouble(expField: nat, manField: nat)
    requires expField < 2048 && manField < Pow2(52)
    ensures BitOr(manField, ShiftLeft(expField, 52)) == DoubleBits(expField, manField, false)
    ensures BitOr(DoubleBits(expField, manField, false), ShiftLeft(1, 63)) == DoubleBits(expField, manField, true)
  {
    hide Pow2, Offset, BitOr, Packed;
    var w := [52, 11, 1];
    DoubleLayout();
    ModUnique(manField, Pow2(52), 0, manField);
    OrDisjoint(manField, expField, 52);
    var m, n := [manField, expField, BoolBit(false)], [manField, expField, BoolBit(true)];
    UnpackThree(m, w);
    UnpackThree(n, w);
    PackedBound(m, w, 2);
    OrDisjoint(Packed(m, w, 2), 1, 63);
  }

  lemma DoubleLayout()
    ensures Offset([52, 11, 1], 0) == 0 && Offset([52, 11, 1], 1) == 52 && Offset([52, 11, 1], 2) == 63
    ensures Pow2(11) == 2048 && Pow2(1) == 2 && Pow2(0) == 1
  {
    assert Offset([52, 11, 1], 2) == 63;
  }

  lemma UnpackThree(m: seq<int>, w: seq<nat>)
    requires |m| == |w| == 3
    ensures Packed(m, w, 2) == ShiftLeft(m[0] % Pow2(w[0]), Offset(w, 0)) + ShiftLeft(m[1] % Pow2(w[1]), Offset(w, 1))
    ensures Packed(m, w, 3) == Packed(m, w, 2) + ShiftLeft(m[2] % Pow2(w[2]), Offset(w, 2))
  {
    assert Packed(m, w, 1) == ShiftLeft(m[0] % Pow2(w[0]), Offset(w, 0));
  }

  lemma Exp2Succ(k: int)
    ensures Exp2(k) > 0.0 && Exp2(k + 1) == 2.0 * Exp2(k)
  {
    if k < -1 {
      assert Pow2(-k) == 2 * Pow2(-k - 1);
      Halve(Pow2(-k - 1) as real);
    }
  }

  lemma Halve(x: real)
    requires x > 0.0
    ensures 1.0 / x == 2.0 * (1.0 / (2.0 * x)) && 1.0 / (2.0 * x) > 0.0
  {
  }

  lemma {:induction false} Exp2Monotone(j: int, k: int)
    requires j <= k
    ensures 0.0 < Exp2(j) <= Exp2(k)
    decreases k - j
  {
    Exp2Succ(j);
    if j < k {
      Exp2Monotone(j + 1, k);
    }
  }

  /** A code lies below the next power of two, and at or above its own. */
  lemma MagnitudeRange(e: nat, m: nat, expField: nat, manField: nat)
    requires e > 0 && manField < Pow2(m)
    ensures 0.0 <= Magnitude(e, m, expField, manField)
    ensures expField == 0 ==> Magnitude(e, m, expField, manField) < Exp2(1 - Bias(e))
    ensures expField > 0 ==>
              Exp2(expField - Bias(e)) <= Magnitude(e, m, expField, manField) < Exp2(expField + 1 - Bias(e))
  {
    hide Exp2, Pow2, Bias, Magnitude;
    var k := (if expField == 0 then 1 else expField) - Bias(e);
    var f, x := manField as real / Pow2(m) as real, Exp2(k);
    MagnitudeIs(e, m, expField, manField, f, x);
    Exp2Succ(k);
    FractionRange(manField, Pow2(m));
    ScaleRange(f, x);
  }

  lemma MagnitudeIs(e: nat, m: nat, expField: nat, manField: nat, f: real, x: real)
    requires e > 0 && f == manField as real / Pow2(m) as real
    requires x == Exp2((if expField == 0 then 1 else expField) - Bias(e))
    ensures Magnitude(e, m, expField, manField) == if expField == 0 then f * x else (1.0 + f) * x
  {
    hide Exp2, Pow2, Bias;
  }

  lemma FractionRange(x: nat, p: nat)
    requires x < p
    ensures 0.0 <= x as real / p as real < 1.0
  {
  }

  lemma ScaleRange(f: real, x: real)
    requires 0.0 <= f < 1.0 && x > 0.0
    ensures 0.0 <= f * x < x && x <= (1.0 + f) * x < 2.0 * x
  {
    var y := f * x;
    assert y >= 0.0;
    assert (1.0 + f) * x == x + y;
    assert (1.0 - f) * x == x - y;
    assert (1.0 - f) * x > 0.0;
  }

  /** Exactly the formats whose numbers all have a place among the doubles get an answer: at
      most 52 mantissa bits, and a largest exponent that is not reserved in a double. */
  lemma MaxExistsIff(t: ScalarType)
    requires BuiltFloat(t)
    ensures FloatMaxBits(t).Ok? <==> t.mantissa <= 52 && t.exponent <= if t.nanRepr.Ieee754? then 11 else 10
    ensures FloatMinBits(t).Ok? <==> FloatMaxBits(t).Ok?
    ensures FloatMaxBits(t).Ok? <==> t.mantissa <= 52 && MaxExponent(t) - Bias(t.exponent) <= 1023
  {
    hide BitOr, ShiftLeft;
    if t.exponent <= 11 && (t.nanRepr.Ieee754? || t.exponent < 11) {
      ExponentRange(t);
    } else {
      Pow2Monotone(if t.nanRepr.Ieee754? then 11 else 10, t.exponent - 1);
      assert Pow2(10) == 1024 && Pow2(11) == 2048;
    }
  }

  /** Which types are built. */
  lemma BuiltIs(t: ScalarType)
    ensures BuiltFloat(t) <==>
            exists e: nat, m: nat ::
              0 < e && 0 < m &&
              (t == ScalarType(e, m, true, 0, false, Ieee754) || t == ScalarType(e, m, true, 0, true, None) ||
               t == ScalarType(e, m, true, 0, true, ExtendedRangeMaxMin))
  {
    if BuiltFloat(t) {
      var e: nat, m: nat := t.exponent, t.mantissa;
      assert t == ScalarType(e, m, true, 0, !t.nanRepr.Ieee754?, t.nanRepr);
      assert t.nanRepr == None || t.nanRepr == Ieee754 || t.nanRepr == ExtendedRangeMaxMin;
    }
  }

  /** The double `_floating_point_max_int` builds is finite and normal; its value is
      the format's top exponent with the top mantissa behind an implicit one. */
  lemma MaxBitsDecode(t: ScalarType)
    requires BuiltFloat(t) && t.mantissa <= 52 && t.exponent <= if t.nanRepr.Ieee754? then 11 else 10
    ensures FloatMaxBits(t).Ok? && FloatMinBits(t).Ok?
    ensures DecodeDouble(FloatMaxBits(t).value) == Finite(true, MaxValue(t))
    ensures DecodeDouble(FloatMinBits(t).value) == Finite(true, -MaxValue(t))
  {
    hide Pow2, Exp2, Field, BitOr, Packed;
    ExponentRange(t);
    var expField := MaxExponent(t) - Bias(t.exponent) + 1023;
    var manField := ShiftLeft(MaxMantissa(t), 52 - t.mantissa);
    MantissaShift(t.mantissa, MaxMantissa(t));
    OrBuildsDouble(expField, manField);
    DoubleFields(expField, manField, false);
    DoubleFields(expField, manField, true);
    DoubleBias();
    assert expField - Bias(11) == MaxExponent(t) - Bias(t.exponent);
  }

  lemma DoubleBias()
    ensures Bias(11) == 1023
  {
    assert Pow2(10) == 1024;
  }

  lemma MantissaShift(m: nat, x: nat)
    requires m <= 52 && x < Pow2(m)
    ensures ShiftLeft(x, 52 - m) < Pow2(52)
    ensures ShiftLeft(x, 52 - m) as real / Pow2(52) as real == x as real / Pow2(m) as real
  {
    Pow2Add(52 - m, m);
    hide Pow2;
    var p, q := Pow2(52 - m), Pow2(m);
    FieldFits(0, x, p, q);
    CommonFactor(x, p, q);
  }

  lemma CommonFactor(x: nat, p: nat, q: nat)
    requires p > 0 && q > 0
    ensures (x * p) as real / (p * q) as real == x as real / q as real
  {
    var a, b, c := x as real, p as real, q as real;
    var r := a / c;
    assert r * c == a;
    assert (x * p) as real == a * b && (p * q) as real == b * c;
    assert r * (b * c) == a * b by {
      assert r * (b * c) == (r * c) * b;
    }
  }

  /** The guard under which the returned double is right: an IEEE format needs at least
      two exponent bits, since with one bit all its numbers are subnormal. */
  predicate TopIsNormal(t: ScalarType) {
    !t.nanRepr.Ieee754? || t.exponent >= 2
  }

  /** The value of the double the code builds, as `MaxBitsDecode` shows. */
  ghost function MaxValue(t: ScalarType): real
    requires BuiltFloat(t)
  {
    (1.0 + MaxMantissa(t) as real / Pow2(t.mantissa) as real) * Exp2(MaxExponent(t) - Bias(t.exponent))
  }

  /** The double whose bits `_floating_point_max_int` returns is finite and normal, no
      finite code of the type exceeds it, and it is one of their values exactly when
      the type's largest code is normal.  `_raw_min` is its exact negation. */
  lemma MaxIsExact(t: ScalarType)
    requires BuiltFloat(t) && t.mantissa <= 52 && t.exponent <= if t.nanRepr.Ieee754? then 11 else 10
    ensures FloatMaxBits(t).Ok? && FloatMinBits(t).Ok?
    ensures DecodeDouble(FloatMaxBits(t).value) == Finite(true, MaxValue(t))
    ensures DecodeDouble(FloatMinBits(t).value) == Finite(true, -MaxValue(t))
    ensures forall e: nat, m: nat, s: bool :: FiniteCode(t, e, m) ==>
              -MaxValue(t) <= CodeValue(t, s, e, m) <= MaxValue(t)
    ensures TopIsNormal(t) <==>
            exists e: nat, m: nat :: FiniteCode(t, e, m) && CodeValue(t, false, e, m) == MaxValue(t)
  {
    MaxBitsDecode(t);
    var v := MaxValue(t);
    hide MaxValue, Magnitude, Pow2, Exp2, DecodeDouble, FloatMaxBits, FloatMinBits;
    forall e: nat, m: nat, s: bool | FiniteCode(t, e, m)
      ensures -v <= CodeValue(t, s, e, m) <= v
      ensures CodeValue(t, false, e, m) == v ==> TopIsNormal(t)
    {
      CodeBelowMax(t, e, m);
    }
    if TopIsNormal(t) {
      MaxCode(t);
      assert FiniteCode(t, MaxExponent(t), MaxMantissa(t)) && CodeValue(t, false, MaxExponent(t), MaxMantissa(t)) == v;
    }
  }

  /** The largest code itself. */
  lemma MaxCode(t: ScalarType)
    requires BuiltFloat(t) && TopIsNormal(t)
    ensures FiniteCode(t, MaxExponent(t), MaxMantissa(t))
    ensures CodeValue(t, false, MaxExponent(t), MaxMantissa(t)) == MaxValue(t)
  {
    hide Exp2;
    Pow2Monotone(1, t.exponent);
    if t.nanRepr.Ieee754? {
      Pow2Monotone(2, t.exponent);
    }
  }

  lemma CodeBelowMax(t: ScalarType, e: nat, m: nat)
    requires BuiltFloat(t) && FiniteCode(t, e, m)
    ensures 0.0 <= Magnitude(t.exponent, t.mantissa, e, m) <= MaxValue(t)
    ensures !TopIsNormal(t) ==> Magnitude(t.exponent, t.mantissa, e, m) < MaxValue(t)
  {
    MagnitudeRange(t.exponent, t.mantissa, e, m);
    if !TopIsNormal(t) {
      AllSubnormal(t, e, m);
    } else {
      hide Exp2, Magnitude, MaxValue;
      MaxCode(t);
      var b, top := Bias(t.exponent), MaxExponent(t);
      if e == top {
        LargerMantissa(t, m);
      } else {
        MagnitudeRange(t.exponent, t.mantissa, top, MaxMantissa(t));
        Exp2Monotone(e + 1 - b, top - b);
      }
    }
  }

  lemma AllSubnormal(t: ScalarType, e: nat, m: nat)
    requires BuiltFloat(t) && FiniteCode(t, e, m) && !TopIsNormal(t)
    ensures Magnitude(t.exponent, t.mantissa, e, m) < MaxValue(t)
  {
    assert Pow2(t.exponent) == 2 && Pow2(t.exponent - 1) == 1;
    assert Exp2(1) == 2.0 && Exp2(0) == 1.0;
    SubnormalBelow(m, Pow2(t.mantissa));
  }

  lemma SubnormalBelow(x: nat, p: nat)
    requires x < p
    ensures (x as real / p as real) * 2.0 < 1.0 + (p - 1) as real / p as real
  {
    DivideMonotone(x, p - 1, p);
    FractionRange(p - 1, p);
  }

  lemma DivideMonotone(x: nat, y: nat, p: nat)
    requires x <= y && p > 0
    ensures x as real / p as real <= y as real / p as real
  {
  }

  lemma LargerMantissa(t: ScalarType, m: nat)
    requires BuiltFloat(t) && TopIsNormal(t) && FiniteCode(t, MaxExponent(t), m)
    ensures Magnitude(t.exponent, t.mantissa, MaxExponent(t), m) <= MaxValue(t)
  {
    Pow2Monotone(if t.nanRepr.Ieee754? then 2 else 1, t.exponent);
    var k := MaxExponent(t) - Bias(t.exponent);
    Exp2Succ(k);
    DivideMonotone(m, MaxMantissa(t), Pow2(t.mantissa));
    hide Pow2, Exp2;
    OrderedScale(m as real / Pow2(t.mantissa) as real, MaxMantissa(t) as real / Pow2(t.mantissa) as real, Exp2(k));
  }

  lemma OrderedScale(f: real, g: real, x: real)
    requires f <= g && x > 0.0
    ensures (1.0 + f) * x <= (1.0 + g) * x
  {
    assert (g - f) * x >= 0.0;
  }

  // ----- integer types

  /** The integer types the constructors `int_` and `uint` build. */
  predicate BuiltInteger(t: ScalarType) {
    t.exponent == 0 && t.mantissa >= 0 && t.SizeBits() > 0
  }

  /** `max` and `min` of an integer type, the bias included. */
  function IntegerMax(t: ScalarType): Result<int>
    requires BuiltInteger(t)
  {
    if !(t.SizeBits() < 64 || (t.SizeBits() == 64 && t.signed)) then AssertionError
    else Ok(ShiftLeft(1, t.mantissa) - 1 - t.bias)
  }

  function IntegerMin(t: ScalarType): Result<int>
    requires BuiltInteger(t)
  {
    if t.signed && t.SizeBits() > 64 then AssertionError
    else Ok((if t.signed then 0 - ShiftLeft(1, t.SizeBits() - 1) else 0) - t.bias)
  }

  /** The value of a stored bit pattern: two's complement when signed, less the bias. */
  function StoredValue(t: ScalarType, code: nat): int
    requires BuiltInteger(t)
  {
    (if t.signed && code >= Pow2(t.mantissa) then code - Pow2(t.mantissa + 1) else code) - t.bias
  }

  /** `min` and `max` are the least and the greatest value of the stored bit patterns. */
  lemma IntegerRange(t: ScalarType)
    requires BuiltInteger(t)
    // each exists exactly when it fits 64 bits
    ensures IntegerMax(t).Ok? <==> t.mantissa <= 63
    ensures IntegerMin(t).Ok? <==> !t.signed || t.mantissa <= 63
    ensures IntegerMax(t).Ok? ==>
              && (forall code: nat :: code < Pow2(t.SizeBits()) ==> StoredValue(t, code) <= IntegerMax(t).value)
              && exists code: nat :: code < Pow2(t.SizeBits()) && StoredValue(t, code) == IntegerMax(t).value
    ensures IntegerMin(t).Ok? ==>
              && (forall code: nat :: code < Pow2(t.SizeBits()) ==> IntegerMin(t).value <= StoredValue(t, code))
              && exists code: nat :: code < Pow2(t.SizeBits()) && StoredValue(t, code) == IntegerMin(t).value
  {
    var low: nat := if t.signed then Pow2(t.mantissa) else 0;
    if IntegerMax(t).Ok? {
      assert StoredValue(t, Pow2(t.mantissa) - 1) == IntegerMax(t).value;
    }
    if IntegerMin(t).Ok? {
      assert StoredValue(t, low) == IntegerMin(t).value;
    }
  }
}
