/** OLE Automation VARIANTs as the library reads them, the Go values it
    decodes them into (VARIANT.Value), and their text form (String). */
module Variants {
  import opened Wrappers
  import opened GoStrings

  /** A VARTYPE tag (VARENUM code), a uint16. */
  type Tag = t: int | 0 <= t < 0x1_0000

  /** A byte, Go's uint8. */
  type Byte = b: int | 0 <= b < 256

  /** The 8-byte Val slot of a VARIANT, least significant byte first. */
  type Word = s: seq<Byte> | |s| == 8 witness [0, 0, 0, 0, 0, 0, 0, 0]

  /** A VARIANT read from a property: its tag, its payload and, for tag 8,
      the text its string pointer refers to, already decoded from UTF-16. */
  datatype Variant = Variant(vt: Tag, val: Word, bstr: string)

  /** The Go values (interface{}) the helpers pass around. FloatOrDate stands
      for a float32 (tag 4), a float64 (tag 5) or a formatted date (tag 7); it
      keeps the tag, the payload and the text String renders it as. A Func is
      a function value with its Go signature, "()" for a func(). */
  datatype Any =
    | Str(s: string)
    | Int(n: int)
    | I8(n: int) | I16(n: int) | I32(n: int) | I64(n: int)
    | U8(n: int) | U16(n: int) | U32(n: int) | U64(n: int)
    | Bool(b: bool)
    | FloatOrDate(tag: Tag, payload: Word, text: string)
    | Utf16Ptr(target: string)
    | Passthrough(va: Variant)
    | Nil
    | Func(name: string, signature: string)
    | GoMap(entries: map<string, Any>)
    | OptionMap(entries: map<string, Any>)

  /** The renderer for the floating-point and date tags: strconv.FormatFloat
      for tags 4 and 5, time.Unix(...).Format for tag 7. */
  type RealFormatter = (Tag, Word) -> string

  /** The tags Value decodes; every other tag passes through. */
  const DECODED_TAGS: set<int> := {0, 1, 2, 3, 4, 5, 7, 8, 9, 10, 11, 16, 17, 18, 19, 20, 21}

  // ---------------------------------------------------------------------
  // Little-endian integers

  function Pow256(k: nat): (p: int)
    ensures p >= 1
  {
    if k == 0 then 1 else 256 * Pow256(k - 1)
  }

  /** Half the range of a k-byte integer: the bound of its signed form. */
  function Half(k: nat): (h: int)
    requires k >= 1
    ensures h >= 1
  {
    128 * Pow256(k - 1)
  }

  /** bytes read as an unsigned little-endian integer. */
  function Unsigned(bytes: seq<Byte>): (u: nat)
    ensures u < Pow256(|bytes|)
  {
    if |bytes| == 0 then 0 else bytes[0] + 256 * Unsigned(bytes[1..])
  }

  /** bytes read as a two's-complement little-endian integer. */
  function Signed(bytes: seq<Byte>): (i: int)
    requires |bytes| >= 1
    ensures -Half(|bytes|) <= i < Half(|bytes|)
  {
    var u := Unsigned(bytes);
    if u >= Half(|bytes|) then u - Pow256(|bytes|) else u
  }

  /** The k low bytes of n in two's complement, least significant first. */
  function Encode(n: int, k: nat): (r: seq<Byte>)
    ensures |r| == k
    decreases k
  {
    if k == 0 then [] else [n % 256] + Encode(n / 256, k - 1)
  }

  lemma DivModUnique(n: int, m: int, q: int, r: int)
    requires m > 0 && 0 <= r < m && n == m * q + r
    ensures n % m == r && n / m == q
  {
    var q0, r0 := n / m, n % m;
    var d := q - q0;
    assert m * d == r0 - r by {
      assert m * q0 + r0 == n;
      assert m * q - m * q0 == m * d;
    }
    if d > 0 {
      MulAtLeast(m, d);
    } else if d < 0 {
      MulAtLeast(m, -d);
    }
  }

  lemma MulAtLeast(m: int, d: int)
    requires m > 0 && d >= 1
    ensures m * d >= m
  {
    assert m * d == m * (d - 1) + m;
  }

  lemma {:induction false} UnsignedEncode(n: int, k: nat)
    ensures Unsigned(Encode(n, k)) == n % Pow256(k)
    decreases k
  {
    if k > 0 {
      UnsignedEncode(n / 256, k - 1);
      EncodeUnfold(n, k);
      ModStep(n, Pow256(k - 1));
    }
  }

  /** The first byte of Encode(n, k) is n's lowest; the rest encode n / 256. */
  lemma EncodeUnfold(n: int, k: nat)
    requires k > 0
    ensures Unsigned(Encode(n, k)) == n % 256 + 256 * Unsigned(Encode(n / 256, k - 1))
  {
    var e := Encode(n, k);
    assert e[1..] == Encode(n / 256, k - 1);
  }

  /** Reducing n modulo 256 * p keeps its lowest byte and reduces the rest
      modulo p. */
  lemma ModStep(n: int, p: int)
    requires p >= 1
    ensures n % (256 * p) == n % 256 + 256 * ((n / 256) % p)
  {
    var q, r := n / 256, n % 256;
    var a, b := q / p, q % p;
    assert q == p * (q / p) + q % p && 0 <= q % p < p;
    assert n == 256 * (n / 256) + n % 256 && 0 <= n % 256 < 256;
    Regroup(n, p, q, r, a, b);
    DivModUnique(n, 256 * p, a, 256 * b + r);
  }

  lemma Regroup(n: int, p: int, q: int, r: int, a: int, b: int)
    requires p >= 1 && 0 <= r < 256 && 0 <= b < p
    requires n == 256 * q + r && q == p * a + b
    ensures n == (256 * p) * a + (256 * b + r)
    ensures 0 <= 256 * b + r < 256 * p
  {
    assert 256 * q == 256 * (p * a) + 256 * b;
    assert 256 * (p * a) == (256 * p) * a;
    assert 256 * b <= 256 * (p - 1);
  }

  /** Encoding an integer of a k-byte signed type and reading it back as
      signed gives it back. */
  lemma SignedRoundTrip(n: int, k: nat)
    requires k >= 1 && -Half(k) <= n < Half(k)
    ensures Signed(Encode(n, k)) == n
  {
    UnsignedEncode(n, k);
    assert Pow256(k) == 2 * Half(k);
    if n >= 0 {
      DivModUnique(n, Pow256(k), 0, n);
    } else {
      DivModUnique(n, Pow256(k), -1, n + Pow256(k));
    }
  }

  /** Encoding an integer of a k-byte unsigned type and reading it back as
      unsigned gives it back. */
  lemma UnsignedRoundTrip(n: int, k: nat)
    requires 0 <= n < Pow256(k)
    ensures Unsigned(Encode(n, k)) == n
  {
    UnsignedEncode(n, k);
    DivModUnique(n, Pow256(k), 0, n);
  }

  // ---------------------------------------------------------------------
  // VARIANT.Value

  /** Integer results lie in the range of the Go type they stand for. */
  predicate WellTyped(v: Any) {
    match v
    case Int(n) => -0x8000_0000_0000_0000 <= n < 0x8000_0000_0000_0000
    case I8(n) => -0x80 <= n < 0x80
    case I16(n) => -0x8000 <= n < 0x8000
    case I32(n) => -0x8000_0000 <= n < 0x8000_0000
    case I64(n) => -0x8000_0000_0000_0000 <= n < 0x8000_0000_0000_0000
    case U8(n) => 0 <= n < 0x100
    case U16(n) => 0 <= n < 0x1_0000
    case U32(n) => 0 <= n < 0x1_0000_0000
    case U64(n) => 0 <= n < 0x1_0000_0000_0000_0000
    case _ => true
  }

  /** VARIANT.Value: decode a VARIANT by its tag. Tags 0 and 1 give "",
      tag 10 gives "#VT_ERROR", the integer tags read the low bytes of the
      payload, tag 9 and every tag outside DECODED_TAGS give the VARIANT
      back unchanged. */
  function Value(va: Variant, formatReal: RealFormatter): (v: Any)
    ensures va.vt == 0 || va.vt == 1 ==> v == Str("")
    ensures va.vt == 10 ==> v == Str("#VT_ERROR")
    ensures v.Passthrough? <==> va.vt == 9 || va.vt !in DECODED_TAGS
    ensures v.Passthrough? ==> v.va == va
    ensures WellTyped(v)
  {
    var w := va.val;
    assert Pow256(1) == 0x100 && Pow256(2) == 0x1_0000;
    assert Pow256(4) == 0x1_0000_0000 && Pow256(8) == 0x1_0000_0000_0000_0000;
    match va.vt
    case 0 | 1 => Str("")
    case 2 => I16(Signed(w[..2]))
    case 3 => I32(Signed(w[..4]))
    case 4 | 5 | 7 => FloatOrDate(va.vt, w, formatReal(va.vt, w))
    case 8 => Str(va.bstr)
    case 9 => Passthrough(va)
    case 10 => Str("#VT_ERROR")
    case 11 => Bool(w[0] != 0)
    case 16 => I8(Signed(w[..1]))
    case 17 => U8(Unsigned(w[..1]))
    case 18 => U16(Unsigned(w[..2]))
    case 19 => U32(Unsigned(w[..4]))
    case 20 => I64(Signed(w))
    case 21 => U64(Unsigned(w))
    case _ => Passthrough(va)
  }

  predicate IsIntegerTag(vt: Tag) {
    vt in {2, 3, 16, 17, 18, 19, 20, 21}
  }

  /** The number of payload bytes an integer tag reads. */
  function Width(vt: Tag): nat
    requires IsIntegerTag(vt)
  {
    match vt
    case 16 | 17 => 1
    case 2 | 18 => 2
    case 3 | 19 => 4
    case _ => 8
  }

  predicate IsSignedTag(vt: Tag) {
    vt in {2, 3, 16, 20}
  }

  /** The values of the Go type an integer tag decodes to. */
  predicate FitsTag(vt: Tag, n: int)
    requires IsIntegerTag(vt)
  {
    if IsSignedTag(vt) then -Half(Width(vt)) <= n < Half(Width(vt))
    else 0 <= n < Pow256(Width(vt))
  }

  /** The Go value of an integer tag's type holding n. */
  function IntegerOf(vt: Tag, n: int): Any
    requires IsIntegerTag(vt)
  {
    match vt
    case 2 => I16(n)
    case 3 => I32(n)
    case 16 => I8(n)
    case 17 => U8(n)
    case 18 => U16(n)
    case 19 => U32(n)
    case 20 => I64(n)
    case _ => U64(n)
  }

  /** Round trip for the integer tags: a value of the tag's type, encoded
      into the low bytes of the payload, decodes to itself whatever the
      higher payload bytes hold. */
  lemma IntegerTagRoundTrip(vt: Tag, n: int, high: seq<Byte>, bstr: string, formatReal: RealFormatter)
    requires IsIntegerTag(vt) && FitsTag(vt, n)
    requires |high| == 8 - Width(vt)
    ensures Value(Variant(vt, Encode(n, Width(vt)) + high, bstr), formatReal) == IntegerOf(vt, n)
  {
    var k := Width(vt);
    var w := Encode(n, k) + high;
    assert w[..k] == Encode(n, k);
    if vt == 20 || vt == 21 {
      assert w == Encode(n, k);
    }
    if IsSignedTag(vt) {
      SignedRoundTrip(n, k);
    } else {
      UnsignedRoundTrip(n, k);
    }
  }

  // ---------------------------------------------------------------------
  // String

  predicate IsInteger(v: Any) {
    v.Int? || v.I8? || v.I16? || v.I32? || v.I64? || v.U8? || v.U16? || v.U32? || v.U64?
  }

  /** The kinds String has no case for. */
  predicate Unsupported(v: Any) {
    v.Passthrough? || v.Nil? || v.Func? || v.GoMap? || v.OptionMap?
  }

  /** String: integers in base 10, booleans as "true"/"false", strings
      unchanged, floats and dates as their formatted text, and "" for every
      kind without a case. */
  function String(v: Any): (r: string)
    ensures v.Str? ==> r == v.s
    ensures v.Bool? ==> (r == "true" <==> v.b) && (r == "false" <==> !v.b)
    ensures Unsupported(v) ==> r == ""
  {
    match v
    case Int(n) => Decimal(n)
    case I8(n) => Decimal(n)
    case I16(n) => Decimal(n)
    case I32(n) => Decimal(n)
    case I64(n) => Decimal(n)
    case U8(n) => Decimal(n)
    case U16(n) => Decimal(n)
    case U32(n) => Decimal(n)
    case U64(n) => Decimal(n)
    case FloatOrDate(_, _, text) => text
    case Utf16Ptr(target) => target
    case Bool(b) => if b then "true" else "false"
    case Str(s) => s
    case _ => ""
  }

  /** Every integer kind renders as the canonical base-10 numeral of its
      value, with '-' only for negatives. */
  lemma StringOfInteger(v: Any)
    requires IsInteger(v)
    ensures IsDecimal(String(v)) && ParseDecimal(String(v)) == v.n
    ensures String(v)[0] == '-' <==> v.n < 0
  {
    DecimalRoundTrip(v.n);
  }

  /** Decoding an integer tag and rendering it gives the decimal numeral of
      the integer that was encoded into the payload. */
  lemma DecodedIntegerText(vt: Tag, n: int, high: seq<Byte>, bstr: string, formatReal: RealFormatter)
    requires IsIntegerTag(vt) && FitsTag(vt, n)
    requires |high| == 8 - Width(vt)
    ensures var r := String(Value(Variant(vt, Encode(n, Width(vt)) + high, bstr), formatReal));
            IsDecimal(r) && ParseDecimal(r) == n
  {
    IntegerTagRoundTrip(vt, n, high, bstr, formatReal);
    DecimalRoundTrip(n);
  }

  // ---------------------------------------------------------------------
  // Go's dynamic typing, as far as the helpers depend on it

  /** The type name Go prints for v's dynamic type. */
  function TypeName(v: Any): string {
    match v
    case Str(_) => "string"
    case Int(_) => "int"
    case I8(_) => "int8"
    case I16(_) => "int16"
    case I32(_) => "int32"
    case I64(_) => "int64"
    case U8(_) => "uint8"
    case U16(_) => "uint16"
    case U32(_) => "uint32"
    case U64(_) => "uint64"
    case Bool(_) => "bool"
    case FloatOrDate(tag, _, _) => if tag == 4 then "float32" else if tag == 5 then "float64" else "string"
    case Utf16Ptr(_) => "*uint16"
    case Passthrough(_) => "excel.VARIANT"
    case Nil => "nil"
    case Func(_, signature) => "func" + signature
    case GoMap(_) => "map[string]interface {}"
    case OptionMap(_) => "excel.Option"
  }

  /** The type assertion v.(string): the string v holds, if its dynamic
      type is string (a decoded date is one). */
  function AsGoString(v: Any): (r: Option<string>)
    ensures r.Some? <==> v.Str? || (v.FloatOrDate? && v.tag != 4 && v.tag != 5)
  {
    match v
    case Str(s) => Some(s)
    case FloatOrDate(tag, _, text) => if tag != 4 && tag != 5 then Some(text) else None
    case _ => None
  }

  /** The assertion succeeds exactly on the values whose dynamic type Go
      names "string". */
  lemma AsGoStringByType(v: Any)
    ensures AsGoString(v).Some? <==> TypeName(v) == "string"
  {
    if v.Func? {
      assert TypeName(v)[0] == 'f';
    }
  }

  /** The text of the panic a failed v.(string) raises. */
  function NotStringPanic(v: Any): string {
    "interface conversion: interface {} is " + TypeName(v) + ", not string"
  }

  /** Go's a != b on two interface values: values of different dynamic
      types differ, values of one comparable type compare by value (floats
      as IEEE 754 numbers), and comparing two maps or two funcs of one type
      panics. */
  function GoEqual(a: Any, b: Any): (r: Result<bool, string>)
    ensures r.Failure? <==> TypeName(a) == TypeName(b) && (a.GoMap? || a.OptionMap? || a.Func?)
    ensures r.Success? && r.value ==> TypeName(a) == TypeName(b)
  {
    if TypeName(a) != TypeName(b) then Success(false)
    else if a.GoMap? || a.OptionMap? || a.Func? then
      Failure("runtime error: comparing uncomparable type " + TypeName(a))
    else if TypeName(a) == "string" then Success(AsGoString(a) == AsGoString(b))
    else if a.FloatOrDate? && b.FloatOrDate? then Success(FloatEqual(a.tag, a.payload, b.payload))
    else Success(a == b)
  }

  /** A comparable value other than a NaN equals itself. */
  lemma GoEqualReflexive(v: Any)
    requires GoEqual(v, v).Success? && !IsNaNFloat(v)
    ensures GoEqual(v, v).value
  {
    if v.FloatOrDate? && TypeName(v) != "string" {
      assert v.tag == 4 || v.tag == 5;
    }
  }

  /** v equals itself under Go's ==, as SetOption's comparison needs for an
      option it has recorded to count as unchanged. */
  predicate SelfEqual(v: Any) {
    GoEqual(v, v) == Success(true)
  }

  /** Exactly the maps, the funcs and the NaNs are not equal to themselves. */
  lemma SelfEqualExactly(v: Any)
    ensures SelfEqual(v) <==> !v.GoMap? && !v.OptionMap? && !v.Func? && !IsNaNFloat(v)
  {
    if v.FloatOrDate? && TypeName(v) != "string" {
      assert v.tag == 4 || v.tag == 5;
    }
  }

  // ---------------------------------------------------------------------
  // Floats under Go's ==

  /** The IEEE 754 bits of the float32 (tag 4) or float64 (tag 5) in a
      payload: its 4 or 8 low bytes. */
  function FloatBits(tag: Tag, payload: Word): nat {
    if tag == 4 then Unsigned(payload[..4]) else Unsigned(payload)
  }

  /** 2 to the width of the fraction field: 23 bits, or 52 for float64. */
  function FractionSpan(tag: Tag): nat {
    if tag == 4 then 0x80_0000 else 0x10_0000_0000_0000
  }

  /** 2 to the width of the exponent field: 8 bits, or 11 for float64. */
  function ExponentSpan(tag: Tag): nat {
    if tag == 4 then 0x100 else 0x800
  }

  /** A NaN: the exponent field all ones and a non-zero fraction. */
  predicate IsNaN(tag: Tag, bits: nat) {
    (bits / FractionSpan(tag)) % ExponentSpan(tag) == ExponentSpan(tag) - 1 && bits % FractionSpan(tag) != 0
  }

  /** A zero of either sign: every bit below the sign bit is clear. */
  predicate IsZero(tag: Tag, bits: nat) {
    bits % (FractionSpan(tag) * ExponentSpan(tag)) == 0
  }

  /** A float32 or float64 holding a NaN. */
  predicate IsNaNFloat(v: Any) {
    v.FloatOrDate? && (v.tag == 4 || v.tag == 5) && IsNaN(v.tag, FloatBits(v.tag, v.payload))
  }

  /** Go's == on two floats of one type, IEEE 754 equality: a NaN equals
      nothing, +0 equals -0, and any other two values are equal exactly
      when their bits are. */
  predicate FloatEqual(tag: Tag, p: Word, q: Word) {
    var a, b := FloatBits(tag, p), FloatBits(tag, q);
    !IsNaN(tag, a) && !IsNaN(tag, b) && (a == b || (IsZero(tag, a) && IsZero(tag, b)))
  }

  /** A float NaN is not equal to itself, so it always counts as changed. */
  lemma NaNNotEqual(tag: Tag, p: Word, text: string)
    requires (tag == 4 || tag == 5) && IsNaN(tag, FloatBits(tag, p))
    ensures GoEqual(FloatOrDate(tag, p, text), FloatOrDate(tag, p, text)) == Success(false)
  {
  }

  /** The quiet NaN 0x7FF8000000000000 as a float64 payload is a NaN. */
  lemma QuietNaN()
    ensures IsNaNFloat(FloatOrDate(5, [0, 0, 0, 0, 0, 0, 0xF8, 0x7F], "NaN"))
  {
    QuietNaNBits();
    assert IsNaN(5, 0x7FF8_0000_0000_0000);
  }

  lemma QuietNaNBits()
    ensures FloatBits(5, [0, 0, 0, 0, 0, 0, 0xF8, 0x7F]) == 0x7FF8_0000_0000_0000
  {
  }

  /** +0 and -0 are equal floats, although their bits and texts differ. */
  lemma SignedZerosEqual(tag: Tag, p: Word, q: Word, t1: string, t2: string)
    requires (tag == 4 || tag == 5) && IsZero(tag, FloatBits(tag, p)) && IsZero(tag, FloatBits(tag, q))
    ensures GoEqual(FloatOrDate(tag, p, t1), FloatOrDate(tag, q, t2)) == Success(true)
  {
    ZeroIsNotNaN(tag, FloatBits(tag, p));
    ZeroIsNotNaN(tag, FloatBits(tag, q));
  }

  lemma ZeroIsNotNaN(tag: Tag, bits: nat)
    requires IsZero(tag, bits)
    ensures !IsNaN(tag, bits)
  {
    var f, e := FractionSpan(tag), ExponentSpan(tag);
    var k := bits / (f * e);
    assert bits == (f * e) * k;
    assert bits == f * (e * k);
    assert bits / f == e * k && bits % f == 0;
  }

  /** The float64 -0, the sign bit alone, is a zero. */
  lemma NegativeZero()
    ensures IsZero(5, FloatBits(5, [0, 0, 0, 0, 0, 0, 0, 0x80]))
  {
    NegativeZeroBits();
    assert IsZero(5, 0x8000_0000_0000_0000);
  }

  lemma NegativeZeroBits()
    ensures FloatBits(5, [0, 0, 0, 0, 0, 0, 0, 0x80]) == 0x8000_0000_0000_0000
  {
  }

  /** A float32 is read from the 4 low payload bytes only: payloads that
      agree there hold equal floats unless they hold a NaN. */
  lemma Float32HighBytesIgnored(p: Word, q: Word, t1: string, t2: string)
    requires p[..4] == q[..4] && !IsNaN(4, FloatBits(4, p))
    ensures GoEqual(FloatOrDate(4, p, t1), FloatOrDate(4, q, t2)) == Success(true)
  {
  }
}
