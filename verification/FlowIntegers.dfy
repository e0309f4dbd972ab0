/** How the Flow bridge carries integers and enums in a 64-bit payload
    (bridge/flow/cmm_flow.cpp), and how a thunk reads the value that re-enters
    (include/cmm/detail/invocation/thunk.hpp).  Objects are held as little-endian,
    two's complement bytes. */
module FlowIntegers {
  import opened Core

  type Payload = n: nat | n < 0x1_0000_0000_0000_0000

  /** The ten types decode_value has a branch for; Other is every further integral
      type that kind_of accepts (plain char, wchar_t, ...). */
  datatype Integral =
    | SignedChar | UnsignedChar | Short | UnsignedShort | Int | UnsignedInt
    | Long | UnsignedLong | LongLong | UnsignedLongLong
    | Other(width: Width, isSigned: bool)
  {
    /** long has four or eight bytes, by platform. */
    function Bytes(longWidth: Width): Width {
      match this
      case SignedChar | UnsignedChar => W1
      case Short | UnsignedShort => W2
      case Int | UnsignedInt => W4
      case Long | UnsignedLong => longWidth
      case LongLong | UnsignedLongLong => W8
      case Other(w, _) => w
    }

    predicate Signed() {
      SignedChar? || Short? || Int? || Long? || LongLong? || (Other? && isSigned)
    }
  }

  datatype Width = W1 | W2 | W4 | W8
  {
    function Size(): nat {
      match this
      case W1 => 1
      case W2 => 2
      case W4 => 4
      case W8 => 8
    }

    /** 256 to the power Size(). */
    function Span(): nat {
      match this
      case W1 => 0x100
      case W2 => 0x1_0000
      case W4 => 0x1_0000_0000
      case W8 => 0x1_0000_0000_0000_0000
    }
  }

  datatype Type = Plain(underlying: Integral) | Enumeration(underlying: Integral)

  /** A cmm::Value: its type id and the bytes of its object. */
  datatype Value = Value(type_: Type, data: seq<Byte>)

  datatype Kind = I8 | U8 | I16 | U16 | I32 | U32 | I64 | U64

  datatype FlowValue = FlowValue(kind: Kind, bits: Payload)

  datatype Result<T> = Ok(value: T) | Err(error: Error)

  // ----- Object representation -----

  function Power(size: nat): nat {
    if size == 0 then 1 else 256 * Power(size - 1)
  }

  lemma AtLeastOne(d: int, k: int)
    requires d >= 0 && k >= 1
    ensures d * k >= d
  {
    assert d * k == d + d * (k - 1);
  }

  /** Quotient and remainder are unique. */
  lemma ModIs(v: int, d: int, q: int, r: int)
    requires v == d * q + r && 0 <= r < d
    ensures v % d == r
  {
    var k := v / d;
    assert v == d * k + v % d;
    assert d * (q - k) == v % d - r;
    assert d * (k - q) == r - v % d;
    if q > k {
      AtLeastOne(d, q - k);
    } else if q < k {
      AtLeastOne(d, k - q);
    }
  }

  lemma {:induction false} PowerPositive(size: nat)
    ensures Power(size) >= 1
  {
    if size > 0 {
      PowerPositive(size - 1);
    }
  }

  lemma SplitMod(v: int, m: int)
    requires m >= 1
    ensures v % (256 * m) == v % 256 + 256 * ((v / 256) % m)
  {
    var q := v / 256;
    assert q == m * (q / m) + q % m;
    assert v == 256 * (m * (q / m) + q % m) + v % 256;
    assert 256 * (m * (q / m)) == (256 * m) * (q / m);
    ModIs(v, 256 * m, q / m, v % 256 + 256 * (q % m));
  }

  /** The bytes of v, read back as an unsigned number, are v modulo 256^size. */
  lemma {:induction false} StoredBits(v: int, size: nat)
    ensures |LittleEndian(v, size)| == size
    ensures Power(size) >= 1 && Unsigned(LittleEndian(v, size)) == v % Power(size)
    decreases size
  {
    PowerPositive(size);
    if size > 0 {
      StoredBits(v / 256, size - 1);
      SplitMod(v, Power(size - 1));
      assert LittleEndian(v, size)[1..] == LittleEndian(v / 256, size - 1);
    }
  }

  lemma SpanIsPower(w: Width)
    ensures w.Span() == Power(w.Size())
  {
    assert Power(1) == 0x100;
    assert Power(2) == 0x1_0000;
    assert Power(3) == 0x100_0000;
    assert Power(4) == 0x1_0000_0000;
    assert Power(5) == 0x100_0000_0000;
    assert Power(6) == 0x1_0000_0000_0000;
    assert Power(7) == 0x100_0000_0000_0000;
    assert Power(8) == 0x1_0000_0000_0000_0000;
  }

  // ----- C++ integer values -----

  predicate Fits(isSigned: bool, span: int, v: int) {
    if isSigned then -(span / 2) <= v < span / 2 else 0 <= v < span
  }

  function Wrap(isSigned: bool, span: int, x: int): int
    requires span > 0
  {
    var low := x % span;
    if isSigned && low >= span / 2 then low - span else low
  }

  predicate InRange(t: Integral, longWidth: Width, v: int) {
    Fits(t.Signed(), t.Bytes(longWidth).Span(), v)
  }

  /** static_cast to t: the value of t congruent to x. */
  function Cast(t: Integral, longWidth: Width, x: int): int {
    Wrap(t.Signed(), t.Bytes(longWidth).Span(), x)
  }

  /** Reading an object of type t. */
  function Load(t: Integral, longWidth: Width, data: seq<Byte>): int {
    Cast(t, longWidth, Unsigned(data))
  }

  lemma WrapCongruent(isSigned: bool, span: int, x: int)
    requires span > 0 && span % 2 == 0
    ensures Fits(isSigned, span, Wrap(isSigned, span, x))
    ensures Wrap(isSigned, span, x) % span == x % span
    ensures (x - Wrap(isSigned, span, x)) % span == 0
  {
    var v := Wrap(isSigned, span, x);
    var k := if v < 0 then x / span + 1 else x / span;
    assert x == span * (x / span) + x % span;
    assert span * k == (if v < 0 then span * (x / span) + span else span * (x / span));
    ModIs(x - v, span, k, 0);
    ModIs(v, span, if v < 0 then -1 else 0, x % span);
  }

  /** Two numbers in range with the same low bits are equal. */
  lemma FitsOnce(isSigned: bool, span: int, v: int)
    requires span > 0 && span % 2 == 0 && Fits(isSigned, span, v)
    ensures v % span == (if v < 0 then v + span else v)
    ensures Wrap(isSigned, span, v) == v
  {
    ModIs(v, span, if v < 0 then -1 else 0, if v < 0 then v + span else v);
  }

  lemma CongruentLow(span: int, x: int, v: int)
    requires span > 0 && (x - v) % span == 0
    ensures v % span == x % span
  {
    var k := (x - v) / span;
    assert x - v == span * k;
    assert x == span * (x / span) + x % span;
    assert span * (x / span - k) == span * (x / span) - span * k;
    ModIs(v, span, x / span - k, x % span);
  }

  /** Cast keeps the low bits and stays in range; it is the only such value. */
  lemma CastIsTheValue(t: Integral, longWidth: Width, x: int, v: int)
    ensures InRange(t, longWidth, Cast(t, longWidth, x))
    ensures (x - Cast(t, longWidth, x)) % t.Bytes(longWidth).Span() == 0
    ensures InRange(t, longWidth, v) && (x - v) % t.Bytes(longWidth).Span() == 0 ==> v == Cast(t, longWidth, x)
  {
    var span := t.Bytes(longWidth).Span();
    WrapCongruent(t.Signed(), span, x);
    if InRange(t, longWidth, v) && (x - v) % span == 0 {
      CongruentLow(span, x, v);
      FitsOnce(t.Signed(), span, v);
    }
  }

  lemma CastOfStored(t: Integral, longWidth: Width, v: int)
    ensures Cast(t, longWidth, v % t.Bytes(longWidth).Span()) == Cast(t, longWidth, v)
  {
    var span := t.Bytes(longWidth).Span();
    ModIs(v % span, span, 0, v % span);
  }

  /** How often a span goes into the payload. */
  function Repeats(w: Width): nat {
    match w
    case W1 => 0x100_0000_0000_0000
    case W2 => 0x1_0000_0000_0000
    case W4 => 0x1_0000_0000
    case W8 => 1
  }

  lemma LowBitsOfWord(w: Width, v: int)
    ensures w.Span() % 2 == 0 && w.Span() * Repeats(w) == WORD && (v % WORD) % w.Span() == v % w.Span()
  {
    var span, k := w.Span(), v / WORD;
    assert v == WORD * k + v % WORD;
    assert v == span * (v / span) + v % span;
    assert WORD * k == span * (Repeats(w) * k);
    assert span * (v / span - Repeats(w) * k) == span * (v / span) - span * (Repeats(w) * k);
    ModIs(v % WORD, span, v / span - Repeats(w) * k, v % span);
  }

  lemma LoadStored(t: Integral, longWidth: Width, v: int)
    ensures Unsigned(LittleEndian(v, t.Bytes(longWidth).Size())) == v % t.Bytes(longWidth).Span()
    ensures Load(t, longWidth, LittleEndian(v, t.Bytes(longWidth).Size())) == Cast(t, longWidth, v)
  {
    StoredBits(v, t.Bytes(longWidth).Size());
    SpanIsPower(t.Bytes(longWidth));
    CastOfStored(t, longWidth, v);
  }

  // ----- The bridge -----

  function WidthKind(isSigned: bool, w: Width): Kind {
    match w
    case W1 => if isSigned then I8 else U8
    case W2 => if isSigned then I16 else U16
    case W4 => if isSigned then I32 else U32
    case W8 => if isSigned then I64 else U64
  }

  /** kind_of, which looks through an enum to its underlying type. */
  function KindOf(t: Type, longWidth: Width): Kind {
    WidthKind(t.underlying.Signed(), t.underlying.Bytes(longWidth))
  }

  /** decode_integer<T>. */
  function DecodeInteger(t: Integral, longWidth: Width, input: FlowValue, expected: Kind): Result<Value> {
    if input.kind != expected then Err(InvalidArgumentType)
    else Ok(Value(Plain(t), LittleEndian(Cast(t, longWidth, input.bits), t.Bytes(longWidth).Size())))
  }

  /** decode_value on these types: an enum is decoded as its underlying type. */
  function Decode(t: Type, longWidth: Width, input: FlowValue): Result<Value> {
    if input.kind != KindOf(t, longWidth) then Err(InvalidArgumentType)
    else
      match t.underlying
      case SignedChar => DecodeInteger(SignedChar, longWidth, input, I8)
      case UnsignedChar => DecodeInteger(UnsignedChar, longWidth, input, U8)
      case Short => DecodeInteger(Short, longWidth, input, WidthKind(true, W2))
      case UnsignedShort => DecodeInteger(UnsignedShort, longWidth, input, WidthKind(false, W2))
      case Int => DecodeInteger(Int, longWidth, input, WidthKind(true, W4))
      case UnsignedInt => DecodeInteger(UnsignedInt, longWidth, input, WidthKind(false, W4))
      case Long => DecodeInteger(Long, longWidth, input, WidthKind(true, longWidth))
      case UnsignedLong => DecodeInteger(UnsignedLong, longWidth, input, WidthKind(false, longWidth))
      case LongLong => DecodeInteger(LongLong, longWidth, input, WidthKind(true, W8))
      case UnsignedLongLong => DecodeInteger(UnsignedLongLong, longWidth, input, WidthKind(false, W8))
      case Other(_, _) => Err(InvalidArgumentType)
  }

  /** encode_value: an integer is converted to uint64_t, an enum's bytes are copied. */
  function Encode(t: Type, longWidth: Width, input: Value): Result<FlowValue>
    requires |input.data| <= 8
  {
    if t.Enumeration? then
      PayloadFits(input.data);
      Ok(FlowValue(KindOf(t, longWidth), Unsigned(input.data)))
    else if t.underlying.Other? then Err(TypeMismatch)
    else Ok(FlowValue(KindOf(t, longWidth), Load(t.underlying, longWidth, input.data) % WORD))
  }

  lemma {:induction false} UnsignedBound(data: seq<Byte>)
    ensures Unsigned(data) < Power(|data|)
  {
    if data != [] {
      UnsignedBound(data[1..]);
    }
  }

  lemma {:induction false} PowerGrows(m: nat, n: nat)
    requires m <= n
    ensures Power(m) <= Power(n)
    decreases n
  {
    if m < n {
      PowerGrows(m, n - 1);
      PowerPositive(n - 1);
    }
  }

  lemma PayloadFits(data: seq<Byte>)
    requires |data| <= 8
    ensures Unsigned(data) < WORD
  {
    UnsignedBound(data);
    PowerGrows(|data|, 8);
    SpanIsPower(W8);
  }

  /** A by-value parameter: the thunk takes a value of its own type, or of the
      underlying type of an enum, whose object it then reads. */
  function Receive(t: Type, longWidth: Width, argument: Value): Result<int> {
    if argument.type_ == t || (t.Enumeration? && argument.type_ == Plain(t.underlying)) then
      Ok(Load(t.underlying, longWidth, argument.data))
    else Err(InvalidArgumentType)
  }

  /** The value a C++ function returns. */
  function Returned(t: Type, longWidth: Width, v: int): Value {
    Value(t, LittleEndian(v, t.underlying.Bytes(longWidth).Size()))
  }

  // ----- What the kinds stand for -----

  /** The numbers that a payload of a kind stands for. */
  ghost predicate KindHolds(k: Kind, v: int) {
    match k
    case I8 => -0x80 <= v < 0x80
    case U8 => 0 <= v < 0x100
    case I16 => -0x8000 <= v < 0x8000
    case U16 => 0 <= v < 0x1_0000
    case I32 => -0x8000_0000 <= v < 0x8000_0000
    case U32 => 0 <= v < 0x1_0000_0000
    case I64 => -0x8000_0000_0000_0000 <= v < 0x8000_0000_0000_0000
    case U64 => 0 <= v < 0x1_0000_0000_0000_0000
  }

  /** The numbers of a C++ type, where char has 8 bits, short 16, int 32 and long long 64. */
  ghost predicate TypeHolds(t: Integral, longWidth: Width, v: int) {
    match t
    case SignedChar => KindHolds(I8, v)
    case UnsignedChar => KindHolds(U8, v)
    case Short => KindHolds(I16, v)
    case UnsignedShort => KindHolds(U16, v)
    case Int => KindHolds(I32, v)
    case UnsignedInt => KindHolds(U32, v)
    case Long => OfWidth(longWidth, true, v)
    case UnsignedLong => OfWidth(longWidth, false, v)
    case LongLong => KindHolds(I64, v)
    case UnsignedLongLong => KindHolds(U64, v)
    case Other(width, isSigned) => OfWidth(width, isSigned, v)
  }

  ghost predicate OfWidth(w: Width, isSigned: bool, v: int) {
    match w
    case W1 => if isSigned then KindHolds(I8, v) else KindHolds(U8, v)
    case W2 => if isSigned then KindHolds(I16, v) else KindHolds(U16, v)
    case W4 => if isSigned then KindHolds(I32, v) else KindHolds(U32, v)
    case W8 => if isSigned then KindHolds(I64, v) else KindHolds(U64, v)
  }

  /** The kind of a type stands for the numbers of the type. */
  lemma KindsMatchTypes(t: Type, longWidth: Width, v: int)
    ensures KindHolds(KindOf(t, longWidth), v) <==> TypeHolds(t.underlying, longWidth, v)
    ensures InRange(t.underlying, longWidth, v) <==> TypeHolds(t.underlying, longWidth, v)
  {
  }

  ghost predicate SameNumbers(k: Kind, other: Kind) {
    forall n :: KindHolds(k, n) <==> KindHolds(other, n)
  }

  /** No two kinds stand for the same numbers. */
  lemma KindsApart(k: Kind, other: Kind)
    requires SameNumbers(k, other)
    ensures k == other
  {
    assert KindHolds(k, -0x80) <==> KindHolds(other, -0x80);
    assert KindHolds(k, -0x8000) <==> KindHolds(other, -0x8000);
    assert KindHolds(k, -0x8000_0000) <==> KindHolds(other, -0x8000_0000);
    assert KindHolds(k, -0x8000_0000_0000_0000) <==> KindHolds(other, -0x8000_0000_0000_0000);
    assert KindHolds(k, 0xFFFF) <==> KindHolds(other, 0xFFFF);
    assert KindHolds(k, 0xFFFF_FFFF) <==> KindHolds(other, 0xFFFF_FFFF);
    assert KindHolds(k, 0xFFFF_FFFF_FFFF_FFFF) <==> KindHolds(other, 0xFFFF_FFFF_FFFF_FFFF);
  }

  /** A result is refused exactly when its type is no enum and not one of the ten. */
  lemma EncodeRefuses(t: Type, longWidth: Width, input: Value)
    requires |input.data| <= 8
    ensures Encode(t, longWidth, input).Err? <==> exists w, isSigned :: t == Plain(Other(w, isSigned))
    ensures Encode(t, longWidth, input).Err? ==> Encode(t, longWidth, input).error == TypeMismatch
  {
    if Encode(t, longWidth, input).Err? {
      assert t == Plain(Other(t.underlying.width, t.underlying.isSigned));
    }
  }

  /** A parameter takes values of its own type and, if it is an enum, of the type
      underlying it. */
  lemma ReceiveIff(t: Type, longWidth: Width, argument: Value)
    ensures Receive(t, longWidth, argument).Ok? <==> argument.type_ in {t, Plain(t.underlying)}
    ensures Receive(t, longWidth, argument).Err? ==> Receive(t, longWidth, argument).error == InvalidArgumentType
  {
  }

  // ----- Round trips -----

  /** A payload is accepted exactly when its kind is that of the type and the type
      has a branch. */
  lemma DecodeAccepts(t: Type, longWidth: Width, input: FlowValue)
    ensures Decode(t, longWidth, input).Ok? <==> input.kind == KindOf(t, longWidth) && !t.underlying.Other?
    ensures Decode(t, longWidth, input).Err? ==> Decode(t, longWidth, input).error == InvalidArgumentType
  {
  }

  lemma DecodedValue(t: Type, longWidth: Width, input: FlowValue)
    requires Decode(t, longWidth, input).Ok?
    ensures Decode(t, longWidth, input).value
         == Value(Plain(t.underlying),
                  LittleEndian(Cast(t.underlying, longWidth, input.bits), t.underlying.Bytes(longWidth).Size()))
  {
  }

  lemma CastTwice(t: Integral, longWidth: Width, x: int)
    ensures Cast(t, longWidth, Cast(t, longWidth, x)) == Cast(t, longWidth, x)
  {
    CastIsTheValue(t, longWidth, x, 0);
    CastIsTheValue(t, longWidth, Cast(t, longWidth, x), Cast(t, longWidth, x));
  }

  /** What an accepted payload becomes in the called function. */
  lemma DecodedArgument(t: Type, longWidth: Width, input: FlowValue)
    requires Decode(t, longWidth, input).Ok?
    ensures Receive(t, longWidth, Decode(t, longWidth, input).value) == Ok(Cast(t.underlying, longWidth, input.bits))
  {
    DecodedValue(t, longWidth, input);
    LoadStored(t.underlying, longWidth, Cast(t.underlying, longWidth, input.bits));
    CastTwice(t.underlying, longWidth, input.bits);
  }

  lemma EncodedBits(t: Type, longWidth: Width, v: int)
    requires InRange(t.underlying, longWidth, v) && !t.underlying.Other?
    ensures |Returned(t, longWidth, v).data| <= 8
    ensures Encode(t, longWidth, Returned(t, longWidth, v)) == Ok(FlowValue(KindOf(t, longWidth),
              if t.Enumeration? then v % t.underlying.Bytes(longWidth).Span() else v % WORD))
  {
    var u := t.underlying;
    StoredBits(v, u.Bytes(longWidth).Size());
    LoadStored(u, longWidth, v);
    CastIsTheValue(u, longWidth, v, v);
  }

  lemma NarrowBits(t: Integral, longWidth: Width, v: int)
    requires InRange(t, longWidth, v)
    ensures Cast(t, longWidth, v % t.Bytes(longWidth).Span()) == v && Cast(t, longWidth, v % WORD) == v
  {
    LowBitsOfWord(t.Bytes(longWidth), v);
    CastOfStored(t, longWidth, v);
    FitsOnce(t.Signed(), t.Bytes(longWidth).Span(), v);
  }

  /** decode(encode(v)) == v, for each of the ten types and every enum over them. */
  lemma ValueRoundTrip(t: Type, longWidth: Width, v: int)
    requires InRange(t.underlying, longWidth, v) && !t.underlying.Other?
    ensures |Returned(t, longWidth, v).data| <= 8
    ensures var sent := Encode(t, longWidth, Returned(t, longWidth, v));
            && sent.Ok? && Decode(t, longWidth, sent.value).Ok?
            && Receive(t, longWidth, Decode(t, longWidth, sent.value).value) == Ok(v)
  {
    EncodedBits(t, longWidth, v);
    var sent := Encode(t, longWidth, Returned(t, longWidth, v)).value;
    DecodeAccepts(t, longWidth, sent);
    DecodedArgument(t, longWidth, sent);
    NarrowBits(t.underlying, longWidth, v);
  }

  /** Every byte above the low ones is zero, or copies the sign bit. */
  predicate Extends(bits: Payload, w: Width, negative: bool) {
    if negative then WORD - w.Span() / 2 <= bits else bits < w.Span()
  }

  predicate SignBit(bits: Payload, w: Width) {
    bits % w.Span() >= w.Span() / 2
  }

  lemma ExtendCast(t: Integral, longWidth: Width, bits: Payload)
    ensures var w := t.Bytes(longWidth); var v := Cast(t, longWidth, bits);
            && (v % WORD) % w.Span() == bits % w.Span() && (v % w.Span()) == bits % w.Span()
            && Extends(v % WORD, w, t.Signed() && SignBit(bits, w)) && Extends(v % w.Span(), w, false)
  {
    var w := t.Bytes(longWidth);
    var v := Cast(t, longWidth, bits);
    LowBitsOfWord(w, v);
    WrapCongruent(t.Signed(), w.Span(), bits);
    ModIs(v, WORD, if v < 0 then -1 else 0, if v < 0 then v + WORD else v);
  }

  lemma ExtensionIsUnique(a: Payload, b: Payload, w: Width, negative: bool)
    requires a % w.Span() == b % w.Span() && Extends(a, w, negative) && Extends(b, w, negative)
    ensures a == b
  {
    match w {
      case W1 =>
      case W2 =>
      case W4 =>
      case W8 =>
    }
  }

  /** The payload that comes back for bits. */
  function Carried(t: Type, longWidth: Width, bits: Payload): Payload {
    var v := Cast(t.underlying, longWidth, bits);
    if t.Enumeration? then SpanFits(t.underlying.Bytes(longWidth), v); v % t.underlying.Bytes(longWidth).Span()
    else v % WORD
  }

  lemma SpanFits(w: Width, v: int)
    ensures 0 <= v % w.Span() < WORD
  {
  }

  /** What comes back when a function returns the argument it was sent. */
  function ThereAndBack(t: Type, longWidth: Width, bits: Payload): Result<FlowValue> {
    var decoded := Decode(t, longWidth, FlowValue(KindOf(t, longWidth), bits));
    if decoded.Err? then Err(decoded.error)
    else
      var received := Receive(t, longWidth, decoded.value);
      if received.Err? then Err(received.error)
      else
        ReturnedSize(t, longWidth, received.value);
        Encode(t, longWidth, Returned(t, longWidth, received.value))
  }

  lemma ReturnedSize(t: Type, longWidth: Width, v: int)
    ensures |Returned(t, longWidth, v).data| <= 8
  {
    StoredBits(v, t.underlying.Bytes(longWidth).Size());
  }

  lemma Reencoded(t: Type, longWidth: Width, bits: Payload)
    requires !t.underlying.Other?
    ensures ThereAndBack(t, longWidth, bits) == Ok(FlowValue(KindOf(t, longWidth), Carried(t, longWidth, bits)))
  {
    var input := FlowValue(KindOf(t, longWidth), bits);
    DecodeAccepts(t, longWidth, input);
    DecodedArgument(t, longWidth, input);
    CastIsTheValue(t.underlying, longWidth, bits, 0);
    EncodedBits(t, longWidth, Cast(t.underlying, longWidth, bits));
  }

  predicate Negative(t: Type, longWidth: Width, bits: Payload) {
    t.Plain? && t.underlying.Signed() && SignBit(bits, t.underlying.Bytes(longWidth))
  }

  lemma CarriedExtends(t: Type, longWidth: Width, bits: Payload)
    ensures var w := t.underlying.Bytes(longWidth); var back := Carried(t, longWidth, bits);
            back % w.Span() == bits % w.Span() && Extends(back, w, Negative(t, longWidth, bits))
  {
    var w := t.underlying.Bytes(longWidth);
    ExtendCast(t.underlying, longWidth, bits);
    ModIs(bits % w.Span(), w.Span(), 0, bits % w.Span());
  }

  /** encode(decode(bits)) keeps the low bits of any payload and extends them: with
      the sign for integers, with zeros for enums.  Only one payload does that. */
  lemma PayloadRoundTrip(t: Type, longWidth: Width, bits: Payload, other: Payload)
    requires !t.underlying.Other?
    ensures var w := t.underlying.Bytes(longWidth); var back := ThereAndBack(t, longWidth, bits);
            && back.Ok? && back.value.kind == KindOf(t, longWidth)
            && back.value.bits % w.Span() == bits % w.Span()
            && Extends(back.value.bits, w, Negative(t, longWidth, bits))
            && (other % w.Span() == bits % w.Span() && Extends(other, w, Negative(t, longWidth, bits))
                ==> other == back.value.bits)
  {
    var w := t.underlying.Bytes(longWidth);
    Reencoded(t, longWidth, bits);
    CarriedExtends(t, longWidth, bits);
    if other % w.Span() == bits % w.Span() && Extends(other, w, Negative(t, longWidth, bits)) {
      ExtensionIsUnique(other, Carried(t, longWidth, bits), w, Negative(t, longWidth, bits));
    }
  }

  lemma NarrowIsWide(t: Integral, longWidth: Width, v: int)
    requires InRange(t, longWidth, v)
    ensures v % t.Bytes(longWidth).Span() == v % WORD <==> v >= 0 || t.Bytes(longWidth) == W8
  {
    FitsOnce(t.Signed(), t.Bytes(longWidth).Span(), v);
    ModIs(v, WORD, if v < 0 then -1 else 0, if v < 0 then v + WORD else v);
  }

  /** The same number travels differently as an integer and as an enum exactly when
      it is negative and narrower than the payload. */
  lemma EnumsAreNotSignExtended(u: Integral, longWidth: Width, v: int)
    requires InRange(u, longWidth, v) && !u.Other?
    ensures |Returned(Plain(u), longWidth, v).data| <= 8 && |Returned(Enumeration(u), longWidth, v).data| <= 8
    ensures Encode(Plain(u), longWidth, Returned(Plain(u), longWidth, v))
         == Encode(Enumeration(u), longWidth, Returned(Enumeration(u), longWidth, v))
         <==> v >= 0 || u.Bytes(longWidth) == W8
  {
    EncodedBits(Plain(u), longWidth, v);
    EncodedBits(Enumeration(u), longWidth, v);
    NarrowIsWide(u, longWidth, v);
  }
}
