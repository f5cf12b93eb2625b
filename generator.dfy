/**
 * `DataGenerator`: turns a definition file (one field per line: a hex literal, a decimal
 * number or a `<function …>` call) into `count` samples of little-endian values of a fixed
 * bit width. Regular fields are evaluated first; checksum fields then see the regular values
 * of the same sample.
 */
module Generator {
  import opened Wrappers
  import opened Text
  import opened Bytes
  import opened Arith

  /** The widths the generator's format tables `{8: 'B', 16: 'H', 32: 'I'}` know. */
  type Bits = b: int | b == 8 || b == 16 || b == 32 witness 8

  /** 2^bits. */
  function Modulus(bits: Bits): (m: int)
    ensures m > 0
  {
    if bits == 8 then 0x100 else if bits == 16 then 0x1_0000 else 0x1_0000_0000
  }

  /** `max_unsigned` (and `max_value`): 2^bits - 1. */
  function MaxUnsigned(bits: Bits): int { Modulus(bits) - 1 }

  /** 2^(bits-1). */
  function Half(bits: Bits): int
  {
    if bits == 8 then 0x80 else if bits == 16 then 0x8000 else 0x8000_0000
  }

  /** `min_value`: -2^(bits-1), the smallest signed value of the width. */
  function MinValue(bits: Bits): int { -Half(bits) }

  /** `bits // 8`: the bytes one value occupies in the output. */
  function ByteWidth(bits: Bits): nat { bits / 8 }

  /** The bounds fit the packing width: one value is `bits // 8` bytes, and the signed range is half of it. */
  lemma WidthBounds(bits: Bits)
    ensures Modulus(bits) == Power256(ByteWidth(bits))
    ensures Half(bits) * 2 == Modulus(bits) && MinValue(bits) < 0 < MaxUnsigned(bits)
  {
    assert Power256(1) == 0x100;
    assert Power256(2) == 0x1_0000;
    assert Power256(3) == 0x100_0000;
    assert Power256(4) == 0x1_0000_0000;
  }

  /** `value & max_unsigned`: the low `bits` bits, which for every integer is its remainder modulo 2^bits. */
  function LowBits(bits: Bits, v: int): (r: int)
    ensures 0 <= r < Modulus(bits)
  {
    v % Modulus(bits)
  }

  lemma LowBitsOfNegative(bits: Bits, v: int)
    requires -Modulus(bits) <= v < 0
    ensures LowBits(bits, v) == v + Modulus(bits)
  {
    ModUnique(v, Modulus(bits), -1, v + Modulus(bits));
  }

  /** `clamp_value`. */
  function ClampValue(bits: Bits, v: int): (r: int)
    ensures 0 <= r <= MaxUnsigned(bits)
    ensures 0 <= v <= MaxUnsigned(bits) ==> r == v
    ensures MinValue(bits) <= v < 0 ==> r == v + Modulus(bits)
    ensures v < MinValue(bits) ==> r == Half(bits)
    ensures v > MaxUnsigned(bits) ==> r == MaxUnsigned(bits)
  {
    if v < 0 then
      var s := if v < MinValue(bits) then MinValue(bits) else v;
      LowBitsOfNegative(bits, s);
      LowBits(bits, s)
    else if v > MaxUnsigned(bits) then MaxUnsigned(bits)
    else v
  }

  lemma ClampIdempotent(bits: Bits, v: int)
    ensures ClampValue(bits, ClampValue(bits, v)) == ClampValue(bits, v)
  {
  }

  /** Why the generator can fail (each a `sys.exit(1)` or an uncaught exception in the source). */
  datatype GenError =
    | InvalidHex(field: string)
    | InvalidDecimal(field: string)
    | EmptyFunctionCall
    | NonIntegerArgument
    | ZeroPeriod
    | WaveformFailed(name: string)
    | UnrecognizedField(field: string)
    | NoFields
    | OutOfRange(value: int)

  /** `parse_hex_value`: `int(value, 16)` as it is, not clamped. */
  function ParseHexValue(value: string): (r: Result<int, GenError>)
    ensures r.Ok? <==> ParseHexInt(value).Some?
    ensures r.Err? ==> r.error == InvalidHex(value)
    ensures r.Ok? && r.value < 0 ==> |Strip(value)| > 0 && Strip(value)[0] == '-'
  {
    match ParseHexInt(value)
    case Some(n) => Ok(n)
    case None => Err(InvalidHex(value))
  }

  /** `parse_decimal_value`: `int(value)`, then the same saturation and wrap as `clamp_value`, written out. */
  function ParseDecimalValue(bits: Bits, value: string): (r: Result<int, GenError>)
    ensures r.Ok? ==> 0 <= r.value <= MaxUnsigned(bits)
  {
    match ParseInt(value)
    case None => Err(InvalidDecimal(value))
    case Some(num) =>
      if num < 0 then
        var n := if num < MinValue(bits) then MinValue(bits) else num;
        LowBitsOfNegative(bits, n);
        Ok(LowBits(bits, n))
      else if num > MaxUnsigned(bits) then Ok(MaxUnsigned(bits))
      else Ok(num)
  }

  /** `parse_decimal_value` agrees with `clamp_value` on every integer it reads. */
  lemma DecimalIsClamped(bits: Bits, value: string)
    ensures ParseDecimalValue(bits, value)
      == match ParseInt(value)
         case None => Err(InvalidDecimal(value))
         case Some(n) => Ok(ClampValue(bits, n))
  {
  }

  lemma DecimalOfParsed(bits: Bits, f: string, n: int)
    requires ParseInt(f) == Some(n)
    ensures ParseDecimalValue(bits, f) == Ok(ClampValue(bits, n))
  {
    DecimalIsClamped(bits, f);
  }

  /** A function argument: an integer, a float (text containing '.'), or any other text. */
  datatype Param = PInt(n: int) | PFloat(text: string) | PText(text: string)

  /** The argument conversion of `parse_function_call`. */
  function ToParam(p: string): (r: Param)
    ensures r.PFloat? <==> '.' in p
    ensures r.PInt? ==> ParseInt(p) == Some(r.n)
    ensures r.PText? ==> ParseInt(p).None?
  {
    if '.' in p then PFloat(p)
    else match ParseInt(p)
      case Some(n) => PInt(n)
      case None => PText(p)
  }

  /** The text of an integer is read back as that integer argument. */
  lemma ToParamOfInt(n: int)
    ensures ToParam(IntToString(n)) == PInt(n)
  {
    var t := IntToString(n);
    ParseIntToString(n);
    var digits := NatToString(if n < 0 then -n else n);
    assert t == digits || t == "-" + digits;
    assert '.' !in t by {
      forall k | 0 <= k < |t|
        ensures t[k] != '.'
      {
        if t != digits {
          assert k == 0 || t[k] == digits[k - 1];
        }
      }
    }
  }

  /** `int(p)` on an argument; floats are not modelled. */
  function AsInt(p: Param): (r: Result<int, GenError>)
    ensures r.Ok? <==> p.PInt?
    ensures r.Ok? ==> r.value == p.n
    ensures r.Err? ==> r.error == NonIntegerArgument
  {
    if p.PInt? then Ok(p.n) else Err(NonIntegerArgument)
  }

  /** `clamp_value(int(p))`. */
  function ClampedArg(bits: Bits, p: Param): (r: Result<int, GenError>)
    ensures r.Ok? ==> 0 <= r.value <= MaxUnsigned(bits)
  {
    match AsInt(p)
    case Ok(n) => Ok(ClampValue(bits, n))
    case Err(e) => Err(e)
  }

  /**
   * The waveforms computed with floats or randomness (`random`, `sine`, `triangle` and
   * `sawtooth` with a range): the integer they produce before clamping for a sample index and
   * the arguments, or None where the source raises.
   */
  type Waveform = (string, nat, seq<Param>) -> Option<int>

  /** Python's `a % b`: the remainder takes the sign of the divisor. */
  function PyMod(a: int, b: int): (r: int)
    requires b != 0
    ensures b > 0 ==> 0 <= r < b
    ensures b < 0 ==> b < r <= 0
  {
    var e := a % b;
    if b < 0 && e != 0 then e + b else e
  }

  function Sum(s: seq<int>): int
  {
    if s == [] then 0 else Sum(s[..|s| - 1]) + s[|s| - 1]
  }

  /** `checksum`: the sum of the regular values masked to the width, 0 when there are none. */
  function ChecksumOf(bits: Bits, data: seq<int>): (r: int)
    ensures 0 <= r <= MaxUnsigned(bits)
    ensures data == [] ==> r == 0
  {
    if data == [] then 0 else ClampValue(bits, LowBits(bits, Sum(data)))
  }

  /** `inverse_checksum`: the clamped negated sum, 0 when there are none. */
  function InverseChecksumOf(bits: Bits, data: seq<int>): (r: int)
    ensures 0 <= r <= MaxUnsigned(bits)
    ensures data == [] ==> r == 0
  {
    if data == [] then 0 else ClampValue(bits, -Sum(data))
  }

  /** `square`: max for the first 20 samples of every 40, min for the next 20. */
  function Square(bits: Bits, params: seq<Param>, index: nat): (r: Result<int, GenError>)
    ensures r.Ok? ==> 0 <= r.value <= MaxUnsigned(bits)
  {
    var high := (index / 20) % 2 == 0;
    if |params| >= 2 then
      var chosen := if high then params[1] else params[0];
      ClampedArg(bits, chosen)
    else Ok(ClampValue(bits, if high then 255 else 0))
  }

  /** `qrs` with its six arguments `q_value q_samples r_value r_period s_value s_samples`. */
  function Qrs(bits: Bits, params: seq<Param>, index: nat): (r: Result<int, GenError>)
    requires |params| >= 6
    ensures r.Ok? ==> 0 <= r.value <= MaxUnsigned(bits)
  {
    match AsInt(params[3])
    case Err(e) => Err(e)
    case Ok(period) =>
      if period == 0 then Err(ZeroPeriod)
      else
        var cycle := PyMod(index, period);
        if cycle == 0 then ClampedArg(bits, params[2])
        else match AsInt(params[1])
          case Err(e) => Err(e)
          case Ok(q) =>
            if cycle <= q then ClampedArg(bits, params[0])
            else match AsInt(params[5])
              case Err(e) => Err(e)
              case Ok(s) =>
                if cycle <= q + s then ClampedArg(bits, params[4])
                else Ok(ClampValue(bits, 0))
  }

  /** `qrs` without its arguments: a 16-sample cycle of R, Q, S and baseline values. */
  function QrsDefault(bits: Bits, index: nat): int
  {
    var cycle := index % 16;
    ClampValue(bits, if cycle == 0 then 1000 else if cycle <= 2 then -100 else if cycle <= 4 then -150 else 0)
  }

  /** The names `parse_function_call` computes without an oracle. */
  predicate OracleName(name: string, params: seq<Param>)
  {
    name == "random" || name == "sine" || name == "triangle" || (name == "sawtooth" && |params| >= 2)
  }

  /** The function dispatch of `parse_function_call` on the lowercased name. */
  function FunctionValue(bits: Bits, name: string, params: seq<Param>, index: nat, data: seq<int>,
                         wave: Waveform): (r: Result<int, GenError>)
    ensures r.Ok? ==> 0 <= r.value <= MaxUnsigned(bits)
  {
    if OracleName(name, params) then
      match wave(name, index, params)
      case Some(v) => Ok(ClampValue(bits, v))
      case None => Err(WaveformFailed(name))
    else if name == "square" then Square(bits, params, index)
    else if name == "sawtooth" then Ok(ClampValue(bits, index % 100))
    else if name == "qrs" then
      if |params| >= 6 then Qrs(bits, params, index) else Ok(QrsDefault(bits, index))
    else if name == "checksum" then Ok(ChecksumOf(bits, data))
    else if name == "inverse_checksum" then Ok(InverseChecksumOf(bits, data))
    else Ok(0)
  }

  predicate IsMinus(c: char) { c == '-' }

  predicate IsBracket(c: char) { c == '<' || c == '>' }

  /** The words of a `<…>` field once the brackets are stripped from both ends. */
  function CallWords(field: string): seq<string>
  {
    Words(RStrip(LStrip(field, IsBracket), IsBracket))
  }

  function Params(parts: seq<string>): (ps: seq<Param>)
    requires |parts| >= 1
    ensures |ps| == |parts| - 1 && forall k :: 0 <= k < |ps| ==> ps[k] == ToParam(parts[k + 1])
  {
    seq(|parts| - 1, k requires 0 <= k < |parts| - 1 => ToParam(parts[k + 1]))
  }

  /** `parse_function_call`. */
  function ParseFunctionCall(bits: Bits, field: string, index: nat, data: seq<int>, wave: Waveform): (r: Result<int, GenError>)
    ensures r.Ok? ==> 0 <= r.value <= MaxUnsigned(bits)
  {
    var parts := CallWords(field);
    if parts == [] then Err(EmptyFunctionCall)
    else FunctionValue(bits, Lower(parts[0]), Params(parts), index, data, wave)
  }

  predicate HexPrefixed(f: string)
  {
    StartsWith(f, "0x") || StartsWith(f, "0X")
  }

  predicate IsCall(f: string)
  {
    StartsWith(f, "<") && EndsWith(f, ">")
  }

  /** `int(value, 16)` on a literal that starts with `0x` never has a sign. */
  lemma HexNonNegative(f: string)
    requires HexPrefixed(f) && Strip(f) == f
    ensures ParseHexValue(f).Ok? ==> ParseHexValue(f).value >= 0
  {
    assert f[0] == '0';
  }

  /**
   * `process_field`: a `0x`/`0X` literal is read as hex and not clamped, a `<…>` field is a
   * function call, minus signs followed by digits are a decimal, anything else is an error.
   * Every result is non-negative, and only a hex literal can exceed `max_unsigned`.
   */
  function ProcessField(bits: Bits, field: string, index: nat, data: seq<int>, wave: Waveform): (r: Result<int, GenError>)
    ensures r.Ok? ==> r.value >= 0
    ensures r.Ok? && !HexPrefixed(Strip(field)) ==> r.value <= MaxUnsigned(bits)
  {
    var f := Strip(field);
    if HexPrefixed(f) then
      StripIdempotent(field);
      HexNonNegative(f);
      ParseHexValue(f)
    else if IsCall(f) then ParseFunctionCall(bits, f, index, data, wave)
    else if IsDigits(LStrip(f, IsMinus)) then ParseDecimalValue(bits, f)
    else Err(UnrecognizedField(f))
  }

  /** A literal with a hex prefix is returned by `int(…, 16)` as it is, even above `max_unsigned`. */
  lemma HexFieldUnclamped(bits: Bits, field: string, index: nat, data: seq<int>, wave: Waveform)
    requires HexPrefixed(Strip(field))
    ensures ProcessField(bits, field, index, data, wave) == ParseHexValue(Strip(field))
  {
  }

  /** A field starting with a minus sign, or with two digits or a single one, is neither hex nor a call. */
  lemma NeitherHexNorCall(f: string)
    requires |f| > 0 && (f[0] == '-' || (IsDigit(f[0]) && (|f| == 1 || IsDigit(f[1]))))
    ensures !HexPrefixed(f) && !IsCall(f)
  {
    assert f[..1][0] == f[0];
    if |f| >= 2 {
      assert f[..2][1] == f[1];
    }
  }

  /** A stripped field that is neither hex nor a call and is digits after its minus signs goes to `parse_decimal_value`. */
  lemma DecimalDispatch(bits: Bits, f: string, index: nat, data: seq<int>, wave: Waveform)
    requires DecimalShaped(f)
    ensures ProcessField(bits, f, index, data, wave) == ParseDecimalValue(bits, f)
  {
  }

  /** `f` is a digit field for `process_field`: stripped, not hex, not a call, digits after its minus signs. */
  predicate DecimalShaped(f: string)
  {
    Strip(f) == f && !HexPrefixed(f) && !IsCall(f) && IsDigits(LStrip(f, IsMinus))
  }

  lemma DigitsShaped(d: string)
    requires IsDigits(d)
    ensures DecimalShaped(d)
  {
    StripTrimmed(d);
    NeitherHexNorCall(d);
    MinusesStrip([], d);
    assert [] + d == d;
  }

  lemma DigitsDecimal(bits: Bits, d: string)
    requires IsDigits(d)
    ensures ParseDecimalValue(bits, d) == Ok(ClampValue(bits, DigitsValue(d, 10)))
  {
    ParseIntOfDigits(d);
    DecimalOfParsed(bits, d, DigitsValue(d, 10));
  }

  /** A digit string is a decimal field and is clamped like any other value. */
  lemma DigitsField(bits: Bits, d: string, index: nat, data: seq<int>, wave: Waveform)
    requires IsDigits(d)
    ensures ProcessField(bits, d, index, data, wave) == Ok(ClampValue(bits, DigitsValue(d, 10)))
  {
    DigitsShaped(d);
    DigitsDecimal(bits, d);
    DecimalDispatch(bits, d, index, data, wave);
  }

  lemma NegativeShaped(f: string)
    requires |f| >= 2 && f[0] == '-' && IsDigits(f[1..])
    ensures DecimalShaped(f)
  {
    assert f[|f| - 1] == f[1..][|f| - 2];
    StripTrimmed(f);
    NeitherHexNorCall(f);
    assert LStrip(f, IsMinus) == LStrip(f[1..], IsMinus);
  }

  lemma NegativeDecimal(bits: Bits, f: string)
    requires |f| >= 2 && f[0] == '-' && IsDigits(f[1..])
    ensures ParseDecimalValue(bits, f) == Ok(ClampValue(bits, -(DigitsValue(f[1..], 10) as int)))
  {
    ParseIntOfMinus(f);
    DecimalOfParsed(bits, f, -(DigitsValue(f[1..], 10) as int));
  }

  /** One minus sign before the digits is a negative decimal. */
  lemma NegativeField(bits: Bits, f: string, index: nat, data: seq<int>, wave: Waveform)
    requires |f| >= 2 && f[0] == '-' && IsDigits(f[1..])
    ensures ProcessField(bits, f, index, data, wave) == Ok(ClampValue(bits, -(DigitsValue(f[1..], 10) as int)))
  {
    NegativeShaped(f);
    NegativeDecimal(bits, f);
    DecimalDispatch(bits, f, index, data, wave);
  }

  lemma ManyMinusesShaped(m: string, d: string)
    requires |m| >= 2 && forall i :: 0 <= i < |m| ==> m[i] == '-'
    requires IsDigits(d)
    ensures DecimalShaped(m + d) && (m + d)[0] == '-' && (m + d)[1] == '-'
  {
    var f := m + d;
    assert f[0] == '-' && f[1] == '-' && f[|f| - 1] == d[|d| - 1];
    StripTrimmed(f);
    NeitherHexNorCall(f);
    MinusesStrip(m, d);
  }

  /** Two or more minus signs pass the `lstrip('-').isdigit()` test, but `int()` rejects them. */
  lemma ManyMinusesRejected(bits: Bits, m: string, d: string, index: nat, data: seq<int>, wave: Waveform)
    requires |m| >= 2 && forall i :: 0 <= i < |m| ==> m[i] == '-'
    requires IsDigits(d)
    ensures ProcessField(bits, m + d, index, data, wave) == Err(InvalidDecimal(m + d))
  {
    ManyMinusesShaped(m, d);
    DoubleMinusNotInt(m + d);
    DecimalDispatch(bits, m + d, index, data, wave);
  }

  /** `int()` rejects a second sign. */
  lemma DoubleMinusNotInt(f: string)
    requires |f| >= 2 && f[0] == '-' && f[1] == '-' && Strip(f) == f
    ensures ParseInt(f) == None
  {
    var u := f[1..];
    assert u[0] == '-';
    assert !WellGrouped(u, IsDigit, false);
  }

  lemma {:induction false} MinusesStrip(m: string, d: string)
    requires forall i :: 0 <= i < |m| ==> m[i] == '-'
    requires IsDigits(d)
    ensures LStrip(m + d, IsMinus) == d
    decreases |m|
  {
    if m == [] {
      assert m + d == d;
    } else {
      assert (m + d)[1..] == m[1..] + d;
      MinusesStrip(m[1..], d);
    }
  }

  /** Printing an integer and reading it back as a field gives the clamped integer. */
  lemma IntFieldRoundTrip(bits: Bits, n: int, index: nat, data: seq<int>, wave: Waveform)
    ensures ProcessField(bits, IntToString(n), index, data, wave) == Ok(ClampValue(bits, n))
  {
    if n < 0 {
      NegativeRoundTrip(bits, n, index, data, wave);
    } else {
      NatRoundTrip(bits, n, index, data, wave);
    }
  }

  lemma NegativeRoundTrip(bits: Bits, n: int, index: nat, data: seq<int>, wave: Waveform)
    requires n < 0
    ensures ProcessField(bits, IntToString(n), index, data, wave) == Ok(ClampValue(bits, n))
  {
    var s := IntToString(n);
    var d := NatToString(-n);
    assert s[0] == '-' && s[1..] == d;
    NatToStringValue(-n);
    assert DigitsValue(s[1..], 10) == -n;
    NegativeField(bits, s, index, data, wave);
    assert ProcessField(bits, s, index, data, wave) == Ok(ClampValue(bits, -(DigitsValue(s[1..], 10) as int)));
  }

  lemma NatRoundTrip(bits: Bits, n: nat, index: nat, data: seq<int>, wave: Waveform)
    ensures ProcessField(bits, IntToString(n), index, data, wave) == Ok(ClampValue(bits, n))
  {
    NatToStringValue(n);
    DigitsField(bits, NatToString(n), index, data, wave);
  }

  /** `crc` and every name the dispatch does not know evaluate to 0. */
  lemma UnknownFunctionIsZero(bits: Bits, name: string, params: seq<Param>, index: nat, data: seq<int>, wave: Waveform)
    requires !OracleName(name, params)
    requires name !in {"square", "sawtooth", "qrs", "checksum", "inverse_checksum"}
    ensures FunctionValue(bits, name, params, index, data, wave) == Ok(0)
  {
  }

  /** The checksum pair cancels modulo 2^bits whenever the sum is at most 2^(bits-1). */
  lemma ChecksumsCancel(bits: Bits, data: seq<int>)
    requires 0 <= Sum(data) <= Half(bits)
    ensures (Sum(data) + InverseChecksumOf(bits, data)) % Modulus(bits) == 0
    ensures (ChecksumOf(bits, data) + InverseChecksumOf(bits, data)) % Modulus(bits) == 0
  {
    var m, total := Modulus(bits), Sum(data);
    assert Half(bits) < m;
    ModUnique(total, m, 0, total);
    assert LowBits(bits, total) == total;
    if data == [] || total == 0 {
      assert InverseChecksumOf(bits, data) == 0 && ChecksumOf(bits, data) == total;
    } else {
      assert InverseChecksumOf(bits, data) == m - total && ChecksumOf(bits, data) == total;
      ModUnique(m, m, 1, 0);
    }
  }

  /** Above 2^(bits-1) the negated sum saturates, so the pair no longer cancels. */
  lemma InverseChecksumSaturates(bits: Bits, data: seq<int>)
    requires Sum(data) > Half(bits)
    ensures InverseChecksumOf(bits, data) == Half(bits)
  {
  }

  /** With bits 8 and regular values summing to 129 the pair leaves 1: 129 + 128 = 257. */
  lemma ChecksumsDoNotCancelAboveHalf()
    ensures (Sum([129]) + InverseChecksumOf(8, [129])) % Modulus(8) == 1
  {
    assert Sum([129]) == 129 by { assert [129][..0] == []; }
  }

  /** The square wave repeats every 40 samples. */
  lemma SquarePeriodic(bits: Bits, params: seq<Param>, index: nat)
    ensures Square(bits, params, index + 40) == Square(bits, params, index)
  {
    assert (index + 40) / 20 == index / 20 + 2;
  }

  /** The default sawtooth and the default QRS complex repeat every 100 and 16 samples. */
  lemma DefaultWavesPeriodic(bits: Bits, index: nat, data: seq<int>, wave: Waveform)
    ensures FunctionValue(bits, "sawtooth", [], index + 100, data, wave) == FunctionValue(bits, "sawtooth", [], index, data, wave)
    ensures QrsDefault(bits, index + 16) == QrsDefault(bits, index)
  {
    ModPeriodic(index, 100);
    ModPeriodic(index, 16);
  }

  /** The QRS complex with a positive period repeats with that period. */
  lemma QrsPeriodic(bits: Bits, params: seq<Param>, index: nat)
    requires |params| >= 6 && params[3].PInt? && params[3].n > 0
    ensures Qrs(bits, params, index + params[3].n) == Qrs(bits, params, index)
  {
    ModPeriodic(index, params[3].n);
  }

  /** The R value starts every cycle, Q values follow for `q_samples`, then S values for `s_samples`. */
  lemma QrsPhases(bits: Bits, params: seq<Param>, index: nat)
    requires |params| >= 6 && forall k :: 0 <= k < 6 ==> params[k].PInt?
    requires params[3].n > 0
    ensures var c := index % params[3].n;
      var q, s := params[1].n, params[5].n;
      Qrs(bits, params, index).Ok? &&
      Qrs(bits, params, index).value
        == ClampValue(bits, if c == 0 then params[2].n else if c <= q then params[0].n
                            else if c <= q + s then params[4].n else 0)
  {
  }

  /** `field.startswith('<') and field.endswith('>')` with the case-sensitive name test of `generate_data`. */
  predicate IsChecksumField(field: string)
  {
    IsCall(field) && CallWords(field) != [] && (CallWords(field)[0] == "checksum" || CallWords(field)[0] == "inverse_checksum")
  }

  /** A name between one pair of brackets is what stripping the brackets leaves. */
  lemma BracketsStripped(name: string)
    requires name != [] && !IsBracket(name[0]) && !IsBracket(name[|name| - 1])
    ensures RStrip(LStrip("<" + name + ">", IsBracket), IsBracket) == name
  {
    var f := "<" + name + ">";
    var g := name + ">";
    assert f[1..] == g && f[0] == '<';
    assert g[0] == name[0];
    assert LStrip(g, IsBracket) == g;
    assert LStrip(f, IsBracket) == g;
    assert g[..|g| - 1] == name && g[|g| - 1] == '>';
    assert RStrip(name, IsBracket) == name;
    assert RStrip(g, IsBracket) == name;
  }

  lemma WordsOfName(name: string)
    requires name != [] && forall i :: 0 <= i < |name| ==> !IsSpace(name[i]) && !IsBracket(name[i])
    ensures CallWords("<" + name + ">") == [name]
  {
    BracketsStripped(name);
    WordsOfWord(name);
  }

  /** A bracketed bare name is a call of the lowercased name without arguments. */
  lemma BareCall(bits: Bits, name: string, index: nat, data: seq<int>, wave: Waveform)
    requires name != [] && forall i :: 0 <= i < |name| ==> !IsSpace(name[i]) && !IsBracket(name[i])
    ensures IsCall("<" + name + ">") && CallWords("<" + name + ">") == [name]
    ensures ProcessField(bits, "<" + name + ">", index, data, wave) == FunctionValue(bits, Lower(name), [], index, data, wave)
  {
    var f := "<" + name + ">";
    assert f[0] == '<' && f[|f| - 1] == '>';
    StripTrimmed(f);
    assert !HexPrefixed(f) by {
      assert f[..2][0] == '<';
    }
    assert IsCall(f) by {
      assert f[..1] == "<" && f[|f| - 1..] == ">";
    }
    WordsOfName(name);
  }

  /** A bracketed bare name goes to the checksum pass exactly when it is one of the two names, in lower case. */
  lemma ChecksumFieldOfName(name: string)
    requires name != [] && forall i :: 0 <= i < |name| ==> !IsSpace(name[i]) && !IsBracket(name[i])
    ensures IsChecksumField("<" + name + ">") <==> name == "checksum" || name == "inverse_checksum"
  {
    BareCall(8, name, 0, [], (n, i, p) => None);
  }

  /**
   * Every spelling of `checksum` evaluates as the checksum, because the dispatch lowercases
   * the name, but only the lower-case one waits for the checksum pass, because the name test
   * of the classification is case-sensitive. `<CHECKSUM>` is therefore a regular field that
   * sees whatever regular values the previous sample left.
   */
  lemma ChecksumSpelling(bits: Bits, name: string, index: nat, data: seq<int>, wave: Waveform)
    requires name != [] && forall i :: 0 <= i < |name| ==> !IsSpace(name[i]) && !IsBracket(name[i])
    requires Lower(name) == "checksum"
    ensures IsChecksumField("<" + name + ">") <==> name == "checksum"
    ensures ProcessField(bits, "<" + name + ">", index, data, wave) == Ok(ChecksumOf(bits, data))
  {
    ChecksumFieldOfName(name);
    assert name != "inverse_checksum" by {
      assert |Lower(name)| == |name|;
    }
    BareCall(bits, name, index, data, wave);
    ChecksumDispatch(bits, [], index, data, wave);
  }

  lemma ChecksumDispatch(bits: Bits, params: seq<Param>, index: nat, data: seq<int>, wave: Waveform)
    ensures FunctionValue(bits, "checksum", params, index, data, wave) == Ok(ChecksumOf(bits, data))
  {
  }

  /** `CHECKSUM` is such a name. */
  lemma UppercaseChecksumName()
    ensures Lower("CHECKSUM") == "checksum" && "CHECKSUM" != "checksum"
  {
    assert "CHECKSUM"[0] != "checksum"[0];
  }

  /** `parse_definition_file`'s filter: the stripped line is kept when non-empty and not a comment. */
  predicate Kept(line: string)
  {
    line != [] && line[0] != '#'
  }

  /** The definition fields of a file's lines, in file order. */
  function DefinitionFields(lines: seq<string>): seq<string>
  {
    if lines == [] then []
    else
      var rest := DefinitionFields(lines[..|lines| - 1]);
      var line := Strip(lines[|lines| - 1]);
      if Kept(line) then rest + [line] else rest
  }

  /** Each field is a kept line, stripped, and stripping it again changes nothing. */
  lemma {:induction false} DefinitionFieldsSound(lines: seq<string>)
    ensures |DefinitionFields(lines)| <= |lines|
    ensures forall f :: f in DefinitionFields(lines) ==>
      Kept(f) && Strip(f) == f && exists l :: l in lines && Strip(l) == f
  {
    if lines != [] {
      var init, last := lines[..|lines| - 1], lines[|lines| - 1];
      DefinitionFieldsSound(init);
      StripIdempotent(last);
      var fs := DefinitionFields(init);
      assert DefinitionFields(lines) == fs + (if Kept(Strip(last)) then [Strip(last)] else []);
      forall f | f in DefinitionFields(lines)
        ensures Kept(f) && Strip(f) == f && exists l :: l in lines && Strip(l) == f
      {
        if f in fs {
          var l :| l in init && Strip(l) == f;
          assert l in lines;
        } else {
          assert last in lines;
        }
      }
    }
  }

  /** Every line that is kept once stripped contributes its stripped text. */
  lemma {:induction false} DefinitionFieldsComplete(lines: seq<string>)
    ensures forall l :: l in lines && Kept(Strip(l)) ==> Strip(l) in DefinitionFields(lines)
  {
    if lines != [] {
      var init, last := lines[..|lines| - 1], lines[|lines| - 1];
      DefinitionFieldsComplete(init);
      var fs := DefinitionFields(init);
      assert DefinitionFields(lines) == fs + (if Kept(Strip(last)) then [Strip(last)] else []);
      forall l | l in lines && Kept(Strip(l))
        ensures Strip(l) in DefinitionFields(lines)
      {
        if l != last {
          assert lines == init + [last];
          assert l in init;
        }
      }
    }
  }

  /** Keeping the lines in order: the fields of a longer file extend those of its prefix. */
  lemma DefinitionFieldsAppend(lines: seq<string>, line: string)
    ensures DefinitionFields(lines + [line])
      == DefinitionFields(lines) + (if Kept(Strip(line)) then [Strip(line)] else [])
  {
    assert (lines + [line])[..|lines|] == lines;
  }

  /** `parse_definition_file` over the file's lines. */
  method ParseDefinitionFile(lines: seq<string>) returns (fields: seq<string>)
    ensures fields == DefinitionFields(lines)
  {
    fields := [];
    for k := 0 to |lines|
      invariant fields == DefinitionFields(lines[..k])
    {
      var line := Strip(lines[k]);
      DefinitionFieldsAppend(lines[..k], lines[k]);
      assert lines[..k + 1] == lines[..k] + [lines[k]];
      if !Kept(line) {
        continue;
      }
      fields := fields + [line];
    }
    assert lines[..|lines|] == lines;
  }

  predicate Increasing(idxs: seq<nat>)
  {
    forall i, j :: 0 <= i < j < |idxs| ==> idxs[i] < idxs[j]
  }

  /** Every index is below `n`. */
  predicate InBounds(idxs: seq<nat>, n: nat)
  {
    forall j :: 0 <= j < |idxs| ==> idxs[j] < n
  }

  /** For each field, whether `generate_data` puts it in the checksum pass. */
  function ChecksumMarks(fields: seq<string>): (marks: seq<bool>)
    ensures |marks| == |fields| && forall i :: 0 <= i < |fields| ==> marks[i] == IsChecksumField(fields[i])
  {
    seq(|fields|, i requires 0 <= i < |fields| => IsChecksumField(fields[i]))
  }

  /** The indices `i < k` whose mark is `checksum`, in increasing order. */
  function IndicesWhere(marks: seq<bool>, checksum: bool, k: nat): (r: seq<nat>)
    requires k <= |marks|
    ensures |r| <= k
  {
    if k == 0 then []
    else IndicesWhere(marks, checksum, k - 1) + (if marks[k - 1] == checksum then [k - 1] else [])
  }

  /** The indices are below `k`, increasing, and exactly those whose mark is `checksum`. */
  lemma {:induction false} IndicesBelow(marks: seq<bool>, checksum: bool, k: nat)
    requires k <= |marks|
    ensures InBounds(IndicesWhere(marks, checksum, k), k)
  {
    if k > 0 {
      IndicesBelow(marks, checksum, k - 1);
    }
  }
  lemma {:induction false} IndicesIncreasing(marks: seq<bool>, checksum: bool, k: nat)
    requires k <= |marks|
    ensures Increasing(IndicesWhere(marks, checksum, k))
  {
    if k > 0 {
      IndicesBelow(marks, checksum, k - 1);
      IndicesIncreasing(marks, checksum, k - 1);
    }
  }
  lemma {:induction false} IndicesMembers(marks: seq<bool>, checksum: bool, k: nat)
    requires k <= |marks|
    ensures forall i :: 0 <= i < k ==> (i in IndicesWhere(marks, checksum, k) <==> marks[i] == checksum)
  {
    if k > 0 {
      var p := IndicesWhere(marks, checksum, k - 1);
      IndicesBelow(marks, checksum, k - 1);
      IndicesMembers(marks, checksum, k - 1);
      assert k - 1 !in p;
      if marks[k - 1] == checksum {
        assert IndicesWhere(marks, checksum, k) == p + [k - 1];
      } else {
        assert IndicesWhere(marks, checksum, k) == p;
      }
    }
  }

  /** `regular_fields`: the fields evaluated in the first pass, in file order. */
  function RegularIndices(fields: seq<string>): (r: seq<nat>)
    ensures InBounds(r, |fields|)
  {
    IndicesBelow(ChecksumMarks(fields), false, |fields|);
    IndicesWhere(ChecksumMarks(fields), false, |fields|)
  }

  /** `checksum_fields`: the fields evaluated in the second pass, in file order. */
  function ChecksumIndices(fields: seq<string>): (r: seq<nat>)
    ensures InBounds(r, |fields|)
  {
    IndicesBelow(ChecksumMarks(fields), true, |fields|);
    IndicesWhere(ChecksumMarks(fields), true, |fields|)
  }

  /** Every field is in exactly one of the two passes, and a field is in the second exactly when it is a checksum field. */
  lemma PassesPartition(fields: seq<string>)
    ensures forall i :: 0 <= i < |fields| ==> (i in RegularIndices(fields) <==> i !in ChecksumIndices(fields))
    ensures forall i :: 0 <= i < |fields| ==> (i in ChecksumIndices(fields) <==> IsChecksumField(fields[i]))
    ensures |RegularIndices(fields)| + |ChecksumIndices(fields)| == |fields|
    ensures Increasing(RegularIndices(fields)) && Increasing(ChecksumIndices(fields))
  {
    var marks := ChecksumMarks(fields);
    IndicesIncreasing(marks, false, |fields|);
    IndicesIncreasing(marks, true, |fields|);
    IndicesMembers(marks, false, |fields|);
    IndicesMembers(marks, true, |fields|);
    PassesCount(marks, |fields|);
  }

  lemma {:induction false} PassesCount(marks: seq<bool>, k: nat)
    requires k <= |marks|
    ensures |IndicesWhere(marks, false, k)| + |IndicesWhere(marks, true, k)| == k
  {
    if k > 0 {
      PassesCount(marks, k - 1);
    }
  }

  /** The values written by one pass, and the error that stopped it. */
  datatype Filled = Filled(values: seq<int>, err: Option<GenError>)

  /** One pass over `idxs`: `process_field` on each field, stored at its index, until one fails. */
  function EvalFields(bits: Bits, fields: seq<string>, idxs: seq<nat>, index: nat, data: seq<int>,
                      wave: Waveform, values: seq<int>): (r: Filled)
    requires |values| == |fields| && InBounds(idxs, |fields|)
    ensures |r.values| == |values|
    decreases |idxs|
  {
    if idxs == [] then Filled(values, None)
    else
      match ProcessField(bits, fields[idxs[0]], index, data, wave)
      case Err(e) => Filled(values, Some(e))
      case Ok(v) => EvalFields(bits, fields, idxs[1..], index, data, wave, values[idxs[0] := v])
  }

  /**
   * A pass that completes stores `process_field` of each of its fields at that field's
   * index and leaves every other index as it was.
   */
  lemma {:induction false} EvalFieldsStores(bits: Bits, fields: seq<string>, idxs: seq<nat>, index: nat, data: seq<int>,
                                            wave: Waveform, values: seq<int>)
    requires |values| == |fields| && InBounds(idxs, |fields|)
    requires Increasing(idxs)
    ensures var r := EvalFields(bits, fields, idxs, index, data, wave, values);
      r.err == None ==>
        forall j :: 0 <= j < |idxs| ==> ProcessField(bits, fields[idxs[j]], index, data, wave) == Ok(r.values[idxs[j]])
    decreases |idxs|
  {
    if idxs != [] {
      var i0 := idxs[0];
      match ProcessField(bits, fields[i0], index, data, wave)
      case Err(e) =>
      case Ok(v) =>
        var vs := values[i0 := v];
        var tail := idxs[1..];
        EvalFieldsStores(bits, fields, tail, index, data, wave, vs);
        EvalFieldsKeeps(bits, fields, tail, index, data, wave, vs);
        var r := EvalFields(bits, fields, idxs, index, data, wave, values);
        assert r == EvalFields(bits, fields, tail, index, data, wave, vs);
        if r.err == None {
          assert i0 !in tail;
          forall j | 0 <= j < |idxs|
            ensures ProcessField(bits, fields[idxs[j]], index, data, wave) == Ok(r.values[idxs[j]])
          {
            if j > 0 {
              assert idxs[j] == tail[j - 1];
            }
          }
        }
    }
  }

  /** A pass leaves every index outside its own as it was. */
  lemma {:induction false} EvalFieldsKeeps(bits: Bits, fields: seq<string>, idxs: seq<nat>, index: nat, data: seq<int>,
                                           wave: Waveform, values: seq<int>)
    requires |values| == |fields| && InBounds(idxs, |fields|)
    ensures var r := EvalFields(bits, fields, idxs, index, data, wave, values);
      forall p :: 0 <= p < |values| && p !in idxs ==> r.values[p] == values[p]
    decreases |idxs|
  {
    if idxs != [] {
      var i0 := idxs[0];
      match ProcessField(bits, fields[i0], index, data, wave)
      case Err(e) =>
      case Ok(v) =>
        var tail := idxs[1..];
        EvalFieldsKeeps(bits, fields, tail, index, data, wave, values[i0 := v]);
        assert forall p :: p !in idxs ==> p != i0 && p !in tail;
    }
  }

  /** One sample: its values, the regular values the checksum pass saw, and the error that stopped it. */
  datatype SampleRun = SampleRun(values: seq<int>, data: seq<int>, err: Option<GenError>)

  /** `[sample_values[idx] for idx, _ in regular_fields]`. */
  function Gather(values: seq<int>, idxs: seq<nat>): (r: seq<int>)
    requires InBounds(idxs, |values|)
    ensures |r| == |idxs| && forall k :: 0 <= k < |idxs| ==> r[k] == values[idxs[k]]
  {
    seq(|idxs|, k requires 0 <= k < |idxs| => values[idxs[k]])
  }

  /**
   * The two passes of `generate_data` for sample `index`: the regular fields see the regular
   * values the previous sample left (`prev`), then the checksum fields see this sample's.
   */
  function Sample(bits: Bits, fields: seq<string>, index: nat, prev: seq<int>, wave: Waveform): (s: SampleRun)
    ensures |s.values| == |fields|
  {
    var regular := RegularIndices(fields);
    var first := EvalFields(bits, fields, regular, index, prev, wave, seq(|fields|, _ => 0));
    if first.err.Some? then SampleRun(first.values, prev, first.err)
    else
      var data := Gather(first.values, regular);
      var second := EvalFields(bits, fields, ChecksumIndices(fields), index, data, wave, first.values);
      SampleRun(second.values, data, second.err)
  }

  /**
   * A complete sample holds `process_field` of each regular field with the previous sample's
   * data, the checksum pass sees exactly the regular values in field order, and each checksum
   * field holds `process_field` with those.
   */
  lemma SampleTwoPasses(bits: Bits, fields: seq<string>, index: nat, prev: seq<int>, wave: Waveform)
    ensures var s := Sample(bits, fields, index, prev, wave);
      var regular, checksums := RegularIndices(fields), ChecksumIndices(fields);
      s.err == None ==>
        s.data == Gather(s.values, regular)
        && (forall k :: 0 <= k < |regular| ==>
              ProcessField(bits, fields[regular[k]], index, prev, wave) == Ok(s.values[regular[k]]))
        && (forall k :: 0 <= k < |checksums| ==>
              ProcessField(bits, fields[checksums[k]], index, s.data, wave) == Ok(s.values[checksums[k]]))
  {
    var regular, checksums := RegularIndices(fields), ChecksumIndices(fields);
    var zeros := seq(|fields|, _ => 0);
    PassesPartition(fields);
    EvalFieldsStores(bits, fields, regular, index, prev, wave, zeros);
    var first := EvalFields(bits, fields, regular, index, prev, wave, zeros);
    if first.err == None {
      var data := Gather(first.values, regular);
      EvalFieldsStores(bits, fields, checksums, index, data, wave, first.values);
      EvalFieldsKeeps(bits, fields, checksums, index, data, wave, first.values);
      var second := EvalFields(bits, fields, checksums, index, data, wave, first.values);
      if second.err == None {
        forall k | 0 <= k < |regular|
          ensures second.values[regular[k]] == first.values[regular[k]]
        {
          assert regular[k] !in checksums;
        }
      }
    }
  }

  /** `struct.pack('<b'|'<h'|'<i', v)` for a negative value and `'<B'|'<H'|'<I'` otherwise. */
  function PackValue(bits: Bits, v: int): (r: Result<seq<byte>, GenError>)
    ensures r.Ok? ==> |r.value| == ByteWidth(bits)
  {
    if v < 0 then
      if v >= MinValue(bits) then Ok(EncodeLE(v + Modulus(bits), ByteWidth(bits))) else Err(OutOfRange(v))
    else if v <= MaxUnsigned(bits) then Ok(EncodeLE(v, ByteWidth(bits)))
    else Err(OutOfRange(v))
  }

  /** Packing succeeds exactly for the values the width can hold, signed or unsigned. */
  lemma PackValueRange(bits: Bits, v: int)
    ensures PackValue(bits, v).Ok? <==> MinValue(bits) <= v <= MaxUnsigned(bits)
    ensures 0 <= v <= MaxUnsigned(bits) ==> DecodeLE(PackValue(bits, v).value) == v
  {
    WidthBounds(bits);
    if 0 <= v <= MaxUnsigned(bits) {
      DecodeEncode(v, ByteWidth(bits));
    }
  }

  /** The bytes one sample adds to the file, and the packing error that cut it short. */
  datatype Packed = Packed(bytes: seq<byte>, err: Option<GenError>)

  /** The write loop of one sample: each value packed in field order, until one cannot be packed. */
  function PackSample(bits: Bits, values: seq<int>): Packed
  {
    if values == [] then Packed([], None)
    else match PackValue(bits, values[0])
      case Err(e) => Packed([], Some(e))
      case Ok(b) =>
        var rest := PackSample(bits, values[1..]);
        Packed(b + rest.bytes, rest.err)
  }

  /** The little-endian layout of values the width holds: `bits // 8` bytes each, in order. */
  function Layout(bits: Bits, values: seq<int>): seq<byte>
  {
    if values == [] then [] else EncodeLE(if values[0] < 0 then 0 else values[0], ByteWidth(bits)) + Layout(bits, values[1..])
  }

  predicate Unsigned(bits: Bits, values: seq<int>)
  {
    forall k :: 0 <= k < |values| ==> 0 <= values[k] <= MaxUnsigned(bits)
  }

  lemma {:induction false} PackSampleLayout(bits: Bits, values: seq<int>)
    requires Unsigned(bits, values)
    ensures PackSample(bits, values) == Packed(Layout(bits, values), None)
    ensures |Layout(bits, values)| == |values| * ByteWidth(bits)
  {
    if values != [] {
      PackSampleLayout(bits, values[1..]);
      assert |Layout(bits, values)| == ByteWidth(bits) + (|values| - 1) * ByteWidth(bits);
      MulStep(|values|, ByteWidth(bits));
    }
  }

  /** The generator's state after a run: the file, `sample_index`, `current_sample_data`, the samples written and the error. */
  datatype Generation = Generation(out: seq<byte>, index: int, data: seq<int>, samples: seq<seq<int>>, failed: Option<GenError>)

  /**
   * One iteration of the sample loop of `generate_data` once sample `s` is computed:
   * `sample_index` is set, `current_sample_data` takes the regular values, and the packed
   * values are appended.
   */
  function Advance(bits: Bits, i: nat, g: Generation, s: SampleRun): Generation
  {
    var g1 := g.(index := i, data := s.data);
    if s.err.Some? then g1.(failed := s.err)
    else
      var p := PackSample(bits, s.values);
      var g2 := g1.(out := g.out + p.bytes);
      if p.err.Some? then g2.(failed := p.err)
      else g2.(samples := g.samples + [s.values])
  }

  /** The sample loop of `generate_data` from sample `i` on, stopping at the first error. */
  function GenerateFrom(bits: Bits, fields: seq<string>, count: int, wave: Waveform, i: nat, g: Generation): Generation
    decreases count - i
  {
    if i >= count then g
    else
      var next := Advance(bits, i, g, Sample(bits, fields, i, g.data, wave));
      if next.failed.Some? then next else GenerateFrom(bits, fields, count, wave, i + 1, next)
  }

  /** `generate_data` on the fields of a definition file, from the generator's current state. */
  function Generate(bits: Bits, fields: seq<string>, count: int, wave: Waveform, index: int, data: seq<int>): (r: Generation)
    ensures fields == [] ==> r.failed == Some(NoFields) && r.out == [] && r.samples == []
    ensures fields != [] && count <= 0 ==> r == Generation([], index, data, [], None)
  {
    if fields == [] then Generation([], index, data, [], Some(NoFields))
    else GenerateFrom(bits, fields, count, wave, 0, Generation([], index, data, [], None))
  }

  /** The samples' values laid out one after another. */
  function Flatten(bits: Bits, samples: seq<seq<int>>): seq<byte>
  {
    if samples == [] then [] else Flatten(bits, samples[..|samples| - 1]) + Layout(bits, samples[|samples| - 1])
  }

  predicate WellFormed(bits: Bits, samples: seq<seq<int>>, width: nat)
  {
    forall k :: 0 <= k < |samples| ==> |samples[k]| == width && Unsigned(bits, samples[k])
  }

  /**
   * A hex literal above `max_unsigned` makes packing fail; every other complete sample is
   * within the width, since the other fields are clamped.
   */
  lemma CompleteSampleInRange(bits: Bits, fields: seq<string>, index: nat, prev: seq<int>, wave: Waveform)
    requires Sample(bits, fields, index, prev, wave).err == None
    requires PackSample(bits, Sample(bits, fields, index, prev, wave).values).err == None
    ensures Unsigned(bits, Sample(bits, fields, index, prev, wave).values)
  {
    var s := Sample(bits, fields, index, prev, wave);
    SampleTwoPasses(bits, fields, index, prev, wave);
    PassesPartition(fields);
    forall k | 0 <= k < |s.values|
      ensures 0 <= s.values[k] <= MaxUnsigned(bits)
    {
      assert k in RegularIndices(fields) || k in ChecksumIndices(fields);
      if k in RegularIndices(fields) {
        var j :| 0 <= j < |RegularIndices(fields)| && RegularIndices(fields)[j] == k;
      } else {
        var j :| 0 <= j < |ChecksumIndices(fields)| && ChecksumIndices(fields)[j] == k;
      }
      PackedValues(bits, s.values, k);
    }
  }

  /** Every value of a sample that packed without error fits the width, or is a negative the signed format took. */
  lemma {:induction false} PackedValues(bits: Bits, values: seq<int>, k: nat)
    requires PackSample(bits, values).err == None && k < |values|
    requires values[k] >= 0
    ensures values[k] <= MaxUnsigned(bits)
    decreases k
  {
    PackValueRange(bits, values[0]);
    if k > 0 {
      PackedValues(bits, values[1..], k - 1);
    }
  }

  /** A sample that completes adds one well-formed sample and its layout to the file. */
  lemma AdvanceShape(bits: Bits, width: nat, i: nat, g: Generation, s: SampleRun)
    requires |g.samples| == i && WellFormed(bits, g.samples, width) && g.out == Flatten(bits, g.samples)
    requires s.err == None && PackSample(bits, s.values).err == None ==> |s.values| == width && Unsigned(bits, s.values)
    ensures var n := Advance(bits, i, g, s);
      n.failed == None ==>
        |n.samples| == i + 1 && WellFormed(bits, n.samples, width) && n.out == Flatten(bits, n.samples)
  {
    if s.err == None && PackSample(bits, s.values).err == None {
      PackSampleLayout(bits, s.values);
      var samples := g.samples + [s.values];
      assert samples[..|samples| - 1] == g.samples;
    }
  }

  /** One sample of the loop keeps the shape `GenerateFromShape` carries. */
  lemma SampleStepShape(bits: Bits, fields: seq<string>, wave: Waveform, i: nat, g: Generation)
    requires |g.samples| == i && WellFormed(bits, g.samples, |fields|) && g.out == Flatten(bits, g.samples)
    ensures var n := Advance(bits, i, g, Sample(bits, fields, i, g.data, wave));
      n.failed == None ==>
        |n.samples| == i + 1 && WellFormed(bits, n.samples, |fields|) && n.out == Flatten(bits, n.samples)
  {
    var s := Sample(bits, fields, i, g.data, wave);
    if s.err == None && PackSample(bits, s.values).err == None {
      CompleteSampleInRange(bits, fields, i, g.data, wave);
    }
    AdvanceShape(bits, |fields|, i, g, s);
  }

  lemma {:induction false} GenerateFromShape(bits: Bits, fields: seq<string>, count: int, wave: Waveform, i: nat, g: Generation)
    requires i <= Max(count, 0)
    requires g.failed == None && |g.samples| == i && WellFormed(bits, g.samples, |fields|) && g.out == Flatten(bits, g.samples)
    ensures var r := GenerateFrom(bits, fields, count, wave, i, g);
      r.failed == None ==>
        |r.samples| == Max(count, 0) && WellFormed(bits, r.samples, |fields|) && r.out == Flatten(bits, r.samples)
    decreases count - i
  {
    if i < count {
      SampleStepShape(bits, fields, wave, i, g);
      var next := Advance(bits, i, g, Sample(bits, fields, i, g.data, wave));
      if next.failed == None {
        GenerateFromShape(bits, fields, count, wave, i + 1, next);
      }
    }
  }

  lemma {:induction false} FlattenSize(bits: Bits, samples: seq<seq<int>>, width: nat)
    requires WellFormed(bits, samples, width)
    ensures |Flatten(bits, samples)| == |samples| * (width * ByteWidth(bits))
  {
    if samples != [] {
      FlattenSize(bits, samples[..|samples| - 1], width);
      PackSampleLayout(bits, samples[|samples| - 1]);
      MulStep(|samples|, width * ByteWidth(bits));
    }
  }

  /**
   * A run without error writes `count` samples of `len(fields)` values, each value in range,
   * laid out as `count * len(fields) * (bits // 8)` bytes: the file size `generate_data` reports.
   */
  lemma GenerateSize(bits: Bits, fields: seq<string>, count: int, wave: Waveform, index: int, data: seq<int>)
    ensures var r := Generate(bits, fields, count, wave, index, data);
      r.failed == None ==>
        |r.samples| == Max(count, 0) && WellFormed(bits, r.samples, |fields|) && r.out == Flatten(bits, r.samples)
        && |r.out| == Max(count, 0) * (|fields| * ByteWidth(bits))
  {
    var r := Generate(bits, fields, count, wave, index, data);
    if fields != [] {
      GenerateFromShape(bits, fields, count, wave, 0, Generation([], index, data, [], None));
      if r.failed == None {
        FlattenSize(bits, r.samples, |fields|);
      }
    }
  }

  class DataGenerator {
    const bits: Bits
    var sampleIndex: int
    var currentSampleData: seq<int>

    /** `DataGenerator(bits)`: the bounds follow from the width; no sample has been made yet. */
    constructor(bits: Bits)
      ensures this.bits == bits && sampleIndex == 0 && currentSampleData == []
    {
      this.bits := bits;
      sampleIndex := 0;
      currentSampleData := [];
    }

    /** One pass: `process_field` on each field of `idxs`, stored at its index; the first failure stops it. */
    method FillFields(values: array<int>, fields: seq<string>, idxs: seq<nat>, index: nat, data: seq<int>, wave: Waveform)
      returns (err: Option<GenError>)
      requires values.Length == |fields| && InBounds(idxs, |fields|)
      modifies values
      ensures Filled(values[..], err) == EvalFields(bits, fields, idxs, index, data, wave, old(values[..]))
    {
      ghost var target := EvalFields(bits, fields, idxs, index, data, wave, values[..]);
      for k := 0 to |idxs|
        invariant EvalFields(bits, fields, idxs[k..], index, data, wave, values[..]) == target
      {
        assert idxs[k..][0] == idxs[k] && idxs[k..][1..] == idxs[k + 1..];
        var value := ProcessField(bits, fields[idxs[k]], index, data, wave);
        if value.Err? {
          return Some(value.error);
        }
        values[idxs[k]] := value.value;
      }
      assert idxs[|idxs|..] == [];
      return None;
    }

    /** The write loop: each value packed and appended in field order, until one cannot be packed. */
    method WriteSample(values: array<int>) returns (written: seq<byte>, err: Option<GenError>)
      ensures Packed(written, err) == PackSample(bits, values[..])
    {
      written := [];
      for k := 0 to values.Length
        invariant PackSample(bits, values[..]) == (var rest := PackSample(bits, values[k..]); Packed(written + rest.bytes, rest.err))
      {
        assert values[k..][0] == values[k] && values[k..][1..] == values[k + 1..];
        var packed := PackValue(bits, values[k]);
        if packed.Err? {
          return written, Some(packed.error);
        }
        written := written + packed.value;
      }
      assert values[values.Length..] == [];
      return written, None;
    }

    /**
     * `generate_data` on the lines of a definition file: the written file and the error that
     * ended the run, with `sample_index` and `current_sample_data` as the run leaves them.
     */
    method GenerateData(lines: seq<string>, count: int, wave: Waveform) returns (out: seq<byte>, err: Option<GenError>)
      modifies this
      ensures var g := Generate(bits, DefinitionFields(lines), count, wave, old(sampleIndex), old(currentSampleData));
        out == g.out && err == g.failed && sampleIndex == g.index && currentSampleData == g.data
    {
      var fields := ParseDefinitionFile(lines);
      if fields == [] {
        return [], Some(NoFields);
      }
      var regular, checksums := Classify(fields);
      out := [];
      ghost var g := Generation([], sampleIndex, currentSampleData, [], None);
      ghost var final := GenerateFrom(bits, fields, count, wave, 0, g);
      var i: nat := 0;
      while i < count
        invariant GenerateFrom(bits, fields, count, wave, i, g) == final
        invariant g.failed == None && g.out == out && g.index == sampleIndex && g.data == currentSampleData
        decreases count - i
      {
        ghost var s := Sample(bits, fields, i, currentSampleData, wave);
        var written, failure := ProduceSample(fields, regular, checksums, i, wave);
        out := out + written;
        g := Advance(bits, i, g, s);
        if failure.Some? {
          return out, failure;
        }
        i := i + 1;
      }
      return out, None;
    }

    /**
     * One iteration of the sample loop: both passes into a fresh array, then the write loop;
     * nothing is written when a pass fails.
     */
    method ProduceSample(fields: seq<string>, regular: seq<nat>, checksums: seq<nat>, i: nat, wave: Waveform)
      returns (written: seq<byte>, failure: Option<GenError>)
      requires regular == RegularIndices(fields) && checksums == ChecksumIndices(fields)
      modifies this
      ensures var s := Sample(bits, fields, i, old(currentSampleData), wave);
        sampleIndex == i && currentSampleData == s.data
        && (s.err.Some? ==> written == [] && failure == s.err)
        && (s.err.None? ==> Packed(written, failure) == PackSample(bits, s.values))
    {
      sampleIndex := i;
      var sampleValues := new int[|fields|](_ => 0);
      assert sampleValues[..] == seq(|fields|, _ => 0);
      failure := FillFields(sampleValues, fields, regular, i, currentSampleData, wave);
      if failure.Some? {
        return [], failure;
      }
      currentSampleData := Gather(sampleValues[..], regular);
      failure := FillFields(sampleValues, fields, checksums, i, currentSampleData, wave);
      if failure.Some? {
        return [], failure;
      }
      written, failure := WriteSample(sampleValues);
    }

    /** The classification loop of `generate_data`: which fields wait for the checksum pass. */
    static method Classify(fields: seq<string>) returns (regular: seq<nat>, checksums: seq<nat>)
      ensures regular == RegularIndices(fields) && checksums == ChecksumIndices(fields)
    {
      regular, checksums := [], [];
      ghost var marks := ChecksumMarks(fields);
      for i := 0 to |fields|
        invariant regular == IndicesWhere(marks, false, i) && checksums == IndicesWhere(marks, true, i)
      {
        if IsChecksumField(fields[i]) {
          checksums := checksums + [i];
        } else {
          regular := regular + [i];
        }
      }
    }
  }
}
