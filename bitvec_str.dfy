/**
 * Showing and reading signal values as text in the terminal front end
 * (oombak_tui/src/utils/bitvec_str.rs).
 *
 * A value is a bit vector, least significant bit first. It is shown in
 * binary, hexadecimal, octal or decimal at a given width, unsigned or as a
 * two's complement number; a typed value is read from text that is either a
 * decimal number or `0b`, `0x`, `0o` followed by binary, hexadecimal or
 * octal digits.
 */
module BitvecStr {
  import opened Wrappers
  import opened Bits

  datatype Radix = Binary | Hexadecimal | Octal | Decimal

  /** How a value is shown: its radix, its width, and whether it is signed. */
  datatype FormatOption = FormatOption(radix: Radix, width: nat, twosComplement: bool)

  /** The default: binary, width 0, unsigned. */
  const DefaultOption := FormatOption(Binary, 0, false)

  // ---------------------------------------------------------------------------
  // Resizing
  // ---------------------------------------------------------------------------

  /** The bit a resize fills with: the top bit of a signed value, else 0. */
  function Fill(bv: BitVec, twosComplement: bool): bool {
    twosComplement && bv != [] && bv[|bv| - 1]
  }

  /**
   * get_resized_bitvec: the value cut to `width` bits, or extended to it
   * with zeros (unsigned) or with copies of its top bit (signed).
   */
  function Resized(bv: BitVec, width: nat, twosComplement: bool): (r: BitVec)
    ensures |r| == width
    ensures forall i :: 0 <= i < width ==> r[i] == if i < |bv| then bv[i] else Fill(bv, twosComplement)
  {
    if width <= |bv| then bv[..width]
    else bv + seq(width - |bv|, _ => Fill(bv, twosComplement))
  }

  /** Resizing to a smaller width keeps the low bits of resizing to a larger one. */
  lemma {:induction false} ResizedPrefix(bv: BitVec, m: nat, n: nat, twosComplement: bool)
    requires m <= n
    ensures Resized(bv, m, twosComplement) == Resized(bv, n, twosComplement)[..m]
  {
  }

  /**
   * Extending never loses anything: a value first extended to `m` and then
   * resized to `n` is the value resized to `n` directly (a sign extension
   * of a sign extension is a sign extension).
   */
  lemma {:induction false} ResizeComposes(bv: BitVec, m: nat, n: nat, twosComplement: bool)
    requires |bv| <= m
    ensures Resized(Resized(bv, m, twosComplement), n, twosComplement) == Resized(bv, n, twosComplement)
  {
    var e := Resized(bv, m, twosComplement);
    assert Fill(e, twosComplement) == Fill(bv, twosComplement) by {
      if twosComplement && bv != [] {
        assert e[m - 1] == if m - 1 < |bv| then bv[m - 1] else Fill(bv, twosComplement);
      }
    }
  }

  /** A bit vector read as a two's complement number. */
  function SignedValue(bs: BitVec): int
    requires |bs| >= 1
  {
    PackBits(bs) - (if bs[|bs| - 1] then Pow2(|bs|) else 0)
  }

  lemma {:induction false} PackBitsSnoc(bs: BitVec, b: bool)
    ensures PackBits(bs + [b]) == PackBits(bs) + (if b then Pow2(|bs|) else 0)
    decreases |bs|
  {
    if bs != [] {
      assert (bs + [b])[1..] == bs[1..] + [b];
      PackBitsSnoc(bs[1..], b);
    }
  }

  /**
   * Widening keeps the number: an unsigned value extended with zeros reads
   * as the same number, and a signed value extended with copies of its top
   * bit reads as the same two's complement number.
   */
  lemma {:induction false} ResizeKeepsValue(bv: BitVec, width: nat, twosComplement: bool)
    requires |bv| <= width
    ensures !twosComplement ==> PackBits(Resized(bv, width, twosComplement)) == PackBits(bv)
    ensures twosComplement && |bv| >= 1 ==> SignedValue(Resized(bv, width, twosComplement)) == SignedValue(bv)
    decreases width - |bv|
  {
    if width == |bv| {
      assert Resized(bv, width, twosComplement) == bv;
    } else {
      var prev := Resized(bv, width - 1, twosComplement);
      var b := Fill(bv, twosComplement);
      ResizeKeepsValue(bv, width - 1, twosComplement);
      assert Resized(bv, width, twosComplement) == prev + [b];
      PackBitsSnoc(prev, b);
      if twosComplement && |bv| >= 1 {
        assert prev[width - 2] == b;
        assert Pow2(width) == 2 * Pow2(width - 1);
      }
    }
  }

  // ---------------------------------------------------------------------------
  // Formatting
  // ---------------------------------------------------------------------------

  function BinaryChar(b: bool): char {
    if b then '1' else '0'
  }

  /** binary: the resized value, most significant bit first. */
  function BinaryString(bv: BitVec, width: nat, twosComplement: bool): (s: string)
    ensures |s| == width
    ensures forall j :: 0 <= j < width ==>
      s[j] == BinaryChar(if width - 1 - j < |bv| then bv[width - 1 - j] else Fill(bv, twosComplement))
  {
    var r := Resized(bv, width, twosComplement);
    seq(width, j requires 0 <= j < width => BinaryChar(r[width - 1 - j]))
  }

  /**
   * round_to_nearest_larger_multiple: a width that is not a multiple is
   * taken one past the next multiple.
   */
  function RoundUp(value: nat, multiple: nat): nat
    requires multiple > 0
  {
    if value % multiple != 0 then (value / multiple + 1) * multiple + 1 else value
  }

  lemma {:induction false} DivUnique(w: nat, d: nat, a: nat, r: nat)
    requires d > 0 && r < d && w == d * a + r
    ensures w / d == a
  {
    DivModUnique(w, d, a, r);
  }

  /**
   * The extra bit past the multiple never makes a whole group: the rounded
   * width holds exactly `value / multiple` groups, rounded up.
   */
  lemma {:induction false} RoundUpGroups(value: nat, multiple: nat)
    requires multiple >= 2
    ensures RoundUp(value, multiple) >= value
    ensures RoundUp(value, multiple) / multiple == (value + multiple - 1) / multiple
  {
    var q, r := value / multiple, value % multiple;
    assert value == multiple * q + r;
    if r != 0 {
      assert (q + 1) * multiple == multiple * (q + 1);
      DivUnique(RoundUp(value, multiple), multiple, q + 1, 1);
      DivUnique(value + multiple - 1, multiple, q + 1, r - 1);
    } else {
      DivUnique(value + multiple - 1, multiple, q, multiple - 1);
    }
  }

  /** binary_tuple_to_hexadecimal_digit: four bits, most significant first. */
  function HexDigit(a: bool, b: bool, c: bool, d: bool): (h: char)
    ensures '0' <= h <= '9' || 'A' <= h <= 'F'
  {
    match (a, b, c, d)
    case (false, false, false, false) => '0'
    case (false, false, false, true) => '1'
    case (false, false, true, false) => '2'
    case (false, false, true, true) => '3'
    case (false, true, false, false) => '4'
    case (false, true, false, true) => '5'
    case (false, true, true, false) => '6'
    case (false, true, true, true) => '7'
    case (true, false, false, false) => '8'
    case (true, false, false, true) => '9'
    case (true, false, true, false) => 'A'
    case (true, false, true, true) => 'B'
    case (true, true, false, false) => 'C'
    case (true, true, false, true) => 'D'
    case (true, true, true, false) => 'E'
    case (true, true, true, true) => 'F'
  }

  /** binary_tuple_to_octal_digit: three bits, most significant first. */
  function OctDigit(a: bool, b: bool, c: bool): char {
    match (a, b, c)
    case (false, false, false) => '0'
    case (false, false, true) => '1'
    case (false, true, false) => '2'
    case (false, true, true) => '3'
    case (true, false, false) => '4'
    case (true, false, true) => '5'
    case (true, true, false) => '6'
    case (true, true, true) => '7'
  }

  /**
   * hexadecimal: the value resized to the rounded width, cut into groups of
   * four bits from the bottom (a last partial group is dropped), one digit
   * per group, most significant group first.
   */
  function HexadecimalString(bv: BitVec, width: nat, twosComplement: bool): (s: string)
    ensures |s| == (width + 3) / 4
  {
    RoundUpGroups(width, 4);
    var r := Resized(bv, RoundUp(width, 4), twosComplement);
    var n := RoundUp(width, 4) / 4;
    seq(n, j requires 0 <= j < n =>
      var g := n - 1 - j;
      HexDigit(r[4 * g + 3], r[4 * g + 2], r[4 * g + 1], r[4 * g]))
  }

  /** Hexadecimal digits are shown in upper case. */
  lemma {:induction false} HexadecimalUpperCase(bv: BitVec, width: nat, twosComplement: bool)
    ensures forall j :: 0 <= j < |HexadecimalString(bv, width, twosComplement)| ==>
      var c := HexadecimalString(bv, width, twosComplement)[j];
      '0' <= c <= '9' || 'A' <= c <= 'F'
  {
    RoundUpGroups(width, 4);
    var s := HexadecimalString(bv, width, twosComplement);
    var r, n := Resized(bv, RoundUp(width, 4), twosComplement), RoundUp(width, 4) / 4;
    forall j | 0 <= j < |s|
      ensures '0' <= s[j] <= '9' || 'A' <= s[j] <= 'F'
    {
      var g := n - 1 - j;
      assert s[j] == HexDigit(r[4 * g + 3], r[4 * g + 2], r[4 * g + 1], r[4 * g]);
    }
  }

  /** octal: as hexadecimal, in groups of three bits. */
  function OctalString(bv: BitVec, width: nat, twosComplement: bool): (s: string)
    ensures |s| == (width + 2) / 3
  {
    RoundUpGroups(width, 3);
    var r := Resized(bv, RoundUp(width, 3), twosComplement);
    var n := RoundUp(width, 3) / 3;
    seq(n, j requires 0 <= j < n =>
      var g := n - 1 - j;
      OctDigit(r[3 * g + 2], r[3 * g + 1], r[3 * g]))
  }

  /** The largest 128-bit unsigned number. */
  const U128Max: nat := 0xFFFF_FFFF_FFFF_FFFF_FFFF_FFFF_FFFF_FFFF

  lemma {:induction false} Pow2Of128()
    ensures Pow2(16) == 0x1_0000
    ensures Pow2(127) == 0x8000_0000_0000_0000_0000_0000_0000_0000
    ensures Pow2(128) == U128Max + 1
  {
    assert Pow2(8) == 0x100;
    Pow2Add(8, 8);
    Pow2Add(16, 16);
    Pow2Add(32, 32);
    Pow2Add(64, 64);
    assert Pow2(128) == 2 * Pow2(127);
  }

  function DigitChar(d: nat): char
    requires d < 10
  {
    ('0' as int + d) as char
  }

  /** A number in decimal, without leading zeros. */
  function NatToString(n: nat): (s: string)
    ensures |s| >= 1
    decreases n
  {
    if n < 10 then [DigitChar(n)] else NatToString(n / 10) + [DigitChar(n % 10)]
  }

  /** decimal supports values of at most 128 bits, or 127 when signed. */
  predicate DecimalWidthSupported(width: nat, twosComplement: bool) {
    !(twosComplement && width > 127) && !(!twosComplement && width > 128)
  }

  /**
   * decimal: the value resized to 128 bits, read as an unsigned number; a
   * signed value with its top bit set is shown as "-" and the 128-bit
   * two's complement of that number.
   */
  function DecimalString(bv: BitVec, width: nat, twosComplement: bool): string
    requires DecimalWidthSupported(width, twosComplement)
  {
    var r := Resized(bv, 128, twosComplement);
    var value := PackBits(r);
    if twosComplement && r[127] then "-" + NatToString((U128Max - value + 1) % (U128Max + 1))
    else NatToString(value)
  }

  /** A bit vector's number is at least half its range exactly when its top bit is set. */
  lemma {:induction false} PackBitsTop(bs: BitVec)
    requires |bs| >= 1
    ensures PackBits(bs) >= Pow2(|bs| - 1) <==> bs[|bs| - 1]
  {
    if |bs| > 1 {
      PackBitsTop(bs[1..]);
      assert bs[1..][|bs| - 2] == bs[|bs| - 1];
    }
  }

  /**
   * The decimal text of a 128-bit extended value: an unsigned or
   * non-negative value is its number, and a negative signed one is "-"
   * followed by its magnitude, between 1 and 2^127, so that the text reads
   * as the value's two's complement number.
   */
  lemma {:induction false} DecimalStringValue(bv: BitVec, width: nat, twosComplement: bool)
    requires DecimalWidthSupported(width, twosComplement)
    ensures var r := Resized(bv, 128, twosComplement);
      var value := PackBits(r);
      && (twosComplement && r[127] ==>
            && Pow2(127) <= value < Pow2(128)
            && DecimalString(bv, width, twosComplement) == "-" + NatToString(Pow2(128) - value)
            && 1 <= Pow2(128) - value <= Pow2(127))
      && (!(twosComplement && r[127]) ==>
            && DecimalString(bv, width, twosComplement) == NatToString(value)
            && (twosComplement ==> value < Pow2(127)))
  {
    var r := Resized(bv, 128, twosComplement);
    var value := PackBits(r);
    PackBitsTop(r);
    Pow2Of128();
    if twosComplement && r[127] {
      var m := U128Max - value + 1;
      assert 1 <= m <= Pow2(127);
      assert m % (U128Max + 1) == m;
      assert DecimalString(bv, width, twosComplement) == "-" + NatToString(m);
    }
  }

  /** from: the value shown as the option says. */
  function Format(bv: BitVec, option: FormatOption): string
    requires option.radix == Decimal ==> DecimalWidthSupported(option.width, option.twosComplement)
  {
    match option.radix
    case Binary => BinaryString(bv, option.width, option.twosComplement)
    case Hexadecimal => HexadecimalString(bv, option.width, option.twosComplement)
    case Octal => OctalString(bv, option.width, option.twosComplement)
    case Decimal => DecimalString(bv, option.width, option.twosComplement)
  }

  // ---------------------------------------------------------------------------
  // Parsing
  // ---------------------------------------------------------------------------

  const EmptyValueMessage := "cannot parse empty value"
  const NotBinaryMessage := "binary value can only contain 1's and 0's"

  predicate IsBinaryDigit(c: char) {
    c == '0' || c == '1'
  }

  /** What parse_binary reads: the bits of a string of 1's and 0's, last character first. */
  function ParseBinarySpec(chars: string): Result<BitVec, string> {
    if forall i :: 0 <= i < |chars| ==> IsBinaryDigit(chars[i]) then
      Ok(seq(|chars|, i requires 0 <= i < |chars| => chars[|chars| - 1 - i] == '1'))
    else
      Err(NotBinaryMessage)
  }

  /** parse_binary: push one bit per character, from the last character to the first. */
  method ParseBinary(chars: string) returns (r: Result<BitVec, string>)
    ensures r == ParseBinarySpec(chars)
  {
    var result: BitVec := [];
    var i := 0;
    while i < |chars|
      invariant i <= |chars| && |result| == i
      invariant forall k :: |chars| - i <= k < |chars| ==> IsBinaryDigit(chars[k])
      invariant forall k :: 0 <= k < i ==> result[k] == (chars[|chars| - 1 - k] == '1')
    {
      var c := chars[|chars| - 1 - i];
      if c != '0' && c != '1' {
        assert !IsBinaryDigit(chars[|chars| - 1 - i]);
        return Err(NotBinaryMessage);
      }
      result := result + [c == '1'];
      i := i + 1;
    }
    assert result == seq(|chars|, k requires 0 <= k < |chars| => chars[|chars| - 1 - k] == '1');
    return Ok(result);
  }

  /** hexadecimal_digit_to_binary_chars: either case of a hexadecimal digit, as four binary digits. */
  function HexDigitToBinaryChars(c: char): Result<string, string> {
    match c
    case '0' => Ok("0000")
    case '1' => Ok("0001")
    case '2' => Ok("0010")
    case '3' => Ok("0011")
    case '4' => Ok("0100")
    case '5' => Ok("0101")
    case '6' => Ok("0110")
    case '7' => Ok("0111")
    case '8' => Ok("1000")
    case '9' => Ok("1001")
    case 'a' | 'A' => Ok("1010")
    case 'b' | 'B' => Ok("1011")
    case 'c' | 'C' => Ok("1100")
    case 'd' | 'D' => Ok("1101")
    case 'e' | 'E' => Ok("1110")
    case 'f' | 'F' => Ok("1111")
    case _ => Err([c] + " is not a valid hexadecimal digit")
  }

  /** octal_digit_to_binary_chars: an octal digit as three binary digits. */
  function OctDigitToBinaryChars(c: char): Result<string, string> {
    match c
    case '0' => Ok("000")
    case '1' => Ok("001")
    case '2' => Ok("010")
    case '3' => Ok("011")
    case '4' => Ok("100")
    case '5' => Ok("101")
    case '6' => Ok("110")
    case '7' => Ok("111")
    case _ => Err([c] + " is not a valid octal digit")
  }

  /** Each digit's binary digits, concatenated in order; the first digit that fails is the error. */
  function ExpandDigits(chars: string, code: char -> Result<string, string>): Result<string, string>
    decreases |chars|
  {
    if chars == [] then Ok([])
    else
      match code(chars[0])
      case Err(e) => Err(e)
      case Ok(bits) =>
        match ExpandDigits(chars[1..], code)
        case Err(e) => Err(e)
        case Ok(rest) => Ok(bits + rest)
  }

  /**
   * Expanding succeeds exactly when every digit is valid; otherwise the
   * error is that of the first invalid digit.
   */
  lemma {:induction false} ExpandDigitsOutcome(chars: string, code: char -> Result<string, string>)
    ensures ExpandDigits(chars, code).Ok? <==> forall j :: 0 <= j < |chars| ==> code(chars[j]).Ok?
    ensures ExpandDigits(chars, code).Err? ==>
      exists i :: 0 <= i < |chars| && code(chars[i]) == Err(ExpandDigits(chars, code).error)
        && forall j :: 0 <= j < i ==> code(chars[j]).Ok?
    decreases |chars|
  {
    if chars != [] {
      var tail := chars[1..];
      assert forall j :: 0 <= j < |tail| ==> tail[j] == chars[j + 1];
      ExpandDigitsOutcome(tail, code);
      if code(chars[0]).Ok? && ExpandDigits(tail, code).Err? {
        var i :| 0 <= i < |tail| && code(tail[i]) == Err(ExpandDigits(tail, code).error)
          && forall j :: 0 <= j < i ==> code(tail[j]).Ok?;
        assert code(chars[i + 1]) == Err(ExpandDigits(chars, code).error);
      }
    }
  }

  lemma {:induction false} MulStep(k: nat, j: nat)
    requires j > 0
    ensures k * j == k + k * (j - 1)
  {
  }

  lemma {:induction false} MulBelow(k: nat, j: nat, t: nat, n: nat)
    requires j < n && t < k
    ensures k * j + t < k * n
  {
    MulStep(k, n - j);
    assert k * n == k * j + k * (n - j);
    MulAtLeast(k, n - j);
  }

  /** Digits that each code `k` binary digits expand to `k` binary digits apiece. */
  lemma {:induction false} ExpandDigitsLength(chars: string, code: char -> Result<string, string>, k: nat)
    requires forall j :: 0 <= j < |chars| ==> code(chars[j]).Ok? && |code(chars[j]).value| == k
    ensures ExpandDigits(chars, code).Ok?
    ensures |ExpandDigits(chars, code).value| == k * |chars|
    decreases |chars|
  {
    if chars != [] {
      var tail := chars[1..];
      assert forall j :: 0 <= j < |tail| ==> tail[j] == chars[j + 1];
      ExpandDigitsLength(tail, code, k);
      MulStep(k, |chars|);
    }
  }

  /** Binary digit t of digit j sits at position k*j + t of the expansion. */
  lemma {:induction false} ExpandDigitsAt(chars: string, code: char -> Result<string, string>, k: nat, j: nat, t: nat)
    requires forall j :: 0 <= j < |chars| ==> code(chars[j]).Ok? && |code(chars[j]).value| == k
    requires j < |chars| && t < k
    ensures ExpandDigits(chars, code).Ok? && k * j + t < |ExpandDigits(chars, code).value|
    ensures ExpandDigits(chars, code).value[k * j + t] == code(chars[j]).value[t]
    decreases j
  {
    ExpandDigitsLength(chars, code, k);
    MulBelow(k, j, t, |chars|);
    var tail := chars[1..];
    assert forall i :: 0 <= i < |tail| ==> tail[i] == chars[i + 1];
    ExpandDigitsLength(tail, code, k);
    var bits, rest := code(chars[0]).value, ExpandDigits(tail, code).value;
    assert ExpandDigits(chars, code).value == bits + rest;
    if j > 0 {
      ExpandDigitsAt(tail, code, k, j - 1, t);
      MulStep(k, j);
      assert (bits + rest)[k + (k * (j - 1) + t)] == rest[k * (j - 1) + t];
    }
  }

  /** Reading a digit back gives the bits it was made from. */
  lemma {:induction false} HexDigitRoundTrip(a: bool, b: bool, c: bool, d: bool)
    ensures HexDigitToBinaryChars(HexDigit(a, b, c, d)) == Ok([BinaryChar(a), BinaryChar(b), BinaryChar(c), BinaryChar(d)])
  {
  }

  lemma {:induction false} OctDigitRoundTrip(a: bool, b: bool, c: bool)
    ensures OctDigitToBinaryChars(OctDigit(a, b, c)) == Ok([BinaryChar(a), BinaryChar(b), BinaryChar(c)])
  {
  }

  /** parse_hexadecimal as a value: the digits' binary digits, read as binary. */
  function ParseHexadecimalSpec(chars: string): Result<BitVec, string> {
    match ExpandDigits(chars, HexDigitToBinaryChars)
    case Err(e) => Err(e)
    case Ok(bits) => ParseBinarySpec(bits)
  }

  function ParseOctalSpec(chars: string): Result<BitVec, string> {
    match ExpandDigits(chars, OctDigitToBinaryChars)
    case Err(e) => Err(e)
    case Ok(bits) => ParseBinarySpec(bits)
  }

  /**
   * Expanded digits always read as binary: every valid digit codes `k`
   * binary digits, so the text reads back as `k` bits per digit.
   */
  lemma {:induction false} ExpandedDigitsRead(chars: string, code: char -> Result<string, string>, k: nat)
    requires k == 3 || k == 4
    requires forall c :: code(c).Ok? ==>
      |code(c).value| == k && forall t :: 0 <= t < k ==> IsBinaryDigit(code(c).value[t])
    requires ExpandDigits(chars, code).Ok?
    ensures ParseBinarySpec(ExpandDigits(chars, code).value).Ok?
    ensures |ParseBinarySpec(ExpandDigits(chars, code).value).value| == k * |chars|
  {
    ExpandDigitsOutcome(chars, code);
    ExpandDigitsLength(chars, code, k);
    var bits := ExpandDigits(chars, code).value;
    forall i | 0 <= i < |bits|
      ensures IsBinaryDigit(bits[i])
    {
      var j, t := i / k, i % k;
      DivBelow(i, k, |chars|);
      assert i == k * j + t;
      ExpandDigitsAt(chars, code, k, j, t);
    }
  }

  lemma {:induction false} HexCodes(c: char)
    ensures HexDigitToBinaryChars(c).Ok? ==>
      && |HexDigitToBinaryChars(c).value| == 4
      && forall t :: 0 <= t < 4 ==> IsBinaryDigit(HexDigitToBinaryChars(c).value[t])
    ensures HexDigitToBinaryChars(c).Err? ==> HexDigitToBinaryChars(c).error == [c] + " is not a valid hexadecimal digit"
  {
  }

  lemma {:induction false} OctCodes(c: char)
    ensures OctDigitToBinaryChars(c).Ok? ==>
      && |OctDigitToBinaryChars(c).value| == 3
      && forall t :: 0 <= t < 3 ==> IsBinaryDigit(OctDigitToBinaryChars(c).value[t])
    ensures OctDigitToBinaryChars(c).Err? ==> OctDigitToBinaryChars(c).error == [c] + " is not a valid octal digit"
  {
  }

  /**
   * Hexadecimal text reads exactly when every character is a hexadecimal
   * digit, giving four bits per digit; otherwise the error names the first
   * character that is not.
   */
  lemma {:induction false} ParseHexadecimalOutcome(chars: string)
    ensures ParseHexadecimalSpec(chars).Ok? <==> forall j :: 0 <= j < |chars| ==> HexDigitToBinaryChars(chars[j]).Ok?
    ensures ParseHexadecimalSpec(chars).Ok? ==> |ParseHexadecimalSpec(chars).value| == 4 * |chars|
    ensures ParseHexadecimalSpec(chars).Err? ==>
      exists i :: 0 <= i < |chars| && HexDigitToBinaryChars(chars[i]).Err?
        && ParseHexadecimalSpec(chars).error == [chars[i]] + " is not a valid hexadecimal digit"
        && forall j :: 0 <= j < i ==> HexDigitToBinaryChars(chars[j]).Ok?
  {
    forall c {
      HexCodes(c);
    }
    ExpandDigitsOutcome(chars, HexDigitToBinaryChars);
    if ExpandDigits(chars, HexDigitToBinaryChars).Ok? {
      ExpandedDigitsRead(chars, HexDigitToBinaryChars, 4);
    }
  }

  /** Octal text reads exactly when every character is an octal digit, three bits per digit. */
  lemma {:induction false} ParseOctalOutcome(chars: string)
    ensures ParseOctalSpec(chars).Ok? <==> forall j :: 0 <= j < |chars| ==> OctDigitToBinaryChars(chars[j]).Ok?
    ensures ParseOctalSpec(chars).Ok? ==> |ParseOctalSpec(chars).value| == 3 * |chars|
    ensures ParseOctalSpec(chars).Err? ==>
      exists i :: 0 <= i < |chars| && OctDigitToBinaryChars(chars[i]).Err?
        && ParseOctalSpec(chars).error == [chars[i]] + " is not a valid octal digit"
        && forall j :: 0 <= j < i ==> OctDigitToBinaryChars(chars[j]).Ok?
  {
    forall c {
      OctCodes(c);
    }
    ExpandDigitsOutcome(chars, OctDigitToBinaryChars);
    if ExpandDigits(chars, OctDigitToBinaryChars).Ok? {
      ExpandedDigitsRead(chars, OctDigitToBinaryChars, 3);
    }
  }

  method ParseHexadecimal(chars: string) returns (r: Result<BitVec, string>)
    ensures r == ParseHexadecimalSpec(chars)
  {
    var bits := ExpandDigits(chars, HexDigitToBinaryChars);
    if bits.Err? {
      return Err(bits.error);
    }
    r := ParseBinary(bits.value);
  }

  method ParseOctal(chars: string) returns (r: Result<BitVec, string>)
    ensures r == ParseOctalSpec(chars)
  {
    var bits := ExpandDigits(chars, OctDigitToBinaryChars);
    if bits.Err? {
      return Err(bits.error);
    }
    r := ParseBinary(bits.value);
  }

  /**
   * Digit groups read back: when digit j of `s` codes, most significant bit
   * first, the `k` bits of group n-1-j of `r`, reading `s` gives the low
   * k*n bits of `r`.
   */
  /**
   * Digit j of `s` codes, most significant bit first, the `k` bits of group
   * n-1-j of `r`.
   */
  predicate CodesGroups(r: BitVec, k: nat, n: nat, s: string, code: char -> Result<string, string>) {
    && (k == 3 || k == 4) && k * n <= |r| && |s| == n
    && (forall j :: 0 <= j < n ==> code(s[j]).Ok? && |code(s[j]).value| == k)
    && (forall j, t :: 0 <= j < n && 0 <= t < k ==>
          && k * (n - 1 - j) + (k - 1 - t) < k * n
          && code(s[j]).value[t] == BinaryChar(r[k * (n - 1 - j) + (k - 1 - t)]))
  }

  lemma {:induction false} GroupsRoundTrip(r: BitVec, k: nat, n: nat, s: string, code: char -> Result<string, string>)
    requires CodesGroups(r, k, n, s, code)
    ensures ExpandDigits(s, code).Ok?
    ensures ParseBinarySpec(ExpandDigits(s, code).value) == Ok(r[..k * n])
  {
    ExpandDigitsLength(s, code, k);
    var bits := ExpandDigits(s, code).value;
    var m := k * n;
    forall i | 0 <= i < m
      ensures IsBinaryDigit(bits[i])
    {
      GroupsBitAt(r, k, n, s, code, m - 1 - i);
      assert m - 1 - (m - 1 - i) == i;
    }
    var read := seq(m, i requires 0 <= i < m => bits[m - 1 - i] == '1');
    forall i | 0 <= i < m
      ensures read[i] == r[i]
    {
      GroupsBitAt(r, k, n, s, code, i);
    }
    assert read == r[..m];
  }

  lemma {:induction false} GroupsBitAt(r: BitVec, k: nat, n: nat, s: string, code: char -> Result<string, string>, i: nat)
    requires CodesGroups(r, k, n, s, code) && i < k * n
    ensures ExpandDigits(s, code).Ok? && |ExpandDigits(s, code).value| == k * n
    ensures ExpandDigits(s, code).value[k * n - 1 - i] == BinaryChar(r[i])
  {
    var g, u := i / k, i % k;
    assert i == k * g + u;
    DivBelow(i, k, n);
    GroupsBit(r, k, n, s, code, g, u);
  }

  /** Bit u of group g of `r` is coded, as a binary digit, at position k*n-1-(k*g+u) of the expanded digits. */
  lemma {:induction false} GroupsBit(r: BitVec, k: nat, n: nat, s: string, code: char -> Result<string, string>, g: nat, u: nat)
    requires CodesGroups(r, k, n, s, code) && g < n && u < k
    ensures ExpandDigits(s, code).Ok? && |ExpandDigits(s, code).value| == k * n
    ensures k * g + u < k * n
    ensures ExpandDigits(s, code).value[k * n - 1 - (k * g + u)] == BinaryChar(r[k * g + u])
  {
    ExpandDigitsLength(s, code, k);
    var j, t := n - 1 - g, k - 1 - u;
    MulAdd(k, g, j + 1);
    MulStep(k, j + 1);
    assert k * (n - 1 - j) + (k - 1 - t) == k * g + u;
    assert k * j + t == k * n - 1 - (k * g + u);
    ExpandDigitsAt(s, code, k, j, t);
    assert code(s[j]).value[t] == BinaryChar(r[k * (n - 1 - j) + (k - 1 - t)]);
  }

  lemma {:induction false} DivBelow(i: nat, k: nat, n: nat)
    requires k > 0 && i < k * n
    ensures i / k < n
  {
    var g := i / k;
    assert k * g <= i;
    if g >= n {
      MulMono(k, n, g);
      assert false;
    }
  }

  lemma {:induction false} MulMono(k: nat, a: nat, b: nat)
    requires a <= b
    ensures k * a <= k * b
  {
    assert k * b == k * a + k * (b - a);
  }

  lemma {:induction false} MulAdd(k: nat, a: nat, b: nat)
    ensures k * (a + b) == k * a + k * b
  {
  }

  /**
   * parse_non_decimal: after a leading '0', 'b', 'x' or 'o' chooses the
   * radix of the rest; any other character is an unknown radix.
   */
  function ParseNonDecimalSpec(chars: string): Result<BitVec, string>
    requires |chars| >= 2
  {
    match chars[1]
    case 'b' => ParseBinarySpec(chars[2..])
    case 'x' => ParseHexadecimalSpec(chars[2..])
    case 'o' => ParseOctalSpec(chars[2..])
    case c => Err("unknown radix identifier '0" + [c] + "'")
  }

  method ParseNonDecimal(chars: string) returns (r: Result<BitVec, string>)
    requires |chars| >= 2
    ensures r == ParseNonDecimalSpec(chars)
  {
    match chars[1]
    case 'b' => r := ParseBinary(chars[2..]);
    case 'x' => r := ParseHexadecimal(chars[2..]);
    case 'o' => r := ParseOctal(chars[2..]);
    case c => r := Err("unknown radix identifier '0" + [c] + "'");
  }

  // Unsigned integer text, as the standard library's u128::from_str_radix reads it.

  const IntEmptyMessage := "cannot parse integer from empty string"
  const IntInvalidDigitMessage := "invalid digit found in string"
  const IntPosOverflowMessage := "number too large to fit in target type"

  /** A character's digit value in the radix, if it is one (letters of either case count from 10). */
  function DigitValue(c: char, radix: nat): (r: Option<nat>)
    ensures r.Some? ==> r.value < radix
  {
    var d: int :=
      if '0' <= c <= '9' then c as int - '0' as int
      else if 'a' <= c <= 'z' then c as int - 'a' as int + 10
      else if 'A' <= c <= 'Z' then c as int - 'A' as int + 10
      else -1;
    if 0 <= d < radix then Some(d) else None
  }

  /**
   * The digits read into `acc` one by one, most significant first; a
   * character that is not a digit, or a number past U128Max, stops the
   * reading.
   */
  function Accumulate(acc: nat, s: string, radix: nat): (r: Result<nat, string>)
    requires acc <= U128Max
    ensures r.Ok? ==> r.value <= U128Max
    decreases |s|
  {
    if s == [] then Ok(acc)
    else
      match DigitValue(s[0], radix)
      case None => Err(IntInvalidDigitMessage)
      case Some(d) =>
        if acc * radix + d > U128Max then Err(IntPosOverflowMessage)
        else Accumulate(acc * radix + d, s[1..], radix)
  }

  /** u128::from_str_radix: an optional leading '+' and at least one digit. */
  function FromStrRadix(s: string, radix: nat): (r: Result<nat, string>)
    requires 2 <= radix <= 36
    ensures r.Ok? ==> r.value <= U128Max
  {
    if s == [] then Err(IntEmptyMessage)
    else if (s[0] == '+' || s[0] == '-') && |s| == 1 then Err(IntInvalidDigitMessage)
    else if s[0] == '+' then Accumulate(0, s[1..], radix)
    else Accumulate(0, s, radix)
  }

  /** Reading two pieces of text is reading the first and carrying on with the second. */
  lemma {:induction false} AccumulateAppend(acc: nat, a: string, b: string, radix: nat)
    requires acc <= U128Max
    ensures Accumulate(acc, a + b, radix) ==
      match Accumulate(acc, a, radix)
      case Err(e) => Err(e)
      case Ok(x) => Accumulate(x, b, radix)
    decreases |a|
  {
    if a != [] {
      assert (a + b)[0] == a[0] && (a + b)[1..] == a[1..] + b;
      match DigitValue(a[0], radix)
      case None =>
      case Some(d) =>
        if acc * radix + d <= U128Max {
          AccumulateAppend(acc * radix + d, a[1..], b, radix);
        }
    } else {
      assert a + b == b;
    }
  }

  lemma {:induction false} NatToStringDigits(n: nat)
    ensures forall i :: 0 <= i < |NatToString(n)| ==> '0' <= NatToString(n)[i] <= '9'
    ensures n >= 1 ==> NatToString(n)[0] != '0'
    decreases n
  {
    if n >= 10 {
      NatToStringDigits(n / 10);
    }
  }

  /** Decimal text read back in radix 10 is the number it shows. */
  lemma {:induction false} NatToStringRoundTrip(n: nat)
    requires n <= U128Max
    ensures Accumulate(0, NatToString(n), 10) == Ok(n)
    decreases n
  {
    if n >= 10 {
      NatToStringRoundTrip(n / 10);
      AccumulateAppend(0, NatToString(n / 10), [DigitChar(n % 10)], 10);
      assert DigitValue(DigitChar(n % 10), 10) == Some(n % 10);
    } else {
      assert DigitValue(DigitChar(n), 10) == Some(n);
    }
  }

  /** Text whose first character is not a digit, a lone sign aside, is rejected as an invalid digit. */
  lemma {:induction false} FirstInvalid(s: string, radix: nat)
    requires 2 <= radix <= 36
    requires |s| >= 2 && s[0] != '+' && DigitValue(s[0], radix).None?
    ensures FromStrRadix(s, radix) == Err(IntInvalidDigitMessage)
  {
  }

  /** The error parse_radix reports when the text is not a number. */
  function RadixError(chars: string, radix: nat, e: string): string {
    "cannot parse " + chars + " as radix-" + NatToString(radix) + " number: " + e
  }

  /** The number of bytes of a u128, which parse_radix uses as its bit count. */
  const SizeOfU128: nat := 16

  /**
   * parse_radix as written: the number's low `size_of::<u128>()` bits,
   * that is its low 16 bits, since the size is counted in bytes.
   */
  function AsWrittenParseRadix(chars: string, radix: nat): Result<BitVec, string>
    requires 2 <= radix <= 36
  {
    match FromStrRadix(chars, radix)
    case Err(e) => Err(RadixError(chars, radix, e))
    case Ok(num) => Ok(LowBits(num, SizeOfU128))
  }

  /** parse_radix with the bit count the 128-bit number needs: all of its 128 bits. */
  function ParseRadixSpec(chars: string, radix: nat): Result<BitVec, string>
    requires 2 <= radix <= 36
  {
    match FromStrRadix(chars, radix)
    case Err(e) => Err(RadixError(chars, radix, e))
    case Ok(num) => Ok(LowBits(num, 8 * SizeOfU128))
  }

  method ParseRadix(chars: string, radix: nat) returns (r: Result<BitVec, string>)
    requires 2 <= radix <= 36
    ensures r == ParseRadixSpec(chars, radix)
  {
    var num := FromStrRadix(chars, radix);
    if num.Err? {
      return Err(RadixError(chars, radix, num.error));
    }
    var result: BitVec := [];
    var i := 0;
    while i < 8 * SizeOfU128
      invariant i <= 8 * SizeOfU128 && |result| == i
      invariant forall k :: 0 <= k < i ==> result[k] == Bit(num.value, k)
    {
      result := result + [Bit(num.value, i)];
      i := i + 1;
    }
    forall k | 0 <= k < 8 * SizeOfU128
      ensures result[k] == LowBits(num.value, 8 * SizeOfU128)[k]
    {
      LowBitsIndex(num.value, 8 * SizeOfU128, k);
    }
    assert result == LowBits(num.value, 8 * SizeOfU128);
    return Ok(result);
  }

  /**
   * The read bits keep the number: all of it with 128 bits, only its
   * value modulo 2^16 as written.
   */
  lemma {:induction false} ParseRadixValue(chars: string, radix: nat)
    requires 2 <= radix <= 36
    ensures ParseRadixSpec(chars, radix).Ok? <==> FromStrRadix(chars, radix).Ok?
    ensures AsWrittenParseRadix(chars, radix).Ok? <==> FromStrRadix(chars, radix).Ok?
    ensures FromStrRadix(chars, radix).Ok? ==>
      && |ParseRadixSpec(chars, radix).value| == 128
      && PackBits(ParseRadixSpec(chars, radix).value) == FromStrRadix(chars, radix).value
      && PackBits(AsWrittenParseRadix(chars, radix).value) == FromStrRadix(chars, radix).value % Pow2(16)
  {
    if FromStrRadix(chars, radix).Ok? {
      var num := FromStrRadix(chars, radix).value;
      Pow2Of128();
      PackOfLowBits(num, 128);
      PackOfLowBits(num, 16);
      DivModUnique(num, Pow2(128), 0, num);
    }
  }

  /** "65536" is 2^16: as written it reads as sixteen zero bits; with 128 bits, as 65536. */
  lemma {:induction false} AsWrittenDropsHighBits()
    ensures FromStrRadix("65536", 10) == Ok(65536)
    ensures AsWrittenParseRadix("65536", 10) == Ok(seq(16, _ => false))
    ensures ParseRadixSpec("65536", 10).Ok? && PackBits(ParseRadixSpec("65536", 10).value) == 65536
  {
    Reads65536();
    ParseRadixValue("65536", 10);
    Pow2Of128();
    var x := LowBits(65536, 16);
    PackOfLowBits(65536, 16);
    assert PackBits(x) == 0;
    LowBitsOfPack(x);
    var z: BitVec := seq(16, _ => false);
    ZeroPack(z);
    LowBitsOfPack(z);
    assert x == z;
  }

  lemma {:induction false} Reads65536()
    ensures FromStrRadix("65536", 10) == Ok(65536)
  {
    NatToStringRoundTrip(65536);
    assert NatToString(6) == "6";
    assert NatToString(65) == "65";
    assert NatToString(655) == "655";
    assert NatToString(6553) == "6553";
    assert NatToString(65536) == "65536";
  }

  lemma {:induction false} ZeroPack(bs: BitVec)
    requires forall i :: 0 <= i < |bs| ==> !bs[i]
    ensures PackBits(bs) == 0
    decreases |bs|
  {
    if bs != [] {
      ZeroPack(bs[1..]);
    }
  }

  /**
   * parse as a value: empty text is an error; text of two or more
   * characters starting with '0' has a radix prefix; anything else is a
   * decimal number.
   */
  function ParseSpec(value: string): Result<BitVec, string> {
    if |value| == 0 then Err(EmptyValueMessage)
    else if value[0] == '0' && |value| > 1 then ParseNonDecimalSpec(value)
    else ParseRadixSpec(value, 10)
  }

  method Parse(value: string) returns (r: Result<BitVec, string>)
    ensures r == ParseSpec(value)
  {
    if |value| == 0 {
      return Err(EmptyValueMessage);
    }
    if value[0] == '0' && |value| > 1 {
      r := ParseNonDecimal(value);
    } else {
      r := ParseRadix(value, 10);
    }
  }

  // ---------------------------------------------------------------------------
  // Round trips
  // ---------------------------------------------------------------------------

  /** Text with a "0b" prefix is read as binary digits. */
  lemma {:induction false} ParseBinaryPrefixed(s: string)
    ensures ParseSpec("0b" + s) == ParseBinarySpec(s)
  {
    assert ("0b" + s)[2..] == s;
  }

  /** Text with a "0x" prefix is read as hexadecimal digits. */
  lemma {:induction false} ParseHexadecimalPrefixed(s: string)
    ensures ParseSpec("0x" + s) == ParseHexadecimalSpec(s)
  {
    assert ("0x" + s)[2..] == s;
  }

  /** Text with a "0o" prefix is read as octal digits. */
  lemma {:induction false} ParseOctalPrefixed(s: string)
    ensures ParseSpec("0o" + s) == ParseOctalSpec(s)
  {
    assert ("0o" + s)[2..] == s;
  }

  /** Binary text read back with its "0b" prefix is the resized value. */
  lemma {:induction false} BinaryRoundTrip(bv: BitVec, width: nat, twosComplement: bool)
    ensures ParseSpec("0b" + BinaryString(bv, width, twosComplement)) == Ok(Resized(bv, width, twosComplement))
  {
    var s := BinaryString(bv, width, twosComplement);
    var r := Resized(bv, width, twosComplement);
    ParseBinaryPrefixed(s);
    assert forall i :: 0 <= i < width ==> IsBinaryDigit(s[i]);
    var read := seq(width, i requires 0 <= i < width => s[width - 1 - i] == '1');
    forall i | 0 <= i < width
      ensures read[i] == r[i]
    {
      assert s[width - 1 - i] == BinaryChar(r[i]);
    }
    assert read == r;
  }

  /** Hexadecimal text read back with its "0x" prefix is the value resized to whole digits. */
  lemma {:induction false} HexadecimalRoundTrip(bv: BitVec, width: nat, twosComplement: bool)
    ensures ParseSpec("0x" + HexadecimalString(bv, width, twosComplement))
      == Ok(Resized(bv, 4 * ((width + 3) / 4), twosComplement))
  {
    var s := HexadecimalString(bv, width, twosComplement);
    RoundUpGroups(width, 4);
    var w := RoundUp(width, 4);
    var r := Resized(bv, w, twosComplement);
    var n := w / 4;
    ParseHexadecimalPrefixed(s);
    HexDigitsCoded(bv, width, twosComplement);
    GroupsRoundTrip(r, 4, n, s, HexDigitToBinaryChars);
    ResizedPrefix(bv, 4 * n, w, twosComplement);
  }

  /** Every hexadecimal digit codes its group, as digit groups read back need. */
  lemma {:induction false} HexDigitsCoded(bv: BitVec, width: nat, twosComplement: bool)
    ensures CodesGroups(Resized(bv, RoundUp(width, 4), twosComplement), 4, RoundUp(width, 4) / 4,
      HexadecimalString(bv, width, twosComplement), HexDigitToBinaryChars)
  {
    RoundUpGroups(width, 4);
    HexDigitsEachCoded(bv, width, twosComplement);
  }

  lemma {:induction false} HexDigitsEachCoded(bv: BitVec, width: nat, twosComplement: bool)
    ensures var s, n := HexadecimalString(bv, width, twosComplement), RoundUp(width, 4) / 4;
      var r := Resized(bv, RoundUp(width, 4), twosComplement);
      forall j :: 0 <= j < n ==>
        && HexDigitToBinaryChars(s[j]).Ok? && |HexDigitToBinaryChars(s[j]).value| == 4
        && forall t :: 0 <= t < 4 ==>
             && 4 * (n - 1 - j) + (4 - 1 - t) < 4 * n
             && HexDigitToBinaryChars(s[j]).value[t] == BinaryChar(r[4 * (n - 1 - j) + (4 - 1 - t)])
  {
    var s, n := HexadecimalString(bv, width, twosComplement), RoundUp(width, 4) / 4;
    var r := Resized(bv, RoundUp(width, 4), twosComplement);
    forall j | 0 <= j < n
      ensures && HexDigitToBinaryChars(s[j]).Ok? && |HexDigitToBinaryChars(s[j]).value| == 4
              && forall t :: 0 <= t < 4 ==>
                   && 4 * (n - 1 - j) + (4 - 1 - t) < 4 * n
                   && HexDigitToBinaryChars(s[j]).value[t] == BinaryChar(r[4 * (n - 1 - j) + (4 - 1 - t)])
    {
      HexDigitCoded(bv, width, twosComplement, j);
    }
  }

  /** Hexadecimal digit j codes, most significant bit first, the four bits of group n-1-j. */
  lemma {:induction false} HexDigitCoded(bv: BitVec, width: nat, twosComplement: bool, j: nat)
    requires j < RoundUp(width, 4) / 4
    ensures var r, n := Resized(bv, RoundUp(width, 4), twosComplement), RoundUp(width, 4) / 4;
      && 4 * n <= |r| && |HexadecimalString(bv, width, twosComplement)| == n
      && HexDigitToBinaryChars(HexadecimalString(bv, width, twosComplement)[j]).Ok?
      && var code := HexDigitToBinaryChars(HexadecimalString(bv, width, twosComplement)[j]).value;
         && |code| == 4
         && forall t :: 0 <= t < 4 ==> code[t] == BinaryChar(r[4 * (n - 1 - j) + (3 - t)])
  {
    RoundUpGroups(width, 4);
    var s := HexadecimalString(bv, width, twosComplement);
    var r, n := Resized(bv, RoundUp(width, 4), twosComplement), RoundUp(width, 4) / 4;
    var g := n - 1 - j;
    assert s[j] == HexDigit(r[4 * g + 3], r[4 * g + 2], r[4 * g + 1], r[4 * g]);
    HexDigitRoundTrip(r[4 * g + 3], r[4 * g + 2], r[4 * g + 1], r[4 * g]);
  }

  /** Octal text read back with its "0o" prefix is the value resized to whole digits. */
  lemma {:induction false} OctalRoundTrip(bv: BitVec, width: nat, twosComplement: bool)
    ensures ParseSpec("0o" + OctalString(bv, width, twosComplement))
      == Ok(Resized(bv, 3 * ((width + 2) / 3), twosComplement))
  {
    var s := OctalString(bv, width, twosComplement);
    RoundUpGroups(width, 3);
    var w := RoundUp(width, 3);
    var r := Resized(bv, w, twosComplement);
    var n := w / 3;
    ParseOctalPrefixed(s);
    OctDigitsCoded(bv, width, twosComplement);
    GroupsRoundTrip(r, 3, n, s, OctDigitToBinaryChars);
    ResizedPrefix(bv, 3 * n, w, twosComplement);
  }

  /** Every octal digit codes its group, as digit groups read back need. */
  lemma {:induction false} OctDigitsCoded(bv: BitVec, width: nat, twosComplement: bool)
    ensures CodesGroups(Resized(bv, RoundUp(width, 3), twosComplement), 3, RoundUp(width, 3) / 3,
      OctalString(bv, width, twosComplement), OctDigitToBinaryChars)
  {
    RoundUpGroups(width, 3);
    OctDigitsEachCoded(bv, width, twosComplement);
  }

  lemma {:induction false} OctDigitsEachCoded(bv: BitVec, width: nat, twosComplement: bool)
    ensures var s, n := OctalString(bv, width, twosComplement), RoundUp(width, 3) / 3;
      var r := Resized(bv, RoundUp(width, 3), twosComplement);
      forall j :: 0 <= j < n ==>
        && OctDigitToBinaryChars(s[j]).Ok? && |OctDigitToBinaryChars(s[j]).value| == 3
        && forall t :: 0 <= t < 3 ==>
             && 3 * (n - 1 - j) + (3 - 1 - t) < 3 * n
             && OctDigitToBinaryChars(s[j]).value[t] == BinaryChar(r[3 * (n - 1 - j) + (3 - 1 - t)])
  {
    var s, n := OctalString(bv, width, twosComplement), RoundUp(width, 3) / 3;
    var r := Resized(bv, RoundUp(width, 3), twosComplement);
    forall j | 0 <= j < n
      ensures && OctDigitToBinaryChars(s[j]).Ok? && |OctDigitToBinaryChars(s[j]).value| == 3
              && forall t :: 0 <= t < 3 ==>
                   && 3 * (n - 1 - j) + (3 - 1 - t) < 3 * n
                   && OctDigitToBinaryChars(s[j]).value[t] == BinaryChar(r[3 * (n - 1 - j) + (3 - 1 - t)])
    {
      OctDigitCoded(bv, width, twosComplement, j);
    }
  }

  /** Octal digit j codes, most significant bit first, the three bits of group n-1-j. */
  lemma {:induction false} OctDigitCoded(bv: BitVec, width: nat, twosComplement: bool, j: nat)
    requires j < RoundUp(width, 3) / 3
    ensures var r, n := Resized(bv, RoundUp(width, 3), twosComplement), RoundUp(width, 3) / 3;
      && 3 * n <= |r| && |OctalString(bv, width, twosComplement)| == n
      && OctDigitToBinaryChars(OctalString(bv, width, twosComplement)[j]).Ok?
      && var code := OctDigitToBinaryChars(OctalString(bv, width, twosComplement)[j]).value;
         && |code| == 3
         && forall t :: 0 <= t < 3 ==> code[t] == BinaryChar(r[3 * (n - 1 - j) + (2 - t)])
  {
    RoundUpGroups(width, 3);
    var s := OctalString(bv, width, twosComplement);
    var r, n := Resized(bv, RoundUp(width, 3), twosComplement), RoundUp(width, 3) / 3;
    var g := n - 1 - j;
    assert s[j] == OctDigit(r[3 * g + 2], r[3 * g + 1], r[3 * g]);
    OctDigitRoundTrip(r[3 * g + 2], r[3 * g + 1], r[3 * g]);
  }

  /**
   * Decimal text read back is the value extended to 128 bits, unless it is
   * negative: the leading '-' is not a digit of an unsigned number, so
   * negative text is rejected.
   */
  lemma {:induction false} DecimalRoundTrip(bv: BitVec, width: nat, twosComplement: bool)
    requires DecimalWidthSupported(width, twosComplement)
    ensures var r := Resized(bv, 128, twosComplement);
      && (!(twosComplement && r[127]) ==> ParseSpec(DecimalString(bv, width, twosComplement)) == Ok(r))
      && (twosComplement && r[127] ==> ParseSpec(DecimalString(bv, width, twosComplement)).Err?)
  {
    var r := Resized(bv, 128, twosComplement);
    var value := PackBits(r);
    DecimalStringValue(bv, width, twosComplement);
    if twosComplement && r[127] {
      var s := DecimalString(bv, width, twosComplement);
      NatToStringDigits(Pow2(128) - value);
      NegativeDecimalRejected(s);
    } else {
      Pow2Of128();
      DecimalTextRoundTrip(value);
      LowBitsOfPack(r);
    }
  }

  /** Text starting with '-' and something after it is not a decimal number. */
  lemma {:induction false} NegativeDecimalRejected(s: string)
    requires |s| >= 2 && s[0] == '-'
    ensures ParseSpec(s).Err?
  {
    FirstInvalid(s, 10);
  }

  /** The decimal text of a u128 number reads back as that number's 128 bits. */
  lemma {:induction false} DecimalTextRoundTrip(value: nat)
    requires value <= U128Max
    ensures ParseSpec(NatToString(value)) == Ok(LowBits(value, 128))
  {
    var s := NatToString(value);
    NatToStringDigits(value);
    NatToStringRoundTrip(value);
    assert s[0] != '+';
    assert value == 0 ==> s == "0";
  }

  /** What the text of each radix is read back with: its prefix and how many bits come back. */
  function RadixPrefix(radix: Radix): string {
    match radix
    case Binary => "0b"
    case Hexadecimal => "0x"
    case Octal => "0o"
    case Decimal => ""
  }

  function ReadBackWidth(option: FormatOption): nat {
    match option.radix
    case Binary => option.width
    case Hexadecimal => 4 * ((option.width + 3) / 4)
    case Octal => 3 * ((option.width + 2) / 3)
    case Decimal => 128
  }

  /**
   * Every shown value reads back, after its radix prefix, as the value
   * resized to whole digits (to 128 bits for decimal), except a negative
   * decimal, which does not read back.
   */
  lemma {:induction false} FormatRoundTrip(bv: BitVec, option: FormatOption)
    requires option.radix == Decimal ==> DecimalWidthSupported(option.width, option.twosComplement)
    requires option.radix == Decimal && option.twosComplement ==> !Resized(bv, 128, true)[127]
    ensures ParseSpec(RadixPrefix(option.radix) + Format(bv, option))
      == Ok(Resized(bv, ReadBackWidth(option), option.twosComplement))
  {
    match option.radix
    case Binary => BinaryFormatRoundTrip(bv, option);
    case Hexadecimal => HexadecimalFormatRoundTrip(bv, option);
    case Octal => OctalFormatRoundTrip(bv, option);
    case Decimal => DecimalFormatRoundTrip(bv, option);
  }

  lemma {:induction false} BinaryFormatRoundTrip(bv: BitVec, option: FormatOption)
    requires option.radix == Binary
    ensures ParseSpec(RadixPrefix(option.radix) + Format(bv, option))
      == Ok(Resized(bv, ReadBackWidth(option), option.twosComplement))
  {
    assert RadixPrefix(option.radix) + Format(bv, option) == "0b" + BinaryString(bv, option.width, option.twosComplement);
    assert ReadBackWidth(option) == option.width;
    BinaryRoundTrip(bv, option.width, option.twosComplement);
  }

  lemma {:induction false} HexadecimalFormatRoundTrip(bv: BitVec, option: FormatOption)
    requires option.radix == Hexadecimal
    ensures ParseSpec(RadixPrefix(option.radix) + Format(bv, option))
      == Ok(Resized(bv, ReadBackWidth(option), option.twosComplement))
  {
    var w, tc := option.width, option.twosComplement;
    calc {
      ParseSpec(RadixPrefix(option.radix) + Format(bv, option));
      { assert RadixPrefix(option.radix) + Format(bv, option) == "0x" + HexadecimalString(bv, w, tc); }
      ParseSpec("0x" + HexadecimalString(bv, w, tc));
      { HexadecimalRoundTrip(bv, w, tc); }
      Ok(Resized(bv, 4 * ((w + 3) / 4), tc));
      { assert ReadBackWidth(option) == 4 * ((w + 3) / 4); }
      Ok(Resized(bv, ReadBackWidth(option), tc));
    }
  }

  lemma {:induction false} OctalFormatRoundTrip(bv: BitVec, option: FormatOption)
    requires option.radix == Octal
    ensures ParseSpec(RadixPrefix(option.radix) + Format(bv, option))
      == Ok(Resized(bv, ReadBackWidth(option), option.twosComplement))
  {
    var w, tc := option.width, option.twosComplement;
    calc {
      ParseSpec(RadixPrefix(option.radix) + Format(bv, option));
      { assert RadixPrefix(option.radix) + Format(bv, option) == "0o" + OctalString(bv, w, tc); }
      ParseSpec("0o" + OctalString(bv, w, tc));
      { OctalRoundTrip(bv, w, tc); }
      Ok(Resized(bv, 3 * ((w + 2) / 3), tc));
      { assert ReadBackWidth(option) == 3 * ((w + 2) / 3); }
      Ok(Resized(bv, ReadBackWidth(option), tc));
    }
  }

  lemma {:induction false} DecimalFormatRoundTrip(bv: BitVec, option: FormatOption)
    requires option.radix == Decimal && DecimalWidthSupported(option.width, option.twosComplement)
    requires option.twosComplement ==> !Resized(bv, 128, true)[127]
    ensures ParseSpec(RadixPrefix(option.radix) + Format(bv, option))
      == Ok(Resized(bv, ReadBackWidth(option), option.twosComplement))
  {
    var w, tc := option.width, option.twosComplement;
    assert RadixPrefix(Decimal) + DecimalString(bv, w, tc) == DecimalString(bv, w, tc);
    DecimalRoundTrip(bv, w, tc);
  }

  /** A lone "0" is decimal zero; "0" followed by anything but b, x or o is an unknown radix. */
  lemma {:induction false} ParseLeadingZero(c: char, rest: string)
    ensures ParseSpec("0") == Ok(seq(128, _ => false))
    ensures c != 'b' && c != 'x' && c != 'o' ==>
      ParseSpec(['0', c] + rest) == Err("unknown radix identifier '0" + [c] + "'")
  {
    NatToStringRoundTrip(0);
    assert NatToString(0) == "0";
    LowBitsOfPack(seq(128, _ => false));
    ZeroPack(seq(128, _ => false));
    assert (['0', c] + rest)[1] == c;
  }
}
