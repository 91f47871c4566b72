/**
 * Showing signal values in the earlier terminal front end
 * (ombak-tui/src/utils/bitvec_str.rs): binary only, at a given width,
 * unsigned or signed.
 */
module LegacyBitvecStr {
  import opened Bits
  import BitvecStr

  datatype FormatKind = Binary

  datatype FormatOption = FormatOption(format: FormatKind, width: nat, twosComplement: bool)

  /** Default: binary, width 0, unsigned. */
  const DefaultOption := FormatOption(Binary, 0, false)

  /**
   * The bit a signed resize fills with, as written: the vector's first
   * bit, which is its least significant one.
   */
  function Fill(bv: BitVec, twosComplement: bool): bool {
    twosComplement && bv != [] && bv[0]
  }

  /** get_resized_bitvec: cut to `width` bits or extended with the fill bit. */
  function Resized(bv: BitVec, width: nat, twosComplement: bool): (r: BitVec)
    ensures |r| == width
    ensures forall i :: 0 <= i < width ==> r[i] == if i < |bv| then bv[i] else Fill(bv, twosComplement)
  {
    if width <= |bv| then bv[..width]
    else bv + seq(width - |bv|, _ => Fill(bv, twosComplement))
  }

  /** binary: the resized value, most significant bit first. */
  function BinaryString(bv: BitVec, width: nat, twosComplement: bool): (s: string)
    ensures |s| == width
    ensures forall j :: 0 <= j < width ==>
      s[j] == BitvecStr.BinaryChar(if width - 1 - j < |bv| then bv[width - 1 - j] else Fill(bv, twosComplement))
  {
    var r := Resized(bv, width, twosComplement);
    seq(width, j requires 0 <= j < width => BitvecStr.BinaryChar(r[width - 1 - j]))
  }

  /** from: the value shown as the option says. */
  function Format(bv: BitVec, option: FormatOption): string {
    match option.format
    case Binary => BinaryString(bv, option.width, option.twosComplement)
  }

  /** The default option shows every value as the empty string. */
  lemma {:induction false} DefaultShowsNothing(bv: BitVec)
    ensures Format(bv, DefaultOption) == ""
  {
  }

  /**
   * Unsigned values, and signed ones whose lowest and highest bits agree,
   * are shown as the later front end shows them; the two differ only in the
   * fill bit.
   */
  lemma {:induction false} AgreesWithLater(bv: BitVec, width: nat, twosComplement: bool)
    requires !twosComplement || bv == [] || bv[0] == bv[|bv| - 1]
    ensures BinaryString(bv, width, twosComplement) == BitvecStr.BinaryString(bv, width, twosComplement)
  {
    assert Fill(bv, twosComplement) == BitvecStr.Fill(bv, twosComplement);
  }

  /**
   * The two-bit signed value 1 (bits 1, 0 from the bottom) shown at width 4
   * is filled with its lowest bit, giving "1101", which reads as -3; sign
   * extension shows "0001".
   */
  lemma {:induction false} FillFromLowestBit()
    ensures BinaryString([true, false], 4, true) == "1101"
    ensures BitvecStr.SignedValue(Resized([true, false], 4, true)) == -3
    ensures BitvecStr.SignedValue([true, false]) == 1
    ensures BitvecStr.BinaryString([true, false], 4, true) == "0001"
    ensures BitvecStr.SignedValue(BitvecStr.Resized([true, false], 4, true)) == 1
  {
    var r := Resized([true, false], 4, true);
    assert r == [true, false, true, true];
    assert PackBits(r) == 13;
    var e := BitvecStr.Resized([true, false], 4, true);
    assert e == [true, false, false, false];
    assert PackBits(e) == 1;
    assert PackBits([true, false]) == 1;
  }
}
