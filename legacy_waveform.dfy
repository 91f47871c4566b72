/**
 * The waveform widget of the earlier terminal front end
 * (ombak-tui/src/widgets/waveform.rs): a signal's values, one per time
 * unit, are merged into runs, and each run is drawn on 2 * height + 1 text
 * lines as an opening cross, a body carrying the formatted value on the
 * middle line, and a closing tail.
 */
module LegacyWaveforms {
  import opened Wrappers
  import opened Bits
  import LegacyBitvecStr
  import WR = WaveResults

  const Cross: char := '\U{2573}'
  const RisingEdge: char := '\U{2571}'
  const FallingEdge: char := '\U{2572}'
  const TopBar: char := '\U{2594}'
  const BottomBar: char := '\U{2581}'

  type Run = WR.CompactWaveValue<BitVec>

  /** The fold's accumulator: the last value pushed, the values and their counts. */
  datatype Acc = Acc(prev: Option<BitVec>, values: seq<BitVec>, counts: seq<nat>)

  /** One step of the fold: the same value as the last one counts once more, another is pushed with count 1. */
  function Step(acc: Acc, x: BitVec): Acc
    requires acc.prev.Some? ==> acc.counts != []
  {
    if Some(x) == acc.prev then
      acc.(counts := acc.counts[|acc.counts| - 1 := acc.counts[|acc.counts| - 1] + 1])
    else
      Acc(Some(x), acc.values + [x], acc.counts + [1])
  }

  /** The fold over the values, left to right. */
  function Fold(xs: seq<BitVec>): (acc: Acc)
    ensures |acc.values| == |acc.counts|
    ensures acc.prev.Some? <==> acc.counts != []
    decreases |xs|
  {
    if xs == [] then Acc(None, [], [])
    else Step(Fold(xs[..|xs| - 1]), xs[|xs| - 1])
  }

  function Zip(values: seq<BitVec>, counts: seq<nat>): (runs: seq<Run>)
    requires |values| == |counts|
    ensures |runs| == |values|
    ensures forall i :: 0 <= i < |runs| ==> runs[i] == WR.CompactWaveValue(values[i], counts[i])
  {
    seq(|values|, i requires 0 <= i < |values| => WR.CompactWaveValue(values[i], counts[i]))
  }

  /** compact_vec: the values paired with their counts. */
  function CompactVec(xs: seq<BitVec>): (runs: seq<Run>)
    ensures forall i :: 0 <= i < |runs| ==> runs[i].duration >= 1
  {
    FoldSpec(xs);
    var acc := Fold(xs);
    Zip(acc.values, acc.counts)
  }

  /** The fold's invariant: the runs so far expand to the values read, are compacted, and end with prev. */
  predicate FoldInvariant(acc: Acc, xs: seq<BitVec>) {
    && |acc.values| == |acc.counts|
    && (acc.prev.Some? <==> acc.values != [])
    && (acc.prev.Some? ==> acc.prev.value == acc.values[|acc.values| - 1])
    && WR.Compacted(Zip(acc.values, acc.counts))
    && WR.Expand(Zip(acc.values, acc.counts)) == xs
  }

  lemma {:induction false} FoldSpec(xs: seq<BitVec>)
    ensures FoldInvariant(Fold(xs), xs)
    decreases |xs|
  {
    if xs != [] {
      var ys, x := xs[..|xs| - 1], xs[|xs| - 1];
      assert xs == ys + [x];
      FoldSpec(ys);
      if Some(x) == Fold(ys).prev {
        StepSame(Fold(ys), ys, x);
      } else {
        StepNew(Fold(ys), ys, x);
      }
    }
  }

  /** The same value again: the last count grows and the runs still expand to the values read. */
  lemma {:induction false} StepSame(acc: Acc, ys: seq<BitVec>, x: BitVec)
    requires FoldInvariant(acc, ys) && Some(x) == acc.prev
    ensures FoldInvariant(Step(acc, x), ys + [x])
  {
    var runs := Zip(acc.values, acc.counts);
    var next := Step(acc, x);
    var runs' := Zip(next.values, next.counts);
    var n := |runs|;
    assert runs'[..n - 1] == runs[..n - 1];
    assert runs' == runs[..n - 1] + [WR.CompactWaveValue(x, acc.counts[n - 1] + 1)];
    assert runs == runs[..n - 1] + [WR.CompactWaveValue(x, acc.counts[n - 1])];
    ExpandLastGrows(runs[..n - 1], x, acc.counts[n - 1]);
    assert forall i :: 0 <= i < n ==> runs'[i].value == runs[i].value;
  }

  /** A different value: a new run of one, which differs from the last. */
  lemma {:induction false} StepNew(acc: Acc, ys: seq<BitVec>, x: BitVec)
    requires FoldInvariant(acc, ys) && Some(x) != acc.prev
    ensures FoldInvariant(Step(acc, x), ys + [x])
  {
    var runs := Zip(acc.values, acc.counts);
    var next := Step(acc, x);
    var runs' := Zip(next.values, next.counts);
    assert runs' == runs + [WR.CompactWaveValue(x, 1)];
    assert WR.Expand(runs') == WR.Expand(runs) + [x] by {
      assert runs'[..|runs|] == runs;
      assert WR.Repeat(x, 1) == [x];
    }
    assert WR.Compacted(runs') by {
      if runs != [] {
        assert runs'[|runs| - 1].value == acc.prev.value;
      }
    }
  }

  /** One more unit in the last run is one more copy of its value at the end. */
  lemma {:induction false} ExpandLastGrows(runs: seq<Run>, x: BitVec, d: nat)
    ensures WR.Expand(runs + [WR.CompactWaveValue(x, d + 1)]) == WR.Expand(runs + [WR.CompactWaveValue(x, d)]) + [x]
  {
    assert (runs + [WR.CompactWaveValue(x, d + 1)])[..|runs|] == runs;
    assert (runs + [WR.CompactWaveValue(x, d)])[..|runs|] == runs;
    assert WR.Repeat(x, d + 1) == WR.Repeat(x, d) + [x];
  }

  /**
   * compact_vec: repeating each value by its count and concatenating gives
   * back the input; every count is at least 1 and neighbouring values
   * differ; the empty input gives no runs.
   */
  lemma {:induction false} CompactVecSpec(xs: seq<BitVec>)
    ensures WR.Expand(CompactVec(xs)) == xs
    ensures forall i :: 0 <= i < |CompactVec(xs)| ==> CompactVec(xs)[i].duration >= 1
    ensures forall i :: 0 <= i < |CompactVec(xs)| - 1 ==> CompactVec(xs)[i].value != CompactVec(xs)[i + 1].value
    ensures CompactVec(xs) == [] <==> xs == []
  {
    FoldSpec(xs);
  }

  /** The characters of the body's width for a run of `count` units. */
  function StrWidth(width: nat, height: nat, count: nat): nat
    requires count >= 1
  {
    width * count + (2 * height + 1) * (count - 1)
  }

  function Spaces(n: nat): (s: string)
    ensures |s| == n && forall k :: 0 <= k < n ==> s[k] == ' '
  {
    seq(n, _ => ' ')
  }

  /** `{:^w}`: the text padded to w with the smaller half of the padding on the left. */
  function Centred(text: string, w: nat): string
    requires |text| <= w
  {
    var pad := w - |text|;
    Spaces(pad / 2) + text + Spaces(pad - pad / 2)
  }

  /**
   * format: the value shown by the option, centred in the body's width if
   * it fits, otherwise cut to three less than the width and followed by
   * "...", and in either case no longer than the width.
   */
  function Format(value: BitVec, count: nat, option: LegacyBitvecStr.FormatOption, width: nat, height: nat): string
    requires count >= 1
  {
    var text := LegacyBitvecStr.Format(value, option);
    var w := StrWidth(width, height, count);
    var res := if w >= |text| then Centred(text, w) else text[..if w >= 3 then w - 3 else 0] + "...";
    if |res| <= w then res else res[..w]
  }

  /**
   * A formatted value is exactly width * count + (2 * height + 1) * (count - 1)
   * characters: the value centred when it fits, otherwise its beginning
   * followed by "..." (cut to the width when that is under 3).
   */
  lemma {:induction false} FormatSpec(value: BitVec, count: nat, option: LegacyBitvecStr.FormatOption, width: nat, height: nat)
    requires count >= 1
    ensures var r := Format(value, count, option, width, height);
      var text := LegacyBitvecStr.Format(value, option);
      var w := StrWidth(width, height, count);
      && |r| == w
      && (|text| <= w ==>
            var left := (w - |text|) / 2;
            && r[left..left + |text|] == text
            && (forall k :: 0 <= k < left ==> r[k] == ' ')
            && (forall k :: left + |text| <= k < w ==> r[k] == ' ')
            && left <= w - |text| - left <= left + 1)
      && (|text| > w && w >= 3 ==> r[..w - 3] == text[..w - 3] && r[w - 3..] == "...")
      && (|text| > w && w < 3 ==> r == "..."[..w])
  {
    var text := LegacyBitvecStr.Format(value, option);
    var w := StrWidth(width, height, count);
    if |text| <= w {
      var left := (w - |text|) / 2;
      var r := Centred(text, w);
      assert r[left..left + |text|] == text;
    }
  }

  /** The character the opening puts on line j in column i. */
  function OpeningChar(i: nat, j: nat, height: nat): char {
    if i == 0 && j == height then Cross
    else if i > 0 && j + i == height then RisingEdge
    else if i > 0 && j == height + i then FallingEdge
    else ' '
  }

  /** The character the tail puts on line j in column i. */
  function TailChar(i: nat, j: nat, height: nat): char {
    if i == height && j == height then Cross
    else if i < height && j == i then FallingEdge
    else if i < height && j + i == 2 * height then RisingEdge
    else ' '
  }

  /** The character the body puts on line j for a character c of the word. */
  function BodyChar(c: char, j: nat, height: nat): char {
    if j == height then c
    else if j == 0 then TopBar
    else if j == height * 2 then BottomBar
    else ' '
  }

  function OpeningRow(j: nat, height: nat): (row: string)
    ensures |row| == height + 1 && forall i :: 0 <= i <= height ==> row[i] == OpeningChar(i, j, height)
  {
    seq(height + 1, i requires 0 <= i <= height => OpeningChar(i, j, height))
  }

  function TailLength(height: nat, isEndValue: bool): nat {
    if isEndValue then height + 1 else height
  }

  function TailRow(j: nat, height: nat, isEndValue: bool): (row: string)
    ensures |row| == TailLength(height, isEndValue)
    ensures forall i :: 0 <= i < |row| ==> row[i] == TailChar(i, j, height)
  {
    seq(TailLength(height, isEndValue), i requires 0 <= i => TailChar(i, j, height))
  }

  function BodyRow(word: string, j: nat, height: nat): (row: string)
    ensures |row| == |word| && forall k :: 0 <= k < |word| ==> row[k] == BodyChar(word[k], j, height)
  {
    seq(|word|, k requires 0 <= k < |word| => BodyChar(word[k], j, height))
  }

  /**
   * The opening is a cross on the middle line, with the edges opening out
   * from it one line further per column; the body carries the word on the
   * middle line between a top and a bottom bar; the tail closes the edges
   * towards the middle line, where the last value ends with a cross.
   */
  lemma {:induction false} ShapeSpec(word: string, height: nat, isEndValue: bool)
    ensures OpeningRow(height, height)[0] == Cross
    ensures forall i, j :: 1 <= i <= height && j + i == height ==> OpeningRow(j, height)[i] == RisingEdge
    ensures forall i, j :: 1 <= i <= height && j == height + i ==> OpeningRow(j, height)[i] == FallingEdge
    ensures BodyRow(word, height, height) == word
    ensures height >= 1 ==> BodyRow(word, 0, height) == seq(|word|, _ => TopBar) && BodyRow(word, 2 * height, height) == seq(|word|, _ => BottomBar)
    ensures forall i :: 0 <= i < height ==> TailRow(i, height, isEndValue)[i] == FallingEdge && TailRow(2 * height - i, height, isEndValue)[i] == RisingEdge
    ensures isEndValue ==> TailRow(height, height, isEndValue)[height] == Cross
    ensures forall j :: j > 2 * height ==> OpeningRow(j, height) == Spaces(height + 1)
  {
  }

  /** draw_opening: every line gains its opening row, height + 1 characters. */
  method DrawOpening(lines: array<string>, height: nat)
    modifies lines
    ensures forall j :: 0 <= j < lines.Length ==> lines[j] == old(lines[j]) + OpeningRow(j, height)
  {
    for i := 0 to height + 1
      invariant forall j :: 0 <= j < lines.Length ==> lines[j] == old(lines[j]) + OpeningRow(j, height)[..i]
    {
      for j := 0 to lines.Length
        invariant forall k :: 0 <= k < j ==> lines[k] == old(lines[k]) + OpeningRow(k, height)[..i + 1]
        invariant forall k :: j <= k < lines.Length ==> lines[k] == old(lines[k]) + OpeningRow(k, height)[..i]
      {
        assert OpeningRow(j, height)[..i + 1] == OpeningRow(j, height)[..i] + [OpeningChar(i, j, height)];
        lines[j] := lines[j] + [OpeningChar(i, j, height)];
      }
    }
    assert forall j :: 0 <= j < lines.Length ==> OpeningRow(j, height)[..height + 1] == OpeningRow(j, height);
  }

  /** draw_tail: every line gains its tail row, height characters or height + 1 after the last value. */
  method DrawTail(lines: array<string>, height: nat, isEndValue: bool)
    modifies lines
    ensures forall j :: 0 <= j < lines.Length ==> lines[j] == old(lines[j]) + TailRow(j, height, isEndValue)
  {
    var tailLength := if isEndValue then height + 1 else height;
    for i := 0 to tailLength
      invariant forall j :: 0 <= j < lines.Length ==> lines[j] == old(lines[j]) + TailRow(j, height, isEndValue)[..i]
    {
      for j := 0 to lines.Length
        invariant forall k :: 0 <= k < j ==> lines[k] == old(lines[k]) + TailRow(k, height, isEndValue)[..i + 1]
        invariant forall k :: j <= k < lines.Length ==> lines[k] == old(lines[k]) + TailRow(k, height, isEndValue)[..i]
      {
        assert TailRow(j, height, isEndValue)[..i + 1] == TailRow(j, height, isEndValue)[..i] + [TailChar(i, j, height)];
        lines[j] := lines[j] + [TailChar(i, j, height)];
      }
    }
    assert forall j :: 0 <= j < lines.Length ==> TailRow(j, height, isEndValue)[..tailLength] == TailRow(j, height, isEndValue);
  }

  /** draw_body: every line gains its body row, one character per character of the word. */
  method DrawBody(lines: array<string>, word: string, height: nat)
    modifies lines
    ensures forall j :: 0 <= j < lines.Length ==> lines[j] == old(lines[j]) + BodyRow(word, j, height)
  {
    for c := 0 to |word|
      invariant forall j :: 0 <= j < lines.Length ==> lines[j] == old(lines[j]) + BodyRow(word, j, height)[..c]
    {
      for j := 0 to lines.Length
        invariant forall k :: 0 <= k < j ==> lines[k] == old(lines[k]) + BodyRow(word, k, height)[..c + 1]
        invariant forall k :: j <= k < lines.Length ==> lines[k] == old(lines[k]) + BodyRow(word, k, height)[..c]
      {
        assert BodyRow(word, j, height)[..c + 1] == BodyRow(word, j, height)[..c] + [BodyChar(word[c], j, height)];
        lines[j] := lines[j] + [BodyChar(word[c], j, height)];
      }
    }
    assert forall j :: 0 <= j < lines.Length ==> BodyRow(word, j, height)[..|word|] == BodyRow(word, j, height);
  }

  /**
   * The columns drawn for the first n runs: per run an opening of
   * height + 1, the body and a tail of height, and one more column after
   * the last run.
   */
  function DrawnWidth(runs: seq<Run>, n: nat, width: nat, height: nat): nat
    requires n <= |runs| && forall i :: 0 <= i < |runs| ==> runs[i].duration >= 1
  {
    if n == 0 then 0
    else
      DrawnWidth(runs, n - 1, width, height) + (height + 1) + StrWidth(width, height, runs[n - 1].duration)
        + TailLength(height, n == |runs|)
  }

  /**
   * The lines render draws: 2 * height + 1 of them, each run adding its
   * opening, its formatted value and its tail to every line, so every line
   * has the same length. What each line holds is stated run by run by
   * DrawRun, and the shape of a run's rows by ShapeSpec.
   */
  method DrawLines(values: seq<BitVec>, option: LegacyBitvecStr.FormatOption, width: nat, height: nat)
    returns (lines: array<string>)
    ensures lines.Length == 2 * height + 1
    ensures forall j :: 0 <= j < lines.Length ==>
      |lines[j]| == DrawnWidth(CompactVec(values), |CompactVec(values)|, width, height)
  {
    lines := new string[2 * height + 1](_ => "");
    var runs := CompactVec(values);
    CompactVecSpec(values);
    for c := 0 to |runs|
      invariant forall j :: 0 <= j < lines.Length ==> |lines[j]| == DrawnWidth(runs, c, width, height)
    {
      var isEndValue := c == |runs| - 1;
      var word := Format(runs[c].value, runs[c].duration, option, width, height);
      FormatSpec(runs[c].value, runs[c].duration, option, width, height);
      DrawRun(lines, word, height, isEndValue);
      assert DrawnWidth(runs, c + 1, width, height)
        == DrawnWidth(runs, c, width, height) + (height + 1) + |word| + TailLength(height, isEndValue);
    }
  }

  /** One run of the render loop: its opening, its body and its tail on every line. */
  method DrawRun(lines: array<string>, word: string, height: nat, isEndValue: bool)
    modifies lines
    ensures forall j :: 0 <= j < lines.Length ==>
      lines[j] == old(lines[j]) + OpeningRow(j, height) + BodyRow(word, j, height) + TailRow(j, height, isEndValue)
  {
    DrawOpening(lines, height);
    DrawBody(lines, word, height);
    DrawTail(lines, height, isEndValue);
  }

  /**
   * Together the rows of n runs are the formatted widths plus 2 * height + 1
   * per run, and one more column when there is a run.
   */
  lemma {:induction false} DrawnWidthSum(runs: seq<Run>, n: nat, width: nat, height: nat)
    requires n <= |runs| && forall i :: 0 <= i < |runs| ==> runs[i].duration >= 1
    ensures DrawnWidth(runs, n, width, height)
      == BodyWidths(runs, n, width, height) + (2 * height + 1) * n + (if n == |runs| && n > 0 then 1 else 0)
  {
    if n > 0 {
      DrawnWidthSum(runs, n - 1, width, height);
      var h := 2 * height + 1;
      assert h * n == h * (n - 1) + h;
    }
  }

  /** The formatted widths of the first n runs, summed. */
  function BodyWidths(runs: seq<Run>, n: nat, width: nat, height: nat): nat
    requires n <= |runs| && forall i :: 0 <= i < |runs| ==> runs[i].duration >= 1
  {
    if n == 0 then 0 else BodyWidths(runs, n - 1, width, height) + StrWidth(width, height, runs[n - 1].duration)
  }
}
