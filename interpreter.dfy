/**
 * The terminal front end's command line (oombak_tui/src/backend/interpreter.rs):
 * a line of text becomes a command to run the simulation, load a design,
 * set a signal, quit, show help, or nothing; or an error message to show.
 */
module Interpreter {
  import opened Wrappers
  import opened Bits
  import opened Words
  import BitvecStr

  datatype Command =
    | Run(duration: nat)
    | Load(path: string)
    | Set(name: string, value: BitVec)
    | Quit
    | Help
    | Noop

  const U64Max: nat := 0xFFFF_FFFF_FFFF_FFFF

  const RunArityMessage := "expected 1 argument (duration: u64)"
  const LoadArityMessage := "expected 1 argument (sv_path: String)"
  const SetArityMessage := "expected 2 argument (sigal_name: String, value: String)"

  function UnknownCommandMessage(word: string): string {
    "unknown command \"" + word + "\""
  }

  function NotU64Message(word: string): string {
    "cannot parse " + word + " as u64"
  }

  /**
   * str::parse into u64, which reads like u64::from_str_radix(_, 10): the
   * reading of u128::from_str_radix, with the result bounded by U64Max
   * instead of U128Max.
   */
  function ParseU64(s: string): (r: Option<nat>)
    ensures r.Some? ==> r.value <= U64Max
  {
    match BitvecStr.FromStrRadix(s, 10)
    case Ok(v) => if v <= U64Max then Some(v) else None
    case Err(_) => None
  }

  function ParseRun(args: seq<string>): Result<Command, string> {
    if |args| != 1 then Err(RunArityMessage)
    else
      match ParseU64(args[0])
      case Some(d) => Ok(Run(d))
      case None => Err(NotU64Message(args[0]))
  }

  function ParseLoad(args: seq<string>): Result<Command, string> {
    if |args| != 1 then Err(LoadArityMessage) else Ok(Load(args[0]))
  }

  function ParseSet(args: seq<string>): Result<Command, string> {
    if |args| != 2 then Err(SetArityMessage)
    else
      match BitvecStr.ParseSpec(args[1])
      case Ok(v) => Ok(Set(args[0], v))
      case Err(e) => Err(e)
  }

  function Interpret(commandString: string): Result<Command, string> {
    var words := SplitWhitespace(commandString);
    if words == [] then Ok(Noop)
    else
      var args := words[1..];
      match words[0]
      case "run" => ParseRun(args)
      case "load" => ParseLoad(args)
      case "set" => ParseSet(args)
      case "quit" => Ok(Quit)
      case "help" => Ok(Help)
      case _ => Err(UnknownCommandMessage(words[0]))
  }

  predicate IsCommandName(w: string) {
    w == "run" || w == "load" || w == "set" || w == "quit" || w == "help"
  }

  /**
   * What a line means, in terms of its words: nothing exactly when it is
   * blank; quit and help whatever follows them; an unknown first word is
   * reported; each command with arguments is produced only from the right
   * number of arguments, a load taking its argument as it stands and a set
   * taking its value from the value parser, whose error it passes on.
   */
  lemma {:induction false} InterpretOutcome(s: string)
    ensures Interpret(s) == Ok(Noop) <==> Blank(s)
    ensures var words := SplitWhitespace(s);
      && (words != [] && words[0] == "quit" ==> Interpret(s) == Ok(Quit))
      && (words != [] && words[0] == "help" ==> Interpret(s) == Ok(Help))
      && (words != [] && !IsCommandName(words[0]) ==> Interpret(s) == Err(UnknownCommandMessage(words[0])))
      && (Interpret(s).Ok? && Interpret(s).value.Run? ==>
            |words| == 2 && words[0] == "run" && ParseU64(words[1]) == Some(Interpret(s).value.duration))
      && (Interpret(s).Ok? && Interpret(s).value.Load? ==>
            words == ["load", Interpret(s).value.path] && IsWord(Interpret(s).value.path))
      && (Interpret(s).Ok? && Interpret(s).value.Set? ==>
            && |words| == 3 && words[0] == "set" && words[1] == Interpret(s).value.name
            && BitvecStr.ParseSpec(words[2]) == Ok(Interpret(s).value.value))
      && (|words| == 3 && words[0] == "set" && BitvecStr.ParseSpec(words[2]).Err? ==>
            Interpret(s) == Err(BitvecStr.ParseSpec(words[2]).error))
      && (words != [] && words[0] == "run" && |words| != 2 ==> Interpret(s) == Err(RunArityMessage))
      && (words != [] && words[0] == "load" && |words| != 2 ==> Interpret(s) == Err(LoadArityMessage))
      && (words != [] && words[0] == "set" && |words| != 3 ==> Interpret(s) == Err(SetArityMessage))
  {
    SplitWhitespaceWords(s);
    var words := SplitWhitespace(s);
    if |words| == 2 {
      assert words == [words[0], words[1]];
    }
  }

  /** Decimal text is read back exactly when its number fits the reader's bound. */
  lemma {:induction false} DecimalTextReads(n: nat)
    ensures BitvecStr.Accumulate(0, BitvecStr.NatToString(n), 10) ==
      if n <= BitvecStr.U128Max then Ok(n) else Err(BitvecStr.IntPosOverflowMessage)
    decreases n
  {
    if n <= BitvecStr.U128Max {
      BitvecStr.NatToStringRoundTrip(n);
    } else {
      DecimalTextReads(n / 10);
      BitvecStr.AccumulateAppend(0, BitvecStr.NatToString(n / 10), [BitvecStr.DigitChar(n % 10)], 10);
      assert BitvecStr.DigitValue(BitvecStr.DigitChar(n % 10), 10) == Some(n % 10);
    }
  }

  /** A number written in decimal reads as a u64 exactly when it is at most U64Max. */
  lemma {:induction false} ParseU64Decimal(n: nat)
    ensures ParseU64(BitvecStr.NatToString(n)) == if n <= U64Max then Some(n) else None
  {
    var s := BitvecStr.NatToString(n);
    BitvecStr.NatToStringDigits(n);
    DecimalTextReads(n);
    assert s[0] != '+' && s[0] != '-';
  }

  lemma {:induction false} DecimalTextIsWord(n: nat)
    ensures IsWord(BitvecStr.NatToString(n))
  {
    BitvecStr.NatToStringDigits(n);
  }

  /** "run" and a number: a run for that long, when the number is a u64. */
  lemma {:induction false} RunText(n: nat)
    ensures Interpret(Join(["run", BitvecStr.NatToString(n)])) ==
      if n <= U64Max then Ok(Run(n)) else Err(NotU64Message(BitvecStr.NatToString(n)))
  {
    var words := ["run", BitvecStr.NatToString(n)];
    DecimalTextIsWord(n);
    SplitJoin(words);
    ParseU64Decimal(n);
    assert words[1..] == [BitvecStr.NatToString(n)];
  }

  /** "load" and a path: a load of that path. */
  lemma {:induction false} LoadText(path: string)
    requires IsWord(path)
    ensures Interpret(Join(["load", path])) == Ok(Load(path))
  {
    SplitJoin(["load", path]);
    assert ["load", path][1..] == [path];
  }

  /** "set", a name and a value in binary: a set of that signal to that value. */
  lemma {:induction false} SetText(name: string, bv: BitVec)
    requires IsWord(name)
    ensures Interpret(Join(["set", name, "0b" + BitvecStr.BinaryString(bv, |bv|, false)])) == Ok(Set(name, bv))
  {
    var text := "0b" + BitvecStr.BinaryString(bv, |bv|, false);
    assert IsWord(text) by {
      forall i | 0 <= i < |text| ensures !IsWhitespace(text[i]) {
        if i >= 2 {
          assert text[i] == BitvecStr.BinaryString(bv, |bv|, false)[i - 2];
        }
      }
    }
    var words := ["set", name, text];
    SplitJoin(words);
    BitvecStr.BinaryRoundTrip(bv, |bv|, false);
    assert BitvecStr.Resized(bv, |bv|, false) == bv;
    assert words[1..] == [name, text];
  }
}
