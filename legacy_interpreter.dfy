/**
 * The earlier terminal front end's command line
 * (ombak-tui/src/backend/interpreter.rs): only running and loading.
 */
module LegacyInterpreter {
  import opened Wrappers
  import opened Words
  import BitvecStr
  import Interpreter

  datatype Command =
    | Run(duration: nat)
    | Load(libPath: string)
    | Noop

  const LoadArityMessage := "expected 1 argument (lib_path: String)"

  function ParseRun(args: seq<string>): Result<Command, string> {
    if |args| != 1 then Err(Interpreter.RunArityMessage)
    else
      match Interpreter.ParseU64(args[0])
      case Some(d) => Ok(Run(d))
      case None => Err(Interpreter.NotU64Message(args[0]))
  }

  function ParseLoad(args: seq<string>): Result<Command, string> {
    if |args| != 1 then Err(LoadArityMessage) else Ok(Load(args[0]))
  }

  function Interpret(commandString: string): Result<Command, string> {
    var words := SplitWhitespace(commandString);
    if words == [] then Ok(Noop)
    else
      var args := words[1..];
      match words[0]
      case "run" => ParseRun(args)
      case "load" => ParseLoad(args)
      case _ => Err(Interpreter.UnknownCommandMessage(words[0]))
  }

  /**
   * Nothing exactly for a blank line; every first word but run and load is
   * unknown; a run needs exactly one u64 and a load exactly one word, kept
   * as it stands.
   */
  lemma {:induction false} InterpretOutcome(s: string)
    ensures Interpret(s) == Ok(Noop) <==> Blank(s)
    ensures var words := SplitWhitespace(s);
      && (words != [] && words[0] != "run" && words[0] != "load" ==>
            Interpret(s) == Err(Interpreter.UnknownCommandMessage(words[0])))
      && (Interpret(s).Ok? && Interpret(s).value.Run? ==>
            |words| == 2 && words[0] == "run" && Interpreter.ParseU64(words[1]) == Some(Interpret(s).value.duration))
      && (Interpret(s).Ok? && Interpret(s).value.Load? ==>
            words == ["load", Interpret(s).value.libPath] && IsWord(Interpret(s).value.libPath))
      && (words != [] && words[0] == "run" && |words| != 2 ==> Interpret(s) == Err(Interpreter.RunArityMessage))
      && (words != [] && words[0] == "load" && |words| != 2 ==> Interpret(s) == Err(LoadArityMessage))
  {
    SplitWhitespaceWords(s);
    var words := SplitWhitespace(s);
    if |words| == 2 {
      assert words == [words[0], words[1]];
    }
  }

  /**
   * The later interpreter reads blank, run and load lines the same way,
   * and reports a first word neither interpreter knows with the same
   * message.
   */
  lemma {:induction false} AgreesWithLater(s: string)
    ensures Interpret(s) == Ok(Noop) <==> Interpreter.Interpret(s) == Ok(Interpreter.Noop)
    ensures forall d :: Interpret(s) == Ok(Run(d)) <==> Interpreter.Interpret(s) == Ok(Interpreter.Run(d))
    ensures forall p :: Interpret(s) == Ok(Load(p)) <==> Interpreter.Interpret(s) == Ok(Interpreter.Load(p))
    ensures var words := SplitWhitespace(s);
      words != [] && !Interpreter.IsCommandName(words[0]) ==>
        Interpret(s) == Err(Interpreter.UnknownCommandMessage(words[0]))
        && Interpreter.Interpret(s) == Err(Interpreter.UnknownCommandMessage(words[0]))
  {
    InterpretOutcome(s);
    Interpreter.InterpretOutcome(s);
  }

  /** "run" and a number: a run for that long, when the number is a u64. */
  lemma {:induction false} RunText(n: nat)
    ensures Interpret(Join(["run", BitvecStr.NatToString(n)])) ==
      if n <= Interpreter.U64Max then Ok(Run(n)) else Err(Interpreter.NotU64Message(BitvecStr.NatToString(n)))
  {
    var words := ["run", BitvecStr.NatToString(n)];
    Interpreter.DecimalTextIsWord(n);
    SplitJoin(words);
    Interpreter.ParseU64Decimal(n);
    assert words[1..] == [BitvecStr.NatToString(n)];
  }
}
