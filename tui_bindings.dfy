/**
 * The prototype's DUT binding (tui/src/lib.rs): the same reading of word
 * buffers as the current binding, with one message-only error, and names
 * converted with `unwrap`, which panics on an interior NUL; the model
 * requires names without one.
 */
module TuiBindings {
  import opened Wrappers
  import opened Bits
  import DutBindings

  /** The prototype's error carries only a message. */
  datatype Error = Error(message: string)

  /**
   * Dut::bitvec_from of the prototype: ⌈n/32⌉ words read, laid out least
   * significant bit first, truncated to n bits.
   */
  function BitvecFrom(words: seq<Word>, nBits: nat): (r: BitVec)
    requires |words| >= CeilDiv32(nBits)
    ensures |r| == nBits
    ensures r == DutBindings.BitvecFrom(words, nBits)
    ensures forall i :: 0 <= i < nBits ==> r[i] == Bit(words[i / 32], i % 32)
  {
    var r := WordsToBits(words[..CeilDiv32(nBits)]);
    r[..nBits]
  }

  /** run: the reported time exactly when the library returns 0. */
  function RunResult(status: int, currentTime: nat): (r: Result<nat, Error>)
    ensures r.Ok? <==> status == 0
    ensures r.Ok? ==> r.value == currentTime
    ensures r.Err? ==> r.error.message == "failed to run"
  {
    if status == 0 then Ok(currentTime) else Err(Error("failed to run"))
  }

  /** set: succeeds exactly when the library returns 0. */
  function SetResult(name: string, status: int): (r: Result<(), Error>)
    requires '\0' !in name
    ensures r.Ok? <==> status == 0
    ensures r.Err? ==> r.error.message == "failed to set"
  {
    if status == 0 then Ok(()) else Err(Error("failed to set"))
  }

  /** get: fails on a null word pointer, else reads the reported bits. */
  function GetResult(name: string, words: Option<seq<Word>>, nBits: nat): (r: Result<BitVec, Error>)
    requires '\0' !in name
    requires words.Some? ==> |words.value| >= CeilDiv32(nBits)
    ensures r.Ok? <==> words.Some?
    ensures r.Ok? ==> r.value == DutBindings.BitvecFrom(words.value, nBits)
    ensures r.Err? ==> r.error.message == "failed to get"
  {
    if words.None? then Err(Error("failed to get")) else Ok(BitvecFrom(words.value, nBits))
  }

  /** The prototype agrees with the current binding on every outcome but the error text. */
  lemma {:induction false} AgreesWithCurrent(name: string, words: Option<seq<Word>>, nBits: nat, status: int, time: nat, value: BitVec)
    requires '\0' !in name
    requires words.Some? ==> |words.value| >= CeilDiv32(nBits)
    ensures RunResult(status, time).Ok? == DutBindings.RunResult(status, time).Ok?
    ensures SetResult(name, status).Ok? == DutBindings.SetResult(name, value, status).Ok?
    ensures GetResult(name, words, nBits).Ok? == DutBindings.GetResult(name, words, nBits).Ok?
    ensures GetResult(name, words, nBits).Ok? ==> GetResult(name, words, nBits).value == DutBindings.GetResult(name, words, nBits).value
  {
  }

  /** Signal::from of the prototype: flags true exactly when the byte is 1. */
  function SignalFrom(s: DutBindings.SigT): (r: DutBindings.Signal)
    ensures r.name == s.name && r.width == s.width
    ensures r.canGet <==> s.canGet == 1
    ensures r.canSet <==> s.canSet == 1
  {
    DutBindings.Signal(s.name, s.width, s.canGet == 1, s.canSet == 1)
  }
}
