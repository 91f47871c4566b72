/**
 * The Rust side of the DUT library (oombak_rs/src/dut.rs): the C entry
 * points' return codes become results, and word buffers become bit vectors.
 * The library calls themselves are outside the model; what they return (a
 * status code, a word buffer or a null pointer, a bit count) is a parameter.
 */
module DutBindings {
  import opened Wrappers
  import opened Bits

  datatype Error =
    | Query
    | Run
    | Set(signalName: string, value: BitVec)
    | Get(signalName: string)
    | InteriorNul

  /**
   * Dut::bitvec_from: read ⌈n/32⌉ words, lay them out least significant bit
   * first and keep n bits.
   */
  function BitvecFrom(words: seq<Word>, nBits: nat): (r: BitVec)
    requires |words| >= CeilDiv32(nBits)
    ensures |r| == nBits
    ensures forall i :: 0 <= i < nBits ==> r[i] == Bit(words[i / 32], i % 32)
  {
    var slice := words[..CeilDiv32(nBits)];
    var r := Unpack(slice, nBits);
    forall i | 0 <= i < nBits
      ensures r[i] == Bit(words[i / 32], i % 32)
    {
      WordsToBitsIndex(slice, i);
    }
    r
  }

  /** Reading back the words a bit vector is stored in gives the bit vector. */
  lemma {:induction false} BitvecFromPack(bs: BitVec)
    ensures BitvecFrom(Pack(bs), |bs|) == bs
  {
    var ws := Pack(bs);
    UnpackPack(bs);
    assert ws[..CeilDiv32(|bs|)] == ws;
    assert BitvecFrom(ws, |bs|) == Unpack(ws, |bs|);
  }

  /** Dut::run: status 0 gives the time the library reported, any other an error. */
  function RunResult(status: int, currentTime: nat): (r: Result<nat, Error>)
    ensures r.Ok? <==> status == 0
    ensures r.Ok? ==> r.value == currentTime
    ensures r.Err? ==> r.error == Run
  {
    if status == 0 then Ok(currentTime) else Err(Run)
  }

  /** The words Dut::set hands to the library: the bit vector's storage. */
  function SetWords(value: BitVec): (ws: seq<Word>)
    ensures |ws| == CeilDiv32(|value|)
    ensures BitvecFrom(ws, |value|) == value
  {
    BitvecFromPack(value);
    Pack(value)
  }

  /**
   * Dut::set: a name with a NUL byte cannot cross to C; status 0 is success,
   * any other status is a Set error carrying the name and the value.
   */
  function SetResult(name: string, value: BitVec, status: int): (r: Result<(), Error>)
    ensures r.Ok? <==> '\0' !in name && status == 0
    ensures '\0' in name ==> r == Err(InteriorNul)
    ensures '\0' !in name && status != 0 ==> r == Err(Set(name, value))
  {
    if '\0' in name then Err(InteriorNul)
    else if status == 0 then Ok(())
    else Err(Set(name, value))
  }

  /**
   * Dut::get: a null word pointer (None) is a Get error carrying the name;
   * otherwise the reported bits are read from the words.
   */
  function GetResult(name: string, words: Option<seq<Word>>, nBits: nat): (r: Result<BitVec, Error>)
    requires words.Some? ==> |words.value| >= CeilDiv32(nBits)
    ensures '\0' in name ==> r == Err(InteriorNul)
    ensures '\0' !in name && words.None? ==> r == Err(Get(name))
    ensures r.Ok? <==> '\0' !in name && words.Some?
    ensures r.Ok? ==> |r.value| == nBits
  {
    if '\0' in name then Err(InteriorNul)
    else if words.None? then Err(Get(name))
    else Ok(BitvecFrom(words.value, nBits))
  }

  /** A signal as the library describes it; the flags are bytes. */
  datatype SigT = SigT(name: string, width: nat, canGet: nat, canSet: nat)

  datatype Signal = Signal(name: string, width: nat, canGet: bool, canSet: bool)

  /** Signal::from: name and width copied, each flag true exactly when its byte is 1. */
  function SignalFrom(s: SigT): (r: Signal)
    ensures r.name == s.name && r.width == s.width
    ensures r.canGet <==> s.canGet == 1
    ensures r.canSet <==> s.canSet == 1
  {
    Signal(s.name, s.width, s.canGet == 1, s.canSet == 1)
  }

  /** Dut::signals_from: one signal per descriptor, in order. */
  function SignalsFrom(sigs: seq<SigT>): (r: seq<Signal>)
    ensures |r| == |sigs|
    ensures forall k :: 0 <= k < |sigs| ==> r[k] == SignalFrom(sigs[k])
  {
    seq(|sigs|, k requires 0 <= k < |sigs| => SignalFrom(sigs[k]))
  }
}
