/**
 * The C++ wrapper that oombak_gen generates around a Verilator model
 * (oombak_gen/res/test/sv_project_oombak_gen_output/dut.cpp): stepping
 * time, the signal-name table, and moving n-bit values in and out of
 * Verilator's svBitVecVal buffers as 32-bit words.
 *
 * The part-select routines svGetPartselBit / svPutPartselBit (IEEE
 * 1800-2017, Annex H) copy w <= 32 bits between a buffer at bit offset i
 * and the low bits of a word; a word read this way has its unused upper
 * bits clear. The Verilator model itself (eval, its event queue) is not
 * part of this model: whether events are pending, the next time slot and
 * whether $finish was reached are fields read as they are, and what an
 * eval leaves them at is a parameter (`Scheduler`).
 */
module DutShim {
  import opened Wrappers
  import opened Bits

  /** The rule of Dut::run: the time after one step. */
  function NextTime(time: nat, duration: nat, eventsPending: bool, nextTimeSlot: nat): nat {
    if eventsPending && time + duration > nextTimeSlot then nextTimeSlot else time + duration
  }

  /**
   * A step never passes the next pending event: with events pending it ends
   * at the earlier of time + duration and the next time slot; otherwise it
   * advances by the full duration.
   */
  lemma {:induction false} NextTimeIsMin(time: nat, duration: nat, eventsPending: bool, nextTimeSlot: nat)
    ensures eventsPending ==> NextTime(time, duration, eventsPending, nextTimeSlot) == Min(time + duration, nextTimeSlot)
    ensures !eventsPending ==> NextTime(time, duration, eventsPending, nextTimeSlot) == time + duration
    ensures NextTime(time, duration, eventsPending, nextTimeSlot) <= time + duration
  {
  }

  /**
   * The scheduler state an eval of the Verilated model leaves: whether
   * $finish was reached, whether events are pending and the next time slot.
   */
  datatype Scheduler = Scheduler(finished: bool, eventsPending: bool, nextTimeSlot: nat)

  /** A row of the signal table: whether a setter and a getter are mapped. */
  datatype Accessors = Accessors(hasSetter: bool, hasGetter: bool)

  /** Dut::set_signal_mappings for the sample project. */
  function SignalMappings(): map<string, Accessors> {
    map[
      "clk" := Accessors(true, true),
      "rst_n" := Accessors(true, true),
      "in" := Accessors(true, true),
      "out" := Accessors(false, true),
      "sample.c" := Accessors(false, true),
      "sample.adder_inst.d" := Accessors(false, true)]
  }

  predicate Settable(m: map<string, Accessors>, name: string) {
    name in m && m[name].hasSetter
  }

  predicate Gettable(m: map<string, Accessors>, name: string) {
    name in m && m[name].hasGetter
  }

  /** Only the input ports get setters; all six probed signals get getters. */
  lemma {:induction false} SignalMappingsContents(name: string)
    ensures Settable(SignalMappings(), name) <==> name in ["clk", "rst_n", "in"]
    ensures Gettable(SignalMappings(), name) <==> name in ["clk", "rst_n", "in", "out", "sample.c", "sample.adder_inst.d"]
  {
  }

  /**
   * Dut::get_words_vec_from: read n bits in chunks of at most 32, each into
   * the low bits of a fresh word. A negative count reads nothing.
   */
  method GetWordsVecFrom(out: BitVec, nBits: int) returns (res: seq<Word>)
    requires nBits <= |out|
    ensures nBits <= 0 ==> res == []
    ensures nBits > 0 ==> res == Pack(out[..nBits])
    ensures nBits > 0 ==> |res| == CeilDiv32(nBits) && Unpack(res, nBits) == out[..nBits]
  {
    res := [];
    var i := 0;
    while i < nBits
      invariant 0 <= i <= if nBits < 0 then 0 else nBits
      invariant i % 32 == 0 || i == nBits
      invariant res == Pack(out[..i])
      decreases nBits - i
    {
      var w := Min(32, nBits - i);
      var val := PackWord(out[i..i + w]);
      PackSnoc(out[..i], out[i..i + w]);
      assert out[..i] + out[i..i + w] == out[..i + w];
      i := i + w;
      res := res + [val];
    }
    if nBits > 0 {
      UnpackPack(out[..nBits]);
    }
  }

  /** Adding a chunk of at most 32 bits after whole words adds one word. */
  lemma {:induction false} PackSnoc(bs: BitVec, chunk: BitVec)
    requires |bs| % 32 == 0 && 1 <= |chunk| <= 32
    ensures Pack(bs + chunk) == Pack(bs) + [PackWord(chunk)]
  {
    var both := bs + chunk;
    var q := |bs| / 32;
    assert CeilDiv32(|both|) == q + 1;
    forall k | 0 <= k < q
      ensures Chunk(both, k) == Chunk(bs, k)
    {
    }
    assert Chunk(both, q) == chunk;
  }

  /**
   * Dut::set_from_words_vec: refuse, writing nothing, when the words hold
   * fewer than n bits (a negative n, converted to size_t, always does);
   * otherwise write bits [0, n) of the buffer, bit i from word i / 32.
   */
  method SetFromWordsVec(buf: array<bool>, words: seq<Word>, nBits: int) returns (ok: bool)
    requires nBits <= buf.Length
    modifies buf
    ensures ok <==> 0 <= nBits <= 32 * |words|
    ensures !ok ==> buf[..] == old(buf[..])
    ensures ok ==> buf[..nBits] == Unpack(words, nBits) && buf[nBits..] == old(buf[nBits..])
  {
    if nBits < 0 || 32 * |words| < nBits {
      return false;
    }
    var i := 0;
    while i < nBits
      invariant 0 <= i <= nBits
      invariant i % 32 == 0 || i == nBits
      invariant buf[..i] == Unpack(words, i)
      invariant buf[nBits..] == old(buf[nBits..])
      decreases nBits - i
    {
      var val := words[i / 32];
      var w := Min(32, nBits - i);
      PutPartselBit(buf, val, i, w);
      forall j | i <= j < i + w
        ensures buf[j] == Unpack(words, i + w)[j]
      {
        WordsToBitsIndex(words, j);
        assert j / 32 == i / 32 && j % 32 == j - i;
      }
      assert buf[..i + w] == Unpack(words, i + w);
      i := i + w;
    }
    return true;
  }

  /** svPutPartselBit(buf, val, i, w): the low w bits of val into bits [i, i + w). */
  method PutPartselBit(buf: array<bool>, val: Word, i: nat, w: nat)
    requires i + w <= buf.Length && w <= 32
    modifies buf
    ensures forall j :: 0 <= j < buf.Length && !(i <= j < i + w) ==> buf[j] == old(buf[j])
    ensures forall j :: i <= j < i + w ==> buf[j] == Bit(val, j - i)
  {
    forall j | i <= j < i + w {
      buf[j] := Bit(val, j - i);
    }
  }

  /** The wrapper object: the simulation context's state and the signal table. */
  class Dut {
    var time: nat
    var finished: bool
    var eventsPending: bool
    var nextTimeSlot: nat
    const signalMapping: map<string, Accessors>

    /** The constructor evaluates once and fills the signal table. */
    constructor(eventsPending: bool, nextTimeSlot: nat)
      ensures time == 0 && !finished
      ensures this.eventsPending == eventsPending && this.nextTimeSlot == nextTimeSlot
      ensures signalMapping == SignalMappings()
    {
      time := 0;
      finished := false;
      this.eventsPending := eventsPending;
      this.nextTimeSlot := nextTimeSlot;
      signalMapping := SignalMappings();
    }

    /**
     * Dut::run: nothing once $finish was reached, else one step by the rule,
     * which reads the scheduler as it was before the step; the eval that
     * follows (`eval`, given the new time) may consume the event, schedule
     * others or reach $finish.
     */
    method Run(duration: nat, eval: nat -> Scheduler) returns (r: Option<nat>)
      modifies this
      ensures old(finished) ==> r.None? && unchanged(this)
      ensures !old(finished) ==>
        && time == NextTime(old(time), duration, old(eventsPending), old(nextTimeSlot)) && r == Some(time)
        && Scheduler(finished, eventsPending, nextTimeSlot) == eval(time)
    {
      if finished {
        return None;
      }
      if eventsPending && time + duration > nextTimeSlot {
        time := nextTimeSlot;
      } else {
        time := time + duration;
      }
      var after := eval(time);
      finished := after.finished;
      eventsPending := after.eventsPending;
      nextTimeSlot := after.nextTimeSlot;
      return Some(time);
    }

    /**
     * Dut::set: false for a name without a setter; otherwise whatever the
     * mapped setter returns (given as `setter`).
     */
    method Set(name: string, words: seq<Word>, setter: (string, seq<Word>) -> bool) returns (ok: bool)
      ensures ok <==> Settable(signalMapping, name) && setter(name, words)
    {
      if name !in signalMapping || !signalMapping[name].hasSetter {
        return false;
      }
      return setter(name, words);
    }

    /**
     * Dut::get: nothing for a name without a getter; otherwise the mapped
     * getter's words and bit count (given as `getter`).
     */
    method Get(name: string, getter: string -> (seq<Word>, nat)) returns (r: Option<(seq<Word>, nat)>)
      ensures r.None? <==> !Gettable(signalMapping, name)
      ensures r.Some? ==> r.value == getter(name)
    {
      if name !in signalMapping || !signalMapping[name].hasGetter {
        return None;
      }
      return Some(getter(name));
    }
  }
}
