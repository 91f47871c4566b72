/**
 * The first generated DUT wrapper (dut_gen/dut.cpp). Its time rule and its
 * word reader are those of the current wrapper; it differs in that `set`
 * ignores the setter's outcome, `get` returns the words alone, the writer
 * checks nothing, and only the four ports are mapped.
 */
module LegacyDutShim {
  import opened Wrappers
  import opened Bits
  import DutShim

  /** Dut::set_signal_mappings of the first wrapper: the four ports. */
  function SignalMappings(): map<string, DutShim.Accessors> {
    map[
      "clk" := DutShim.Accessors(true, true),
      "rst_n" := DutShim.Accessors(true, true),
      "in" := DutShim.Accessors(true, true),
      "out" := DutShim.Accessors(false, true)]
  }

  /** Setters for clk, rst_n and in; getters for those and out; nothing else. */
  lemma {:induction false} SignalMappingsContents(name: string)
    ensures DutShim.Settable(SignalMappings(), name) <==> name in ["clk", "rst_n", "in"]
    ensures DutShim.Gettable(SignalMappings(), name) <==> name in ["clk", "rst_n", "in", "out"]
  {
  }

  /** Every name the first wrapper maps, the current one maps the same way. */
  lemma {:induction false} MappingsGrew()
    ensures forall name :: name in SignalMappings() ==>
      name in DutShim.SignalMappings() && DutShim.SignalMappings()[name] == SignalMappings()[name]
  {
  }

  /**
   * Dut::set_from_vec: no length check, word i / 32 is read for every chunk,
   * so the caller must supply ⌈n/32⌉ words; bits [0, n) are written.
   */
  method SetFromVec(buf: array<bool>, words: seq<Word>, nBits: int)
    requires nBits <= buf.Length
    requires nBits > 0 ==> |words| >= CeilDiv32(nBits)
    modifies buf
    ensures nBits <= 0 ==> buf[..] == old(buf[..])
    ensures nBits > 0 ==> 32 * |words| >= nBits && buf[..nBits] == Unpack(words, nBits)
    ensures nBits > 0 ==> buf[nBits..] == old(buf[nBits..])
  {
    var i := 0;
    while i < nBits
      invariant 0 <= i <= if nBits < 0 then 0 else nBits
      invariant i % 32 == 0 || i == nBits
      invariant nBits > 0 ==> buf[..i] == Unpack(words, i)
      invariant nBits <= 0 ==> buf[..] == old(buf[..])
      invariant nBits > 0 ==> buf[nBits..] == old(buf[nBits..])
      decreases nBits - i
    {
      var val := words[i / 32];
      var w := Min(32, nBits - i);
      DutShim.PutPartselBit(buf, val, i, w);
      forall j | i <= j < i + w
        ensures buf[j] == Unpack(words, i + w)[j]
      {
        WordsToBitsIndex(words, j);
        assert j / 32 == i / 32 && j % 32 == j - i;
      }
      assert buf[..i + w] == Unpack(words, i + w);
      i := i + w;
    }
  }

  /** The first wrapper object. */
  class Dut {
    var time: nat
    var finished: bool
    var eventsPending: bool
    var nextTimeSlot: nat
    const signalMapping: map<string, DutShim.Accessors>

    constructor(eventsPending: bool, nextTimeSlot: nat)
      ensures time == 0 && !finished
      ensures this.eventsPending == eventsPending && this.nextTimeSlot == nextTimeSlot
      ensures signalMapping == SignalMappings()
    {
      time := 0;
      finished := false;
      this.eventsPending := eventsPending;
      this.nextTimeSlot := nextTimeSlot;
      signalMapping := SignalMappings();
    }

    /**
     * Dut::run, with the same rule as the current wrapper, and the same eval
     * after it (`eval`, given the new time).
     */
    method Run(duration: nat, eval: nat -> DutShim.Scheduler) returns (r: Option<nat>)
      modifies this
      ensures old(finished) ==> r.None? && unchanged(this)
      ensures !old(finished) ==>
        && r == Some(time) && time == DutShim.NextTime(old(time), duration, old(eventsPending), old(nextTimeSlot))
        && DutShim.Scheduler(finished, eventsPending, nextTimeSlot) == eval(time)
      ensures !old(finished) && old(eventsPending) ==> time == Min(old(time) + duration, old(nextTimeSlot))
    {
      if finished {
        return None;
      }
      DutShim.NextTimeIsMin(time, duration, eventsPending, nextTimeSlot);
      time := DutShim.NextTime(time, duration, eventsPending, nextTimeSlot);
      var after := eval(time);
      finished := after.finished;
      eventsPending := after.eventsPending;
      nextTimeSlot := after.nextTimeSlot;
      return Some(time);
    }

    /**
     * Dut::set: true whenever a setter is mapped, whatever the setter does;
     * false only for an unknown or read-only name. The setter's effect on the
     * model is outside this model.
     */
    method Set(name: string, words: seq<Word>) returns (ok: bool)
      ensures ok <==> DutShim.Settable(signalMapping, name)
    {
      if name !in signalMapping || !signalMapping[name].hasSetter {
        return false;
      }
      return true;
    }

    /** Dut::get: nothing for a name without a getter, else the getter's words. */
    method Get(name: string, getter: string -> seq<Word>) returns (r: Option<seq<Word>>)
      ensures r.None? <==> !DutShim.Gettable(signalMapping, name)
      ensures r.Some? ==> r.value == getter(name)
    {
      if name !in signalMapping || !signalMapping[name].hasGetter {
        return None;
      }
      return Some(getter(name));
    }
  }
}
