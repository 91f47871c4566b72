/**
 * What the simulators (oombak_local_sim/src/lib.rs, oombak_sim/src/local_simulator.rs,
 * oombak_sim/src/sim.rs) see of a loaded design: the DUT handle, the probe
 * that chose its signals, the generated build, and the error kinds.
 *
 * The DUT library is an oracle: how a run advances its clock, what a signal
 * reads, whether a write is accepted and which signals it exposes are fields
 * of `Host`. The handle keeps the clock and the values written to the design
 * so far; runs and reads are functions of both, so a write can change what
 * later runs and reads give.
 */
module SimDut {
  import opened Wrappers
  import opened Bits
  import DutBindings
  import ProbeList
  import LegacyParser

  /** A value written to an input of the design. */
  datatype Input = Input(name: string, value: BitVec)

  /**
   * A loaded DUT: the library it was loaded from, its simulation clock, and
   * the writes it accepted since it was loaded, oldest first (the design's
   * state besides the clock, as far as a simulator can change it).
   */
  datatype Dut = Dut(libPath: string, time: nat, inputs: seq<Input>)

  /** A probe: the design's instance tree and the signals picked from it, in order. */
  datatype Probe = Probe(root: LegacyParser.InstanceNode, probed: seq<LegacyParser.Signal>)

  /** The directory a build generated; the library is loaded from `libPath`. */
  datatype TempGenDir = TempGenDir(libPath: string)

  /** What a load reports back: the tree and the probed points. */
  datatype LoadedDut = LoadedDut(root: LegacyParser.InstanceNode, probedPoints: seq<string>)

  datatype ProbePointsModification = ProbePointsModification(toAdd: seq<string>, toRemove: seq<string>)

  datatype SimError =
    | DutNotLoaded
    | DutIsLoading
    | OombakGen
    | OombakDut(dutCause: DutBindings.Error)
    | OombakProbe(probeCause: ProbeList.ProbeError)

  /**
   * The outside world a simulator calls into: building a design (with its
   * default probe, or with a given one); loading a built library; each
   * library's run (from a time and the inputs written so far, for a
   * requested duration, to the time it reports), signal reads at a time
   * after those inputs, signal writes and signal list; and
   * removing a probed signal (Probe::remove_signal_from_probe is not part
   * of this model).
   */
  datatype Host = Host(
    build: string -> Result<(TempGenDir, Probe), SimError>,
    buildWithProbe: (string, Probe) -> Result<TempGenDir, SimError>,
    open: string -> Result<(), DutBindings.Error>,
    step: (string, nat, seq<Input>, nat) -> Result<nat, DutBindings.Error>,
    read: (string, string, nat, seq<Input>) -> Result<BitVec, DutBindings.Error>,
    write: (string, string, BitVec) -> Result<(), DutBindings.Error>,
    signals: string -> Result<seq<DutBindings.Signal>, DutBindings.Error>,
    remove: (Probe, string) -> Result<Probe, ProbeList.ProbeError>)

  /** Dut::new: the library at the path loaded, its clock at 0, nothing written yet. */
  function OpenDut(host: Host, libPath: string): (r: Result<Dut, SimError>)
    ensures r.Ok? <==> host.open(libPath).Ok?
    ensures r.Ok? ==> r.value == Dut(libPath, 0, [])
  {
    match host.open(libPath)
    case Ok(_) => Ok(Dut(libPath, 0, []))
    case Err(e) => Err(OombakDut(e))
  }

  /** The names of the probed points a load reports. */
  function LoadedDutFrom(p: Probe): (l: LoadedDut)
    ensures l.root == p.root && |l.probedPoints| == |p.probed|
    ensures forall k :: 0 <= k < |p.probed| ==> l.probedPoints[k] == p.probed[k].name
  {
    LoadedDut(p.root, seq(|p.probed|, k requires 0 <= k < |p.probed| => p.probed[k].name))
  }

  /** Run the DUT for `duration`: the DUT moved to the time its library reports. */
  function DutRun(host: Host, dut: Option<Dut>, duration: nat): Result<Dut, SimError> {
    match dut
    case None => Err(DutNotLoaded)
    case Some(d) =>
      match host.step(d.libPath, d.time, d.inputs, duration)
      case Ok(t) => Ok(d.(time := t))
      case Err(e) => Err(OombakDut(e))
  }

  /** Read a signal at the DUT's current time, after the inputs written so far. */
  function DutGet(host: Host, dut: Option<Dut>, name: string): Result<BitVec, SimError> {
    match dut
    case None => Err(DutNotLoaded)
    case Some(d) =>
      match host.read(d.libPath, name, d.time, d.inputs)
      case Ok(v) => Ok(v)
      case Err(e) => Err(OombakDut(e))
  }

  /** Write a value to a signal: the DUT, with the write recorded when the library accepts it. */
  function DutSet(host: Host, dut: Option<Dut>, name: string, value: BitVec): Result<Dut, SimError> {
    match dut
    case None => Err(DutNotLoaded)
    case Some(d) =>
      match host.write(d.libPath, name, value)
      case Ok(_) => Ok(d.(inputs := d.inputs + [Input(name, value)]))
      case Err(e) => Err(OombakDut(e))
  }

  function DutQuery(host: Host, dut: Option<Dut>): Result<seq<DutBindings.Signal>, SimError> {
    match dut
    case None => Err(DutNotLoaded)
    case Some(d) =>
      match host.signals(d.libPath)
      case Ok(ss) => Ok(ss)
      case Err(e) => Err(OombakDut(e))
  }

  /**
   * Every DUT operation fails with DutNotLoaded exactly when no DUT is
   * loaded; with one loaded, a failure is the library's own, a run changes
   * nothing but the clock, and an accepted write changes nothing but the
   * inputs, which it extends by the value written.
   */
  lemma {:induction false} NotLoadedIffNoDut(host: Host, dut: Option<Dut>, name: string, value: BitVec, duration: nat)
    ensures DutGet(host, dut, name) == Err(DutNotLoaded) <==> dut.None?
    ensures DutSet(host, dut, name, value) == Err(DutNotLoaded) <==> dut.None?
    ensures DutQuery(host, dut) == Err(DutNotLoaded) <==> dut.None?
    ensures DutRun(host, dut, duration) == Err(DutNotLoaded) <==> dut.None?
    ensures dut.Some? && DutGet(host, dut, name).Err? ==> DutGet(host, dut, name).error.OombakDut?
    ensures dut.Some? && DutRun(host, dut, duration).Ok? ==>
      && DutRun(host, dut, duration).value.libPath == dut.value.libPath
      && DutRun(host, dut, duration).value.inputs == dut.value.inputs
      && host.step(dut.value.libPath, dut.value.time, dut.value.inputs, duration) == Ok(DutRun(host, dut, duration).value.time)
    ensures dut.Some? ==> (DutSet(host, dut, name, value).Ok? <==> host.write(dut.value.libPath, name, value).Ok?)
    ensures dut.Some? && DutSet(host, dut, name, value).Ok? ==>
      DutSet(host, dut, name, value).value == dut.value.(inputs := dut.value.inputs + [Input(name, value)])
  {
  }

  /** The value most recently written to `name` among `inputs`, if any. */
  function LastWritten(inputs: seq<Input>, name: string): Option<BitVec> {
    if inputs == [] then None
    else if inputs[|inputs| - 1].name == name then Some(inputs[|inputs| - 1].value)
    else LastWritten(inputs[..|inputs| - 1], name)
  }

  /**
   * A write reaches later reads: with a library whose signal reads the value
   * last written to it, a signal read right after an accepted write gives
   * the value written.
   */
  lemma {:induction false} WriteIsReadBack(host: Host, d: Dut, name: string, value: BitVec)
    requires forall t: nat, inputs: seq<Input> :: host.read(d.libPath, name, t, inputs) == Ok(if LastWritten(inputs, name).Some? then LastWritten(inputs, name).value else [])
    requires host.write(d.libPath, name, value).Ok?
    ensures DutSet(host, Some(d), name, value).Ok?
    ensures DutGet(host, Some(DutSet(host, Some(d), name, value).value), name) == Ok(value)
  {
    var w := DutSet(host, Some(d), name, value).value;
    assert w.inputs[..|w.inputs| - 1] == d.inputs;
    assert LastWritten(w.inputs, name) == Some(value);
  }

  /**
   * Adding probe points one by one (Probe::add_signal_to_probe): the probe
   * after the additions that succeeded, and the error of the first that
   * failed, if any.
   */
  function AddAll(p: Probe, names: seq<string>): (Probe, Option<SimError>)
    decreases |names|
  {
    if names == [] then (p, None)
    else
      var (after, err) := ProbeList.AddSpec(p.root, p.probed, names[0]);
      if err.Some? then (p.(probed := after), Some(OombakProbe(err.value)))
      else AddAll(p.(probed := after), names[1..])
  }

  /** Removing probe points one by one with the host's removal; stops at the first failure. */
  function RemoveAll(p: Probe, names: seq<string>, remove: (Probe, string) -> Result<Probe, ProbeList.ProbeError>)
    : (Probe, Option<SimError>)
    decreases |names|
  {
    if names == [] then (p, None)
    else
      match remove(p, names[0])
      case Err(e) => (p, Some(OombakProbe(e)))
      case Ok(q) => RemoveAll(q, names[1..], remove)
  }

  /** Every name is a signal of the tree. */
  predicate AllFound(root: LegacyParser.InstanceNode, names: seq<string>) {
    forall k :: 0 <= k < |names| ==> LegacyParser.GetSignal(root, names[k]).Some?
  }

  /**
   * Additions keep the tree and what was probed, append one probed signal
   * per success, and fail exactly when a name is not in the tree, with that
   * first unknown name; the probed signals stay signals of the tree.
   */
  lemma {:induction false} AddAllSpec(p: Probe, names: seq<string>)
    requires forall k :: 0 <= k < |p.probed| ==> ProbeList.InTree(p.root, p.probed[k])
    ensures var (q, err) := AddAll(p, names);
      && q.root == p.root
      && p.probed <= q.probed
      && (forall k :: 0 <= k < |q.probed| ==> ProbeList.InTree(p.root, q.probed[k]))
      && (err.None? <==> AllFound(p.root, names))
      && (err.None? ==> |q.probed| == |p.probed| + |names|)
      && (err.Some? ==>
            exists i :: (0 <= i < |names| && AllFound(p.root, names[..i])
              && LegacyParser.GetSignal(p.root, names[i]).None?
              && err == Some(OombakProbe(ProbeList.UnknownSignal(names[i])))
              && |q.probed| == |p.probed| + i))
    decreases |names|
  {
    if names != [] {
      ProbeList.AddKeepsTreeSignals(p.root, p.probed, names[0]);
      var (after, err) := ProbeList.AddSpec(p.root, p.probed, names[0]);
      if err.Some? {
        assert AllFound(p.root, names[..0]);
      } else {
        var p' := p.(probed := after);
        AddAllSpec(p', names[1..]);
        var (q, err') := AddAll(p', names[1..]);
        if err'.None? {
          assert AllFound(p.root, names) by {
            forall k | 0 <= k < |names|
              ensures LegacyParser.GetSignal(p.root, names[k]).Some?
            {
              if k > 0 {
                assert names[k] == names[1..][k - 1];
              }
            }
          }
        } else {
          var i :| 0 <= i < |names[1..]| && AllFound(p.root, names[1..][..i])
            && LegacyParser.GetSignal(p.root, names[1..][i]).None?
            && err' == Some(OombakProbe(ProbeList.UnknownSignal(names[1..][i])))
            && |q.probed| == |after| + i;
          var found := names[..i + 1];
          forall k | 0 <= k < |found|
            ensures LegacyParser.GetSignal(p.root, found[k]).Some?
          {
            if k > 0 {
              assert found[k] == names[1..][..i][k - 1];
            }
          }
          assert AllFound(p.root, found);
          assert names[i + 1] == names[1..][i];
        }
      }
    }
  }

  /**
   * The probe after a modification: all additions first, then all
   * removals, and the first error if any.
   */
  function Modified(p: Probe, mods: ProbePointsModification, remove: (Probe, string) -> Result<Probe, ProbeList.ProbeError>)
    : (Probe, Option<SimError>)
  {
    var (added, err) := AddAll(p, mods.toAdd);
    if err.Some? then (added, err) else RemoveAll(added, mods.toRemove, remove)
  }

  /** get_modified_probe's outcome: the modified probe, or the first error. */
  function ModifiedProbe(p: Probe, mods: ProbePointsModification, remove: (Probe, string) -> Result<Probe, ProbeList.ProbeError>)
    : Result<Probe, SimError>
  {
    var (q, err) := Modified(p, mods, remove);
    if err.Some? then Err(err.value) else Ok(q)
  }

  /**
   * Additions come before removals: an unknown addition fails before any
   * removal is tried, keeping the additions before it; otherwise the
   * removals start from the probe with every addition appended.
   */
  lemma {:induction false} ModifiedAddsFirst(p: Probe, mods: ProbePointsModification, remove: (Probe, string) -> Result<Probe, ProbeList.ProbeError>)
    requires forall k :: 0 <= k < |p.probed| ==> ProbeList.InTree(p.root, p.probed[k])
    ensures !AllFound(p.root, mods.toAdd) ==>
      exists i :: (0 <= i < |mods.toAdd| && AllFound(p.root, mods.toAdd[..i])
        && Modified(p, mods, remove).1 == Some(OombakProbe(ProbeList.UnknownSignal(mods.toAdd[i])))
        && p.probed <= Modified(p, mods, remove).0.probed
        && |Modified(p, mods, remove).0.probed| == |p.probed| + i
        && ModifiedProbe(p, mods, remove) == Err(OombakProbe(ProbeList.UnknownSignal(mods.toAdd[i]))))
    ensures AllFound(p.root, mods.toAdd) ==>
      exists q: Probe :: (q.root == p.root && p.probed <= q.probed && |q.probed| == |p.probed| + |mods.toAdd|
        && var (r, err) := RemoveAll(q, mods.toRemove, remove);
           ModifiedProbe(p, mods, remove) == if err.Some? then Err(err.value) else Ok(r))
  {
    AddAllSpec(p, mods.toAdd);
    var (q, err) := AddAll(p, mods.toAdd);
    if AllFound(p.root, mods.toAdd) {
      assert q.root == p.root && p.probed <= q.probed && |q.probed| == |p.probed| + |mods.toAdd|;
    }
  }
}
