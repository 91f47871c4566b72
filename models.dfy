/**
 * What the terminal front end shows of a simulation
 * (oombak_tui/src/components/models.rs): one wave specification per
 * recorded wave, holding the wave and how to draw it (height, radix,
 * signedness), and the simulation's total time, time step and zoom.
 */
module Models {
  import SimWaves
  import BitvecStr

  /** The simulation result as the simulator sends it to the front end. */
  datatype SimulationResult = SimulationResult(waves: seq<SimWaves.Wave>, timeStepPs: nat, currentTime: nat)

  datatype WaveSpec = WaveSpec(wave: SimWaves.Wave, height: nat, format: BitvecStr.Radix, signed: bool)

  datatype SimulationSpec = SimulationSpec(waveSpecs: seq<WaveSpec>, totalTime: nat, timeStepPs: nat, zoom: nat)

  /** How a new wave is drawn: one row high, in binary, signed. */
  function DefaultWaveSpec(wave: SimWaves.Wave): WaveSpec {
    WaveSpec(wave, 1, BitvecStr.Binary, true)
  }

  /** SimulationSpec::new: a default specification per wave, zoom 1, time step 1, up to the current time. */
  function NewSpec(result: SimulationResult): SimulationSpec {
    SimulationSpec(
      seq(|result.waves|, i requires 0 <= i < |result.waves| => DefaultWaveSpec(result.waves[i])),
      result.currentTime, 1, 1)
  }

  /**
   * update: the new waves paired with the existing specifications, as far
   * as both go, each keeping its drawing settings; the time step and total
   * time taken from the result.
   */
  function Update(spec: SimulationSpec, result: SimulationResult): SimulationSpec {
    var n := if |result.waves| <= |spec.waveSpecs| then |result.waves| else |spec.waveSpecs|;
    spec.(
      timeStepPs := result.timeStepPs,
      totalTime := result.currentTime,
      waveSpecs := seq(n, i requires 0 <= i < n && n <= |spec.waveSpecs| && n <= |result.waves| =>
        spec.waveSpecs[i].(wave := result.waves[i])))
  }

  predicate IsEmpty(spec: SimulationSpec) {
    spec.waveSpecs == []
  }

  /**
   * A new specification has one entry per wave, in order, each one row
   * high, binary and signed; zoom and time step 1, and the total time the
   * result's current time. It is empty exactly when there are no waves.
   */
  lemma {:induction false} NewSpecSpec(result: SimulationResult)
    ensures var s := NewSpec(result);
      && |s.waveSpecs| == |result.waves|
      && (forall i :: 0 <= i < |s.waveSpecs| ==>
            s.waveSpecs[i].wave == result.waves[i] && s.waveSpecs[i].height == 1
            && s.waveSpecs[i].format == BitvecStr.Binary && s.waveSpecs[i].signed)
      && s.zoom == 1 && s.timeStepPs == 1 && s.totalTime == result.currentTime
      && (IsEmpty(s) <==> result.waves == [])
  {
  }

  /**
   * update keeps as many entries as both the waves and the old entries
   * have; each takes its new wave and keeps its height, radix and
   * signedness; the zoom stays and the time step and total time are the
   * result's. Updating twice with the same result is updating once.
   */
  lemma {:induction false} UpdateSpec(spec: SimulationSpec, result: SimulationResult)
    ensures var s := Update(spec, result);
      && |s.waveSpecs| == (if |result.waves| <= |spec.waveSpecs| then |result.waves| else |spec.waveSpecs|)
      && (forall i :: 0 <= i < |s.waveSpecs| ==>
            s.waveSpecs[i].wave == result.waves[i] && s.waveSpecs[i].height == spec.waveSpecs[i].height
            && s.waveSpecs[i].format == spec.waveSpecs[i].format && s.waveSpecs[i].signed == spec.waveSpecs[i].signed)
      && s.zoom == spec.zoom && s.timeStepPs == result.timeStepPs && s.totalTime == result.currentTime
    ensures Update(Update(spec, result), result) == Update(spec, result)
  {
  }

  /**
   * Updating a new specification with the result it was made from
   * changes only the time step: new starts at 1 instead of the result's.
   */
  lemma {:induction false} UpdateOfNew(result: SimulationResult)
    ensures Update(NewSpec(result), result) == NewSpec(result).(timeStepPs := result.timeStepPs)
  {
  }

  /** The front end's copy of the specification. */
  class SimulationSpecState {
    var waveSpecs: seq<WaveSpec>
    var totalTime: nat
    var timeStepPs: nat
    var zoom: nat

    function Model(): SimulationSpec
      reads this
    {
      SimulationSpec(waveSpecs, totalTime, timeStepPs, zoom)
    }

    constructor(result: SimulationResult)
      ensures Model() == NewSpec(result)
    {
      waveSpecs := seq(|result.waves|, i requires 0 <= i < |result.waves| => DefaultWaveSpec(result.waves[i]));
      totalTime := result.currentTime;
      timeStepPs := 1;
      zoom := 1;
    }

    method UpdateFrom(result: SimulationResult)
      modifies this
      ensures Model() == Update(old(Model()), result)
    {
      timeStepPs := result.timeStepPs;
      totalTime := result.currentTime;
      var specs := waveSpecs;
      var n := if |result.waves| <= |specs| then |result.waves| else |specs|;
      waveSpecs := seq(n, i requires 0 <= i < n && n <= |specs| && n <= |result.waves| =>
        specs[i].(wave := result.waves[i]));
    }
  }
}
