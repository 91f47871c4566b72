/**
 * The simulator in oombak_sim/src/local_simulator.rs. Its DUT state and
 * simulation result behave as the local simulator's (`LocalSim.DutState`,
 * `LocalSim.SimulationResult`: the same run loop, append and reload); what
 * differs is that a load sets the reload flag without checking it, that it
 * owns the response channel, and that a Terminate request drops that
 * channel instead of answering.
 */
module SimLocalSimulator {
  import opened Wrappers
  import opened SimDut
  import opened SimWaves
  import opened SimMessages
  import LocalSim

  class LocalSimulator {
    /** Whether a response channel is set; responses sent on it are `sent`. */
    var channelOpen: bool
    var sent: seq<Response>
    const result: LocalSim.SimulationResult
    const dutState: LocalSim.DutState

    predicate Valid()
      reads this, result
    {
      result.Valid()
    }

    /** The result's clock is the loaded DUT's clock. */
    predicate Synced()
      reads this, result, dutState
    {
      dutState.dut.Some? ==> dutState.dut.value.time == result.currentTime
    }

    /** The default simulator: no channel, nothing loaded. */
    constructor()
      ensures Valid() && Synced() && fresh(result) && fresh(dutState)
      ensures !channelOpen && sent == []
      ensures result.currentTime == 0 && result.waves == []
      ensures dutState.dut.None? && dutState.probe.None? && dutState.path.None? && !dutState.willBeReloaded
    {
      channelOpen := false;
      sent := [];
      result := new LocalSim.SimulationResult();
      dutState := new LocalSim.DutState();
    }

    /** set_channel: responses are sent from now on. */
    method SetChannel()
      modifies this
      ensures channelOpen && sent == old(sent)
    {
      channelOpen := true;
    }

    /** drop_channel: no response is sent from now on. */
    method DropChannel()
      modifies this
      ensures !channelOpen && sent == old(sent)
    {
      channelOpen := false;
    }

    /**
     * load_dut: the reload flag is set whatever its value, the design at
     * `path` is built and loaded in place of the old one, and the result is
     * reset to one empty wave per signal. Only a successful load clears the
     * flag.
     */
    method LoadDut(host: Host, path: string) returns (r: Result<LoadedDut, SimError>)
      requires Valid()
      modifies result, dutState
      ensures Valid()
      ensures host.build(path).Err? ==>
        && r == Err(host.build(path).error) && dutState.willBeReloaded
        && dutState.dut == old(dutState.dut) && dutState.probe == old(dutState.probe)
        && dutState.path == old(dutState.path) && unchanged(result)
      ensures !dutState.willBeReloaded <==> host.build(path).Ok? && host.open(host.build(path).value.0.libPath).Ok?
      ensures r.Ok? ==>
        && host.build(path).Ok?
        && var (gen, p) := host.build(path).value;
        && r.value == LoadedDutFrom(p)
        && dutState.dut == Some(Dut(gen.libPath, 0, [])) && dutState.path == Some(path)
        && dutState.probe == Some(p) && dutState.tempGenDir == Some(gen)
        && result.currentTime == 0 && DutQuery(host, dutState.dut).Ok?
        && result.waves == WavesFrom(DutQuery(host, dutState.dut).value)
    {
      dutState.willBeReloaded := true;
      var built := host.build(path);
      if built.Err? {
        return Err(built.error);
      }
      var (gen, p) := built.value;
      var reloaded := dutState.Reload(host, path, gen, p);
      if reloaded.Err? {
        return Err(reloaded.error);
      }
      var reset := result.Reload(host, dutState);
      if reset.Err? {
        return Err(reset.error);
      }
      r := Ok(LoadedDutFrom(p));
    }

    /**
     * What serve_run leaves: the payload is the new time, which is the old
     * time plus the duration, or an error; the DUT and the waves are what
     * the run records (`RunFrom`), or its first failure is the error;
     * everything recorded before is kept and the design is untouched.
     */
    twostate predicate RunServed(host: Host, duration: nat, payload: Payload)
      reads this, result, dutState
    {
      && Valid() && LocalSim.Extends(old(result.waves), result.waves)
      && (payload.Result? ==> LocalSim.RunOutcome(host, old(dutState.dut), old(result.waves), old(result.currentTime),
                                                  old(result.currentTime) + duration, Ok((dutState.dut, result.waves))))
      && (payload.Error? ==> LocalSim.RunOutcome(host, old(dutState.dut), old(result.waves), old(result.currentTime),
                                                 old(result.currentTime) + duration, Err(payload.error)))
      && dutState.probe == old(dutState.probe) && dutState.path == old(dutState.path)
      && dutState.tempGenDir == old(dutState.tempGenDir) && dutState.willBeReloaded == old(dutState.willBeReloaded)
      && (payload.Result? ==>
            && payload == Result(CurrentTime(old(result.currentTime) + duration))
            && result.currentTime == old(result.currentTime) + duration && Synced())
    }

    /**
     * What serve_load leaves: a failed build is its error, leaves the
     * reload flag set and changes nothing else; the flag is cleared exactly
     * when the design builds and opens; a loaded answer carries the new
     * probe's design, with the DUT, path, probe, build and result the new
     * design's.
     */
    twostate predicate LoadServed(host: Host, path: string, payload: Payload)
      reads this, result, dutState
    {
      && Valid()
      && (host.build(path).Err? ==>
            && payload == Error(host.build(path).error) && dutState.willBeReloaded
            && dutState.dut == old(dutState.dut) && dutState.probe == old(dutState.probe)
            && dutState.path == old(dutState.path)
            && result.currentTime == old(result.currentTime) && result.waves == old(result.waves))
      && (!dutState.willBeReloaded <==> host.build(path).Ok? && host.open(host.build(path).value.0.libPath).Ok?)
      && (payload.Result? ==>
            && host.build(path).Ok?
            && var (gen, p) := host.build(path).value;
            && payload == Result(Loaded(LoadedDutFrom(p)))
            && dutState.dut == Some(Dut(gen.libPath, 0, [])) && dutState.path == Some(path)
            && dutState.probe == Some(p) && dutState.tempGenDir == Some(gen)
            && result.currentTime == 0 && DutQuery(host, dutState.dut).Ok?
            && result.waves == WavesFrom(DutQuery(host, dutState.dut).value))
    }

    /** serve_run */
    method ServeRun(host: Host, duration: nat) returns (payload: Payload)
      requires Valid() && Synced()
      requires dutState.dut.Some? ==> LocalSim.Advances(host, dutState.dut.value.libPath)
      modifies result, dutState
      ensures RunServed(host, duration, payload)
    {
      var reached := result.Run(host, duration, dutState);
      if reached.Ok? {
        payload := Result(CurrentTime(reached.value));
      } else {
        payload := Error(reached.error);
      }
    }

    /** serve_load */
    method ServeLoad(host: Host, path: string) returns (payload: Payload)
      requires Valid()
      modifies result, dutState
      ensures LoadServed(host, path, payload)
    {
      var loaded := LoadDut(host, path);
      payload := if loaded.Ok? then Result(Loaded(loaded.value)) else Error(loaded.error);
    }

    /**
     * serve: Terminate drops the channel and answers nothing; any other
     * request is served by its handler, whose payload (`answer`) is sent,
     * with the request's id, exactly when a channel is set. Setting a
     * signal and modifying probe points are not implemented there and may
     * not be requested.
     */
    method Serve(host: Host, request: Request) returns (ghost answer: Option<Payload>)
      requires Valid()
      requires !request.payload.SetSignal? && !request.payload.ModifyProbedPoints?
      requires request.payload.Run? ==> Synced() && (dutState.dut.Some? ==> LocalSim.Advances(host, dutState.dut.value.libPath))
      modifies this, result, dutState
      ensures Valid()
      ensures request.payload.Terminate? ==> !channelOpen && sent == old(sent) && unchanged(result, dutState)
      ensures !request.payload.Terminate? ==> channelOpen == old(channelOpen)
      ensures !request.payload.Terminate? && !old(channelOpen) ==> sent == old(sent)
      ensures answer.None? <==> request.payload.Terminate?
      ensures answer.Some? && old(channelOpen) ==> sent == old(sent) + [Response(request.id, answer.value)]
      ensures request.payload.Run? ==> RunServed(host, request.payload.duration, answer.value)
      ensures request.payload.Load? ==> LoadServed(host, request.payload.path, answer.value)
      ensures request.payload.GetSimulationResult? ==>
        answer == Some(Result(Snapshot(result.waves, result.currentTime))) && unchanged(result, dutState)
    {
      var payload: Payload;
      match request.payload {
        case Run(duration) =>
          payload := ServeRun(host, duration);
        case Load(path) =>
          payload := ServeLoad(host, path);
        case GetSimulationResult =>
          payload := Result(Snapshot(result.waves, result.currentTime));
        case Terminate =>
          DropChannel();
          return None;
      }
      answer := Some(payload);
      if channelOpen {
        sent := sent + [Response(request.id, payload)];
      }
    }
  }
}
