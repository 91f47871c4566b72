/**
 * The requests a simulator serves and the responses it sends back
 * (oombak_sim/src/message/request.rs, oombak_sim/src/message/response.rs):
 * every response carries the id of the request it answers. Progress
 * notifications are not part of this model.
 */
module SimMessages {
  import opened Bits
  import opened SimDut
  import opened SimWaves

  datatype RequestPayload =
    | Run(duration: nat)
    | SetSignal(signalName: string, value: BitVec)
    | Load(path: string)
    | ModifyProbedPoints(mods: ProbePointsModification)
    | GetSimulationResult
    | Terminate

  datatype Request = Request(id: nat, payload: RequestPayload)

  /** A simulation result as sent: the waves and the time they reach. */
  datatype Results =
    | CurrentTime(time: nat)
    | Loaded(loaded: LoadedDut)
    | Snapshot(waves: seq<Wave>, time: nat)
    | Empty

  datatype Payload = Result(result: Results) | Error(error: SimError)

  datatype Response = Response(id: nat, payload: Payload)
}
