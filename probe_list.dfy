/**
 * The probe (oombak_rs/src/probe.rs): the instance tree of a design and the
 * list of signals picked from it by dotted path.
 *
 * The file is written against the first parser module; where its calls do
 * not match that module's signatures (the lookup's result is used as a plain
 * option) the lookup is taken as the option it returns.
 */
module ProbeList {
  import opened Wrappers
  import opened ParserDriver
  import LegacyParserDriver
  import Probe = ProbeParser
  import opened LegacyParser

  datatype ProbeError = ParseFailed(cause: LegacyParser.Error) | UnknownSignal(signalName: string)

  /** The signal is one of the tree's nodes' own signals. */
  predicate InTree(n: InstanceNode, s: Signal)
    decreases n
  {
    s in n.signals || exists k :: 0 <= k < |n.children| && InTree(n.children[k], s)
  }

  /** What the lookup returns is a signal of some node of the tree. */
  lemma {:induction false} LookupInTree(n: InstanceNode, name: string)
    requires GetSignal(n, name).Some?
    ensures InTree(n, GetSignal(n, name).value)
    decreases n, 1
  {
    var (head, tail) := Probe.SplitOnce(name).value;
    if FindOwn(n.signals, tail).None? {
      var k := SearchInTree(n, tail, 0);
    }
  }

  lemma {:induction false} SearchInTree(n: InstanceNode, tail: string, i: nat) returns (k: nat)
    requires SearchChildren(n, tail, i).Some?
    ensures i <= k < |n.children| && InTree(n.children[k], SearchChildren(n, tail, i).value)
    decreases n, 0, |n.children| - i
  {
    if GetSignal(n.children[i], tail).Some? {
      LookupInTree(n.children[i], tail);
      k := i;
    } else {
      k := SearchInTree(n, tail, i + 1);
    }
  }

  /** The outcome of add_signal_to_probe on the list: the new list, and the error if any. */
  function AddSpec(root: InstanceNode, probed: seq<Signal>, name: string): (seq<Signal>, Option<ProbeError>) {
    match GetSignal(root, name)
    case Some(s) => (probed + [s], None)
    case None => (probed, Some(UnknownSignal(name)))
  }

  /** Adding keeps every probed signal a signal of the tree, and keeps what was there. */
  lemma {:induction false} AddKeepsTreeSignals(root: InstanceNode, probed: seq<Signal>, name: string)
    requires forall k :: 0 <= k < |probed| ==> InTree(root, probed[k])
    ensures var (after, err) := AddSpec(root, probed, name);
      && (forall k :: 0 <= k < |after| ==> InTree(root, after[k]))
      && probed <= after
      && |after| <= |probed| + 1
      && (err.None? <==> |after| == |probed| + 1)
  {
    if GetSignal(root, name).Some? {
      LookupInTree(root, name);
    }
  }

  class ProbeState {
    const root: InstanceNode
    var probedSignals: seq<Signal>

    /** Every probed signal belongs to the tree. */
    predicate Valid()
      reads this
    {
      forall k :: 0 <= k < |probedSignals| ==> InTree(root, probedSignals[k])
    }

    /** A probe over a parsed tree starts with no probed signals. */
    constructor(tree: InstanceNode)
      ensures root == tree && probedSignals == [] && Valid()
    {
      root := tree;
      probedSignals := [];
    }

    /**
     * add_signal_to_probe: push the signal the lookup finds, or report the
     * name as unknown and leave the list as it was.
     */
    method AddSignalToProbe(name: string) returns (r: Result<(), ProbeError>)
      requires Valid()
      modifies this
      ensures Valid()
      ensures match GetSignal(root, name)
        case Some(s) => r.Ok? && probedSignals == old(probedSignals) + [s]
        case None => r == Err(UnknownSignal(name)) && probedSignals == old(probedSignals)
    {
      AddKeepsTreeSignals(root, probedSignals, name);
      var found := GetSignal(root, name);
      if found.Some? {
        probedSignals := probedSignals + [found.value];
        r := Ok(());
      } else {
        r := Err(UnknownSignal(name));
      }
    }

    /** top_level_module_name */
    function TopLevelModuleName(): string
      reads this
    {
      root.moduleName
    }
  }

  /**
   * Probe::try_from: parse the design and start with an empty list; the
   * root's module name is then the requested top module.
   */
  method TryFrom(lib: LegacyParserDriver.LegacyParserLibrary, sourcePaths: seq<string>, top: string, fe: Frontend)
    returns (r: Result<ProbeState, ProbeError>)
    modifies lib.parser
    ensures var joined := JoinColon(if sourcePaths == [] then [""] else sourcePaths);
      && (r.Ok? <==> '\0' !in joined && '\0' !in top && InstanceTree(SplitColon(joined), top, fe).Ok?)
      && (r.Ok? ==>
            && fresh(r.value) && r.value.Valid() && r.value.probedSignals == []
            && r.value.TopLevelModuleName() == top
            && ProbeNode(r.value.root) == Probe.Lift(InstanceTree(SplitColon(joined), top, fe).value))
  {
    var joined := JoinColon(if sourcePaths == [] then [""] else sourcePaths);
    var parsed := LegacyParser.Parse(lib, sourcePaths, top, fe);
    if parsed.Err? {
      return Err(ParseFailed(parsed.error));
    }
    InstanceTreeOutcome(SplitColon(joined), top, fe);
    var p := new ProbeState(parsed.value);
    return Ok(p);
  }
}
