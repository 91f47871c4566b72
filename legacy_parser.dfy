/**
 * The first Rust parser module (oombak_rs/src/parser.rs): the same pointer
 * walk and dotted lookup as the current one, over "unpacked array" signal
 * types, with NullDereference as its only error. It talks to the first C
 * driver, which returns NULL on every failure.
 *
 * Its C structs have the layout of the current ones (both carry a parent
 * pointer that neither Rust reader follows), so the raw views of the current
 * module are reused;
 * its three signal-type tags are those of the current header in the same
 * order.
 */
module LegacyParser {
  import opened Wrappers
  import Abi = ParserAbi
  import opened ParserDriver
  import LegacyParserDriver
  import Probe = ProbeParser

  datatype Direction = In | Out

  datatype SignalType = UnpackedArrPort(dir: Direction, portWidth: nat) | UnpackedArrNetVar(netVarWidth: nat)

  datatype Signal = Signal(name: string, signalType: SignalType)

  datatype InstanceNode = InstanceNode(
    name: string,
    moduleName: string,
    children: seq<InstanceNode>,
    signals: seq<Signal>)

  /** NullDereference is the module's error; InteriorNul stands for CString::new failing. */
  datatype Error = NullDereference | InteriorNul

  predicate IsPort(s: Signal) {
    s.signalType.UnpackedArrPort?
  }

  predicate IsInputPort(s: Signal) {
    s.signalType.UnpackedArrPort? && s.signalType.dir == In
  }

  function BitWidth(s: Signal): nat {
    match s.signalType
    case UnpackedArrPort(_, w) => w
    case UnpackedArrNetVar(w) => w
  }

  /** get_ports */
  function GetPorts(signals: seq<Signal>): (r: seq<Signal>)
    ensures forall s :: s in r <==> s in signals && IsPort(s)
  {
    if signals == [] then []
    else (if IsPort(signals[0]) then [signals[0]] else []) + GetPorts(signals[1..])
  }

  // ---------------------------------------------------------------------------
  // Reading the C tree
  // ---------------------------------------------------------------------------

  function StringFromPtr(p: Option<string>): (r: Result<string, Error>)
    ensures r.Ok? <==> p.Some?
    ensures r.Ok? ==> r.value == p.value
    ensures r.Err? ==> r.error == NullDereference
  {
    match p
    case None => Err(NullDereference)
    case Some(s) => Ok(s)
  }

  function ConvertType(t: Abi.SignalType, width: nat): SignalType {
    match t
    case PackedArrPortIn => UnpackedArrPort(In, width)
    case PackedArrPortOut => UnpackedArrPort(Out, width)
    case PackedArrVarNet => UnpackedArrNetVar(width)
  }

  function SignalFromRaw(s: Probe.RawSignal): (r: Result<Signal, Error>)
    ensures r.Ok? <==> s.name.Some?
  {
    match StringFromPtr(s.name)
    case Err(e) => Err(e)
    case Ok(n) => Ok(Signal(n, ConvertType(s.signalType, s.width)))
  }

  /** Signal conversion keeps the name, the width and the direction. */
  lemma {:induction false} SignalConversion(s: Probe.RawSignal)
    requires s.name.Some?
    ensures var sig := SignalFromRaw(s).value;
      && sig.name == s.name.value
      && BitWidth(sig) == s.width
      && (IsPort(sig) <==> s.signalType != Abi.PackedArrVarNet)
      && (IsInputPort(sig) <==> s.signalType == Abi.PackedArrPortIn)
  {
  }

  function CollectSignals(ss: seq<Probe.RawSignal>): Result<seq<Signal>, Error> {
    if ss == [] then Ok([])
    else match SignalFromRaw(ss[0])
      case Err(e) => Err(e)
      case Ok(s) =>
        match CollectSignals(ss[1..])
        case Err(e) => Err(e)
        case Ok(rest) => Ok([s] + rest)
  }

  /** TryFrom<&*const Instance>: the same order of NULL checks as the current module. */
  function InstanceFromRaw(p: Option<Probe.RawInstance>): Result<InstanceNode, Error>
    decreases p, 1
  {
    match p
    case None => Err(NullDereference)
    case Some(inst) =>
      match StringFromPtr(inst.name)
      case Err(e) => Err(e)
      case Ok(name) =>
        match StringFromPtr(inst.moduleName)
        case Err(e) => Err(e)
        case Ok(moduleName) =>
          match inst.signals
          case None => Err(NullDereference)
          case Some(raw) =>
            match CollectSignals(raw)
            case Err(e) => Err(e)
            case Ok(signals) =>
              match inst.children
              case NullArray => Err(NullDereference)
              case ChildArray(kids) =>
                match ChildrenFromRaw(p, kids, 0)
                case Err(e) => Err(e)
                case Ok(children) => Ok(InstanceNode(name, moduleName, children, signals))
  }

  function ChildrenFromRaw(p: Option<Probe.RawInstance>, kids: seq<Option<Probe.RawInstance>>, i: nat): Result<seq<InstanceNode>, Error>
    requires p.Some? && p.value.children == Probe.ChildArray(kids)
    decreases p, 0, |kids| - i
  {
    if i >= |kids| then Ok([])
    else
      Probe.RawChildSmaller(p, i);
      match InstanceFromRaw(kids[i])
      case Err(e) => Err(e)
      case Ok(c) =>
        match ChildrenFromRaw(p, kids, i + 1)
        case Err(e) => Err(e)
        case Ok(rest) => Ok([c] + rest)
  }

  // ---------------------------------------------------------------------------
  // Correspondence with the current module
  // ---------------------------------------------------------------------------

  function ProbeSignal(s: Signal): Probe.Signal {
    match s.signalType
    case UnpackedArrPort(In, w) => Probe.Signal(s.name, Probe.PackedArrPort(Probe.In, w))
    case UnpackedArrPort(Out, w) => Probe.Signal(s.name, Probe.PackedArrPort(Probe.Out, w))
    case UnpackedArrNetVar(w) => Probe.Signal(s.name, Probe.PackedArrNetVar(w))
  }

  function ProbeSignals(ss: seq<Signal>): (r: seq<Probe.Signal>)
    ensures |r| == |ss|
    ensures forall k :: 0 <= k < |ss| ==> r[k] == ProbeSignal(ss[k])
  {
    if ss == [] then [] else [ProbeSignal(ss[0])] + ProbeSignals(ss[1..])
  }

  /** The same tree in the current module's types. */
  function ProbeNode(n: InstanceNode): Probe.InstanceNode
    decreases n
  {
    Probe.InstanceNode(
      n.name, n.moduleName,
      seq(|n.children|, k requires 0 <= k < |n.children| => ProbeNode(n.children[k])),
      ProbeSignals(n.signals))
  }

  /** The renaming loses nothing: each part of a signal can be read back. */
  lemma {:induction false} ProbeSignalFaithful(s: Signal)
    ensures ProbeSignal(s).name == s.name
    ensures Probe.BitWidth(ProbeSignal(s)) == BitWidth(s)
    ensures Probe.IsPort(ProbeSignal(s)) <==> IsPort(s)
    ensures Probe.IsInputPort(ProbeSignal(s)) <==> IsInputPort(s)
    ensures forall t :: ProbeSignal(t) == ProbeSignal(s) ==> t == s
  {
  }

  lemma {:induction false} CollectSignalsAgree(ss: seq<Probe.RawSignal>)
    ensures CollectSignals(ss).Err? <==> Probe.CollectSignals(ss).Err?
    ensures CollectSignals(ss).Err? ==> CollectSignals(ss).error == NullDereference
    ensures CollectSignals(ss).Ok? ==> Probe.CollectSignals(ss).value == ProbeSignals(CollectSignals(ss).value)
    decreases |ss|
  {
    if ss != [] {
      CollectSignalsAgree(ss[1..]);
      if CollectSignals(ss).Ok? {
        var rest := CollectSignals(ss[1..]).value;
        assert ProbeSignals([SignalFromRaw(ss[0]).value] + rest)[1..] == ProbeSignals(rest);
      }
    }
  }

  /**
   * The first module reads every raw tree exactly as the current one does,
   * up to the renaming of signal types, and turns every failure into
   * NullDereference; it fails exactly when some pointer is NULL.
   */
  lemma {:induction false} InstanceFromRawAgrees(p: Option<Probe.RawInstance>)
    ensures InstanceFromRaw(p).Err? <==> Probe.HasNull(p)
    ensures InstanceFromRaw(p).Err? ==> InstanceFromRaw(p).error == NullDereference
    ensures InstanceFromRaw(p).Ok? ==> Probe.InstanceFromRaw(p) == Ok(ProbeNode(InstanceFromRaw(p).value))
    decreases p, 1
  {
    Probe.InstanceFromRawNull(p);
    if p.Some? {
      var inst := p.value;
      if inst.signals.Some? {
        CollectSignalsAgree(inst.signals.value);
      }
      if inst.children.ChildArray? {
        ChildrenFromRawAgree(p, inst.children.ptrs, 0);
        if InstanceFromRaw(p).Ok? {
          var n := InstanceFromRaw(p).value;
          var pc := Probe.ChildrenFromRaw(p, inst.children.ptrs, 0).value;
          assert |ProbeNode(n).children| == |pc|;
          assert forall k :: 0 <= k < |pc| ==> ProbeNode(n).children[k] == pc[k];
          assert ProbeNode(n).children == pc;
          assert ProbeNode(n).signals == Probe.SignalsFromRaw(inst.signals).value;
        }
      }
    }
  }

  lemma {:induction false} ChildrenFromRawAgree(p: Option<Probe.RawInstance>, kids: seq<Option<Probe.RawInstance>>, i: nat)
    requires p.Some? && p.value.children == Probe.ChildArray(kids)
    ensures ChildrenFromRaw(p, kids, i).Err? <==> Probe.ChildrenFromRaw(p, kids, i).Err?
    ensures ChildrenFromRaw(p, kids, i).Err? ==> ChildrenFromRaw(p, kids, i).error == NullDereference
    ensures ChildrenFromRaw(p, kids, i).Ok? ==>
      var cs := ChildrenFromRaw(p, kids, i).value;
      Probe.ChildrenFromRaw(p, kids, i).value == seq(|cs|, k requires 0 <= k < |cs| => ProbeNode(cs[k]))
    decreases p, 0, |kids| - i
  {
    if i < |kids| {
      Probe.RawChildSmaller(p, i);
      InstanceFromRawAgrees(kids[i]);
      ChildrenFromRawAgree(p, kids, i + 1);
      Probe.InstanceFromRawNull(kids[i]);
    }
  }

  // ---------------------------------------------------------------------------
  // Looking up a signal by dotted path
  // ---------------------------------------------------------------------------

  function FindOwn(signals: seq<Signal>, name: string): (r: Option<Signal>)
    ensures r.Some? ==> r.value in signals && r.value.name == name
  {
    if signals == [] then None
    else if signals[0].name == name then Some(signals[0])
    else FindOwn(signals[1..], name)
  }

  /** get_signal: head must be this node's name; own signals, then children in order. */
  function GetSignal(n: InstanceNode, name: string): Option<Signal>
    decreases n, 1
  {
    match Probe.SplitOnce(name)
    case None => None
    case Some((head, tail)) =>
      if n.name != head then None
      else match FindOwn(n.signals, tail)
        case Some(s) => Some(s)
        case None => SearchChildren(n, tail, 0)
  }

  function SearchChildren(n: InstanceNode, tail: string, i: nat): Option<Signal>
    decreases n, 0, |n.children| - i
  {
    if i >= |n.children| then None
    else match GetSignal(n.children[i], tail)
      case Some(s) => Some(s)
      case None => SearchChildren(n, tail, i + 1)
  }

  lemma {:induction false} FindOwnAgrees(ss: seq<Signal>, name: string)
    ensures FindOwn(ss, name).None? <==> Probe.FindOwn(ProbeSignals(ss), name).None?
    ensures FindOwn(ss, name).Some? ==> Probe.FindOwn(ProbeSignals(ss), name) == Some(ProbeSignal(FindOwn(ss, name).value))
    decreases |ss|
  {
    if ss != [] {
      FindOwnAgrees(ss[1..], name);
      assert ProbeSignals(ss)[1..] == ProbeSignals(ss[1..]);
    }
  }

  /**
   * The first module's lookup answers every path as the current one does on
   * the same tree, so the current module's soundness, completeness and
   * head check hold for it too.
   */
  lemma {:induction false} GetSignalAgrees(n: InstanceNode, name: string)
    ensures GetSignal(n, name).None? <==> Probe.GetSignal(ProbeNode(n), name).None?
    ensures GetSignal(n, name).Some? ==> Probe.GetSignal(ProbeNode(n), name) == Some(ProbeSignal(GetSignal(n, name).value))
    decreases n, 1
  {
    match Probe.SplitOnce(name)
    case None =>
    case Some((head, tail)) =>
      FindOwnAgrees(n.signals, tail);
      SearchChildrenAgree(n, tail, 0);
  }

  lemma {:induction false} SearchChildrenAgree(n: InstanceNode, tail: string, i: nat)
    ensures SearchChildren(n, tail, i).None? <==> Probe.SearchChildren(ProbeNode(n), tail, i).None?
    ensures SearchChildren(n, tail, i).Some? ==> Probe.SearchChildren(ProbeNode(n), tail, i) == Some(ProbeSignal(SearchChildren(n, tail, i).value))
    decreases n, 0, |n.children| - i
  {
    if i < |n.children| {
      GetSignalAgrees(n.children[i], tail);
      SearchChildrenAgree(n, tail, i + 1);
    }
  }

  /** What the lookup returns is a signal of the tree named by the path asked for. */
  lemma {:induction false} GetSignalSound(n: InstanceNode, name: string)
    requires GetSignal(n, name).Some?
    ensures '.' in name && Probe.SplitOnce(name).value.0 == n.name
    ensures Probe.Addresses(ProbeNode(n), name, ProbeSignal(GetSignal(n, name).value))
  {
    GetSignalAgrees(n, name);
    Probe.GetSignalHead(ProbeNode(n), name);
    Probe.GetSignalSound(ProbeNode(n), name);
  }

  // ---------------------------------------------------------------------------
  // parse
  // ---------------------------------------------------------------------------

  /**
   * parse: join with ':', call the first driver's global entry point, and
   * convert the pointer it returns. The driver returns NULL on any failure,
   * so every failure of the C side surfaces as NullDereference.
   */
  method Parse(lib: LegacyParserDriver.LegacyParserLibrary, sourcePaths: seq<string>, top: string, fe: Frontend)
    returns (r: Result<InstanceNode, Error>)
    modifies lib.parser
    ensures var joined := JoinColon(if sourcePaths == [] then [""] else sourcePaths);
      && (r.Err? ==> r.error == (if '\0' in joined || '\0' in top then InteriorNul else NullDereference))
      && (r.Ok? <==> '\0' !in joined && '\0' !in top && InstanceTree(SplitColon(joined), top, fe).Ok?)
      && (r.Ok? ==> ProbeNode(r.value) == Probe.Lift(InstanceTree(SplitColon(joined), top, fe).value))
  {
    var joined := JoinColon(if sourcePaths == [] then [""] else sourcePaths);
    if '\0' in joined || '\0' in top {
      return Err(InteriorNul);
    }
    var ptr := lib.Parse(joined, top, fe);
    var raw: Option<Probe.RawInstance> := None;
    if ptr.Some? {
      raw := Some(Probe.Lower(ptr.value.root.value));
      Probe.ReadBackBuiltTree(ptr.value.root.value);
    }
    r := InstanceFromRaw(raw);
    InstanceFromRawAgrees(raw);
    Probe.InstanceFromRawNull(raw);
  }

  /** A NULL instance pointer is reported as NullDereference (the crate's own null test). */
  lemma {:induction false} NullPointer()
    ensures InstanceFromRaw(None) == Err(NullDereference)
  {
  }
}
