/**
 * The Rust side of the parser (oombak_rs/src/probe/parser.rs): the C tree is
 * read through its raw pointers into owned values, C error codes become Rust
 * errors, and signals are looked up by dotted path.
 */
module ProbeParser {
  import opened Wrappers
  import Abi = ParserAbi
  import opened ParserDriver

  datatype Direction = In | Out

  datatype SignalType = PackedArrPort(dir: Direction, portWidth: nat) | PackedArrNetVar(netVarWidth: nat)

  datatype Signal = Signal(name: string, signalType: SignalType)

  datatype InstanceNode = InstanceNode(
    name: string,
    moduleName: string,
    children: seq<InstanceNode>,
    signals: seq<Signal>)

  datatype Error =
    | NullDereference
    | FileNotFound
    | TopLevelModuleNotFound
    | FailedToCompile(diagnostics: string)
    | UnsupportedSymbolType
    | UnsupportedPortDirection
    | InteriorNul

  // ---------------------------------------------------------------------------
  // Signal helpers
  // ---------------------------------------------------------------------------

  predicate IsPort(s: Signal) {
    s.signalType.PackedArrPort?
  }

  predicate IsInputPort(s: Signal) {
    s.signalType.PackedArrPort? && s.signalType.dir == In
  }

  function BitWidth(s: Signal): nat {
    match s.signalType
    case PackedArrPort(_, w) => w
    case PackedArrNetVar(w) => w
  }

  /** get_ports: the node's own signals that are ports, in order. */
  function GetPorts(signals: seq<Signal>): (r: seq<Signal>)
    ensures forall s :: s in r <==> s in signals && IsPort(s)
    ensures |r| <= |signals|
  {
    if signals == [] then []
    else (if IsPort(signals[0]) then [signals[0]] else []) + GetPorts(signals[1..])
  }

  // ---------------------------------------------------------------------------
  // Reading the C tree
  // ---------------------------------------------------------------------------

  /** A C signal seen through its pointers: the name may be NULL. */
  datatype RawSignal = RawSignal(name: Option<string>, signalType: Abi.SignalType, width: nat)

  /** A C instance seen through its pointers: every string and array may be NULL. */
  datatype RawInstance = RawInstance(
    name: Option<string>,
    moduleName: Option<string>,
    signals: Option<seq<RawSignal>>,
    children: RawChildren)

  /** The child-pointer array of a C instance: NULL, or its elements (each possibly NULL). */
  datatype RawChildren = NullArray | ChildArray(ptrs: seq<Option<RawInstance>>)

  /** string_from_ptr */
  function StringFromPtr(p: Option<string>): (r: Result<string, Error>)
    ensures r.Ok? <==> p.Some?
    ensures r.Ok? ==> r.value == p.value
    ensures r.Err? ==> r.error == NullDereference
  {
    match p
    case None => Err(NullDereference)
    case Some(s) => Ok(s)
  }

  function ConvertType(t: Abi.SignalType, width: nat): SignalType {
    match t
    case PackedArrPortIn => PackedArrPort(In, width)
    case PackedArrPortOut => PackedArrPort(Out, width)
    case PackedArrVarNet => PackedArrNetVar(width)
  }

  /** TryFrom<&Signal> for Signal */
  function SignalFromRaw(s: RawSignal): (r: Result<Signal, Error>)
    ensures r.Ok? <==> s.name.Some?
  {
    match StringFromPtr(s.name)
    case Err(e) => Err(e)
    case Ok(n) => Ok(Signal(n, ConvertType(s.signalType, s.width)))
  }

  /** The C signal type a Rust signal type came from. */
  function AbiType(t: SignalType): Abi.SignalType {
    match t
    case PackedArrPort(In, _) => Abi.PackedArrPortIn
    case PackedArrPort(Out, _) => Abi.PackedArrPortOut
    case PackedArrNetVar(_) => Abi.PackedArrVarNet
  }

  /**
   * Signal conversion keeps name and width, and the port direction: a port
   * stays a port, an input stays an input, and the C type can be read back.
   */
  lemma {:induction false} SignalConversion(s: RawSignal)
    requires s.name.Some?
    ensures var sig := SignalFromRaw(s).value;
      && sig.name == s.name.value
      && BitWidth(sig) == s.width
      && (IsPort(sig) <==> Abi.IsPort(Abi.Signal(s.name.value, s.signalType, s.width)))
      && (IsInputPort(sig) <==> s.signalType == Abi.PackedArrPortIn)
      && AbiType(sig.signalType) == s.signalType
  {
  }

  /** signals_ptr_to_vec: NULL array, or the first signal that fails. */
  function SignalsFromRaw(p: Option<seq<RawSignal>>): Result<seq<Signal>, Error> {
    match p
    case None => Err(NullDereference)
    case Some(ss) => CollectSignals(ss)
  }

  function CollectSignals(ss: seq<RawSignal>): Result<seq<Signal>, Error> {
    if ss == [] then Ok([])
    else match SignalFromRaw(ss[0])
      case Err(e) => Err(e)
      case Ok(s) =>
        match CollectSignals(ss[1..])
        case Err(e) => Err(e)
        case Ok(rest) => Ok([s] + rest)
  }

  /**
   * TryFrom<&*const Instance>: the instance pointer, the name, the module
   * name, the signal array and then the child array, each NULL check failing
   * with NullDereference.
   */
  function InstanceFromRaw(p: Option<RawInstance>): Result<InstanceNode, Error>
    decreases p, 1
  {
    match p
    case None => Err(NullDereference)
    case Some(inst) =>
      match StringFromPtr(inst.name)
      case Err(e) => Err(e)
      case Ok(name) =>
        match StringFromPtr(inst.moduleName)
        case Err(e) => Err(e)
        case Ok(moduleName) =>
          match SignalsFromRaw(inst.signals)
          case Err(e) => Err(e)
          case Ok(signals) =>
            match inst.children
            case NullArray => Err(NullDereference)
            case ChildArray(kids) =>
              match ChildrenFromRaw(p, kids, 0)
              case Err(e) => Err(e)
              case Ok(children) => Ok(InstanceNode(name, moduleName, children, signals))
  }

  /** child_instances_ptr_to_vec from the `i`-th child on. */
  function ChildrenFromRaw(p: Option<RawInstance>, kids: seq<Option<RawInstance>>, i: nat): Result<seq<InstanceNode>, Error>
    requires p.Some? && p.value.children == ChildArray(kids)
    decreases p, 0, |kids| - i
  {
    if i >= |kids| then Ok([])
    else
      RawChildSmaller(p, i);
      match InstanceFromRaw(kids[i])
      case Err(e) => Err(e)
      case Ok(c) =>
        match ChildrenFromRaw(p, kids, i + 1)
        case Err(e) => Err(e)
        case Ok(rest) => Ok([c] + rest)
  }

  /** A child pointer is smaller than the instance holding it, for termination. */
  lemma {:induction false} RawChildSmaller(p: Option<RawInstance>, k: nat)
    requires p.Some? && p.value.children.ChildArray? && k < |p.value.children.ptrs|
    ensures p.value.children.ptrs[k] < p
  {
    assert p.value.children.ptrs[k] in p.value.children.ptrs;
  }

  /** Some pointer anywhere in the raw tree is NULL. */
  predicate HasNull(p: Option<RawInstance>)
    decreases p, 1
  {
    match p
    case None => true
    case Some(inst) =>
      inst.name.None? || inst.moduleName.None? || inst.signals.None? || inst.children.NullArray?
      || (exists k :: 0 <= k < |inst.signals.value| && inst.signals.value[k].name.None?)
      || SomeChildHasNull(p, 0)
  }

  /** Some child from the `i`-th on has a NULL pointer in its subtree. */
  predicate SomeChildHasNull(p: Option<RawInstance>, i: nat)
    requires p.Some? && p.value.children.ChildArray?
    decreases p, 0, |p.value.children.ptrs| - i
  {
    if i >= |p.value.children.ptrs| then false
    else
      RawChildSmaller(p, i);
      HasNull(p.value.children.ptrs[i]) || SomeChildHasNull(p, i + 1)
  }

  lemma {:induction false} CollectSignalsNull(ss: seq<RawSignal>)
    ensures CollectSignals(ss).Err? <==> exists k :: 0 <= k < |ss| && ss[k].name.None?
    ensures CollectSignals(ss).Err? ==> CollectSignals(ss).error == NullDereference
    ensures CollectSignals(ss).Ok? ==> |CollectSignals(ss).value| == |ss|
    decreases |ss|
  {
    if ss != [] {
      CollectSignalsNull(ss[1..]);
      if exists k :: 0 <= k < |ss[1..]| && ss[1..][k].name.None? {
        var k :| 0 <= k < |ss[1..]| && ss[1..][k].name.None?;
        assert ss[k + 1].name.None?;
      }
      if exists k :: 0 <= k < |ss| && ss[k].name.None? {
        var k :| 0 <= k < |ss| && ss[k].name.None?;
        if k > 0 {
          assert ss[1..][k - 1].name.None?;
        }
      }
    }
  }

  /**
   * Conversion fails exactly when some pointer in the tree is NULL, and then
   * always with NullDereference.
   */
  lemma {:induction false} InstanceFromRawNull(p: Option<RawInstance>)
    ensures InstanceFromRaw(p).Err? <==> HasNull(p)
    ensures InstanceFromRaw(p).Err? ==> InstanceFromRaw(p).error == NullDereference
    decreases p, 1
  {
    if p.Some? {
      var inst := p.value;
      if inst.signals.Some? {
        CollectSignalsNull(inst.signals.value);
      }
      if inst.children.ChildArray? {
        ChildrenFromRawNull(p, inst.children.ptrs, 0);
      }
    }
  }

  lemma {:induction false} ChildrenFromRawNull(p: Option<RawInstance>, kids: seq<Option<RawInstance>>, i: nat)
    requires p.Some? && p.value.children == ChildArray(kids)
    ensures ChildrenFromRaw(p, kids, i).Err? <==> SomeChildHasNull(p, i)
    ensures ChildrenFromRaw(p, kids, i).Err? ==> ChildrenFromRaw(p, kids, i).error == NullDereference
    decreases p, 0, |kids| - i
  {
    if i < |kids| {
      RawChildSmaller(p, i);
      InstanceFromRawNull(kids[i]);
      ChildrenFromRawNull(p, kids, i + 1);
    }
  }

  // ---------------------------------------------------------------------------
  // The tree the C library hands out
  // ---------------------------------------------------------------------------

  /** The raw view of a built C tree: no pointer is NULL. */
  function Lower(n: Abi.Instance): RawInstance
    decreases n, 1
  {
    RawInstance(Some(n.name), Some(n.moduleName), Some(LowerSignals(n.signals)), ChildArray(LowerChildren(n, 0)))
  }

  function LowerSignals(ss: seq<Abi.Signal>): (r: seq<RawSignal>)
    ensures |r| == |ss|
    ensures forall k :: 0 <= k < |ss| ==> r[k] == RawSignal(Some(ss[k].name), ss[k].signalType, ss[k].width)
  {
    if ss == [] then [] else [RawSignal(Some(ss[0].name), ss[0].signalType, ss[0].width)] + LowerSignals(ss[1..])
  }

  function LowerChildren(n: Abi.Instance, i: nat): (r: seq<Option<RawInstance>>)
    decreases n, 0, |n.children| - i
  {
    if i >= |n.children| then [] else [Some(Lower(n.children[i]))] + LowerChildren(n, i + 1)
  }

  /** The owned tree a C tree should become: same names, same children, converted signals. */
  function Lift(n: Abi.Instance): InstanceNode
    decreases n, 1
  {
    InstanceNode(n.name, n.moduleName, LiftChildren(n, 0), LiftSignals(n.signals))
  }

  function LiftSignals(ss: seq<Abi.Signal>): (r: seq<Signal>)
    ensures |r| == |ss|
    ensures forall k :: 0 <= k < |ss| ==> r[k] == Signal(ss[k].name, ConvertType(ss[k].signalType, ss[k].width))
  {
    if ss == [] then [] else [Signal(ss[0].name, ConvertType(ss[0].signalType, ss[0].width))] + LiftSignals(ss[1..])
  }

  function LiftChildren(n: Abi.Instance, i: nat): (r: seq<InstanceNode>)
    decreases n, 0, |n.children| - i
  {
    if i >= |n.children| then [] else [Lift(n.children[i])] + LiftChildren(n, i + 1)
  }

  lemma {:induction false} CollectLoweredSignals(ss: seq<Abi.Signal>)
    ensures CollectSignals(LowerSignals(ss)) == Ok(LiftSignals(ss))
    decreases |ss|
  {
    if ss != [] {
      CollectLoweredSignals(ss[1..]);
      assert LowerSignals(ss)[1..] == LowerSignals(ss[1..]);
    }
  }

  /** Reading back a tree the C library built gives exactly its owned counterpart. */
  lemma {:induction false} ReadBackBuiltTree(n: Abi.Instance)
    ensures InstanceFromRaw(Some(Lower(n))) == Ok(Lift(n))
    decreases n, 1
  {
    CollectLoweredSignals(n.signals);
    ReadBackChildren(n, 0);
  }

  lemma {:induction false} ReadBackChildren(n: Abi.Instance, i: nat)
    requires i <= |n.children|
    ensures var p := Some(Lower(n));
      ChildrenFromRaw(p, LowerChildren(n, 0), i) == Ok(LiftChildren(n, i))
    decreases n, 0, |n.children| - i
  {
    var p := Some(Lower(n));
    var kids := LowerChildren(n, 0);
    LowerChildrenAt(n, 0);
    if i < |n.children| {
      ReadBackBuiltTree(n.children[i]);
      ReadBackChildren(n, i + 1);
    }
  }

  lemma {:induction false} LowerChildrenAt(n: Abi.Instance, i: nat)
    requires i <= |n.children|
    ensures |LowerChildren(n, i)| == |n.children| - i
    ensures forall k :: 0 <= k < |n.children| - i ==> LowerChildren(n, i)[k] == Some(Lower(n.children[i + k]))
    decreases |n.children| - i
  {
    if i < |n.children| {
      LowerChildrenAt(n, i + 1);
    }
  }

  // ---------------------------------------------------------------------------
  // Results of the C library
  // ---------------------------------------------------------------------------

  /** The result as Rust reads it: the flag, then one member of the union. */
  datatype RawPayload = RawInstancePtr(instance: Option<RawInstance>) | RawError(code: Abi.ErrorCode)
  datatype RawResult = RawResult(isError: nat, payload: RawPayload)

  predicate WellTagged(r: RawResult) {
    (r.isError > 0 <==> r.payload.RawError?)
    && (r.payload.RawError? ==> r.payload.code != Abi.ErrNone)
  }

  /** The error a C error code becomes; CompileError carries no text here. */
  function MapError(code: Abi.ErrorCode): Error
    requires code != Abi.ErrNone
  {
    match code
    case FileNotFound => FileNotFound
    case TopModuleNotFound => TopLevelModuleNotFound
    case CompileError => FailedToCompile("")
    case UnsupportedSymbolType => UnsupportedSymbolType
    case UnsupportedPortDirection => UnsupportedPortDirection
  }

  /** Distinct C error codes become distinct Rust errors, none of them NullDereference. */
  lemma {:induction false} MapErrorInjective(a: Abi.ErrorCode, b: Abi.ErrorCode)
    requires a != Abi.ErrNone && b != Abi.ErrNone
    ensures MapError(a) == MapError(b) ==> a == b
    ensures MapError(a) != NullDereference
  {
  }

  /**
   * TryFrom<Result> for InstanceNode. An error result whose code is NONE
   * hits `unreachable!`, hence WellTagged.
   */
  function NodeFromResult(r: RawResult): (n: Result<InstanceNode, Error>)
    requires WellTagged(r)
    ensures r.isError > 0 ==> n == Err(MapError(r.payload.code))
  {
    if r.isError > 0 then Err(MapError(r.payload.code))
    else InstanceFromRaw(r.payload.instance)
  }

  /** check_compile_error: a compile error carries the context's diagnostics text. */
  function CheckCompileError(r: ParseResult, diagnostics: string): (c: Result<(), Error>)
    ensures c.Err? <==> r.isError == 1 && r.payload.ErrorPayload? && r.payload.error == Abi.CompileError
    ensures c.Err? ==> c.error == FailedToCompile(diagnostics)
  {
    if r.isError == 1 && r.payload.ErrorPayload? && r.payload.error == Abi.CompileError
    then Err(FailedToCompile(diagnostics))
    else Ok(())
  }

  /** How Rust reads a result the driver produced: the union member the flag selects. */
  function ReadResult(r: ParseResult, slot: Option<Abi.Instance>): RawResult {
    match r.payload
    case InstancePtr(_) => RawResult(r.isError, RawInstancePtr(if slot.Some? then Some(Lower(slot.value)) else None))
    case ErrorPayload(e) => RawResult(r.isError, RawError(e))
  }

  /** What `parse` returns for a front end: the owned tree, or the mapped error. */
  function ParseOutcome(paths: seq<string>, top: string, fe: Frontend): Result<InstanceNode, Error> {
    var joined := JoinColon(if paths == [] then [""] else paths);
    if '\0' in joined || '\0' in top then Err(InteriorNul)
    else match InstanceTree(SplitColon(joined), top, fe)
      case Ok(n) => Ok(Lift(n))
      case Err(e) =>
        if e == Abi.CompileError then Err(FailedToCompile(fe.compilation.report))
        else if e == Abi.ErrNone then Err(NullDereference)
        else Err(MapError(e))
  }

  /**
   * parse: join the paths with ':', build in a fresh context, turn a compile
   * error into FailedToCompile with the diagnostics text, and convert the
   * tree. The early return on a compile error skips oombak_parser_free_ctx.
   */
  method Parse(lib: ParserLibrary, sourcePaths: seq<string>, top: string, fe: Frontend)
    returns (r: Result<InstanceNode, Error>)
    ensures r == ParseOutcome(sourcePaths, top, fe)
  {
    var joined := JoinColon(if sourcePaths == [] then [""] else sourcePaths);
    if '\0' in joined || '\0' in top {
      return Err(InteriorNul);
    }
    var ctx := lib.GetCtx();
    var res := lib.ParseR(ctx, joined, top, fe);
    var diagnostics := lib.GetLastDiagnostics(ctx);
    var checked := CheckCompileError(res, diagnostics);
    if checked.Err? {
      return Err(checked.error);
    }
    BuilderErrorsAreCodes(SplitColon(joined), top, fe);
    var raw := ReadResult(res, ctx.root);
    if res.isError == 0 {
      ReadBackBuiltTree(ctx.root.value);
    }
    r := NodeFromResult(raw);
  }

  lemma {:induction false} BuilderErrorsAreCodes(paths: seq<string>, top: string, fe: Frontend)
    ensures InstanceTree(paths, top, fe).Err? ==> InstanceTree(paths, top, fe).error != Abi.ErrNone
  {
    InstanceTreeBuilder.VisitTopsFindsFirstMatch(fe.compilation.tops, top);
    var m := InstanceTreeBuilder.FirstMatchIn(fe.compilation.tops, top);
    if m.Some? {
      InstanceTreeBuilder.BuildErrorIsError(m.value, false);
    }
  }

  /**
   * A parse that succeeds returns the first depth-first instance of the
   * requested module, named after it, whenever the joined paths split back
   * into the same list.
   */
  lemma {:induction false} ParseSuccess(paths: seq<string>, top: string, fe: Frontend)
    requires |paths| >= 1
    requires forall k :: 0 <= k < |paths| ==> ':' !in paths[k]
    requires ParseOutcome(paths, top, fe).Ok?
    ensures InstanceTree(paths, top, fe).Ok?
    ensures ParseOutcome(paths, top, fe).value == Lift(InstanceTree(paths, top, fe).value)
    ensures ParseOutcome(paths, top, fe).value.name == top
    ensures ParseOutcome(paths, top, fe).value.moduleName == top
  {
    SplitJoinColon(paths);
    InstanceTreeOutcome(paths, top, fe);
    BuilderErrorsAreCodes(paths, top, fe);
  }

  // ---------------------------------------------------------------------------
  // Looking up a signal by dotted path
  // ---------------------------------------------------------------------------

  /** split_once('.'): the text before and after the first '.', if there is one. */
  function SplitOnce(s: string): (r: Option<(string, string)>)
    ensures r.None? <==> '.' !in s
    ensures r.Some? ==> s == r.value.0 + "." + r.value.1 && '.' !in r.value.0
  {
    if s == [] then None
    else if s[0] == '.' then Some(([], s[1..]))
    else match SplitOnce(s[1..])
      case None => None
      case Some((h, t)) =>
        assert s == [s[0]] + s[1..];
        Some(([s[0]] + h, t))
  }

  /** The first own signal with that name. */
  function FindOwn(signals: seq<Signal>, name: string): (r: Option<Signal>)
    ensures r.Some? ==> r.value in signals && r.value.name == name
    ensures r.None? ==> forall s :: s in signals ==> s.name != name
  {
    if signals == [] then None
    else if signals[0].name == name then Some(signals[0])
    else FindOwn(signals[1..], name)
  }

  /**
   * get_signal: the head before the first '.' must be this node's name; then
   * own signals are searched for the rest, then the children in order.
   */
  function GetSignal(n: InstanceNode, name: string): Option<Signal>
    decreases n, 1
  {
    match SplitOnce(name)
    case None => None
    case Some((head, tail)) =>
      if n.name != head then None
      else match FindOwn(n.signals, tail)
        case Some(s) => Some(s)
        case None => SearchChildren(n, tail, 0)
  }

  function SearchChildren(n: InstanceNode, tail: string, i: nat): Option<Signal>
    decreases n, 0, |n.children| - i
  {
    if i >= |n.children| then None
    else match GetSignal(n.children[i], tail)
      case Some(s) => Some(s)
      case None => SearchChildren(n, tail, i + 1)
  }

  /** A signal named by a dotted path: node names down the tree, then the signal's name. */
  predicate Addresses(n: InstanceNode, path: string, s: Signal)
    decreases n, 1
  {
    (s in n.signals && path == n.name + "." + s.name)
    || (exists k :: 0 <= k < |n.children| && ChildAddresses(n, k, path, s))
  }

  predicate ChildAddresses(n: InstanceNode, k: nat, path: string, s: Signal)
    requires k < |n.children|
    decreases n, 0
  {
    |n.name| + 1 <= |path| && path[..|n.name| + 1] == n.name + "."
    && Addresses(n.children[k], path[|n.name| + 1..], s)
  }

  /** A lookup without a '.' or with a different head finds nothing. */
  lemma {:induction false} GetSignalHead(n: InstanceNode, name: string)
    ensures GetSignal(n, name).Some? ==> '.' in name && SplitOnce(name).value.0 == n.name
  {
  }

  /** Whatever the lookup returns is a signal of the tree, named by the path it was asked for. */
  lemma {:induction false} GetSignalSound(n: InstanceNode, name: string)
    requires GetSignal(n, name).Some?
    ensures Addresses(n, name, GetSignal(n, name).value)
    decreases n, 1
  {
    var (head, tail) := SplitOnce(name).value;
    var s := GetSignal(n, name).value;
    if FindOwn(n.signals, tail).None? {
      var k := SearchChildrenSound(n, tail, 0);
      GetSignalSound(n.children[k], tail);
      assert name == head + "." + tail;
      assert name[..|n.name| + 1] == n.name + "." && name[|n.name| + 1..] == tail;
      assert ChildAddresses(n, k, name, s);
    }
  }

  lemma {:induction false} SearchChildrenSound(n: InstanceNode, tail: string, i: nat) returns (k: nat)
    requires SearchChildren(n, tail, i).Some?
    ensures i <= k < |n.children| && GetSignal(n.children[k], tail) == SearchChildren(n, tail, i)
    decreases |n.children| - i
  {
    if GetSignal(n.children[i], tail).Some? {
      k := i;
    } else {
      k := SearchChildrenSound(n, tail, i + 1);
    }
  }

  /** No node name contains a '.', as slang identifiers never do. */
  predicate DotFreeNames(n: InstanceNode)
    decreases n
  {
    '.' !in n.name && forall k :: 0 <= k < |n.children| ==> DotFreeNames(n.children[k])
  }

  /**
   * Every signal a dotted path names is found by the lookup (perhaps an
   * earlier one of the same path), when node names contain no '.'.
   */
  lemma {:induction false} GetSignalComplete(n: InstanceNode, path: string, s: Signal)
    requires DotFreeNames(n)
    requires Addresses(n, path, s)
    ensures GetSignal(n, path).Some?
    decreases n, 1
  {
    if s in n.signals && path == n.name + "." + s.name {
      SplitOnceAfter(n.name, s.name);
      if FindOwn(n.signals, s.name).None? {
        assert false;
      }
    } else {
      var k :| 0 <= k < |n.children| && ChildAddresses(n, k, path, s);
      var rest := path[|n.name| + 1..];
      assert path == n.name + "." + rest;
      SplitOnceAfter(n.name, rest);
      GetSignalComplete(n.children[k], rest, s);
      if FindOwn(n.signals, rest).None? {
        SearchChildrenFinds(n, rest, 0, k);
      }
    }
  }

  lemma {:induction false} SplitOnceAfter(head: string, tail: string)
    requires '.' !in head
    ensures SplitOnce(head + "." + tail) == Some((head, tail))
    decreases |head|
  {
    if head == [] {
      assert head + "." + tail == ['.'] + tail;
    } else {
      SplitOnceAfter(head[1..], tail);
      assert (head + "." + tail)[1..] == head[1..] + "." + tail;
      assert [head[0]] + head[1..] == head;
    }
  }

  lemma {:induction false} SearchChildrenFinds(n: InstanceNode, tail: string, i: nat, k: nat)
    requires i <= k < |n.children| && GetSignal(n.children[k], tail).Some?
    ensures SearchChildren(n, tail, i).Some?
    decreases k - i
  {
    if i < k && GetSignal(n.children[i], tail).None? {
      SearchChildrenFinds(n, tail, i + 1, k);
    }
  }

  /** One step of the lookup at a node whose name heads the path. */
  lemma {:induction false} LookupAtNode(n: InstanceNode, tail: string)
    requires '.' !in n.name
    ensures GetSignal(n, n.name + "." + tail) ==
      match FindOwn(n.signals, tail)
      case Some(s) => Some(s)
      case None => SearchChildren(n, tail, 0)
  {
    SplitOnceAfter(n.name, tail);
  }

  /** A path headed by another name finds nothing at this node. */
  lemma {:induction false} LookupElsewhere(n: InstanceNode, head: string, tail: string)
    requires '.' !in head && head != n.name
    ensures GetSignal(n, head + "." + tail) == None
  {
    SplitOnceAfter(head, tail);
  }

  /** The tree of the crate's own lookup test, and the path it finds. */
  lemma {:induction false} LookupExample()
    ensures var sig0 := Signal("sig_0", PackedArrNetVar(1));
      var sig1 := Signal("sig_1", PackedArrNetVar(1));
      var child2 := InstanceNode("child_2", "", [], [sig0, sig1]);
      var child1 := InstanceNode("child_1", "", [child2], []);
      var child0 := InstanceNode("child_0", "", [], []);
      var root := InstanceNode("root", "", [child0, child1], []);
      GetSignal(root, "root" + "." + ("child_1" + "." + ("child_2" + "." + "sig_1"))) == Some(sig1)
  {
    var sig0 := Signal("sig_0", PackedArrNetVar(1));
    var sig1 := Signal("sig_1", PackedArrNetVar(1));
    var child2 := InstanceNode("child_2", "", [], [sig0, sig1]);
    var child1 := InstanceNode("child_1", "", [child2], []);
    var child0 := InstanceNode("child_0", "", [], []);
    var root := InstanceNode("root", "", [child0, child1], []);
    var p2 := "child_2" + "." + "sig_1";
    var p1 := "child_1" + "." + p2;
    LookupAtNode(child2, "sig_1");
    assert FindOwn(child2.signals, "sig_1") == Some(sig1);
    LookupAtNode(child1, p2);
    assert FindOwn(child1.signals, p2) == None;
    assert SearchChildren(child1, p2, 0) == Some(sig1);
    LookupElsewhere(child0, "child_1", p2);
    LookupAtNode(root, p1);
    assert FindOwn(root.signals, p1) == None;
    assert SearchChildren(root, p1, 0) == SearchChildren(root, p1, 1);
  }
}
