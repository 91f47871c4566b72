/**
 * The visitor that finds the requested top module in an elaborated design and
 * materialises it as an instance tree (instance_tree_builder.hpp).
 *
 * Exceptions thrown while a tree is built become `Err` values; `Handle`
 * catches them and records the error, as the visitor's `handle` does.
 */
module InstanceTreeBuilder {
  import opened Wrappers
  import opened SlangDesign
  import opened ParserAbi

  // ---------------------------------------------------------------------------
  // Signal collection
  // ---------------------------------------------------------------------------

  /** The three member kinds the builder collects, in the order it collects them. */
  datatype SymbolKind = PortSymbols | NetSymbols | VariableSymbols

  /** A port, net or variable member as the signal loop sees it. */
  datatype Candidate = Candidate(name: string, port: Option<Direction>, ty: SvType)

  /** The candidate a member contributes to the loop over `kind`, if it is of that kind. */
  function CandidateOf(m: Member, kind: SymbolKind): Option<Candidate> {
    match m
    case Port(n, d, t) => if kind == PortSymbols then Some(Candidate(n, Some(d), t)) else None
    case Net(n, t) => if kind == NetSymbols then Some(Candidate(n, None, t)) else None
    case Variable(n, t) => if kind == VariableSymbols then Some(Candidate(n, None, t)) else None
    case _ => None
  }

  /** membersOfType<T>(): the members of one kind, in member order. */
  function OfKind(ms: seq<Member>, kind: SymbolKind): (r: seq<Candidate>)
    ensures |r| <= |ms|
  {
    if ms == [] then []
    else
      (match CandidateOf(ms[0], kind) case Some(c) => [c] case None => []) + OfKind(ms[1..], kind)
  }

  /** Only the port loop yields candidates with a direction. */
  lemma {:induction false} OfKindDirections(ms: seq<Member>, kind: SymbolKind)
    ensures forall c :: c in OfKind(ms, kind) ==> (c.port.Some? <==> kind == PortSymbols)
  {
    if ms != [] {
      OfKindDirections(ms[1..], kind);
    }
  }

  /** Every candidate of a body: all ports, then all nets, then all variables. */
  function Candidates(ms: seq<Member>): seq<Candidate> {
    OfKind(ms, PortSymbols) + OfKind(ms, NetSymbols) + OfKind(ms, VariableSymbols)
  }

  /** is_port_with_name_inside: a port of that name has already been collected. */
  predicate HasPortNamed(signals: seq<Signal>, name: string) {
    exists i :: 0 <= i < |signals| && IsPort(signals[i]) && signals[i].name == name
  }

  /** get_port_type: In and Out are supported; InOut and Ref throw. */
  function PortType(d: Direction): (r: Result<SignalType, ErrorCode>)
    ensures r.Ok? <==> (d == In || d == Out)
    ensures r.Ok? ==> (r.value == PackedArrPortIn <==> d == In)
    ensures r.Err? ==> r.error == UnsupportedPortDirection
  {
    match d
    case In => Ok(PackedArrPortIn)
    case Out => Ok(PackedArrPortOut)
    case InOut => Err(UnsupportedPortDirection)
    case Ref => Err(UnsupportedPortDirection)
  }

  /** The signal type of a kept candidate: the port direction, or VAR_NET. */
  function CandidateType(c: Candidate): Result<SignalType, ErrorCode> {
    match c.port
    case Some(d) => PortType(d)
    case None => Ok(PackedArrVarNet)
  }

  predicate BadDirection(c: Candidate) {
    c.port.Some? && (c.port.value == InOut || c.port.value == Ref)
  }

  /**
   * One pass of append_with_signals_of_type over candidates `cs`, starting
   * from the already collected `acc`: the type check first, then the
   * duplicate-port check, then the port direction.
   */
  function Collect(acc: seq<Signal>, cs: seq<Candidate>): Result<seq<Signal>, ErrorCode>
    decreases |cs|
  {
    if cs == [] then Ok(acc)
    else if !IsSupported(cs[0].ty) then Err(UnsupportedSymbolType)
    else if HasPortNamed(acc, cs[0].name) then Collect(acc, cs[1..])
    else match CandidateType(cs[0])
      case Err(e) => Err(e)
      case Ok(t) => Collect(acc + [Signal(cs[0].name, t, BitWidth(cs[0].ty))], cs[1..])
  }

  /** Collecting over a concatenation is collecting over each part in turn. */
  lemma {:induction false} CollectConcat(acc: seq<Signal>, a: seq<Candidate>, b: seq<Candidate>)
    ensures Collect(acc, a + b) ==
      match Collect(acc, a)
      case Ok(mid) => Collect(mid, b)
      case Err(e) => Err(e)
    decreases |a|
  {
    if a == [] {
      assert a + b == b;
    } else {
      assert (a + b)[0] == a[0];
      assert (a + b)[1..] == a[1..] + b;
      if IsSupported(a[0].ty) {
        if HasPortNamed(acc, a[0].name) {
          CollectConcat(acc, a[1..], b);
        } else if CandidateType(a[0]).Ok? {
          CollectConcat(acc + [Signal(a[0].name, CandidateType(a[0]).value, BitWidth(a[0].ty))], a[1..], b);
        }
      }
    }
  }

  /**
   * append_with_signals_of_type<T>: walk the members of one kind in order and
   * append each supported, not yet shadowed signal to `signals`.
   */
  method AppendSignalsOfType(signals: seq<Signal>, ms: seq<Member>, kind: SymbolKind)
    returns (r: Result<seq<Signal>, ErrorCode>)
    ensures r == Collect(signals, OfKind(ms, kind))
  {
    var acc := signals;
    var i := 0;
    while i < |ms|
      invariant 0 <= i <= |ms|
      invariant Collect(signals, OfKind(ms, kind)) == Collect(acc, OfKind(ms[i..], kind))
    {
      assert ms[i..][0] == ms[i] && ms[i..][1..] == ms[i + 1..];
      match CandidateOf(ms[i], kind) {
        case None =>
          assert OfKind(ms[i..], kind) == OfKind(ms[i + 1..], kind);
        case Some(c) =>
          var rest := OfKind(ms[i + 1..], kind);
          assert OfKind(ms[i..], kind) == [c] + rest;
          assert ([c] + rest)[0] == c && ([c] + rest)[1..] == rest;
          if !IsSupported(c.ty) {
            return Err(UnsupportedSymbolType);
          }
          if !HasPortNamed(acc, c.name) {
            var t := CandidateType(c);
            if t.Err? {
              return Err(t.error);
            }
            acc := acc + [Signal(c.name, t.value, BitWidth(c.ty))];
          }
      }
      i := i + 1;
    }
    assert ms[i..] == [];
    r := Ok(acc);
  }

  /** get_signals: ports, then nets, then variables. */
  method GetSignals(s: InstanceSymbol) returns (r: Result<seq<Signal>, ErrorCode>)
    ensures r == Collect([], Candidates(s.members))
  {
    var ports, nets, vars := OfKind(s.members, PortSymbols), OfKind(s.members, NetSymbols), OfKind(s.members, VariableSymbols);
    CollectConcat([], ports + nets, vars);
    CollectConcat([], ports, nets);
    r := AppendSignalsOfType([], s.members, PortSymbols);
    if r.Err? { return; }
    r := AppendSignalsOfType(r.value, s.members, NetSymbols);
    if r.Err? { return; }
    r := AppendSignalsOfType(r.value, s.members, VariableSymbols);
  }

  // ---------------------------------------------------------------------------
  // Properties of signal collection
  // ---------------------------------------------------------------------------

  /** What a kept candidate becomes. */
  predicate SignalFor(c: Candidate, s: Signal) {
    s.name == c.name && s.width == BitWidth(c.ty) && CandidateType(c) == Ok(s.signalType)
  }

  /** A port name collected earlier is never collected again. */
  predicate PortNamesUnique(sigs: seq<Signal>) {
    forall i, j :: 0 <= i < j < |sigs| && IsPort(sigs[i]) ==> sigs[j].name != sigs[i].name
  }

  /** Ports come first: no port follows a net or variable. */
  predicate PortsFirst(sigs: seq<Signal>) {
    forall i, j :: 0 <= i < j < |sigs| && IsPort(sigs[j]) ==> IsPort(sigs[i])
  }

  /** The signal a candidate becomes when it is kept. */
  function KeptSignal(c: Candidate): Signal
    requires CandidateType(c).Ok?
  {
    Signal(c.name, CandidateType(c).value, BitWidth(c.ty))
  }

  /** A successful collection keeps what was collected before as its prefix. */
  lemma {:induction false} CollectExtends(acc: seq<Signal>, cs: seq<Candidate>)
    requires Collect(acc, cs).Ok?
    ensures |acc| <= |Collect(acc, cs).value|
    ensures Collect(acc, cs).value[..|acc|] == acc
    decreases |cs|
  {
    if cs != [] {
      if HasPortNamed(acc, cs[0].name) {
        CollectExtends(acc, cs[1..]);
      } else {
        var acc' := acc + [KeptSignal(cs[0])];
        CollectExtends(acc', cs[1..]);
        assert acc'[..|acc|] == acc;
      }
    }
  }

  /** Every collected signal is the signal of one of the candidates. */
  lemma {:induction false} CollectSound(acc: seq<Signal>, cs: seq<Candidate>)
    requires Collect(acc, cs).Ok?
    ensures forall k :: |acc| <= k < |Collect(acc, cs).value| ==>
      exists j :: 0 <= j < |cs| && SignalFor(cs[j], Collect(acc, cs).value[k])
    decreases |cs|
  {
    if cs != [] {
      var r := Collect(acc, cs).value;
      var c := cs[0];
      var acc' := if HasPortNamed(acc, c.name) then acc else acc + [KeptSignal(c)];
      assert r == Collect(acc', cs[1..]).value;
      CollectSound(acc', cs[1..]);
      CollectExtends(acc', cs[1..]);
      forall k | |acc| <= k < |r| ensures exists j :: 0 <= j < |cs| && SignalFor(cs[j], r[k]) {
        if k < |acc'| {
          assert r[k] == acc'[k] == KeptSignal(c) && SignalFor(cs[0], r[k]);
        } else {
          var j :| 0 <= j < |cs[1..]| && SignalFor(cs[1..][j], r[k]);
          assert cs[1..][j] == cs[j + 1];
        }
      }
    }
  }

  /** Every candidate is either collected or shadowed by a port of the same name. */
  lemma {:induction false} CollectComplete(acc: seq<Signal>, cs: seq<Candidate>)
    requires Collect(acc, cs).Ok?
    ensures forall c :: c in cs ==>
      (exists k :: |acc| <= k < |Collect(acc, cs).value| && SignalFor(c, Collect(acc, cs).value[k]))
      || HasPortNamed(Collect(acc, cs).value, c.name)
    decreases |cs|
  {
    if cs != [] {
      var r := Collect(acc, cs).value;
      var c := cs[0];
      assert forall d :: d in cs ==> d == c || d in cs[1..];
      if HasPortNamed(acc, c.name) {
        CollectComplete(acc, cs[1..]);
        CollectExtends(acc, cs[1..]);
        var i :| 0 <= i < |acc| && IsPort(acc[i]) && acc[i].name == c.name;
        assert r[i] == acc[i];
      } else {
        var acc' := acc + [KeptSignal(c)];
        CollectComplete(acc', cs[1..]);
        CollectExtends(acc', cs[1..]);
        assert r[|acc|] == acc'[|acc|] && SignalFor(c, r[|acc|]);
      }
    }
  }

  /** A port name is never collected a second time. */
  lemma {:induction false} CollectPortNamesUnique(acc: seq<Signal>, cs: seq<Candidate>)
    requires Collect(acc, cs).Ok?
    requires PortNamesUnique(acc)
    ensures PortNamesUnique(Collect(acc, cs).value)
    decreases |cs|
  {
    if cs != [] {
      var c := cs[0];
      if HasPortNamed(acc, c.name) {
        CollectPortNamesUnique(acc, cs[1..]);
      } else {
        var acc' := acc + [KeptSignal(c)];
        forall i, j | 0 <= i < j < |acc'| && IsPort(acc'[i])
          ensures acc'[j].name != acc'[i].name
        {
          if j == |acc| {
            assert !(IsPort(acc[i]) && acc[i].name == c.name);
          }
        }
        CollectPortNamesUnique(acc', cs[1..]);
      }
    }
  }

  /** Collecting from no prior signals: ports are all listed before any net or variable. */
  lemma {:induction false} CollectPortsFirst(acc: seq<Signal>, cs: seq<Candidate>, split: nat)
    requires Collect(acc, cs).Ok?
    requires split <= |cs|
    requires forall k :: 0 <= k < split ==> cs[k].port.Some?
    requires forall k :: split <= k < |cs| ==> cs[k].port.None?
    requires PortsFirst(acc)
    requires split > 0 ==> forall k :: 0 <= k < |acc| ==> IsPort(acc[k])
    ensures PortsFirst(Collect(acc, cs).value)
    decreases |cs|
  {
    if cs != [] {
      var c := cs[0];
      if HasPortNamed(acc, c.name) {
        CollectPortsFirst(acc, cs[1..], if split == 0 then 0 else split - 1);
      } else {
        var acc' := acc + [Signal(c.name, CandidateType(c).value, BitWidth(c.ty))];
        assert c.port.Some? ==> IsPort(acc'[|acc|]);
        assert c.port.None? ==> !IsPort(acc'[|acc|]);
        CollectPortsFirst(acc', cs[1..], if split == 0 then 0 else split - 1);
      }
    }
  }

  /** A node's signal list lists every port before any net or variable. */
  lemma {:induction false} SignalsPortsFirst(ms: seq<Member>)
    requires Collect([], Candidates(ms)).Ok?
    ensures PortsFirst(Collect([], Candidates(ms)).value)
  {
    var ports := OfKind(ms, PortSymbols);
    var rest := OfKind(ms, NetSymbols) + OfKind(ms, VariableSymbols);
    assert Candidates(ms) == ports + rest;
    OfKindDirections(ms, PortSymbols);
    OfKindDirections(ms, NetSymbols);
    OfKindDirections(ms, VariableSymbols);
    assert forall c :: c in rest ==> c.port.None?;
    CollectPortsFirst([], ports + rest, |ports|);
  }

  /**
   * The type check precedes the duplicate check: an unsupported type raises
   * UnsupportedSymbolType even for a signal that a port would have shadowed,
   * provided no bad port direction came before it.
   */
  lemma {:induction false} CollectTypeErrorFirst(acc: seq<Signal>, cs: seq<Candidate>, i: nat)
    requires i < |cs| && !IsSupported(cs[i].ty)
    requires forall k :: 0 <= k < i ==> !BadDirection(cs[k])
    ensures Collect(acc, cs) == Err(UnsupportedSymbolType)
    decreases |cs|
  {
    var c := cs[0];
    if i > 0 && IsSupported(c.ty) {
      if HasPortNamed(acc, c.name) {
        CollectTypeErrorFirst(acc, cs[1..], i - 1);
      } else {
        assert !BadDirection(c);
        CollectTypeErrorFirst(acc + [Signal(c.name, CandidateType(c).value, BitWidth(c.ty))], cs[1..], i - 1);
      }
    }
  }

  /**
   * An inout or ref port raises UnsupportedPortDirection when every earlier
   * candidate is fine and no port of its name was collected before it.
   */
  lemma {:induction false} CollectDirectionError(acc: seq<Signal>, cs: seq<Candidate>, i: nat)
    requires i < |cs| && IsSupported(cs[i].ty) && BadDirection(cs[i])
    requires forall k :: 0 <= k < i ==> IsSupported(cs[k].ty) && !BadDirection(cs[k])
    requires !HasPortNamed(acc, cs[i].name)
    requires forall k :: 0 <= k < i ==> !(cs[k].port.Some? && cs[k].name == cs[i].name)
    ensures Collect(acc, cs) == Err(UnsupportedPortDirection)
    decreases |cs|
  {
    var c := cs[0];
    if i > 0 {
      if HasPortNamed(acc, c.name) {
        CollectDirectionError(acc, cs[1..], i - 1);
      } else {
        var s := Signal(c.name, CandidateType(c).value, BitWidth(c.ty));
        assert !(IsPort(s) && s.name == cs[i].name);
        CollectDirectionError(acc + [s], cs[1..], i - 1);
      }
    }
  }

  /**
   * Without ports nothing is shadowed: every supported net and variable is
   * kept, duplicates included.
   */
  lemma {:induction false} CollectKeepsAllNetsAndVariables(acc: seq<Signal>, cs: seq<Candidate>)
    requires forall k :: 0 <= k < |acc| ==> !IsPort(acc[k])
    requires forall k :: 0 <= k < |cs| ==> cs[k].port.None? && IsSupported(cs[k].ty)
    ensures Collect(acc, cs).Ok?
    ensures |Collect(acc, cs).value| == |acc| + |cs|
    decreases |cs|
  {
    if cs != [] {
      CollectKeepsAllNetsAndVariables(acc + [Signal(cs[0].name, PackedArrVarNet, BitWidth(cs[0].ty))], cs[1..]);
    }
  }

  // ---------------------------------------------------------------------------
  // Building one instance
  // ---------------------------------------------------------------------------

  /**
   * visitInstance as a value: `rootFound` is what is_root_found() answers
   * when set_name runs, false for the top module itself and true for every
   * instance below it. Signals are collected before children are visited, so a
   * signal error wins over any error further down.
   */
  function Build(s: InstanceSymbol, rootFound: bool): Result<Instance, ErrorCode>
    decreases s, 1
  {
    var name := if rootFound then s.instName else s.bodyName;
    match Collect([], Candidates(s.members))
    case Err(e) => Err(e)
    case Ok(sigs) =>
      match BuildChildren(s, 0)
      case Err(e) => Err(e)
      case Ok(kids) => Ok(Instance(name, s.bodyName, kids, sigs))
  }

  /** visit_and_get_child_instances from the `i`-th nested instance on. */
  function BuildChildren(s: InstanceSymbol, i: nat): Result<seq<Instance>, ErrorCode>
    decreases s, 0, |NestedInstances(s.members)| - i
  {
    var nested := NestedInstances(s.members);
    if i >= |nested| then Ok([])
    else
      NestedInstanceIsMember(s.members, i);
      ConsChild(Build(nested[i], true), BuildChildren(s, i + 1))
  }

  /** One child in front of the children after it; the first error wins. */
  function ConsChild(child: Result<Instance, ErrorCode>, rest: Result<seq<Instance>, ErrorCode>): (r: Result<seq<Instance>, ErrorCode>)
    ensures r.Ok? <==> child.Ok? && rest.Ok?
    ensures r.Ok? ==> |r.value| == |rest.value| + 1 && r.value[0] == child.value && r.value[1..] == rest.value
    ensures child.Err? ==> r == Err(child.error)
    ensures child.Ok? && rest.Err? ==> r == Err(rest.error)
  {
    match child
    case Err(e) => Err(e)
    case Ok(c) =>
      match rest
      case Err(e) => Err(e)
      case Ok(tail) => Ok([c] + tail)
  }

  /**
   * The shape of a built node: named by definition at the top and by label
   * below it, module name always the definition name, and one child per
   * nested instance, in member order, each built as a non-root instance.
   */
  lemma {:induction false} BuildShape(s: InstanceSymbol, rootFound: bool)
    requires Build(s, rootFound).Ok?
    ensures var n := Build(s, rootFound).value;
      && n.name == (if rootFound then s.instName else s.bodyName)
      && n.moduleName == s.bodyName
      && n.signals == Collect([], Candidates(s.members)).value
      && |n.children| == |NestedInstances(s.members)|
      && forall k :: 0 <= k < |n.children| ==>
           Build(NestedInstances(s.members)[k], true) == Ok(n.children[k])
  {
    var sigs := Collect([], Candidates(s.members));
    var kids := BuildChildren(s, 0);
    assert sigs.Ok? && kids.Ok?;
    assert Build(s, rootFound).value == Instance(NodeName(s, rootFound), s.bodyName, kids.value, sigs.value);
    BuildChildrenLength(s, 0, kids.value);
    forall k | 0 <= k < |kids.value|
      ensures Build(NestedInstances(s.members)[k], true) == Ok(kids.value[k])
    {
      BuildChildAt(s, 0, k, kids.value);
    }
  }

  /** One step of the child loop: build nested instance `i`, then the ones after it. */
  lemma {:induction false} BuildChildrenStep(s: InstanceSymbol, i: nat)
    requires i < |NestedInstances(s.members)|
    ensures BuildChildren(s, i) == ConsChild(Build(NestedInstances(s.members)[i], true), BuildChildren(s, i + 1))
  {
  }

  /** The first child built from `i` is nested instance `i`; the others are the children built from `i + 1`. */
  lemma {:induction false} BuildChildFirst(s: InstanceSymbol, i: nat, kids: seq<Instance>)
    requires i < |NestedInstances(s.members)|
    requires BuildChildren(s, i) == Ok(kids)
    ensures |kids| > 0 && Build(NestedInstances(s.members)[i], true) == Ok(kids[0])
    ensures BuildChildren(s, i + 1) == Ok(kids[1..])
  {
    var child, rest := Build(NestedInstances(s.members)[i], true), BuildChildren(s, i + 1);
    BuildChildrenStep(s, i);
    assert child.Ok? && rest.Ok? && kids[0] == child.value && rest.value == kids[1..];
  }

  /** The children built from `i` after the first are the children built from `i + 1`. */
  lemma {:induction false} BuildChildrenRest(s: InstanceSymbol, i: nat, kids: seq<Instance>)
    requires i < |NestedInstances(s.members)|
    requires BuildChildren(s, i) == Ok(kids)
    ensures |kids| > 0 && BuildChildren(s, i + 1) == Ok(kids[1..])
  {
    BuildChildFirst(s, i, kids);
  }

  /** The children built from position `i` on: one per remaining nested instance. */
  lemma {:induction false} BuildChildrenLength(s: InstanceSymbol, i: nat, kids: seq<Instance>)
    requires i <= |NestedInstances(s.members)|
    requires BuildChildren(s, i) == Ok(kids)
    ensures |kids| == |NestedInstances(s.members)| - i
    decreases |NestedInstances(s.members)| - i
  {
    if i < |NestedInstances(s.members)| {
      BuildChildrenRest(s, i, kids);
      BuildChildrenLength(s, i + 1, kids[1..]);
    }
  }

  /** Dropping the first `k` children built from `i` leaves the children built from `i + k`. */
  lemma {:induction false} BuildChildrenSuffix(s: InstanceSymbol, i: nat, kids: seq<Instance>, k: nat)
    requires i + k <= |NestedInstances(s.members)|
    requires BuildChildren(s, i) == Ok(kids)
    ensures k <= |kids| && BuildChildren(s, i + k) == Ok(kids[k..])
    decreases k
  {
    if k > 0 {
      BuildChildrenRest(s, i, kids);
      BuildChildrenSuffix(s, i + 1, kids[1..], k - 1);
    }
  }

  /** The child at position `j - i` of the children built from `i` is nested instance `j`, built below the root. */
  lemma {:induction false} BuildChildAt(s: InstanceSymbol, i: nat, j: nat, kids: seq<Instance>)
    requires i <= j < |NestedInstances(s.members)|
    requires BuildChildren(s, i) == Ok(kids)
    ensures j - i < |kids| && Build(NestedInstances(s.members)[j], true) == Ok(kids[j - i])
  {
    BuildChildrenSuffix(s, i, kids, j - i);
    BuildChildFirst(s, j, kids[j - i..]);
  }

  /** Every node below the top is named by its instantiation label. */
  lemma {:induction false} ChildNamedByLabel(s: InstanceSymbol, rootFound: bool, k: nat)
    requires Build(s, rootFound).Ok?
    requires k < |NestedInstances(s.members)|
    ensures |Build(s, rootFound).value.children| == |NestedInstances(s.members)|
    ensures Build(s, rootFound).value.children[k].name == NestedInstances(s.members)[k].instName
    ensures Build(s, rootFound).value.children[k].moduleName == NestedInstances(s.members)[k].bodyName
  {
    BuildShape(s, rootFound);
    BuildShape(NestedInstances(s.members)[k], true);
  }

  /** set_name */
  function NodeName(s: InstanceSymbol, rootFound: bool): string {
    if rootFound then s.instName else s.bodyName
  }

  /** visitInstance: name, signals, then the children, depth first. */
  method VisitInstance(s: InstanceSymbol, rootFound: bool) returns (r: Result<Instance, ErrorCode>)
    ensures r == Build(s, rootFound)
    decreases s, 1
  {
    var name := NodeName(s, rootFound);
    var signals := GetSignals(s);
    if signals.Err? {
      return Err(signals.error);
    }
    var children := VisitAndGetChildInstances(s);
    if children.Err? {
      return Err(children.error);
    }
    r := Ok(Instance(name, s.bodyName, children.value, signals.value));
  }

  /** Children already gathered in front of the outcome of the rest of the loop. */
  function Prepend(kids: seq<Instance>, rest: Result<seq<Instance>, ErrorCode>): Result<seq<Instance>, ErrorCode> {
    match rest
    case Err(e) => Err(e)
    case Ok(tail) => Ok(kids + tail)
  }

  /** Gathering one more child moves it from the rest of the loop to the gathered children. */
  lemma {:induction false} PrependCons(kids: seq<Instance>, child: Instance, rest: Result<seq<Instance>, ErrorCode>)
    ensures Prepend(kids, ConsChild(Ok(child), rest)) == Prepend(kids + [child], rest)
  {
    if rest.Ok? {
      assert kids + ([child] + rest.value) == (kids + [child]) + rest.value;
    }
  }

  /** visit_and_get_child_instances: one child per nested instance, in order. */
  method VisitAndGetChildInstances(s: InstanceSymbol) returns (r: Result<seq<Instance>, ErrorCode>)
    ensures r == BuildChildren(s, 0)
    decreases s, 0
  {
    var nested := NestedInstances(s.members);
    var kids: seq<Instance> := [];
    var i := 0;
    assert BuildChildren(s, 0).Ok? ==> [] + BuildChildren(s, 0).value == BuildChildren(s, 0).value;
    while i < |nested|
      invariant 0 <= i <= |nested|
      invariant BuildChildren(s, 0) == Prepend(kids, BuildChildren(s, i))
    {
      NestedInstanceIsMember(s.members, i);
      var child := VisitInstance(nested[i], true);
      BuildChildrenStep(s, i);
      if child.Err? {
        return Err(child.error);
      }
      PrependCons(kids, child.value, BuildChildren(s, i + 1));
      kids := kids + [child.value];
      i := i + 1;
    }
    assert kids + [] == kids;
    r := Ok(kids);
  }

  // ---------------------------------------------------------------------------
  // The search for the top module
  // ---------------------------------------------------------------------------

  /** What the builder's two fields say after a traversal. */
  datatype Outcome = Searching | Found(root: Instance) | Failed(error: ErrorCode)

  function FromBuild(r: Result<Instance, ErrorCode>): Outcome {
    match r
    case Ok(n) => Found(n)
    case Err(e) => Failed(e)
  }

  /**
   * handle(s): a no-op once a root is found or an error recorded; builds the
   * top when the definition name matches; otherwise visits the body once per
   * direct nested instance (and not at all without one).
   */
  function HandleSpec(o: Outcome, s: InstanceSymbol, top: string): Outcome
    decreases s, 2
  {
    if o != Searching then o
    else if s.bodyName == top then FromBuild(Build(s, false))
    else RepeatVisit(o, s, top, |NestedInstances(s.members)|)
  }

  /** The loop of `handle`: `k` calls of visitDefault(s). */
  function RepeatVisit(o: Outcome, s: InstanceSymbol, top: string, k: nat): Outcome
    decreases s, 1, k
  {
    if k == 0 then o else RepeatVisit(VisitBody(o, s, top, 0), s, top, k - 1)
  }

  /** visitDefault(s): handle every nested instance of the body from the `i`-th on. */
  function VisitBody(o: Outcome, s: InstanceSymbol, top: string, i: nat): Outcome
    decreases s, 0, |NestedInstances(s.members)| - i
  {
    var nested := NestedInstances(s.members);
    if i >= |nested| then o
    else
      NestedInstanceIsMember(s.members, i);
      VisitBody(HandleSpec(o, nested[i], top), s, top, i + 1)
  }

  /** Visiting the design root: handle every top-level instance in order. */
  function VisitTops(o: Outcome, tops: seq<InstanceSymbol>, top: string): Outcome
    decreases |tops|
  {
    if tops == [] then o else VisitTops(HandleSpec(o, tops[0], top), tops[1..], top)
  }

  /** Reference search: the first instance, depth first, whose definition is `top`. */
  function FirstMatch(s: InstanceSymbol, top: string): Option<InstanceSymbol>
    decreases s, 1
  {
    if s.bodyName == top then Some(s) else FirstMatchFrom(s, top, 0)
  }

  function FirstMatchFrom(s: InstanceSymbol, top: string, i: nat): Option<InstanceSymbol>
    decreases s, 0, |NestedInstances(s.members)| - i
  {
    var nested := NestedInstances(s.members);
    if i >= |nested| then None
    else
      NestedInstanceIsMember(s.members, i);
      match FirstMatch(nested[i], top)
      case Some(m) => Some(m)
      case None => FirstMatchFrom(s, top, i + 1)
  }

  function FirstMatchIn(tops: seq<InstanceSymbol>, top: string): Option<InstanceSymbol>
    decreases |tops|
  {
    if tops == [] then None
    else match FirstMatch(tops[0], top)
      case Some(m) => Some(m)
      case None => FirstMatchIn(tops[1..], top)
  }

  function OutcomeOf(m: Option<InstanceSymbol>): Outcome {
    match m
    case None => Searching
    case Some(s) => FromBuild(Build(s, false))
  }

  /** Once a root is found or an error recorded, further visits change nothing. */
  lemma {:induction false} VisitBodySettled(o: Outcome, s: InstanceSymbol, top: string, i: nat)
    requires o != Searching
    ensures VisitBody(o, s, top, i) == o
    decreases |NestedInstances(s.members)| - i
  {
    if i < |NestedInstances(s.members)| {
      VisitBodySettled(o, s, top, i + 1);
    }
  }

  lemma {:induction false} RepeatVisitSettled(o: Outcome, s: InstanceSymbol, top: string, k: nat)
    requires o != Searching
    ensures RepeatVisit(o, s, top, k) == o
    decreases k
  {
    if k > 0 {
      VisitBodySettled(o, s, top, 0);
      RepeatVisitSettled(o, s, top, k - 1);
    }
  }

  lemma {:induction false} VisitTopsSettled(o: Outcome, tops: seq<InstanceSymbol>, top: string)
    requires o != Searching
    ensures VisitTops(o, tops, top) == o
    decreases |tops|
  {
    if tops != [] {
      VisitTopsSettled(o, tops[1..], top);
    }
  }

  /**
   * Handling an instance finds exactly the first depth-first match below it:
   * visiting the body once per nested instance does no more than visiting it
   * once, and skipping a body without nested instances misses nothing.
   */
  lemma {:induction false} HandleFindsFirstMatch(s: InstanceSymbol, top: string)
    ensures HandleSpec(Searching, s, top) == OutcomeOf(FirstMatch(s, top))
    decreases s, 1
  {
    if s.bodyName != top {
      var n := |NestedInstances(s.members)|;
      VisitBodyFindsFirstMatch(s, top, 0);
      if n > 0 {
        var once := VisitBody(Searching, s, top, 0);
        if once == Searching {
          RepeatVisitSearching(s, top, n);
        } else {
          RepeatVisitSettled(once, s, top, n - 1);
        }
      }
    }
  }

  /** While nothing is found, repeating the body visit keeps finding nothing. */
  lemma {:induction false} RepeatVisitSearching(s: InstanceSymbol, top: string, k: nat)
    requires VisitBody(Searching, s, top, 0) == Searching
    ensures RepeatVisit(Searching, s, top, k) == Searching
    decreases k
  {
    if k > 0 {
      RepeatVisitSearching(s, top, k - 1);
    }
  }

  lemma {:induction false} VisitBodyFindsFirstMatch(s: InstanceSymbol, top: string, i: nat)
    ensures VisitBody(Searching, s, top, i) == OutcomeOf(FirstMatchFrom(s, top, i))
    decreases s, 0, |NestedInstances(s.members)| - i
  {
    var nested := NestedInstances(s.members);
    if i < |nested| {
      NestedInstanceIsMember(s.members, i);
      HandleFindsFirstMatch(nested[i], top);
      var o := HandleSpec(Searching, nested[i], top);
      if o == Searching {
        VisitBodyFindsFirstMatch(s, top, i + 1);
      } else {
        VisitBodySettled(o, s, top, i + 1);
      }
    }
  }

  /** Visiting the whole design builds the first match, depth first, over the top-level instances. */
  lemma {:induction false} VisitTopsFindsFirstMatch(tops: seq<InstanceSymbol>, top: string)
    ensures VisitTops(Searching, tops, top) == OutcomeOf(FirstMatchIn(tops, top))
    decreases |tops|
  {
    if tops != [] {
      HandleFindsFirstMatch(tops[0], top);
      var o := HandleSpec(Searching, tops[0], top);
      if o == Searching {
        VisitTopsFindsFirstMatch(tops[1..], top);
      } else {
        VisitTopsSettled(o, tops[1..], top);
      }
    }
  }

  /** A match found by the search has the requested definition name. */
  lemma {:induction false} FirstMatchHasName(s: InstanceSymbol, top: string)
    ensures FirstMatch(s, top).Some? ==> FirstMatch(s, top).value.bodyName == top
    decreases s, 1
  {
    if s.bodyName != top {
      FirstMatchFromHasName(s, top, 0);
    }
  }

  lemma {:induction false} FirstMatchFromHasName(s: InstanceSymbol, top: string, i: nat)
    ensures FirstMatchFrom(s, top, i).Some? ==> FirstMatchFrom(s, top, i).value.bodyName == top
    decreases s, 0, |NestedInstances(s.members)| - i
  {
    var nested := NestedInstances(s.members);
    if i < |nested| {
      NestedInstanceIsMember(s.members, i);
      FirstMatchHasName(nested[i], top);
      FirstMatchFromHasName(s, top, i + 1);
    }
  }

  /** The builder: its two fields are the root slot and the recorded error. */
  class Builder {
    const top: string
    var root: Option<Instance>
    var error: ErrorCode

    /** An error is recorded instead of a root, never beside one. */
    predicate Valid() reads this {
      error != ErrNone ==> root.None?
    }

    function State(): Outcome reads this {
      if error != ErrNone then Failed(error)
      else match root
        case Some(n) => Found(n)
        case None => Searching
    }

    /** The constructor empties the root slot and clears the error. */
    constructor(topLevelModuleName: string)
      ensures top == topLevelModuleName && Valid() && State() == Searching
    {
      top := topLevelModuleName;
      root := None;
      error := ErrNone;
    }

    method SetOutcome(r: Result<Instance, ErrorCode>)
      requires r.Err? ==> r.error != ErrNone
      modifies this
      ensures Valid() && State() == FromBuild(r)
    {
      match r {
        case Ok(n) => root := Some(n); error := ErrNone;
        case Err(e) => root := None; error := e;
      }
    }

    /** handle(const InstanceSymbol&) */
    method Handle(s: InstanceSymbol)
      requires Valid()
      modifies this
      ensures Valid() && State() == HandleSpec(old(State()), s, top)
      decreases s, 2
    {
      if error != ErrNone || root.Some? {
        return;
      } else if s.bodyName == top {
        var r := VisitInstance(s, false);
        BuildErrorIsError(s, false);
        SetOutcome(r);
      } else {
        var n := |NestedInstances(s.members)|;
        var k := 0;
        while k < n
          invariant 0 <= k <= n
          invariant Valid()
          invariant RepeatVisit(Searching, s, top, n) == RepeatVisit(State(), s, top, n - k)
        {
          VisitDefault(s);
          k := k + 1;
        }
      }
    }

    /** visitDefault(s): handle each nested instance of the body in member order. */
    method VisitDefault(s: InstanceSymbol)
      requires Valid()
      modifies this
      ensures Valid() && State() == VisitBody(old(State()), s, top, 0)
      decreases s, 1
    {
      var nested := NestedInstances(s.members);
      var i := 0;
      while i < |nested|
        invariant 0 <= i <= |nested|
        invariant Valid()
        invariant VisitBody(old(State()), s, top, 0) == VisitBody(State(), s, top, i)
      {
        NestedInstanceIsMember(s.members, i);
        Handle(nested[i]);
        i := i + 1;
      }
    }

    /** compilation.getRoot().visit(builder): handle each top-level instance. */
    method VisitDesign(tops: seq<InstanceSymbol>)
      requires Valid()
      modifies this
      ensures Valid() && State() == VisitTops(old(State()), tops, top)
    {
      var i := 0;
      while i < |tops|
        invariant 0 <= i <= |tops|
        invariant Valid()
        invariant VisitTops(old(State()), tops, top) == VisitTops(State(), tops[i..], top)
      {
        assert tops[i..][1..] == tops[i + 1..];
        Handle(tops[i]);
        i := i + 1;
      }
    }
  }

  /** The builder never records the "no error" code as an error. */
  lemma {:induction false} BuildErrorIsError(s: InstanceSymbol, rootFound: bool)
    ensures Build(s, rootFound).Err? ==> Build(s, rootFound).error in {UnsupportedSymbolType, UnsupportedPortDirection}
    decreases s, 1
  {
    CollectErrorKinds([], Candidates(s.members));
    BuildChildrenErrorIsError(s, 0);
  }

  lemma {:induction false} BuildChildrenErrorIsError(s: InstanceSymbol, i: nat)
    ensures BuildChildren(s, i).Err? ==> BuildChildren(s, i).error in {UnsupportedSymbolType, UnsupportedPortDirection}
    decreases s, 0, |NestedInstances(s.members)| - i
  {
    var nested := NestedInstances(s.members);
    if i < |nested| {
      NestedInstanceIsMember(s.members, i);
      BuildErrorIsError(nested[i], true);
      BuildChildrenErrorIsError(s, i + 1);
    }
  }

  lemma {:induction false} CollectErrorKinds(acc: seq<Signal>, cs: seq<Candidate>)
    ensures Collect(acc, cs).Err? ==> Collect(acc, cs).error in {UnsupportedSymbolType, UnsupportedPortDirection}
    decreases |cs|
  {
    if cs != [] && IsSupported(cs[0].ty) {
      if HasPortNamed(acc, cs[0].name) {
        CollectErrorKinds(acc, cs[1..]);
      } else if CandidateType(cs[0]).Ok? {
        CollectErrorKinds(acc + [Signal(cs[0].name, CandidateType(cs[0]).value, BitWidth(cs[0].ty))], cs[1..]);
      }
    }
  }
}
