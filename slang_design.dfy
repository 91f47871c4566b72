/**
 * The elaborated SystemVerilog design as the slang front end presents it to
 * the instance-tree builder: every instance carries its instantiation instName,
 * the name of its definition (the body name) and the members of its body in
 * declaration order.
 */
module SlangDesign {

  /** Port directions of section 23.2.2 of IEEE 1800-2017. */
  datatype Direction = In | Out | InOut | Ref

  /**
   * The data type of a port, net or variable. Only scalar types (width 1) and
   * packed arrays (section 7.4.1 of IEEE 1800-2017) are accepted by the
   * builder; every other type (unpacked arrays, strings, reals, ...) is `OtherType`.
   */
  datatype SvType = Scalar | PackedArray(bitWidth: nat) | OtherType(otherWidth: nat)

  datatype Member =
    | Port(portName: string, dir: Direction, portType: SvType)
    | Net(netName: string, netType: SvType)
    | Variable(varName: string, varType: SvType)
    | Nested(inst: InstanceSymbol)
    | OtherMember

  datatype InstanceSymbol = InstanceSymbol(instName: string, bodyName: string, members: seq<Member>)

  function BitWidth(t: SvType): nat {
    match t
    case Scalar => 1
    case PackedArray(w) => w
    case OtherType(w) => w
  }

  /** isPackedArray() || isScalar() */
  predicate IsSupported(t: SvType) {
    t.Scalar? || t.PackedArray?
  }

  /** The direct nested instances of a body, in member order (membersOfType<InstanceSymbol>). */
  function NestedInstances(ms: seq<Member>): (r: seq<InstanceSymbol>)
    ensures |r| <= |ms|
  {
    if ms == [] then []
    else (if ms[0].Nested? then [ms[0].inst] else []) + NestedInstances(ms[1..])
  }

  /** Each nested instance found is a member of the body it was found in. */
  lemma {:induction false} NestedInstanceIsMember(ms: seq<Member>, k: nat)
    requires k < |NestedInstances(ms)|
    ensures Nested(NestedInstances(ms)[k]) in ms
  {
    var head := if ms[0].Nested? then [ms[0].inst] else [];
    assert NestedInstances(ms) == head + NestedInstances(ms[1..]);
    if k >= |head| {
      NestedInstanceIsMember(ms[1..], k - |head|);
      assert NestedInstances(ms)[k] == NestedInstances(ms[1..])[k - |head|];
    }
  }

  /** Every instance member of a body is among its nested instances. */
  lemma {:induction false} NestedInstancesComplete(ms: seq<Member>, i: nat)
    requires i < |ms| && ms[i].Nested?
    ensures ms[i].inst in NestedInstances(ms)
  {
    var head := if ms[0].Nested? then [ms[0].inst] else [];
    assert NestedInstances(ms) == head + NestedInstances(ms[1..]);
    if i > 0 {
      NestedInstancesComplete(ms[1..], i - 1);
      assert ms[1..][i - 1] == ms[i];
    }
  }
}
