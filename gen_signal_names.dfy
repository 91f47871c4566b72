/**
 * The generator's view of a design (oombak_gen/src/parser.rs): the signal
 * list it generates accessors for, and the identifier each dotted signal
 * name becomes in the generated C++ (a '.' is not allowed in an identifier).
 */
module GenSignalNames {
  import DutShim

  datatype Signal = Signal(name: string, width: nat, canGet: bool, canSet: bool, topLevel: bool)

  datatype Probe = Probe(moduleName: string, signals: seq<Signal>)

  /** The text every '.' is replaced with. */
  const DotText: string := "_DOT_"

  /** Signal::get_dot_replaced_name: every '.' replaced with "_DOT_". */
  function DotReplaced(name: string): string {
    if name == [] then []
    else (if name[0] == '.' then DotText else [name[0]]) + DotReplaced(name[1..])
  }

  function CountDots(s: string): nat {
    if s == [] then 0 else (if s[0] == '.' then 1 else 0) + CountDots(s[1..])
  }

  /**
   * The replaced name is an identifier-safe one: it has no '.', a dot-free
   * name is kept as it is, and every '.' adds four characters.
   */
  lemma {:induction false} DotReplacedShape(name: string)
    ensures '.' !in DotReplaced(name)
    ensures '.' !in name ==> DotReplaced(name) == name
    ensures |DotReplaced(name)| == |name| + 4 * CountDots(name)
    decreases |name|
  {
    if name != [] {
      DotReplacedShape(name[1..]);
      var head := if name[0] == '.' then DotText else [name[0]];
      assert DotReplaced(name) == head + DotReplaced(name[1..]);
      assert '.' !in head;
      if '.' !in name {
        assert '.' !in name[1..];
        assert name == [name[0]] + name[1..];
      }
    }
  }

  lemma {:induction false} DotReplacedAppend(a: string, b: string)
    ensures DotReplaced(a + b) == DotReplaced(a) + DotReplaced(b)
    decreases |a|
  {
    if a == [] {
      assert a + b == b;
    } else {
      DotReplacedAppend(a[1..], b);
      assert (a + b)[1..] == a[1..] + b;
      assert (a + b)[0] == a[0];
    }
  }

  /** Three dot-free parts joined by dots become the parts joined by "_DOT_". */
  lemma {:induction false} JoinReplaced(a: string, b: string, c: string)
    requires '.' !in a && '.' !in b && '.' !in c
    ensures DotReplaced(a + "." + b + "." + c) == a + DotText + b + DotText + c
  {
    DotReplacedShape(a);
    DotReplacedShape(b);
    DotReplacedShape(c);
    assert DotReplaced(".") == DotText;
    DotReplacedAppend(a, ".");
    DotReplacedAppend(a + ".", b);
    DotReplacedAppend(a + "." + b, ".");
    DotReplacedAppend(a + "." + b + ".", c);
  }

  /** The name of a generated getter: sample.adder_inst.d becomes sample_DOT_adder_inst_DOT_d. */
  lemma {:induction false} DotReplacedExample()
    ensures DotReplaced("sample" + "." + "adder_inst" + "." + "d") == "sample" + "_DOT_" + "adder_inst" + "_DOT_" + "d"
  {
    JoinReplaced("sample", "adder_inst", "d");
  }

  /** parse: the path is not read; the sample design's six signals are returned. */
  function Parse(svPath: string): (r: Probe)
    ensures r.moduleName == "sample" && |r.signals| == 6
    ensures forall k :: 0 <= k < |r.signals| ==> r.signals[k].canGet
  {
    Probe("sample", [
      Signal("clk", 1, true, true, true),
      Signal("rst_n", 1, true, true, true),
      Signal("in", 6, true, true, true),
      Signal("out", 6, true, false, true),
      Signal("sample.c", 6, true, false, false),
      Signal("sample.adder_inst.d", 1, true, false, false)])
  }

  /**
   * The fixed sample is what the generated wrapper maps: every signal has a
   * getter there, a setter exactly when it is settable here, and only the
   * top-level input ports are settable.
   */
  lemma {:induction false} ParseMatchesMappings(svPath: string, k: nat)
    requires k < |Parse(svPath).signals|
    ensures var s := Parse(svPath).signals[k];
      && s.name in DutShim.SignalMappings()
      && DutShim.SignalMappings()[s.name] == DutShim.Accessors(s.canSet, s.canGet)
      && (s.canSet <==> s.name in ["clk", "rst_n", "in"])
      && (s.canSet ==> s.topLevel)
  {
  }
}
