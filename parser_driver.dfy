/**
 * The parser library's driver (oombak_rs/oombak_parser/src/oombak_parser.cpp):
 * a parser context owns one root slot and the last diagnostics text; a call
 * splits the colon-separated source list, loads the files, checks the
 * compilation, runs the instance-tree builder and reports the first failure.
 *
 * The slang front end is an input: which paths load, and what the
 * compilation of the loaded files yields.
 */
module ParserDriver {
  import opened Wrappers
  import opened SlangDesign
  import opened ParserAbi
  import opened InstanceTreeBuilder

  // ---------------------------------------------------------------------------
  // Colon-separated source lists
  // ---------------------------------------------------------------------------

  /** The segments of `s` between colons, in order; the empty string is one empty segment. */
  function SplitColon(s: string): (r: seq<string>)
    ensures |r| >= 1
    decreases |s|
  {
    if s == [] then [[]]
    else if s[0] == ':' then [[]] + SplitColon(s[1..])
    else
      var rest := SplitColon(s[1..]);
      [[s[0]] + rest[0]] + rest[1..]
  }

  /** segments joined with ':' (Rust's `join(":")`). */
  function JoinColon(segs: seq<string>): string
    requires |segs| >= 1
    decreases |segs|
  {
    if |segs| == 1 then segs[0] else segs[0] + ":" + JoinColon(segs[1..])
  }

  function CountColons(s: string): nat {
    if s == [] then 0 else (if s[0] == ':' then 1 else 0) + CountColons(s[1..])
  }

  /** Splitting gives one more segment than there are colons, none containing a colon. */
  lemma {:induction false} SplitColonShape(s: string)
    ensures |SplitColon(s)| == CountColons(s) + 1
    ensures forall k :: 0 <= k < |SplitColon(s)| ==> ':' !in SplitColon(s)[k]
    decreases |s|
  {
    if s != [] {
      SplitColonShape(s[1..]);
      var rest := SplitColon(s[1..]);
      if s[0] != ':' {
        var r := SplitColon(s);
        forall k | 0 <= k < |r| ensures ':' !in r[k] {
          if k == 0 {
            assert r[0] == [s[0]] + rest[0];
          } else {
            assert r[k] == rest[k];
          }
        }
      }
    }
  }

  /** Joining the segments with ':' gives back the input. */
  lemma {:induction false} JoinSplitColon(s: string)
    ensures JoinColon(SplitColon(s)) == s
    decreases |s|
  {
    if s != [] {
      JoinSplitColon(s[1..]);
      var rest := SplitColon(s[1..]);
      if s[0] == ':' {
        assert s == [] + ":" + s[1..];
      } else {
        JoinHead(rest, [s[0]]);
        assert s == [s[0]] + s[1..];
      }
    }
  }

  lemma {:induction false} JoinHead(segs: seq<string>, prefix: string)
    requires |segs| >= 1
    ensures JoinColon([prefix + segs[0]] + segs[1..]) == prefix + JoinColon(segs)
  {
    var t := [prefix + segs[0]] + segs[1..];
    assert t[1..] == segs[1..];
  }

  /** Splitting what Rust joined gives back the paths, as long as no path contains ':'. */
  lemma {:induction false} SplitJoinColon(segs: seq<string>)
    requires |segs| >= 1
    requires forall k :: 0 <= k < |segs| ==> ':' !in segs[k]
    ensures SplitColon(JoinColon(segs)) == segs
    decreases |segs|
  {
    if |segs| == 1 {
      SplitNoColon(segs[0]);
    } else {
      SplitJoinColon(segs[1..]);
      SplitAfterSegment(segs[0], JoinColon(segs[1..]));
    }
  }

  lemma {:induction false} SplitNoColon(s: string)
    requires ':' !in s
    ensures SplitColon(s) == [s]
    decreases |s|
  {
    if s != [] {
      SplitNoColon(s[1..]);
      assert [s[0]] + s[1..] == s;
    }
  }

  lemma {:induction false} SplitAfterSegment(a: string, b: string)
    requires ':' !in a
    ensures SplitColon(a + ":" + b) == [a] + SplitColon(b)
    decreases |a|
  {
    if a == [] {
      assert a + ":" + b == [':'] + b;
      assert ([':'] + b)[1..] == b;
    } else {
      var t := a + ":" + b;
      assert t[0] == a[0] && t[1..] == a[1..] + ":" + b;
      SplitAfterSegment(a[1..], b);
      assert [a[0]] + a[1..] == a;
    }
  }

  /** The split of a suffix that starts with a colon-free segment ending at `k`. */
  lemma {:induction false} SplitAt(s: string, k: nat)
    requires k <= |s|
    requires ':' !in s[..k]
    requires k < |s| ==> s[k] == ':'
    ensures k == |s| ==> SplitColon(s) == [s]
    ensures k < |s| ==> SplitColon(s) == [s[..k]] + SplitColon(s[k + 1..])
  {
    if k == |s| {
      assert s[..k] == s;
      SplitNoColon(s);
    } else {
      assert s == s[..k] + ":" + s[k + 1..];
      SplitAfterSegment(s[..k], s[k + 1..]);
    }
  }

  /**
   * from_colon_separated_paths: scan the input once, emitting the text
   * between the last colon and each colon (and the end).
   */
  method FromColonSeparatedPaths(s: string) returns (result: seq<string>)
    ensures result == SplitColon(s)
    ensures |result| == CountColons(s) + 1
    ensures JoinColon(result) == s
  {
    result := [];
    var lastIdx: int := -1;
    var i := 0;
    while i <= |s|
      invariant 0 <= i <= |s| + 1
      invariant -1 <= lastIdx < i
      invariant lastIdx < |s| + 1
      invariant i <= |s| ==> ':' !in s[lastIdx + 1..i]
      invariant i <= |s| ==> result + SplitColon(s[lastIdx + 1..]) == SplitColon(s)
      invariant i == |s| + 1 ==> result == SplitColon(s)
      decreases |s| + 1 - i
    {
      if i == |s| || s[i] == ':' {
        ghost var t := s[lastIdx + 1..];
        assert t[..i - (lastIdx + 1)] == s[lastIdx + 1..i];
        SplitAt(t, i - (lastIdx + 1));
        if i < |s| {
          assert t[i - (lastIdx + 1) + 1..] == s[i + 1..];
          assert result + [s[lastIdx + 1..i]] + SplitColon(s[i + 1..]) == result + SplitColon(t);
        } else {
          assert t == s[lastIdx + 1..i];
        }
        result := result + [s[lastIdx + 1..i]];
        lastIdx := i;
      } else {
        assert s[lastIdx + 1..i + 1] == s[lastIdx + 1..i] + [s[i]];
      }
      i := i + 1;
    }
    SplitColonShape(s);
    JoinSplitColon(s);
  }

  // ---------------------------------------------------------------------------
  // One call of get_instance_tree
  // ---------------------------------------------------------------------------

  /** What slang's Compilation yields for the loaded files. */
  datatype Compilation = Compilation(diagnostics: seq<string>, report: string, tops: seq<InstanceSymbol>)

  /** The front end: which source paths load (SyntaxTree::fromFile), and the compilation. */
  datatype Frontend = Frontend(loadable: set<string>, compilation: Compilation)

  predicate AllLoad(paths: seq<string>, fe: Frontend) {
    forall k :: 0 <= k < |paths| ==> paths[k] in fe.loadable
  }

  /**
   * The outcome of get_instance_tree: FileNotFound, then CompileError, then
   * the builder's error, then TopModuleNotFound; otherwise the root built.
   */
  function InstanceTree(paths: seq<string>, top: string, fe: Frontend): Result<Instance, ErrorCode> {
    if !AllLoad(paths, fe) then Err(FileNotFound)
    else if |fe.compilation.diagnostics| > 0 then Err(CompileError)
    else match VisitTops(Searching, fe.compilation.tops, top)
      case Failed(e) => Err(e)
      case Searching => Err(TopModuleNotFound)
      case Found(n) => Ok(n)
  }

  /**
   * The error precedence of a call, and what a successful call builds: the
   * first depth-first instance of the requested module, named by its
   * definition name.
   */
  lemma {:induction false} InstanceTreeOutcome(paths: seq<string>, top: string, fe: Frontend)
    ensures !AllLoad(paths, fe) ==> InstanceTree(paths, top, fe) == Err(FileNotFound)
    ensures AllLoad(paths, fe) && |fe.compilation.diagnostics| > 0 ==>
      InstanceTree(paths, top, fe) == Err(CompileError)
    ensures AllLoad(paths, fe) && |fe.compilation.diagnostics| == 0 ==>
      (InstanceTree(paths, top, fe) == Err(TopModuleNotFound) <==> FirstMatchIn(fe.compilation.tops, top).None?)
    ensures InstanceTree(paths, top, fe).Ok? ==>
      var m := FirstMatchIn(fe.compilation.tops, top);
      && m.Some? && m.value.bodyName == top
      && Build(m.value, false) == InstanceTree(paths, top, fe)
      && InstanceTree(paths, top, fe).value.name == top
      && InstanceTree(paths, top, fe).value.moduleName == top
  {
    var tops := fe.compilation.tops;
    VisitTopsFindsFirstMatch(tops, top);
    FirstMatchInHasName(tops, top);
    var m := FirstMatchIn(tops, top);
    if m.Some? && Build(m.value, false).Ok? {
      BuildShape(m.value, false);
    }
    if m.Some? {
      BuildErrorIsError(m.value, false);
    }
  }

  lemma {:induction false} FirstMatchInHasName(tops: seq<InstanceSymbol>, top: string)
    ensures FirstMatchIn(tops, top).Some? ==> FirstMatchIn(tops, top).value.bodyName == top
    decreases |tops|
  {
    if tops != [] {
      FirstMatchHasName(tops[0], top);
      FirstMatchInHasName(tops[1..], top);
    }
  }

  /**
   * add_syntax_trees: load every path in order; the first failure is
   * FileNotFound.
   */
  method AddSyntaxTrees(paths: seq<string>, fe: Frontend) returns (r: Option<ErrorCode>)
    ensures r.None? <==> AllLoad(paths, fe)
    ensures r.Some? ==> r.value == FileNotFound
  {
    var i := 0;
    while i < |paths|
      invariant 0 <= i <= |paths|
      invariant forall k :: 0 <= k < i ==> paths[k] in fe.loadable
    {
      if paths[i] !in fe.loadable {
        return Some(FileNotFound);
      }
      i := i + 1;
    }
    return None;
  }

  /** check_compilation */
  function CheckCompilation(c: Compilation): (r: Option<ErrorCode>)
    ensures r.None? <==> c.diagnostics == []
    ensures r.Some? ==> r.value == CompileError
  {
    if |c.diagnostics| > 0 then Some(CompileError) else None
  }

  /** The variant get_instance_tree returns: the address of the context's root slot, or an error. */
  datatype InstanceOrError = RootSlot(owner: OombakParser) | Error(code: ErrorCode)

  /** A parser context: its root slot and the last diagnostics text. */
  class OombakParser {
    var root: Option<Instance>
    var lastDiagnostics: string

    /** The constructor leaves the root slot empty. */
    constructor()
      ensures root.None? && lastDiagnostics == ""
    {
      root := None;
      lastDiagnostics := "";
    }

    /**
     * get_instance_tree. The old tree is released before anything is checked,
     * so a failure to load or compile leaves the slot empty. An error inside
     * the tree builder leaves its partly built tree in the slot without
     * returning it; this model empties the slot then too. The diagnostics text
     * is replaced only once every file has loaded.
     */
    method GetInstanceTree(paths: seq<string>, top: string, fe: Frontend) returns (r: InstanceOrError)
      modifies this
      ensures r.RootSlot? <==> InstanceTree(paths, top, fe).Ok?
      ensures r.RootSlot? ==> r.owner == this && root == Some(InstanceTree(paths, top, fe).value)
      ensures r.Error? ==> Err(r.code) == InstanceTree(paths, top, fe) && root.None?
      ensures lastDiagnostics == if AllLoad(paths, fe) then fe.compilation.report else old(lastDiagnostics)
    {
      root := None;
      var builder := new Builder(top);
      var loadError := AddSyntaxTrees(paths, fe);
      if loadError.Some? {
        return Error(loadError.value);
      }
      lastDiagnostics := fe.compilation.report;
      var compileError := CheckCompilation(fe.compilation);
      if compileError.Some? {
        return Error(compileError.value);
      }
      builder.VisitDesign(fe.compilation.tops);
      if builder.error != ErrNone {
        return Error(builder.error);
      } else if builder.root.None? {
        return Error(TopModuleNotFound);
      }
      root := builder.root;
      return RootSlot(this);
    }
  }

  /** oombak_parser_result_t: the union is read through `isError`. */
  datatype Payload = InstancePtr(ptr: OombakParser) | ErrorPayload(error: ErrorCode)
  datatype ParseResult = ParseResult(isError: nat, payload: Payload)

  /** instance_or_error_variant_to_result */
  function VariantToResult(v: InstanceOrError): (r: ParseResult)
    ensures r.isError == 0 <==> v.RootSlot?
    ensures r.isError <= 1
    ensures (r.isError == 0) == r.payload.InstancePtr?
  {
    match v
    case RootSlot(p) => ParseResult(0, InstancePtr(p))
    case Error(e) => ParseResult(1, ErrorPayload(e))
  }

  /** Reading a result back as the variant it was made from. */
  function ResultToVariant(r: ParseResult): InstanceOrError {
    match r.payload
    case InstancePtr(p) => RootSlot(p)
    case ErrorPayload(e) => Error(e)
  }

  /** The conversion loses nothing: the flag and the union member give back the variant. */
  lemma {:induction false} VariantToResultRoundTrip(v: InstanceOrError)
    ensures ResultToVariant(VariantToResult(v)) == v
    ensures VariantToResult(v).isError == 1 ==> VariantToResult(v).payload.error == v.code
  {
  }

  /**
   * The library's entry points: `parser` is the single global context
   * behind oombak_parser_parse; oombak_parser_get_ctx hands out new ones.
   */
  class ParserLibrary {
    const parser: OombakParser

    constructor()
      ensures fresh(parser) && parser.root.None?
    {
      parser := new OombakParser();
    }

    /** oombak_parser_get_ctx */
    method GetCtx() returns (ctx: OombakParser)
      ensures fresh(ctx) && ctx.root.None? && ctx.lastDiagnostics == ""
    {
      ctx := new OombakParser();
    }

    /** oombak_parser_parse: always the global context. */
    method Parse(sourcePaths: string, top: string, fe: Frontend) returns (r: ParseResult)
      modifies parser
      ensures var tree := InstanceTree(SplitColon(sourcePaths), top, fe);
        && (r.isError == 0 <==> tree.Ok?)
        && (tree.Ok? ==> r.payload == InstancePtr(parser) && parser.root == Some(tree.value))
        && (tree.Err? ==> r.isError == 1 && r.payload == ErrorPayload(tree.error) && parser.root.None?)
        && parser.lastDiagnostics == if AllLoad(SplitColon(sourcePaths), fe) then fe.compilation.report else old(parser.lastDiagnostics)
    {
      var paths := FromColonSeparatedPaths(sourcePaths);
      var v := parser.GetInstanceTree(paths, top, fe);
      r := VariantToResult(v);
    }

    /** oombak_parser_parse_r: only the context it is given. */
    method ParseR(ctx: OombakParser, sourcePaths: string, top: string, fe: Frontend) returns (r: ParseResult)
      modifies ctx
      ensures var tree := InstanceTree(SplitColon(sourcePaths), top, fe);
        && (r.isError == 0 <==> tree.Ok?)
        && (tree.Ok? ==> r.payload == InstancePtr(ctx) && ctx.root == Some(tree.value))
        && (tree.Err? ==> r.isError == 1 && r.payload == ErrorPayload(tree.error) && ctx.root.None?)
        && ctx.lastDiagnostics == if AllLoad(SplitColon(sourcePaths), fe) then fe.compilation.report else old(ctx.lastDiagnostics)
    {
      var paths := FromColonSeparatedPaths(sourcePaths);
      var v := ctx.GetInstanceTree(paths, top, fe);
      r := VariantToResult(v);
    }

    /** oombak_parser_get_last_diagnostics / _r: a copy of the context's text. */
    method GetLastDiagnostics(ctx: OombakParser) returns (text: string)
      ensures text == ctx.lastDiagnostics
    {
      text := ctx.lastDiagnostics;
    }
  }
}
