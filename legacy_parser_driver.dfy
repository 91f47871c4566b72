/**
 * The first parser driver (oombak_parser/src/oombak_parser.cpp): the same
 * context, split and build as the current one, but every failure is an
 * exception that the entry points turn into a NULL instance pointer.
 *
 * The builder header this driver was compiled against is not part of this
 * model; the current InstanceTreeBuilder stands in for it, and the driver
 * consults only whether a root was found.
 */
module LegacyParserDriver {
  import opened Wrappers
  import opened ParserAbi
  import opened InstanceTreeBuilder
  import opened ParserDriver

  /** An exception escaping get_instance_tree (a failed `.value()` or the compilation check). */
  datatype Exception = BadOptionalAccess | CompilationFailed

  /**
   * What get_instance_tree leaves in the slot: nothing when an exception
   * escapes or the top module is absent.
   */
  function LegacyInstanceTree(paths: seq<string>, top: string, fe: Frontend): Option<Instance> {
    if !AllLoad(paths, fe) || |fe.compilation.diagnostics| > 0 then None
    else match VisitTops(Searching, fe.compilation.tops, top)
      case Found(n) => Some(n)
      case _ => None
  }

  /**
   * The first driver builds the same tree as the current one whenever the
   * current one succeeds, and returns nothing in every case where the current
   * one reports an error code.
   */
  lemma {:induction false} LegacyAgreesWithCurrent(paths: seq<string>, top: string, fe: Frontend)
    ensures LegacyInstanceTree(paths, top, fe) ==
      match InstanceTree(paths, top, fe)
      case Ok(n) => Some(n)
      case Err(_) => None
  {
  }

  class LegacyOombakParser {
    var root: Option<Instance>

    constructor()
      ensures root.None?
    {
      root := None;
    }

    /**
     * get_instance_tree: release the old tree, load (a missing file throws),
     * check (diagnostics throw), visit, and return the slot only if a root
     * was found.
     */
    method GetInstanceTree(paths: seq<string>, top: string, fe: Frontend)
      returns (r: Result<Option<LegacyOombakParser>, Exception>)
      modifies this
      ensures r.Err? <==> (!AllLoad(paths, fe) || |fe.compilation.diagnostics| > 0)
      ensures r.Ok? && r.value.Some? <==> LegacyInstanceTree(paths, top, fe).Some?
      ensures r.Ok? && r.value.Some? ==> r.value.value == this
      ensures root == LegacyInstanceTree(paths, top, fe)
    {
      root := None;
      var builder := new Builder(top);
      var i := 0;
      while i < |paths|
        invariant 0 <= i <= |paths|
        invariant forall k :: 0 <= k < i ==> paths[k] in fe.loadable
      {
        if paths[i] !in fe.loadable {
          return Err(BadOptionalAccess);
        }
        i := i + 1;
      }
      if |fe.compilation.diagnostics| > 0 {
        return Err(CompilationFailed);
      }
      builder.VisitDesign(fe.compilation.tops);
      if builder.root.None? {
        return Ok(None);
      }
      root := builder.root;
      return Ok(Some(this));
    }
  }

  /** The global context and the entry points. */
  class LegacyParserLibrary {
    const parser: LegacyOombakParser

    constructor()
      ensures fresh(parser) && parser.root.None?
    {
      parser := new LegacyOombakParser();
    }

    /** oombak_parser_get_ctx */
    method GetCtx() returns (ctx: LegacyOombakParser)
      ensures fresh(ctx) && ctx.root.None?
    {
      ctx := new LegacyOombakParser();
    }

    /** oombak_parser_parse(source_paths, top): NULL on any failure, with no error code. */
    method Parse(sourcePaths: string, top: string, fe: Frontend) returns (ptr: Option<LegacyOombakParser>)
      modifies parser
      ensures ptr.Some? <==> InstanceTree(SplitColon(sourcePaths), top, fe).Ok?
      ensures ptr.Some? ==> ptr.value == parser && parser.root == Some(InstanceTree(SplitColon(sourcePaths), top, fe).value)
    {
      LegacyAgreesWithCurrent(SplitColon(sourcePaths), top, fe);
      ptr := ParseWith(parser, sourcePaths, top, fe);
    }

    /** oombak_parser_parse(ctx, source_paths, top): the same on the given context. */
    method ParseWith(ctx: LegacyOombakParser, sourcePaths: string, top: string, fe: Frontend)
      returns (ptr: Option<LegacyOombakParser>)
      modifies ctx
      ensures ptr.Some? <==> InstanceTree(SplitColon(sourcePaths), top, fe).Ok?
      ensures ptr.Some? ==> ptr.value == ctx && ctx.root == Some(InstanceTree(SplitColon(sourcePaths), top, fe).value)
      ensures ptr.None? ==> ctx.root.None?
    {
      var paths := FromColonSeparatedPaths(sourcePaths);
      LegacyAgreesWithCurrent(paths, top, fe);
      var r := ctx.GetInstanceTree(paths, top, fe);
      match r {
        case Err(_) => ptr := None;
        case Ok(p) => ptr := p;
      }
    }
  }
}
