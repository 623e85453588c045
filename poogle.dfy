/** poogle.py: the structural type matcher, the annotation visitor and the filtering loop
    of `search_file`. */
module Poogle {
  import opened Wrappers
  import opened Ast
  import opened Seqs
  import opened Files
  import opened Annotations

  // ---------------------------------------------------------------------------------------
  // type_matches

  /** Whether `target` occurs in annotation `e`: a Name by its id, an Attribute by its last
      component, generics, tuples, lists, `|` unions and call-style annotations through
      their parts; every other node kind does not match. */
  predicate TypeMatches(e: Expr, target: string)
  {
    match e
    case Name(_, id) => id == target
    case Attribute(_, _, attr) => attr == target
    case Subscript(_, v, s) => TypeMatches(v, target) || TypeMatches(s, target)
    case Tuple(_, elts) => AnyMatches(elts, target)
    case List(_, elts) => AnyMatches(elts, target)
    case BinOp(_, l, op, r) => op == BitOr && (TypeMatches(l, target) || TypeMatches(r, target))
    case Call(_, f, args, _) => TypeMatches(f, target) || AnyMatches(args, target)
    case _ => false
  }

  /** `any(type_matches(x, target) for x in es)`. */
  predicate AnyMatches(es: seq<Expr>, target: string)
  {
    es != [] && (TypeMatches(es[0], target) || AnyMatches(es[1..], target))
  }

  /** The reference view of the matcher: the sub-expressions it descends into, `e` first. */
  function Spine(e: Expr): (r: seq<Expr>)
    ensures |r| >= 1 && r[0] == e
  {
    [e] +
    match e
    case Subscript(_, v, s) => Spine(v) + Spine(s)
    case Tuple(_, elts) => SpineList(elts)
    case List(_, elts) => SpineList(elts)
    case BinOp(_, l, op, r) => if op == BitOr then Spine(l) + Spine(r) else []
    case Call(_, f, args, _) => Spine(f) + SpineList(args)
    case _ => []
  }

  function SpineList(es: seq<Expr>): seq<Expr>
  {
    if es == [] then [] else Spine(es[0]) + SpineList(es[1..])
  }

  /** A leaf that names `target`: a Name with that id or an Attribute with that last part. */
  predicate NamesTarget(x: Expr, target: string)
  {
    (x.Name? && x.id == target) || (x.Attribute? && x.attr == target)
  }

  /** An annotation matches exactly when some node the matcher reaches names the target. */
  lemma {:induction false} MatchesIffNamedLeaf(e: Expr, target: string)
    ensures TypeMatches(e, target) <==> exists x :: x in Spine(e) && NamesTarget(x, target)
    decreases e
  {
    match e
    case Name(_, _) => LeafSpine(e, target);
    case Attribute(_, _, _) => LeafSpine(e, target);
    case Subscript(_, v, s) =>
      MatchesIffNamedLeaf(v, target); MatchesIffNamedLeaf(s, target);
    case Tuple(_, elts) => AnyMatchesIffNamedLeaf(elts, target);
    case List(_, elts) => AnyMatchesIffNamedLeaf(elts, target);
    case BinOp(_, l, op, r) =>
      MatchesIffNamedLeaf(l, target); MatchesIffNamedLeaf(r, target);
    case Call(_, f, args, _) =>
      MatchesIffNamedLeaf(f, target); AnyMatchesIffNamedLeaf(args, target);
    case UnaryOp(_, _) =>
    case Constant(_, _, _) =>
    case Dict(_, _, _) =>
    case Lambda(_, _, _) =>
    case Compare(_, _, _) =>
    case BoolOp(_, _) =>
    case IfExp(_, _, _, _) =>
    case OtherExpr(_, _, _) =>
  }

  lemma LeafSpine(e: Expr, target: string)
    requires e.Name? || e.Attribute?
    ensures TypeMatches(e, target) <==> exists x :: x in Spine(e) && NamesTarget(x, target)
  {
    assert Spine(e) == [e];
    if TypeMatches(e, target) {
      assert e in Spine(e) && NamesTarget(e, target);
    }
  }

  lemma {:induction false} AnyMatchesIffNamedLeaf(es: seq<Expr>, target: string)
    ensures AnyMatches(es, target) <==> exists x :: x in SpineList(es) && NamesTarget(x, target)
    decreases es
  {
    if es != [] {
      MatchesIffNamedLeaf(es[0], target);
      AnyMatchesIffNamedLeaf(es[1..], target);
    }
  }

  /** `AnyMatches` is Python's `any`: some element matches. */
  lemma {:induction false} AnyMatchesIffSome(es: seq<Expr>, target: string)
    ensures AnyMatches(es, target) <==> exists i :: 0 <= i < |es| && TypeMatches(es[i], target)
    decreases |es|
  {
    if es != [] {
      AnyMatchesIffSome(es[1..], target);
      assert forall i :: 0 < i < |es| ==> es[1..][i - 1] == es[i];
      if TypeMatches(es[0], target) {
      } else if AnyMatches(es[1..], target) {
        var i :| 0 <= i < |es[1..]| && TypeMatches(es[1..][i], target);
        assert TypeMatches(es[i + 1], target);
      }
    }
  }

  /** The rule of each node kind: a Name or an Attribute by its name (the qualifier of an
      Attribute plays no part), a Subscript through its base or its slice, a Tuple or a List
      through some element (so never when empty), a BinOp only for `|`, a Call through its
      callee or a positional argument (keyword arguments play no part), nothing else. */
  lemma MatchLeafRules(pos: Pos, target: string, e1: Expr, e2: Expr, id: string)
    ensures TypeMatches(Name(pos, id), target) <==> id == target
    ensures TypeMatches(Attribute(pos, e1, id), target) <==> id == target
    ensures TypeMatches(Attribute(pos, e1, id), target) == TypeMatches(Attribute(pos, e2, id), target)
  {
  }

  lemma MatchContainerRules(pos: Pos, target: string, e1: Expr, e2: Expr, es: seq<Expr>)
    ensures TypeMatches(Subscript(pos, e1, e2), target) <==> TypeMatches(e1, target) || TypeMatches(e2, target)
    ensures TypeMatches(Tuple(pos, es), target) <==> exists i :: 0 <= i < |es| && TypeMatches(es[i], target)
    ensures TypeMatches(List(pos, es), target) <==> exists i :: 0 <= i < |es| && TypeMatches(es[i], target)
    ensures !TypeMatches(Tuple(pos, []), target) && !TypeMatches(List(pos, []), target)
  {
    AnyMatchesIffSome(es, target);
  }

  lemma MatchOperatorRules(pos: Pos, target: string, e1: Expr, e2: Expr, es: seq<Expr>, op: Operator,
                           kws: seq<Keyword>, kws': seq<Keyword>)
    ensures op != BitOr ==> !TypeMatches(BinOp(pos, e1, op, e2), target)
    ensures TypeMatches(BinOp(pos, e1, BitOr, e2), target) <==> TypeMatches(e1, target) || TypeMatches(e2, target)
    ensures TypeMatches(Call(pos, e1, es, kws), target) <==>
              TypeMatches(e1, target) || exists i :: 0 <= i < |es| && TypeMatches(es[i], target)
    ensures TypeMatches(Call(pos, e1, es, kws), target) == TypeMatches(Call(pos, e1, es, kws'), target)
  {
    AnyMatchesIffSome(es, target);
  }

  /** The kinds the matcher does not look into never match, whatever they contain. */
  lemma OtherKindsNeverMatch(e: Expr, target: string)
    requires !(e.Name? || e.Attribute? || e.Subscript? || e.Tuple? || e.List? || e.BinOp? || e.Call?)
    ensures !TypeMatches(e, target)
  {
  }

  // ---------------------------------------------------------------------------------------
  // extract_annotations: the AnnotationVisitor

  /** The visitor, with the list it appends to. */
  class AnnotationVisitor {
    var annotations: seq<Site>

    constructor ()
      ensures annotations == []
    {
      annotations := [];
    }

    /** Also `visit_AsyncFunctionDef`: positional then keyword-only parameter annotations,
        then the return annotation. */
    method VisitFunctionDef(s: Stmt)
      requires s.FunctionDef?
      modifies this
      ensures annotations == old(annotations) + OwnSites(s)
    {
      var ps := s.params.args + s.params.kwonlyargs;
      ghost var start := annotations;
      var i := 0;
      while i < |ps|
        invariant 0 <= i <= |ps|
        invariant annotations == start + ParamSites(ps[..i])
      {
        assert ps[..i + 1][..i] == ps[..i];
        if ps[i].annotation.Some? {
          annotations := annotations + [SiteOf(ps[i].annotation.value)];
        }
        i := i + 1;
      }
      assert ps[..i] == ps;
      if s.returnAnnotation.Some? {
        annotations := annotations + [SiteOf(s.returnAnnotation.value)];
      }
    }

    method VisitAnnAssign(s: Stmt)
      requires s.AnnAssign?
      modifies this
      ensures annotations == old(annotations) + OwnSites(s)
    {
      annotations := annotations + [SiteOf(s.annotation)];
    }

    /** One entry per plain-name target when the statement has a type comment that parses. */
    method VisitAssign(s: Stmt)
      requires s.Assign?
      modifies this
      ensures annotations == old(annotations) + OwnSites(s)
    {
      var ts := s.targets;
      ghost var start := annotations;
      var i := 0;
      while i < |ts|
        invariant 0 <= i <= |ts|
        invariant annotations == start + TypeCommentSites(ts[..i], s.typeComment, s.pos)
      {
        assert ts[..i + 1][..i] == ts[..i];
        if ts[i].Name? && s.typeComment.Some? {
          annotations := annotations + [Site(s.typeComment.value, s.pos.line, s.pos.col)];
        }
        i := i + 1;
      }
      assert ts[..i] == ts;
    }

    method VisitClassDef(s: Stmt)
      requires s.ClassDef?
      modifies this
      ensures annotations == old(annotations) + OwnSites(s)
    {
      var bases := s.bases;
      ghost var start := annotations;
      var i := 0;
      while i < |bases|
        invariant 0 <= i <= |bases|
        invariant annotations == start + ExprSites(bases[..i])
      {
        assert bases[..i + 1][..i] == bases[..i];
        annotations := annotations + [SiteOf(bases[i])];
        i := i + 1;
      }
      assert bases[..i] == bases;
    }

    /** `visit`: the handler for the node's kind; other kinds record nothing. */
    method Visit(n: Node)
      modifies this
      ensures annotations == old(annotations) + SitesAt(n)
    {
      match n {
        case ExprNode(_) =>
        case StmtNode(s) =>
          match s {
            case FunctionDef(_, _, _, _, _, _, _) => VisitFunctionDef(s);
            case AnnAssign(_, _, _, _) => VisitAnnAssign(s);
            case Assign(_, _, _, _) => VisitAssign(s);
            case ClassDef(_, _, _, _, _, _) => VisitClassDef(s);
            case Import(_, _) =>
            case ImportFrom(_, _, _) =>
            case OtherStmt(_, _, _, _) =>
          }
      }
    }

    /** Visits the given nodes in order, as the generic traversal reaches them. */
    method VisitNodes(nodes: seq<Node>)
      modifies this
      ensures annotations == old(annotations) + FlatMap(SitesAt, nodes)
    {
      ghost var start := annotations;
      var i := 0;
      while i < |nodes|
        invariant 0 <= i <= |nodes|
        invariant annotations == start + FlatMap(SitesAt, nodes[..i])
      {
        FlatMapPrefixStep(SitesAt, nodes, i);
        Visit(nodes[i]);
        i := i + 1;
      }
      assert nodes[..i] == nodes;
    }

    /** Every handler ends in `generic_visit`, so the visitor meets the nodes in pre-order. */
    method VisitTree(m: Module)
      modifies this
      ensures annotations == old(annotations) + FlatMap(SitesAt, PreOrder(m))
    {
      VisitNodes(PreOrder(m));
    }
  }

  /** extract_annotations: the annotation entries of the whole module, each statement's own
      entries before those of the statements nested in it. */
  method ExtractAnnotations(m: Module) returns (r: seq<Site>)
    ensures r == StmtListSites(m.body)
  {
    var v := new AnnotationVisitor();
    v.VisitTree(m);
    r := v.annotations;
    VisitorRecordsStructure(m);
  }

  /** The entries of consecutive statements are those of each, in order. */
  lemma {:induction false} StmtListSitesAppend(a: seq<Stmt>, b: seq<Stmt>)
    ensures StmtListSites(a + b) == StmtListSites(a) + StmtListSites(b)
    decreases |a|
  {
    if a == [] {
      assert a + b == b;
    } else {
      var ab := a + b;
      assert ab[0] == a[0] && ab[1..] == a[1..] + b;
      StmtListSitesAppend(a[1..], b);
    }
  }

  lemma {:induction false} ParamSitesAppend(a: seq<Arg>, b: seq<Arg>)
    ensures ParamSites(a + b) == ParamSites(a) + ParamSites(b)
    decreases |b|
  {
    if b == [] {
      assert a + b == a;
    } else {
      var ab := a + b;
      assert ab[..|ab| - 1] == a + b[..|b| - 1];
      ParamSitesAppend(a, b[..|b| - 1]);
    }
  }

  /** A function records its positional parameters' annotations, then its keyword-only
      ones, then its return annotation, and only then what is nested in its body. */
  lemma FunctionSitesOrder(s: Stmt)
    requires s.FunctionDef?
    ensures StmtSites(s) ==
              ParamSites(s.params.args) + ParamSites(s.params.kwonlyargs) +
              (if s.returnAnnotation.Some? then [SiteOf(s.returnAnnotation.value)] else []) +
              StmtListSites(s.body)
  {
    ParamSitesAppend(s.params.args, s.params.kwonlyargs);
  }

  /** A parameter list contributes exactly its present annotations. */
  lemma {:induction false} ParamSitesExact(ps: seq<Arg>, st: Site)
    ensures st in ParamSites(ps) <==>
              exists i :: 0 <= i < |ps| && ps[i].annotation.Some? && st == SiteOf(ps[i].annotation.value)
    decreases |ps|
  {
    if ps != [] {
      var init := ps[..|ps| - 1];
      ParamSitesExact(init, st);
      assert forall i :: 0 <= i < |init| ==> init[i] == ps[i];
    }
  }

  /** A class contributes one entry per base, in the order the bases are written. */
  lemma {:induction false} BaseSitesInOrder(bases: seq<Expr>)
    ensures |ExprSites(bases)| == |bases|
    ensures forall k :: 0 <= k < |bases| ==> ExprSites(bases)[k] == SiteOf(bases[k])
    decreases |bases|
  {
    if bases != [] {
      BaseSitesInOrder(bases[..|bases| - 1]);
    }
  }

  // ---------------------------------------------------------------------------------------
  // search_file

  /** A reported match: line, column and the searched type. */
  datatype Match = Match(line: LineNo, col: nat, typ: string)

  /** The entries of `search_file`, as a function of the parsed file: nothing for a file that
      does not parse, else the matching annotation entries in order, each tagged with the
      target. */
  function Matches(file: SourceFile, target: string): seq<Match>
  {
    match file
    case Unparseable => []
    case Parsed(_, tree) =>
      FilterMap((st: Site) => TypeMatches(st.node, target),
                (st: Site) => Match(st.line, st.col, target),
                StmtListSites(tree.body))
  }

  method SearchFile(file: SourceFile, target: string) returns (matches: seq<Match>)
    ensures matches == Matches(file, target)
  {
    matches := [];
    if file.Unparseable? {
      return;
    }
    var annotations := ExtractAnnotations(file.tree);
    var i := 0;
    while i < |annotations|
      invariant 0 <= i <= |annotations|
      invariant matches == FilterMap((st: Site) => TypeMatches(st.node, target),
                                     (st: Site) => Match(st.line, st.col, target),
                                     annotations[..i])
    {
      assert annotations[..i + 1][..i] == annotations[..i];
      if TypeMatches(annotations[i].node, target) {
        matches := matches + [Match(annotations[i].line, annotations[i].col, target)];
      }
      i := i + 1;
    }
    assert annotations[..i] == annotations;
  }

  /** `search_file` reports exactly the matching annotation entries, in extraction order:
      every report comes from a matching entry, every matching entry is reported, and the
      reports keep the entries' relative order. */
  lemma MatchesAreMatchingSites(lines: seq<string>, tree: Module, target: string)
    ensures var sites := StmtListSites(tree.body);
            var ms := Matches(Parsed(lines, tree), target);
            var keep := (st: Site) => TypeMatches(st.node, target);
            |KeptIndices(keep, sites)| == |ms| &&
            (forall k :: 0 <= k < |ms| ==>
               KeptIndices(keep, sites)[k] < |sites| &&
               TypeMatches(sites[KeptIndices(keep, sites)[k]].node, target) &&
               ms[k] == Match(sites[KeptIndices(keep, sites)[k]].line, sites[KeptIndices(keep, sites)[k]].col, target)) &&
            (forall k, l :: 0 <= k < l < |ms| ==> KeptIndices(keep, sites)[k] < KeptIndices(keep, sites)[l]) &&
            (forall j :: 0 <= j < |sites| ==> (j in KeptIndices(keep, sites) <==> TypeMatches(sites[j].node, target)))
  {
    var keep := (st: Site) => TypeMatches(st.node, target);
    var tag := (st: Site) => Match(st.line, st.col, target);
    FilterMapIsSubsequence(keep, tag, StmtListSites(tree.body));
  }

  // ---------------------------------------------------------------------------------------
  // Worked examples

  const P: Pos := Pos(1, 0, None)

  /** `Dict[str, int]` is found by a search for `int`, for `str` and for `Dict`, not for
      `float`. */
  lemma DictStrInt()
    ensures var ann := Subscript(P, Name(P, "Dict"), Tuple(P, [Name(P, "str"), Name(P, "int")]));
            TypeMatches(ann, "int") && TypeMatches(ann, "str") && TypeMatches(ann, "Dict") &&
            !TypeMatches(ann, "float")
  {
    var elts := [Name(P, "str"), Name(P, "int")];
    assert elts[1..] == [Name(P, "int")];
    assert elts[1..][1..] == [];
    assert TypeMatches(Name(P, "str"), "str") && !TypeMatches(Name(P, "str"), "float");
    assert TypeMatches(Name(P, "int"), "int") && !TypeMatches(Name(P, "int"), "float");
    assert !AnyMatches([], "float");
    assert AnyMatches(elts[1..], "int") && !AnyMatches(elts[1..], "float");
    assert AnyMatches(elts, "int") && AnyMatches(elts, "str") && !AnyMatches(elts, "float");
    assert TypeMatches(Tuple(P, elts), "int") && !TypeMatches(Tuple(P, elts), "float");
    assert TypeMatches(Name(P, "Dict"), "Dict") && !TypeMatches(Name(P, "Dict"), "float");
  }

  /** `int | None` is found by a search for `int` but not by one for `None`: `None` parses
      as a constant, which the matcher never looks into. */
  lemma UnionWithNone()
    ensures var ann := BinOp(P, Name(P, "int"), BitOr, Constant(P, "NoneType", "None"));
            TypeMatches(ann, "int") && !TypeMatches(ann, "None")
  {
  }

  /** `def f(x: str) -> str: ...` holds no match for `int`. */
  lemma NoMatchInStrFunction(lines: seq<string>)
    ensures var f := FunctionDef(P, "f", Arguments([], [Arg("x", Some(Name(P, "str")))], None, [], [], None, []),
                                 [OtherStmt(P, "Expr", [Constant(P, "ellipsis", "Ellipsis")], [])],
                                 [], Some(Name(P, "str")), false);
            Matches(Parsed(lines, Module([f])), "int") == []
  {
    var f := FunctionDef(P, "f", Arguments([], [Arg("x", Some(Name(P, "str")))], None, [], [], None, []),
                         [OtherStmt(P, "Expr", [Constant(P, "ellipsis", "Ellipsis")], [])],
                         [], Some(Name(P, "str")), false);
    var ps := [Arg("x", Some(Name(P, "str")))];
    assert ps + [] == ps;
    assert ParamSites(ps) == [SiteOf(Name(P, "str"))] by {
      assert ps[..0] == [];
    }
    var body := [OtherStmt(P, "Expr", [Constant(P, "ellipsis", "Ellipsis")], [])];
    assert StmtListSites(body) == [] by {
      assert body[1..] == [];
    }
    assert f.params.args + f.params.kwonlyargs == ps;
    assert OwnSites(f) == [SiteOf(Name(P, "str")), SiteOf(Name(P, "str"))];
    assert StmtSites(f) == OwnSites(f) + StmtListSites(body);
    var sites := StmtListSites([f]);
    assert [f][1..] == [];
    assert sites == StmtSites(f) + StmtListSites([]);
    assert sites == [SiteOf(Name(P, "str")), SiteOf(Name(P, "str"))];
    FilterMapIsSubsequence((st: Site) => TypeMatches(st.node, "int"),
                           (st: Site) => Match(st.line, st.col, "int"), sites);
  }
}
