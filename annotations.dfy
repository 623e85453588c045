/** The annotation positions that the annotation visitors of poogle.py and second_dora.py
    inspect (the two visitors are copies of one another): parameter and return annotations,
    variable annotations, `# type:` comments of assignments and class bases. */
module Annotations {
  import opened Wrappers
  import opened Ast
  import opened Seqs

  /** An annotation expression and the position reported for it. */
  datatype Site = Site(node: Expr, line: LineNo, col: nat)

  function SiteOf(e: Expr): Site
  {
    Site(e, e.pos.line, e.pos.col)
  }

  /** The annotations of the parameters that carry one, in order. */
  function ParamSites(ps: seq<Arg>): seq<Site>
  {
    if ps == [] then []
    else ParamSites(ps[..|ps| - 1]) +
         (if ps[|ps| - 1].annotation.Some? then [SiteOf(ps[|ps| - 1].annotation.value)] else [])
  }

  function ExprSites(es: seq<Expr>): seq<Site>
  {
    if es == [] then [] else ExprSites(es[..|es| - 1]) + [SiteOf(es[|es| - 1])]
  }

  /** One entry per plain-name target, all for the type comment at the statement's position. */
  function TypeCommentSites(targets: seq<Expr>, comment: Option<Expr>, pos: Pos): seq<Site>
  {
    if targets == [] then []
    else TypeCommentSites(targets[..|targets| - 1], comment, pos) +
         (if targets[|targets| - 1].Name? && comment.Some? then [Site(comment.value, pos.line, pos.col)] else [])
  }

  /** What the visitor records on reaching statement `s`, before it descends into `s`. */
  function OwnSites(s: Stmt): seq<Site>
  {
    match s
    case FunctionDef(_, _, ps, _, _, ret, _) =>
      ParamSites(ps.args + ps.kwonlyargs) + (if ret.Some? then [SiteOf(ret.value)] else [])
    case AnnAssign(_, _, ann, _) => [SiteOf(ann)]
    case Assign(p, targets, _, comment) => TypeCommentSites(targets, comment, p)
    case ClassDef(_, _, bases, _, _, _) => ExprSites(bases)
    case _ => []
  }

  function SitesAt(n: Node): seq<Site>
  {
    match n
    case StmtNode(s) => OwnSites(s)
    case ExprNode(_) => []
  }

  /** The reference definition, by structure: a statement's own entries, then those of the
      definitions nested in it. */
  function StmtSites(s: Stmt): seq<Site>
  {
    OwnSites(s) +
    match s
    case FunctionDef(_, _, _, body, _, _, _) => StmtListSites(body)
    case ClassDef(_, _, _, _, body, _) => StmtListSites(body)
    case OtherStmt(_, _, _, body) => StmtListSites(body)
    case _ => []
  }

  function StmtListSites(ss: seq<Stmt>): seq<Site>
  {
    if ss == [] then [] else StmtSites(ss[0]) + StmtListSites(ss[1..])
  }

  /** Running the visitor over the whole tree in NodeVisitor order records exactly the
      structural entries: expressions contribute nothing, and each statement's own entries
      come before those of the statements nested in it. */
  lemma {:induction false} VisitorRecordsStructure(m: Module)
    ensures FlatMap(SitesAt, PreOrder(m)) == StmtListSites(m.body)
  {
    StmtListRecords(m.body);
  }

  lemma {:induction false} StmtListRecords(ss: seq<Stmt>)
    ensures FlatMap(SitesAt, StmtListNodes(ss)) == StmtListSites(ss)
    decreases ss, 2
  {
    if ss != [] {
      FlatMapAppend(SitesAt, StmtNodes(ss[0]), StmtListNodes(ss[1..]));
      StmtRecords(ss[0]);
      StmtListRecords(ss[1..]);
    }
  }

  /** Statement `s` contributes its own entries followed by those of its body. */
  lemma {:induction false} StmtRecords(s: Stmt)
    ensures FlatMap(SitesAt, StmtNodes(s)) == StmtSites(s)
    decreases s, 1
  {
    var head := [StmtNode(s)];
    assert FlatMap(SitesAt, head) == OwnSites(s) by {
      assert head[..0] == [];
    }
    FlatMapAppend(SitesAt, head, StmtChildNodes(s));
    ChildRecords(s);
    assert StmtSites(s) == OwnSites(s) + StmtListSites(Body(s));
  }

  lemma {:induction false} ChildRecords(s: Stmt)
    ensures FlatMap(SitesAt, StmtChildNodes(s)) == StmtListSites(Body(s))
    decreases s, 0
  {
    match s
    case FunctionDef(_, _, _, body, _, _, _) =>
      StmtListRecords(body);
      FunctionDefRecords(s);
    case ClassDef(_, _, _, _, body, _) =>
      StmtListRecords(body);
      ClassDefRecords(s);
    case OtherStmt(_, _, _, body) =>
      StmtListRecords(body);
      OtherStmtRecords(s);
    case _ =>
      LeafRecords(s);
  }

  lemma FunctionDefRecords(s: Stmt)
    requires s.FunctionDef? && FlatMap(SitesAt, StmtListNodes(s.body)) == StmtListSites(s.body)
    ensures FlatMap(SitesAt, StmtChildNodes(s)) == StmtListSites(s.body)
  {
    ArgumentsOnlyExprs(s.params); ExprListOnlyExprs(s.decorators); OptExprOnlyExprs(s.returnAnnotation);
    var post := ExprListNodes(s.decorators) + OptExprNodes(s.returnAnnotation);
    assert StmtChildNodes(s) == ArgumentsNodes(s.params) + StmtListNodes(s.body) + post;
    SplitRecords(ArgumentsNodes(s.params), StmtListNodes(s.body), post);
  }

  lemma ClassDefRecords(s: Stmt)
    requires s.ClassDef? && FlatMap(SitesAt, StmtListNodes(s.body)) == StmtListSites(s.body)
    ensures FlatMap(SitesAt, StmtChildNodes(s)) == StmtListSites(s.body)
  {
    ExprListOnlyExprs(s.bases); KeywordListOnlyExprs(s.classKeywords); ExprListOnlyExprs(s.decorators);
    SplitRecords(ExprListNodes(s.bases) + KeywordListNodes(s.classKeywords), StmtListNodes(s.body), ExprListNodes(s.decorators));
  }

  lemma OtherStmtRecords(s: Stmt)
    requires s.OtherStmt? && FlatMap(SitesAt, StmtListNodes(s.body)) == StmtListSites(s.body)
    ensures FlatMap(SitesAt, StmtChildNodes(s)) == StmtListSites(s.body)
  {
    ExprListOnlyExprs(s.exprs);
    FlatMapAppend(SitesAt, ExprListNodes(s.exprs), StmtListNodes(s.body));
    FlatMapNil(SitesAt, ExprListNodes(s.exprs));
  }

  /** A statement without a body has only expressions below it. */
  lemma LeafRecords(s: Stmt)
    requires !s.FunctionDef? && !s.ClassDef? && !s.OtherStmt?
    ensures FlatMap(SitesAt, StmtChildNodes(s)) == []
  {
    match s
    case AnnAssign(_, t, ann, v) =>
      ExprOnlyExprs(t); ExprOnlyExprs(ann); OptExprOnlyExprs(v);
      FlatMapNil(SitesAt, StmtChildNodes(s));
    case Assign(_, ts, v, _) =>
      ExprListOnlyExprs(ts); ExprOnlyExprs(v);
      FlatMapNil(SitesAt, StmtChildNodes(s));
    case Import(_, _) =>
    case ImportFrom(_, _, _) =>
  }

  /** Expression parts around a block of statements record nothing. */
  lemma SplitRecords(pre: seq<Node>, mid: seq<Node>, post: seq<Node>)
    requires forall n :: n in pre ==> n.ExprNode?
    requires forall n :: n in post ==> n.ExprNode?
    ensures FlatMap(SitesAt, pre + mid + post) == FlatMap(SitesAt, mid)
  {
    FlatMapNil(SitesAt, pre);
    FlatMapNil(SitesAt, post);
    FlatMapAppend(SitesAt, pre + mid, post);
    FlatMapAppend(SitesAt, pre, mid);
  }

  // Below an expression there are only expressions.

  lemma ExprOnlyExprs(e: Expr)
    ensures forall n :: n in ExprNodes(e) ==> n.ExprNode?
    decreases e
  {
    match e
    case Name(_, _) =>
    case Attribute(_, v, _) => ExprOnlyExprs(v);
    case Subscript(_, v, s) => ExprOnlyExprs(v); ExprOnlyExprs(s);
    case Tuple(_, elts) => ExprListOnlyExprs(elts);
    case List(_, elts) => ExprListOnlyExprs(elts);
    case BinOp(_, l, _, r) => ExprOnlyExprs(l); ExprOnlyExprs(r);
    case UnaryOp(_, x) => ExprOnlyExprs(x);
    case Call(_, f, args, kws) => ExprOnlyExprs(f); ExprListOnlyExprs(args); KeywordListOnlyExprs(kws);
    case Constant(_, _, _) =>
    case Dict(_, ks, vs) => ExprListOnlyExprs(ks); ExprListOnlyExprs(vs);
    case Lambda(_, ps, b) => ArgumentsOnlyExprs(ps); ExprOnlyExprs(b);
    case Compare(_, l, cs) => ExprOnlyExprs(l); ExprListOnlyExprs(cs);
    case BoolOp(_, vs) => ExprListOnlyExprs(vs);
    case IfExp(_, t, b, o) => ExprOnlyExprs(t); ExprOnlyExprs(b); ExprOnlyExprs(o);
    case OtherExpr(_, _, cs) => ExprListOnlyExprs(cs);
  }

  lemma ExprListOnlyExprs(es: seq<Expr>)
    ensures forall n :: n in ExprListNodes(es) ==> n.ExprNode?
    decreases es
  {
    if es != [] {
      ExprOnlyExprs(es[0]);
      ExprListOnlyExprs(es[1..]);
    }
  }

  lemma OptExprOnlyExprs(o: Option<Expr>)
    ensures forall n :: n in OptExprNodes(o) ==> n.ExprNode?
    decreases o
  {
    if o.Some? {
      ExprOnlyExprs(o.value);
    }
  }

  lemma KeywordListOnlyExprs(ks: seq<Keyword>)
    ensures forall n :: n in KeywordListNodes(ks) ==> n.ExprNode?
    decreases ks
  {
    if ks != [] {
      KeywordOnlyExprs(ks[0]);
      KeywordListOnlyExprs(ks[1..]);
    }
  }

  lemma KeywordOnlyExprs(k: Keyword)
    ensures forall n :: n in KeywordNodes(k) ==> n.ExprNode?
    decreases k
  {
    ExprOnlyExprs(k.value);
  }

  lemma ArgOnlyExprs(a: Arg)
    ensures forall n :: n in ArgNodes(a) ==> n.ExprNode?
    decreases a
  {
    OptExprOnlyExprs(a.annotation);
  }

  lemma OptArgOnlyExprs(o: Option<Arg>)
    ensures forall n :: n in OptArgNodes(o) ==> n.ExprNode?
    decreases o
  {
    if o.Some? {
      ArgOnlyExprs(o.value);
    }
  }

  lemma ArgListOnlyExprs(as_: seq<Arg>)
    ensures forall n :: n in ArgListNodes(as_) ==> n.ExprNode?
    decreases as_
  {
    if as_ != [] {
      ArgOnlyExprs(as_[0]);
      ArgListOnlyExprs(as_[1..]);
    }
  }

  lemma ArgumentsOnlyExprs(ps: Arguments)
    ensures forall n :: n in ArgumentsNodes(ps) ==> n.ExprNode?
    decreases ps
  {
    ArgListOnlyExprs(ps.posonlyargs); ArgListOnlyExprs(ps.args); OptArgOnlyExprs(ps.vararg);
    ArgListOnlyExprs(ps.kwonlyargs); ExprListOnlyExprs(ps.kwDefaults); OptArgOnlyExprs(ps.kwarg);
    ExprListOnlyExprs(ps.defaults);
  }
}
