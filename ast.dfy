/** The syntax trees of Python's `ast` module, restricted to the node kinds the tools inspect,
    and the two traversal orders of that module: `NodeVisitor.generic_visit` (pre-order, fields
    in declaration order) and `ast.walk` (breadth-first). */
module Ast {
  import opened Wrappers

  /** Line numbers are 1-based. */
  type LineNo = n: int | n >= 1 witness 1

  /** `lineno`, `col_offset` and, when the parser recorded it, `end_col_offset`. */
  datatype Pos = Pos(line: LineNo, col: nat, endCol: Option<nat>)

  datatype Operator =
    | Add | Sub | Mult | MatMult | Div | Mod | Pow | LShift | RShift | BitOr | BitXor | BitAnd | FloorDiv

  /** Expression nodes. A `Constant` carries the precomputed `type(value).__name__` and
      `repr(value)`; `OtherExpr` stands for every kind not listed (Starred, Set, JoinedStr,
      comprehensions, ...) with its class name and its sub-expressions in visit order. */
  datatype Expr =
    | Name(pos: Pos, id: string)
    | Attribute(pos: Pos, value: Expr, attr: string)
    | Subscript(pos: Pos, value: Expr, slice: Expr)
    | Tuple(pos: Pos, elts: seq<Expr>)
    | List(pos: Pos, elts: seq<Expr>)
    | BinOp(pos: Pos, left: Expr, op: Operator, right: Expr)
    | UnaryOp(pos: Pos, operand: Expr)
    | Call(pos: Pos, func: Expr, args: seq<Expr>, keywords: seq<Keyword>)
    | Constant(pos: Pos, typeName: string, repr: string)
    | Dict(pos: Pos, keys: seq<Expr>, values: seq<Expr>)
    | Lambda(pos: Pos, params: Arguments, body: Expr)
    | Compare(pos: Pos, left: Expr, comparators: seq<Expr>)
    | BoolOp(pos: Pos, values: seq<Expr>)
    | IfExp(pos: Pos, test: Expr, body: Expr, orelse: Expr)
    | OtherExpr(pos: Pos, kind: string, children: seq<Expr>)

  /** A keyword argument `arg=value` of a call or a class definition. */
  datatype Keyword = Keyword(arg: Option<string>, value: Expr)

  datatype Arg = Arg(name: string, annotation: Option<Expr>)

  /** A parameter list; `kwDefaults` holds only the defaults that are present. */
  datatype Arguments = Arguments(
    posonlyargs: seq<Arg>, args: seq<Arg>, vararg: Option<Arg>, kwonlyargs: seq<Arg>,
    kwDefaults: seq<Expr>, kwarg: Option<Arg>, defaults: seq<Expr>)

  /** `name as asname` in an import. */
  datatype Alias = Alias(name: string, asname: Option<string>) {
    /** The name the import binds, `asname or name`. */
    function Bound(): string
    {
      asname.GetOr(name)
    }
  }

  /** Statement nodes. `OtherStmt` stands for every other statement kind (if, for, while, with,
      try, return, expression statements, ...): its expressions are visited before its
      sub-statements, as the field order of those kinds has it. `Assign.typeComment` is the
      pre-parsed `# type:` comment, absent when there is none or when it does not parse. */
  datatype Stmt =
    | FunctionDef(pos: Pos, name: string, params: Arguments, body: seq<Stmt>, decorators: seq<Expr>,
                  returnAnnotation: Option<Expr>, isAsync: bool)
    | ClassDef(pos: Pos, name: string, bases: seq<Expr>, classKeywords: seq<Keyword>, body: seq<Stmt>,
               decorators: seq<Expr>)
    | AnnAssign(pos: Pos, target: Expr, annotation: Expr, initializer: Option<Expr>)
    | Assign(pos: Pos, targets: seq<Expr>, rhs: Expr, typeComment: Option<Expr>)
    | Import(pos: Pos, names: seq<Alias>)
    | ImportFrom(pos: Pos, fromModule: Option<string>, names: seq<Alias>)
    | OtherStmt(pos: Pos, kind: string, exprs: seq<Expr>, body: seq<Stmt>)

  datatype Module = Module(body: seq<Stmt>)

  /** A node that a visitor can be called on. */
  datatype Node = StmtNode(stmt: Stmt) | ExprNode(expr: Expr)

  function NodePos(n: Node): Pos
  {
    match n
    case StmtNode(s) => s.pos
    case ExprNode(e) => e.pos
  }

  // ---------------------------------------------------------------------------------------
  // NodeVisitor order: a node, then the nodes of its fields in declaration order.

  function ExprNodes(e: Expr): (r: seq<Node>)
    ensures |r| >= 1 && r[0] == ExprNode(e)
    decreases e, 1
  {
    [ExprNode(e)] + ExprChildNodes(e)
  }

  /** The nodes below `e`, in visit order. */
  function ExprChildNodes(e: Expr): seq<Node>
    decreases e, 0
  {
    match e
    case Name(_, _) => []
    case Attribute(_, v, _) => ExprNodes(v)
    case Subscript(_, v, s) => ExprNodes(v) + ExprNodes(s)
    case Tuple(_, elts) => ExprListNodes(elts)
    case List(_, elts) => ExprListNodes(elts)
    case BinOp(_, l, _, r) => ExprNodes(l) + ExprNodes(r)
    case UnaryOp(_, x) => ExprNodes(x)
    case Call(_, f, args, kws) => ExprNodes(f) + ExprListNodes(args) + KeywordListNodes(kws)
    case Constant(_, _, _) => []
    case Dict(_, ks, vs) => ExprListNodes(ks) + ExprListNodes(vs)
    case Lambda(_, ps, b) => ArgumentsNodes(ps) + ExprNodes(b)
    case Compare(_, l, cs) => ExprNodes(l) + ExprListNodes(cs)
    case BoolOp(_, vs) => ExprListNodes(vs)
    case IfExp(_, t, b, o) => ExprNodes(t) + ExprNodes(b) + ExprNodes(o)
    case OtherExpr(_, _, cs) => ExprListNodes(cs)
  }

  function ExprListNodes(es: seq<Expr>): seq<Node>
    decreases es, 2
  {
    if es == [] then [] else ExprNodes(es[0]) + ExprListNodes(es[1..])
  }

  function OptExprNodes(o: Option<Expr>): seq<Node>
    decreases o, 2
  {
    match o
    case None => []
    case Some(e) => ExprNodes(e)
  }

  function KeywordNodes(k: Keyword): seq<Node>
    decreases k, 2
  {
    ExprNodes(k.value)
  }

  function KeywordListNodes(ks: seq<Keyword>): seq<Node>
    decreases ks, 2
  {
    if ks == [] then [] else KeywordNodes(ks[0]) + KeywordListNodes(ks[1..])
  }

  function ArgNodes(a: Arg): seq<Node>
    decreases a, 2
  {
    OptExprNodes(a.annotation)
  }

  function OptArgNodes(o: Option<Arg>): seq<Node>
    decreases o, 2
  {
    match o
    case None => []
    case Some(a) => ArgNodes(a)
  }

  function ArgListNodes(as_: seq<Arg>): seq<Node>
    decreases as_, 2
  {
    if as_ == [] then [] else ArgNodes(as_[0]) + ArgListNodes(as_[1..])
  }

  function ArgumentsNodes(ps: Arguments): seq<Node>
    decreases ps, 2
  {
    ArgListNodes(ps.posonlyargs) + ArgListNodes(ps.args) + OptArgNodes(ps.vararg) +
    ArgListNodes(ps.kwonlyargs) + ExprListNodes(ps.kwDefaults) + OptArgNodes(ps.kwarg) +
    ExprListNodes(ps.defaults)
  }

  function StmtNodes(s: Stmt): (r: seq<Node>)
    ensures |r| >= 1 && r[0] == StmtNode(s)
    decreases s, 1
  {
    [StmtNode(s)] + StmtChildNodes(s)
  }

  /** The nodes below `s`, in visit order. */
  function StmtChildNodes(s: Stmt): seq<Node>
    decreases s, 0
  {
    match s
    case FunctionDef(_, _, ps, body, decos, ret, _) =>
      ArgumentsNodes(ps) + StmtListNodes(body) + ExprListNodes(decos) + OptExprNodes(ret)
    case ClassDef(_, _, bases, kws, body, decos) =>
      ExprListNodes(bases) + KeywordListNodes(kws) + StmtListNodes(body) + ExprListNodes(decos)
    case AnnAssign(_, t, a, v) => ExprNodes(t) + ExprNodes(a) + OptExprNodes(v)
    case Assign(_, ts, v, _) => ExprListNodes(ts) + ExprNodes(v)
    case Import(_, _) => []
    case ImportFrom(_, _, _) => []
    case OtherStmt(_, _, es, body) => ExprListNodes(es) + StmtListNodes(body)
  }

  function StmtListNodes(ss: seq<Stmt>): seq<Node>
    decreases ss, 2
  {
    if ss == [] then [] else StmtNodes(ss[0]) + StmtListNodes(ss[1..])
  }

  /** Every node a `NodeVisitor` reaches from the module, in the order it reaches them. */
  function PreOrder(m: Module): seq<Node>
  {
    StmtListNodes(m.body)
  }

  // ---------------------------------------------------------------------------------------
  // ast.walk order. Statements only ever sit below statements, so the statements that
  // ast.walk yields, in its order, are the breadth-first order of the statement tree.

  function StmtSize(s: Stmt): nat
  {
    match s
    case FunctionDef(_, _, _, body, _, _, _) => 1 + StmtListSize(body)
    case ClassDef(_, _, _, _, body, _) => 1 + StmtListSize(body)
    case OtherStmt(_, _, _, body) => 1 + StmtListSize(body)
    case _ => 1
  }

  function StmtListSize(ss: seq<Stmt>): nat
  {
    if ss == [] then 0 else StmtSize(ss[0]) + StmtListSize(ss[1..])
  }

  lemma StmtSizeBody(s: Stmt)
    ensures StmtSize(s) == 1 + StmtListSize(Body(s))
  {
  }

  /** The statements directly inside `s` (empty for statements without a body). */
  function Body(s: Stmt): seq<Stmt>
  {
    match s
    case FunctionDef(_, _, _, body, _, _, _) => body
    case ClassDef(_, _, _, _, body, _) => body
    case OtherStmt(_, _, _, body) => body
    case _ => []
  }

  /** The next level of the breadth-first order: the bodies of `level`, in order. */
  function NextLevel(level: seq<Stmt>): seq<Stmt>
  {
    if level == [] then [] else Body(level[0]) + NextLevel(level[1..])
  }

  lemma {:induction false} NextLevelSmaller(level: seq<Stmt>)
    ensures StmtListSize(NextLevel(level)) + |level| == StmtListSize(level)
    decreases |level|
  {
    if level != [] {
      NextLevelSmaller(level[1..]);
      StmtSizeBody(level[0]);
      StmtListSizeAppend(Body(level[0]), NextLevel(level[1..]));
    }
  }

  lemma {:induction false} StmtListSizeAppend(a: seq<Stmt>, b: seq<Stmt>)
    ensures StmtListSize(a + b) == StmtListSize(a) + StmtListSize(b)
    decreases |a|
  {
    if a != [] {
      var ab := a + b;
      assert ab[0] == a[0];
      assert ab[1..] == a[1..] + b;
      StmtListSizeAppend(a[1..], b);
      assert StmtListSize(ab) == StmtSize(ab[0]) + StmtListSize(ab[1..]);
    } else {
      assert a + b == b;
    }
  }

  /** The statements of `level` and of everything below it, level by level. */
  function WalkStmts(level: seq<Stmt>): seq<Stmt>
    decreases StmtListSize(level)
  {
    if level == [] then []
    else
      NextLevelSmaller(level);
      level + WalkStmts(NextLevel(level))
  }

  /** The statements of the module in the order `ast.walk(tree)` yields them. */
  function Walk(m: Module): seq<Stmt>
  {
    WalkStmts(m.body)
  }

  lemma {:induction false} NextLevelFlat(level: seq<Stmt>)
    requires forall i :: 0 <= i < |level| ==> Body(level[i]) == []
    ensures NextLevel(level) == []
    decreases |level|
  {
    if level != [] {
      assert forall i :: 0 <= i < |level[1..]| ==> level[1..][i] == level[i + 1];
      NextLevelFlat(level[1..]);
    }
  }

  /** A module none of whose statements has a body is walked in source order. */
  lemma WalkFlat(m: Module)
    requires forall i :: 0 <= i < |m.body| ==> Body(m.body[i]) == []
    ensures Walk(m) == m.body
  {
    NextLevelFlat(m.body);
    if m.body != [] {
      assert WalkStmts(m.body) == m.body + WalkStmts(NextLevel(m.body));
    }
  }

  /** Every statement lying anywhere in `ss`, at any depth. */
  function StmtsWithin(ss: seq<Stmt>): set<Stmt>
    decreases StmtListSize(ss)
  {
    if ss == [] then {}
    else
      StmtListSizeAppend([ss[0]], ss[1..]);
      assert [ss[0]] + ss[1..] == ss;
      {ss[0]} + StmtsWithin(Body(ss[0])) + StmtsWithin(ss[1..])
  }

  lemma {:induction false} StmtsWithinAppend(a: seq<Stmt>, b: seq<Stmt>)
    ensures StmtsWithin(a + b) == StmtsWithin(a) + StmtsWithin(b)
    decreases |a|
  {
    if a != [] {
      var ab := a + b;
      assert ab[0] == a[0];
      assert ab[1..] == a[1..] + b;
      StmtsWithinAppend(a[1..], b);
      assert StmtsWithin(ab) == {ab[0]} + StmtsWithin(Body(ab[0])) + StmtsWithin(ab[1..]);
    } else {
      assert a + b == b;
    }
  }

  lemma {:induction false} StmtsWithinLevel(level: seq<Stmt>)
    ensures StmtsWithin(level) == (set s | s in level) + StmtsWithin(NextLevel(level))
    decreases |level|
  {
    if level != [] {
      StmtsWithinLevel(level[1..]);
      StmtsWithinAppend(Body(level[0]), NextLevel(level[1..]));
      assert (set s | s in level) == {level[0]} + (set s | s in level[1..]);
    }
  }

  /** `ast.walk` misses no statement and invents none: it yields exactly the statements
      nested anywhere in the module, imports inside functions, classes and blocks included. */
  lemma {:induction false} WalkCoversAll(level: seq<Stmt>, s: Stmt)
    ensures s in WalkStmts(level) <==> s in StmtsWithin(level)
    decreases StmtListSize(level)
  {
    if level != [] {
      NextLevelSmaller(level);
      StmtsWithinLevel(level);
      WalkCoversAll(NextLevel(level), s);
    }
  }
}
