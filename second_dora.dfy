/** second_dora.py: expression classification, qualified-name rendering, the naive inferred
    type, the import alias table, the occurrence list and the filtering and slicing loop of
    `search_file`, and the highlighting of a snippet in its line. */
module SecondDora {
  import opened Wrappers
  import opened Ast
  import opened Seqs
  import opened Text
  import opened Bindings
  import opened Files
  import opened Annotations

  // ---------------------------------------------------------------------------------------
  // get_expr_type

  /** The tag of an expression kind: `<Kind>Expr` for the listed kinds, `<valuetype>Expr`
      for a constant and the node's own class name for any other kind. */
  function GetExprType(e: Expr): string
  {
    match e
    case Call(_, _, _, _) => "CallExpr"
    case Name(_, _) => "NameExpr"
    case Attribute(_, _, _) => "AttributeExpr"
    case Subscript(_, _, _) => "SubscriptExpr"
    case Constant(_, typeName, _) => typeName + "Expr"
    case BinOp(_, _, _, _) => "BinOpExpr"
    case UnaryOp(_, _) => "UnaryOpExpr"
    case List(_, _) => "ListExpr"
    case Tuple(_, _) => "TupleExpr"
    case Dict(_, _, _) => "DictExpr"
    case Lambda(_, _, _) => "LambdaExpr"
    case Compare(_, _, _) => "CompareExpr"
    case BoolOp(_, _) => "BoolOpExpr"
    case IfExp(_, _, _, _) => "IfExpExpr"
    case OtherExpr(_, kind, _) => kind
  }

  // ---------------------------------------------------------------------------------------
  // get_fully_qualified_name (its `aliases` argument is never consulted)

  /** The display name of an annotation: dotted names, `base[slice]`, comma-joined tuples
      and lists, a constant's repr, and "" for every other kind. */
  function Fqn(e: Expr): string
  {
    match e
    case Name(_, id) => id
    case Attribute(_, v, attr) => var value := Fqn(v); if value != "" then value + "." + attr else attr
    case Subscript(_, v, s) => Fqn(v) + "[" + Fqn(s) + "]"
    case Tuple(_, elts) => Join(FqnList(elts), ", ")
    case List(_, elts) => Join(FqnList(elts), ", ")
    case Constant(_, _, repr) => repr
    case _ => ""
  }

  function FqnList(es: seq<Expr>): (r: seq<string>)
    ensures |r| == |es|
  {
    if es == [] then [] else [Fqn(es[0])] + FqnList(es[1..])
  }

  /** The expression Python parses for a dotted name `p0.p1...pn`. */
  function DottedName(pos: Pos, parts: seq<string>): Expr
    requires |parts| >= 1
  {
    if |parts| == 1 then Name(pos, parts[0])
    else Attribute(pos, DottedName(pos, parts[..|parts| - 1]), parts[|parts| - 1])
  }

  /** A dotted name renders as its parts joined by '.', provided its first part is not
      empty. */
  lemma {:induction false} DottedNameRendering(pos: Pos, parts: seq<string>)
    requires |parts| >= 1 && parts[0] != ""
    ensures Fqn(DottedName(pos, parts)) == Join(parts, ".")
    ensures Fqn(DottedName(pos, parts)) != ""
    decreases |parts|
  {
    if |parts| > 1 {
      var init := parts[..|parts| - 1];
      DottedNameRendering(pos, init);
      JoinSnoc(init, parts[|parts| - 1], ".");
      assert init + [parts[|parts| - 1]] == parts;
    }
  }

  /** The rendering of a dotted name loses nothing: splitting it at '.' gives back the
      parts, when no part contains a '.'. */
  lemma DottedNameRoundTrip(pos: Pos, parts: seq<string>)
    requires |parts| >= 1 && parts[0] != ""
    requires forall k :: 0 <= k < |parts| ==> '.' !in parts[k]
    ensures Split(Fqn(DottedName(pos, parts)), '.') == parts
  {
    DottedNameRendering(pos, parts);
    SplitJoin(parts, '.');
  }

  /** Examples: `f().x` renders as `x` (the call renders empty), `List[int]` as `List[int]`
      and `Dict[str, int]` as `Dict[str, int]`. */
  lemma RenderingExamples(p: Pos)
    ensures Fqn(Attribute(p, Call(p, Name(p, "f"), [], []), "x")) == "x"
    ensures Fqn(Subscript(p, Name(p, "List"), Name(p, "int"))) == "List[int]"
    ensures Fqn(Subscript(p, Name(p, "Dict"), Tuple(p, [Name(p, "str"), Name(p, "int")]))) == "Dict[str, int]"
  {
    var elts := [Name(p, "str"), Name(p, "int")];
    assert elts[1..] == [Name(p, "int")];
    assert FqnList(elts[1..]) == ["int"];
    assert FqnList(elts) == ["str", "int"];
    assert Join(["str", "int"], ", ") == "str, int";
  }

  // ---------------------------------------------------------------------------------------
  // infer_type

  /** The naive type of an expression: the callee's name for a call ("Unknown" when it has
      none), the name itself for a Name, the rendering for an Attribute or a Subscript, the
      value's type for a constant, the kind for the operator-like kinds, "Unknown" else. */
  function InferType(e: Expr): string
  {
    match e
    case Call(_, f, _, _) => var name := Fqn(f); if name != "" then name else "Unknown"
    case Name(_, id) => id
    case Attribute(_, _, _) => Fqn(e)
    case Constant(_, typeName, _) => typeName
    case Subscript(_, _, _) => Fqn(e)
    case BinOp(_, _, _, _) => "BinOp"
    case UnaryOp(_, _) => "UnaryOp"
    case List(_, _) => "List"
    case Tuple(_, _) => "Tuple"
    case Dict(_, _, _) => "Dict"
    case Lambda(_, _, _) => "Lambda"
    case Compare(_, _, _) => "Compare"
    case BoolOp(_, _) => "BoolOp"
    case IfExp(_, _, _, _) => "IfExp"
    case OtherExpr(_, _, _) => "Unknown"
  }

  /** The two classifications agree where both go by kind: for constants and the
      operator-like kinds the tag is the inferred type followed by `Expr`. */
  lemma TagIsInferredType(e: Expr)
    ensures (e.Constant? || e.BinOp? || e.UnaryOp? || e.List? || e.Tuple? || e.Dict? || e.Lambda? ||
             e.Compare? || e.BoolOp? || e.IfExp?) ==> GetExprType(e) == InferType(e) + "Expr"
  {
    match e
    case Call(_, _, _, _) =>
    case _ =>
  }

  /** Names, attributes and subscripts infer their own rendering, a call never infers the
      empty string, and every other kind infers `Unknown`. */
  lemma InferredTypeKinds(e: Expr)
    ensures (e.Name? || e.Attribute? || e.Subscript?) ==> InferType(e) == Fqn(e)
    ensures e.Call? ==> InferType(e) != ""
    ensures e.OtherExpr? ==> InferType(e) == "Unknown" && GetExprType(e) == e.kind
  {
  }

  // ---------------------------------------------------------------------------------------
  // extract_imports

  /** What `get_package_info` reports: a package name and a description, either missing. */
  datatype PkgInfo = PkgInfo(name: Option<string>, description: Option<string>)

  /** The import environment, as data: the top-level modules `__import__` can load, each
      with its `__file__` when it has one, what `get_package_info` answers (missing
      entries answer nothing), and the working directory `os.path.abspath` resolves
      relative paths against. */
  datatype Environment = Environment(modules: map<string, Option<string>>, packages: map<string, PkgInfo>, cwd: Path)

  function PackageInfo(env: Environment, name: string): PkgInfo
  {
    if name in env.packages then env.packages[name] else PkgInfo(None, None)
  }

  /** `(qualified name, source, package info)`. */
  datatype AliasEntry = AliasEntry(qualifiedName: string, source: string, pkg: PkgInfo)

  /** `import name [as asname]`. */
  function ImportBinding(env: Environment, a: Alias): (string, AliasEntry)
  {
    var head := Split(a.name, '.')[0];
    if head in env.modules then (a.Bound(), AliasEntry(a.name, env.modules[head].GetOr(a.name), PackageInfo(env, a.name)))
    else (a.Bound(), AliasEntry(a.name, a.name, PkgInfo(None, None)))
  }

  /** `from module import name [as asname]`; without a module (`from . import x`) the source
      is the file's directory made absolute and the package is described as a local module. */
  function FromBinding(env: Environment, filePath: Path, fromModule: Option<string>, a: Alias): (string, AliasEntry)
  {
    match fromModule
    case None => (a.Bound(), AliasEntry(a.name, AbsPath(env.cwd, Dirname(filePath)), PkgInfo(None, Some("Local module"))))
    case Some(mod) =>
      var full := mod + "." + a.name;
      var head := Split(mod, '.')[0];
      if head in env.modules then (a.Bound(), AliasEntry(full, env.modules[head].GetOr(mod), PackageInfo(env, mod)))
      else (a.Bound(), AliasEntry(full, mod, PkgInfo(None, None)))
  }

  /** The assignment an import statement makes for one of its names. */
  function AliasBinding(env: Environment, filePath: Path, s: Stmt, a: Alias): (string, AliasEntry)
    requires s.Import? || s.ImportFrom?
  {
    if s.Import? then ImportBinding(env, a) else FromBinding(env, filePath, s.fromModule, a)
  }

  /** The assignments an import statement makes for `names`, in order. */
  function AliasBindings(env: Environment, filePath: Path, s: Stmt, names: seq<Alias>): (r: seq<(string, AliasEntry)>)
    requires s.Import? || s.ImportFrom?
    ensures |r| == |names|
  {
    if names == [] then []
    else AliasBindings(env, filePath, s, names[..|names| - 1]) + [AliasBinding(env, filePath, s, names[|names| - 1])]
  }

  /** The assignments one top-level statement makes to the table; only import statements
      make any. */
  function StmtBindings(env: Environment, filePath: Path, s: Stmt): seq<(string, AliasEntry)>
  {
    if s.Import? || s.ImportFrom? then AliasBindings(env, filePath, s, s.names) else []
  }

  /** The assignments of the statements of `body`, in order. */
  function Assignments(env: Environment, filePath: Path, body: seq<Stmt>): seq<(string, AliasEntry)>
  {
    if body == [] then []
    else Assignments(env, filePath, body[..|body| - 1]) + StmtBindings(env, filePath, body[|body| - 1])
  }

  /** The alias table: the assignments of the module's own statements, in order. */
  function AliasTable(env: Environment, filePath: Path, m: Module): map<string, AliasEntry>
  {
    Bind(map[], Assignments(env, filePath, m.body))
  }

  method ExtractImports(env: Environment, filePath: Path, m: Module) returns (aliases: map<string, AliasEntry>)
    ensures aliases == AliasTable(env, filePath, m)
  {
    aliases := map[];
    var body := m.body;
    var i := 0;
    while i < |body|
      invariant 0 <= i <= |body|
      invariant aliases == Bind(map[], Assignments(env, filePath, body[..i]))
    {
      AssignmentsStep(env, filePath, body, i);
      BindAppend(map[], Assignments(env, filePath, body[..i]), StmtBindings(env, filePath, body[i]));
      var child := body[i];
      if child.Import? || child.ImportFrom? {
        aliases := BindAliases(env, filePath, child, aliases);
      }
      i := i + 1;
    }
    assert body[..i] == body;
  }

  /** The inner loop of the import scan: one assignment per alias of an import statement. */
  method BindAliases(env: Environment, filePath: Path, s: Stmt, table: map<string, AliasEntry>)
    returns (aliases: map<string, AliasEntry>)
    requires s.Import? || s.ImportFrom?
    ensures aliases == Bind(table, StmtBindings(env, filePath, s))
  {
    aliases := table;
    var names := s.names;
    var j := 0;
    while j < |names|
      invariant 0 <= j <= |names|
      invariant aliases == Bind(table, AliasBindings(env, filePath, s, names[..j]))
    {
      var b := AliasBinding(env, filePath, s, names[j]);
      AliasBindingsStep(env, filePath, s, names, j);
      BindSnoc(table, AliasBindings(env, filePath, s, names[..j]), b);
      aliases := aliases[b.0 := b.1];
      j := j + 1;
    }
    assert names[..j] == names;
  }

  /** One more alias appends that alias's assignment. */
  lemma AliasBindingsStep(env: Environment, filePath: Path, s: Stmt, names: seq<Alias>, j: nat)
    requires s.Import? || s.ImportFrom?
    requires j < |names|
    ensures AliasBindings(env, filePath, s, names[..j + 1]) ==
              AliasBindings(env, filePath, s, names[..j]) + [AliasBinding(env, filePath, s, names[j])]
  {
    assert names[..j + 1][..j] == names[..j];
  }

  /** One more statement of the scan appends that statement's assignments. */
  lemma AssignmentsStep(env: Environment, filePath: Path, body: seq<Stmt>, i: nat)
    requires i < |body|
    ensures Assignments(env, filePath, body[..i + 1]) ==
              Assignments(env, filePath, body[..i]) + StmtBindings(env, filePath, body[i])
  {
    assert body[..i + 1][..i] == body[..i];
  }

  /** Some assignment of `bs` is to `k`. */
  predicate Assigns(bs: seq<(string, AliasEntry)>, k: string)
  {
    exists n :: 0 <= n < |bs| && bs[n].0 == k
  }

  /** Some import statement among `body` binds `k`. */
  predicate ImportsName(body: seq<Stmt>, k: string)
  {
    exists i, j :: 0 <= i < |body| && (body[i].Import? || body[i].ImportFrom?) &&
                   0 <= j < |body[i].names| && body[i].names[j].Bound() == k
  }

  lemma {:induction false} AliasBindingsAssign(env: Environment, filePath: Path, s: Stmt, names: seq<Alias>, k: string)
    requires s.Import? || s.ImportFrom?
    ensures Assigns(AliasBindings(env, filePath, s, names), k) <==>
              exists j :: 0 <= j < |names| && names[j].Bound() == k
    decreases |names|
  {
    if names != [] {
      var init := names[..|names| - 1];
      AliasBindingsAssign(env, filePath, s, init, k);
      var bs := AliasBindings(env, filePath, s, names);
      var bs' := AliasBindings(env, filePath, s, init);
      assert bs == bs' + [AliasBinding(env, filePath, s, names[|names| - 1])];
      assert forall n :: 0 <= n < |init| ==> bs[n] == bs'[n];
      assert forall j :: 0 <= j < |init| ==> init[j] == names[j];
      assert bs[|names| - 1].0 == names[|names| - 1].Bound();
      if Assigns(bs, k) {
        var n :| 0 <= n < |bs| && bs[n].0 == k;
        if n < |init| { assert bs'[n].0 == k; }
      }
      if exists j :: 0 <= j < |names| && names[j].Bound() == k {
        var j :| 0 <= j < |names| && names[j].Bound() == k;
        if j < |init| { assert init[j].Bound() == k; var n :| 0 <= n < |bs'| && bs'[n].0 == k; assert bs[n].0 == k; }
      }
    }
  }

  lemma AssignsAppend(a: seq<(string, AliasEntry)>, b: seq<(string, AliasEntry)>, k: string)
    ensures Assigns(a + b, k) <==> Assigns(a, k) || Assigns(b, k)
  {
    if Assigns(a + b, k) {
      var n :| 0 <= n < |a + b| && (a + b)[n].0 == k;
      if n >= |a| { assert b[n - |a|].0 == k; }
    }
    if Assigns(b, k) {
      var n :| 0 <= n < |b| && b[n].0 == k;
      assert (a + b)[|a| + n].0 == k;
    }
    if Assigns(a, k) {
      var n :| 0 <= n < |a| && a[n].0 == k;
      assert (a + b)[n].0 == k;
    }
  }

  lemma ImportsNameSnoc(body: seq<Stmt>, k: string)
    requires body != []
    ensures var init, last := body[..|body| - 1], body[|body| - 1];
            ImportsName(body, k) <==>
              (ImportsName(init, k) ||
               ((last.Import? || last.ImportFrom?) && exists j :: 0 <= j < |last.names| && last.names[j].Bound() == k))
  {
    var init := body[..|body| - 1];
    assert forall i :: 0 <= i < |init| ==> init[i] == body[i];
    if ImportsName(body, k) {
      var i, j :| 0 <= i < |body| && (body[i].Import? || body[i].ImportFrom?) &&
                  0 <= j < |body[i].names| && body[i].names[j].Bound() == k;
      if i < |init| { assert init[i] == body[i]; }
    }
  }

  lemma {:induction false} AssignmentsAssign(env: Environment, filePath: Path, body: seq<Stmt>, k: string)
    ensures Assigns(Assignments(env, filePath, body), k) <==> ImportsName(body, k)
    decreases |body|
  {
    if body != [] {
      var init := body[..|body| - 1];
      var last := body[|body| - 1];
      AssignmentsAssign(env, filePath, init, k);
      AssignsAppend(Assignments(env, filePath, init), StmtBindings(env, filePath, last), k);
      if last.Import? || last.ImportFrom? {
        AliasBindingsAssign(env, filePath, last, last.names, k);
      }
      ImportsNameSnoc(body, k);
    }
  }

  /** A name is in the table exactly when some top-level import binds it: imports nested in
      functions, classes or blocks play no part. */
  lemma AliasTableKeys(env: Environment, filePath: Path, m: Module, k: string)
    ensures k in AliasTable(env, filePath, m) <==> ImportsName(m.body, k)
  {
    BindKeys(map[], Assignments(env, filePath, m.body), k);
    AssignmentsAssign(env, filePath, m.body, k);
  }

  /** A statement added at the end of the module overrides earlier bindings of the names it
      imports; a statement that is not an import leaves the table as it was, whatever
      imports it contains inside it. */
  lemma AppendedStatement(env: Environment, filePath: Path, body: seq<Stmt>, s: Stmt)
    ensures AliasTable(env, filePath, Module(body + [s])) ==
              Bind(AliasTable(env, filePath, Module(body)), StmtBindings(env, filePath, s))
    ensures !(s.Import? || s.ImportFrom?) ==>
              AliasTable(env, filePath, Module(body + [s])) == AliasTable(env, filePath, Module(body))
  {
    assert (body + [s])[..|body|] == body;
    BindAppend(map[], Assignments(env, filePath, body), StmtBindings(env, filePath, s));
  }

  /** `from mod import name [as alias]` assigns `alias` (else `name`) the qualified name
      `mod.name`, whether or not the module is known. */
  lemma FromBindingQualified(env: Environment, filePath: Path, mod: string, a: Alias)
    ensures var b := FromBinding(env, filePath, Some(mod), a);
            b.0 == a.Bound() && b.1.qualifiedName == mod + "." + a.name
  {
    var head := Split(mod, '.')[0];
    if head in env.modules {
      assert FromBinding(env, filePath, Some(mod), a).1.qualifiedName == mod + "." + a.name;
    }
  }

  /** An import statement of one name as the last statement: the table is the table of
      the statements before it with that one assignment made. */
  lemma LastSingleImport(env: Environment, filePath: Path, body: seq<Stmt>, s: Stmt)
    requires (s.Import? || s.ImportFrom?) && |s.names| == 1
    ensures var b := AliasBinding(env, filePath, s, s.names[0]);
            AliasTable(env, filePath, Module(body + [s])) == AliasTable(env, filePath, Module(body))[b.0 := b.1]
  {
    AppendedStatement(env, filePath, body, s);
    var b := AliasBinding(env, filePath, s, s.names[0]);
    assert s.names[..0] == [];
    assert StmtBindings(env, filePath, s) == [] + [b];
    BindSnoc(AliasTable(env, filePath, Module(body)), [], b);
  }

  /** `from mod import name [as alias]` as the last statement binds `alias` (else `name`)
      to `mod.name`. */
  lemma LastFromImportBinds(env: Environment, filePath: Path, body: seq<Stmt>, pos: Pos, mod: string,
                            name: string, asname: Option<string>)
    ensures var t := AliasTable(env, filePath, Module(body + [ImportFrom(pos, Some(mod), [Alias(name, asname)])]));
            asname.GetOr(name) in t && t[asname.GetOr(name)].qualifiedName == mod + "." + name
  {
    var a := Alias(name, asname);
    LastSingleImport(env, filePath, body, ImportFrom(pos, Some(mod), [a]));
    FromBindingQualified(env, filePath, mod, a);
  }

  /** `from . import name [as alias]` as the last statement binds `alias` (else `name`) to
      `name`, with the file's directory as source: absolute whenever the working directory
      is, and the working directory itself for a file named without a directory. */
  lemma LastLocalImportBinds(env: Environment, filePath: Path, body: seq<Stmt>, pos: Pos,
                             name: string, asname: Option<string>)
    ensures var t := AliasTable(env, filePath, Module(body + [ImportFrom(pos, None, [Alias(name, asname)])]));
            var k := asname.GetOr(name);
            k in t && t[k].qualifiedName == name && t[k].pkg == PkgInfo(None, Some("Local module")) &&
            (StartsWith(env.cwd, "/") ==> StartsWith(t[k].source, "/")) &&
            ('/' !in filePath ==> t[k].source == env.cwd)
  {
    LastSingleImport(env, filePath, body, ImportFrom(pos, None, [Alias(name, asname)]));
  }

  /** `import a.b [as alias]` as the last statement binds `alias` (else `a.b`) to the dotted
      name. */
  lemma LastImportBinds(env: Environment, filePath: Path, body: seq<Stmt>, pos: Pos, name: string,
                        asname: Option<string>)
    ensures var t := AliasTable(env, filePath, Module(body + [Import(pos, [Alias(name, asname)])]));
            asname.GetOr(name) in t && t[asname.GetOr(name)].qualifiedName == name
  {
    LastSingleImport(env, filePath, body, Import(pos, [Alias(name, asname)]));
  }


  // ---------------------------------------------------------------------------------------
  // extract_expressions and extract_annotations_and_exprs

  /** The kinds the expression visitor records. */
  predicate Recorded(e: Expr)
  {
    e.Call? || e.Name? || e.Attribute? || e.Subscript? || e.Constant?
  }

  function ExprRecord(n: Node): seq<Expr>
  {
    match n
    case ExprNode(e) => if Recorded(e) then [e] else []
    case StmtNode(_) => []
  }

  /** The recorded expressions at every depth, in NodeVisitor order. */
  function Expressions(m: Module): seq<Expr>
  {
    FlatMap(ExprRecord, PreOrder(m))
  }

  /** An expression is in the list exactly when it is one of the five kinds and occurs in
      the tree. */
  lemma ExpressionsExact(m: Module, e: Expr)
    ensures e in Expressions(m) <==> Recorded(e) && ExprNode(e) in PreOrder(m)
  {
    FlatMapMember(ExprRecord, PreOrder(m), e);
    if Recorded(e) && ExprNode(e) in PreOrder(m) {
      var i :| 0 <= i < |PreOrder(m)| && PreOrder(m)[i] == ExprNode(e);
      assert e in ExprRecord(PreOrder(m)[i]);
    }
  }

  class ExprVisitor {
    var exprs: seq<Expr>

    constructor ()
      ensures exprs == []
    {
      exprs := [];
    }

    method Visit(n: Node)
      modifies this
      ensures exprs == old(exprs) + ExprRecord(n)
    {
      if n.ExprNode? && Recorded(n.expr) {
        exprs := exprs + [n.expr];
      }
    }

    method VisitTree(m: Module)
      modifies this
      ensures exprs == old(exprs) + Expressions(m)
    {
      var nodes := PreOrder(m);
      ghost var start := exprs;
      var i := 0;
      while i < |nodes|
        invariant 0 <= i <= |nodes|
        invariant exprs == start + FlatMap(ExprRecord, nodes[..i])
      {
        assert nodes[..i + 1][..i] == nodes[..i];
        Visit(nodes[i]);
        i := i + 1;
      }
      assert nodes[..i] == nodes;
    }
  }

  method ExtractExpressions(m: Module) returns (r: seq<Expr>)
    ensures r == Expressions(m)
  {
    var v := new ExprVisitor();
    v.VisitTree(m);
    r := v.exprs;
  }

  /** A node with its type string. */
  datatype Entry = Entry(node: Expr, typeStr: string)

  function AnnotationEntry(st: Site): Entry
  {
    Entry(st.node, Fqn(st.node))
  }

  function ExprEntry(e: Expr): Entry
  {
    Entry(e, InferType(e))
  }

  /** Every annotation entry in visit order, then every recorded expression in pre-order. */
  function AllEntries(m: Module): seq<Entry>
  {
    Map(AnnotationEntry, StmtListSites(m.body)) + Map(ExprEntry, Expressions(m))
  }

  lemma ParamEntriesStep(ps: seq<Arg>, i: nat)
    requires i < |ps|
    ensures ps[i].annotation.Some? ==>
              Map(AnnotationEntry, ParamSites(ps[..i + 1])) ==
              Map(AnnotationEntry, ParamSites(ps[..i])) + [Entry(ps[i].annotation.value, Fqn(ps[i].annotation.value))]
    ensures ps[i].annotation.None? ==> ParamSites(ps[..i + 1]) == ParamSites(ps[..i])
  {
    assert ps[..i + 1][..i] == ps[..i];
    if ps[i].annotation.Some? {
      MapSnoc(AnnotationEntry, ParamSites(ps[..i]), SiteOf(ps[i].annotation.value));
    } else {
      assert ParamSites(ps[..i + 1]) == ParamSites(ps[..i]);
    }
  }

  lemma FunctionDefEntries(s: Stmt)
    requires s.FunctionDef?
    ensures s.returnAnnotation.Some? ==>
              Map(AnnotationEntry, OwnSites(s)) ==
              Map(AnnotationEntry, ParamSites(s.params.args + s.params.kwonlyargs)) +
              [Entry(s.returnAnnotation.value, Fqn(s.returnAnnotation.value))]
    ensures s.returnAnnotation.None? ==> OwnSites(s) == ParamSites(s.params.args + s.params.kwonlyargs)
  {
    var ps := ParamSites(s.params.args + s.params.kwonlyargs);
    if s.returnAnnotation.Some? {
      MapSnoc(AnnotationEntry, ps, SiteOf(s.returnAnnotation.value));
    } else {
      assert OwnSites(s) == ps;
    }
  }

  lemma CommentEntriesStep(ts: seq<Expr>, comment: Option<Expr>, pos: Pos, i: nat)
    requires i < |ts|
    ensures ts[i].Name? && comment.Some? ==>
              Map(AnnotationEntry, TypeCommentSites(ts[..i + 1], comment, pos)) ==
              Map(AnnotationEntry, TypeCommentSites(ts[..i], comment, pos)) + [Entry(comment.value, Fqn(comment.value))]
    ensures !(ts[i].Name? && comment.Some?) ==>
              TypeCommentSites(ts[..i + 1], comment, pos) == TypeCommentSites(ts[..i], comment, pos)
  {
    assert ts[..i + 1][..i] == ts[..i];
    var done := TypeCommentSites(ts[..i], comment, pos);
    if ts[i].Name? && comment.Some? {
      MapSnoc(AnnotationEntry, done, Site(comment.value, pos.line, pos.col));
    } else {
      assert TypeCommentSites(ts[..i + 1], comment, pos) == done;
    }
  }

  lemma BaseEntriesStep(bases: seq<Expr>, i: nat)
    requires i < |bases|
    ensures Map(AnnotationEntry, ExprSites(bases[..i + 1])) ==
              Map(AnnotationEntry, ExprSites(bases[..i])) + [Entry(bases[i], Fqn(bases[i]))]
  {
    assert bases[..i + 1][..i] == bases[..i];
    MapSnoc(AnnotationEntry, ExprSites(bases[..i]), SiteOf(bases[i]));
  }

  /** The entries the visitor records at `nodes`, in order. */
  function NodeEntries(nodes: seq<Node>): seq<Entry>
  {
    Map(AnnotationEntry, FlatMap(SitesAt, nodes))
  }

  lemma NodeEntriesStep(nodes: seq<Node>, i: nat)
    requires i < |nodes|
    ensures NodeEntries(nodes[..i + 1]) == NodeEntries(nodes[..i]) + Map(AnnotationEntry, SitesAt(nodes[i]))
  {
    MapFlatMapPrefixStep(AnnotationEntry, SitesAt, nodes, i);
  }

  /** The visitor of `extract_annotations_and_exprs`, with the list it appends to. It visits
      the same annotation positions as poogle.py's visitor and records each with its
      rendering. */
  class AnnotationExprVisitor {
    var results: seq<Entry>

    constructor ()
      ensures results == []
    {
      results := [];
    }

    method VisitFunctionDef(s: Stmt)
      requires s.FunctionDef?
      modifies this
      ensures results == old(results) + Map(AnnotationEntry, OwnSites(s))
    {
      var ps := s.params.args + s.params.kwonlyargs;
      ghost var start := results;
      var i := 0;
      while i < |ps|
        invariant 0 <= i <= |ps|
        invariant results == start + Map(AnnotationEntry, ParamSites(ps[..i]))
      {
        ParamEntriesStep(ps, i);
        if ps[i].annotation.Some? {
          var ann := ps[i].annotation.value;
          results := results + [Entry(ann, Fqn(ann))];
        }
        i := i + 1;
      }
      assert ps[..i] == ps;
      FunctionDefEntries(s);
      if s.returnAnnotation.Some? {
        var ret := s.returnAnnotation.value;
        results := results + [Entry(ret, Fqn(ret))];
      }
    }

    method VisitAnnAssign(s: Stmt)
      requires s.AnnAssign?
      modifies this
      ensures results == old(results) + Map(AnnotationEntry, OwnSites(s))
    {
      results := results + [Entry(s.annotation, Fqn(s.annotation))];
    }

    /** The recorded node is the parsed comment itself, with the comment's own position. */
    method VisitAssign(s: Stmt)
      requires s.Assign?
      modifies this
      ensures results == old(results) + Map(AnnotationEntry, OwnSites(s))
    {
      var ts := s.targets;
      ghost var start := results;
      var i := 0;
      while i < |ts|
        invariant 0 <= i <= |ts|
        invariant results == start + Map(AnnotationEntry, TypeCommentSites(ts[..i], s.typeComment, s.pos))
      {
        CommentEntriesStep(ts, s.typeComment, s.pos, i);
        if ts[i].Name? && s.typeComment.Some? {
          var comment := s.typeComment.value;
          results := results + [Entry(comment, Fqn(comment))];
        }
        i := i + 1;
      }
      assert ts[..i] == ts;
    }

    method VisitClassDef(s: Stmt)
      requires s.ClassDef?
      modifies this
      ensures results == old(results) + Map(AnnotationEntry, OwnSites(s))
    {
      var bases := s.bases;
      ghost var start := results;
      var i := 0;
      while i < |bases|
        invariant 0 <= i <= |bases|
        invariant results == start + Map(AnnotationEntry, ExprSites(bases[..i]))
      {
        BaseEntriesStep(bases, i);
        results := results + [Entry(bases[i], Fqn(bases[i]))];
        i := i + 1;
      }
      assert bases[..i] == bases;
    }

    method Visit(n: Node)
      modifies this
      ensures results == old(results) + Map(AnnotationEntry, SitesAt(n))
    {
      match n {
        case ExprNode(_) =>
        case StmtNode(s) =>
          match s {
            case FunctionDef(_, _, _, _, _, _, _) => VisitFunctionDef(s);
            case AnnAssign(_, _, _, _) => VisitAnnAssign(s);
            case Assign(_, _, _, _) => VisitAssign(s);
            case ClassDef(_, _, _, _, _, _) => VisitClassDef(s);
            case Import(_, _) =>
            case ImportFrom(_, _, _) =>
            case OtherStmt(_, _, _, _) =>
          }
      }
    }

    /** Visits the given nodes in order, as the generic traversal reaches them. */
    method VisitNodes(nodes: seq<Node>)
      modifies this
      ensures results == old(results) + NodeEntries(nodes)
    {
      ghost var start := results;
      var i := 0;
      while i < |nodes|
        invariant 0 <= i <= |nodes|
        invariant results == start + NodeEntries(nodes[..i])
      {
        NodeEntriesStep(nodes, i);
        Visit(nodes[i]);
        i := i + 1;
      }
      assert nodes[..i] == nodes;
    }

    method VisitTree(m: Module)
      modifies this
      ensures results == old(results) + Map(AnnotationEntry, StmtListSites(m.body))
    {
      VisitNodes(PreOrder(m));
      VisitorRecordsStructure(m);
    }
  }

  method ExtractAnnotationsAndExprs(m: Module) returns (results: seq<Entry>)
    ensures results == AllEntries(m)
  {
    var v := new AnnotationExprVisitor();
    v.VisitTree(m);
    var annotations := v.results;
    assert annotations == Map(AnnotationEntry, StmtListSites(m.body));
    var exprs := ExtractExpressions(m);
    results := AppendExprEntries(annotations, exprs);
  }

  /** The second loop of `extract_annotations_and_exprs`: each expression, in order, with
      its inferred type. */
  method AppendExprEntries(start: seq<Entry>, exprs: seq<Expr>) returns (results: seq<Entry>)
    ensures results == start + Map(ExprEntry, exprs)
  {
    results := start;
    var i := 0;
    while i < |exprs|
      invariant 0 <= i <= |exprs|
      invariant results == start + Map(ExprEntry, exprs[..i])
    {
      MapPrefixStep(ExprEntry, exprs, i);
      results := results + [Entry(exprs[i], InferType(exprs[i]))];
      i := i + 1;
    }
    assert exprs[..i] == exprs;
  }

  /** Annotation entries all come before expression entries, and each list keeps its own
      order. */
  lemma EntriesOrder(m: Module)
    ensures |AllEntries(m)| == |StmtListSites(m.body)| + |Expressions(m)|
    ensures forall k :: 0 <= k < |StmtListSites(m.body)| ==>
              AllEntries(m)[k] == Entry(StmtListSites(m.body)[k].node, Fqn(StmtListSites(m.body)[k].node))
    ensures forall k :: 0 <= k < |Expressions(m)| ==>
              AllEntries(m)[|StmtListSites(m.body)| + k] == Entry(Expressions(m)[k], InferType(Expressions(m)[k]))
  {    var sites, exprs := StmtListSites(m.body), Expressions(m);
    var annotations, typed := Map(AnnotationEntry, sites), Map(ExprEntry, exprs);
    assert AllEntries(m) == annotations + typed;
    forall k | 0 <= k < |sites|
      ensures AllEntries(m)[k] == Entry(sites[k].node, Fqn(sites[k].node))
    {
      MapAt(AnnotationEntry, sites, k);
      assert (annotations + typed)[k] == annotations[k];
    }
    forall k | 0 <= k < |exprs|
      ensures AllEntries(m)[|sites| + k] == Entry(exprs[k], InferType(exprs[k]))
    {
      MapAt(ExprEntry, exprs, k);
      assert (annotations + typed)[|sites| + k] == typed[k];
    }
  }

  // ---------------------------------------------------------------------------------------
  // search_file

  /** One reported occurrence. */
  datatype Occurrence = Occurrence(
    line: LineNo, col: nat, typeStr: string, exprType: string, sourceLine: string, exprStr: string,
    importSource: Option<string>, pkgInfo: Option<PkgInfo>)

  /** No target (or an empty one) keeps every entry; otherwise the type string must equal
      the target exactly. */
  predicate Keep(target: Option<string>, en: Entry)
  {
    target.None? || target.value == "" || en.typeStr == target.value
  }

  /** The end column, `col + 1` when the parser did not record one. */
  function EndCol(p: Pos): nat
  {
    p.endCol.GetOr(p.col + 1)
  }

  /** The source line of an entry, "" past the end of the file. */
  function SourceLine(lines: seq<string>, p: Pos): string
  {
    if p.line - 1 < |lines| then lines[p.line - 1] else ""
  }

  /** The snippet: the columns from `col` to the end column, or to the end of the line when
      the end column is not after `col`; "" past the end of the file. */
  function Snippet(lines: seq<string>, p: Pos): string
  {
    if p.line - 1 < |lines| then
      var line := lines[p.line - 1];
      if EndCol(p) > p.col then Slice(line, p.col, EndCol(p)) else SliceFrom(line, p.col)
    else ""
  }

  /** The import source shown for a name: the file name of a `.py` source, else the source. */
  function ImportSource(source: string): string
  {
    if EndsWith(source, ".py") then Basename(source) else source
  }

  function Render(lines: seq<string>, aliases: map<string, AliasEntry>, en: Entry): Occurrence
  {
    var n := en.node;
    var imported := n.Name? && n.id in aliases;
    Occurrence(n.pos.line, n.pos.col, en.typeStr, GetExprType(n), SourceLine(lines, n.pos), Snippet(lines, n.pos),
               if imported then Some(ImportSource(aliases[n.id].source)) else None,
               if imported then Some(aliases[n.id].pkg) else None)
  }

  /** What `search_file` returns for a file: nothing when it does not parse, else the kept
      entries, in order, each rendered. */
  function Occurrences(env: Environment, filePath: Path, file: SourceFile, target: Option<string>): seq<Occurrence>
  {
    match file
    case Unparseable => []
    case Parsed(lines, tree) =>
      Kept(target, lines, AliasTable(env, filePath, tree), AllEntries(tree))
  }

  /** The entries of `es` that pass the filter, in order, each rendered. */
  function Kept(target: Option<string>, lines: seq<string>, aliases: map<string, AliasEntry>, es: seq<Entry>): seq<Occurrence>
  {
    FilterMap((en: Entry) => Keep(target, en), (en: Entry) => Render(lines, aliases, en), es)
  }

  /** Every reported occurrence is the rendering of an entry that passed the filter. */
  lemma KeptSound(target: Option<string>, lines: seq<string>, aliases: map<string, AliasEntry>, es: seq<Entry>, k: nat)
    requires k < |Kept(target, lines, aliases, es)|
    ensures exists j :: 0 <= j < |es| && Keep(target, es[j]) && Kept(target, lines, aliases, es)[k] == Render(lines, aliases, es[j])
  {
    FilterMapSound((en: Entry) => Keep(target, en), (en: Entry) => Render(lines, aliases, en), es, k);
  }

  /** The step of the reporting loop: one more entry adds its rendering exactly when it
      passes the filter. */
  lemma KeptStep(target: Option<string>, lines: seq<string>, aliases: map<string, AliasEntry>, es: seq<Entry>, i: nat)
    requires i < |es|
    ensures Keep(target, es[i]) ==>
              Kept(target, lines, aliases, es[..i + 1]) == Kept(target, lines, aliases, es[..i]) + [Render(lines, aliases, es[i])]
    ensures !Keep(target, es[i]) ==>
              Kept(target, lines, aliases, es[..i + 1]) == Kept(target, lines, aliases, es[..i])
  {
    assert es[..i + 1][..i] == es[..i];
  }

  /** The body of the loop of `search_file` for one entry that passes the filter: the import
      source of an imported name, the source line and the snippet. */
  method Describe(lines: seq<string>, aliases: map<string, AliasEntry>, en: Entry) returns (o: Occurrence)
    ensures o == Render(lines, aliases, en)
  {
    var node := en.node;
    var importSource: Option<string> := None;
    var pkgInfo: Option<PkgInfo> := None;
    if node.Name? && node.id in aliases {
      var source := aliases[node.id].source;
      importSource := Some(if EndsWith(source, ".py") then Basename(source) else source);
      pkgInfo := Some(aliases[node.id].pkg);
    }
    var lineNo := node.pos.line;
    var col := node.pos.col;
    var endCol := node.pos.endCol.GetOr(col + 1);
    var exprType := GetExprType(node);
    var sourceLine, exprStr;
    if lineNo - 1 < |lines| {
      sourceLine := lines[lineNo - 1];
      exprStr := if endCol > col then Slice(sourceLine, col, endCol) else SliceFrom(sourceLine, col);
    } else {
      sourceLine := "";
      exprStr := "";
    }
    o := Occurrence(lineNo, col, en.typeStr, exprType, sourceLine, exprStr, importSource, pkgInfo);
  }

  method SearchFile(env: Environment, filePath: Path, file: SourceFile, target: Option<string>)
    returns (matches: seq<Occurrence>)
    ensures matches == Occurrences(env, filePath, file, target)
  {
    matches := [];
    if file.Unparseable? {
      return;
    }
    var aliases := ExtractImports(env, filePath, file.tree);
    var entries := ExtractAnnotationsAndExprs(file.tree);
    var lines := file.lines;
    var i := 0;
    while i < |entries|
      invariant 0 <= i <= |entries|
      invariant matches == Kept(target, lines, aliases, entries[..i])
    {
      KeptStep(target, lines, aliases, entries, i);
      if !(target.Some? && target.value != "" && entries[i].typeStr != target.value) {
        var o := Describe(lines, aliases, entries[i]);
        matches := matches + [o];
      }
      i := i + 1;
    }
    assert entries[..i] == entries;
  }


  /** With a target, `search_file` reports exactly the entries whose type string is the
      target, in order, and every report carries that type string. */
  lemma OccurrencesFiltered(env: Environment, filePath: Path, lines: seq<string>, tree: Module, target: string)
    requires target != ""
    ensures var es := AllEntries(tree);
            var os := Occurrences(env, filePath, Parsed(lines, tree), Some(target));
            var ix := KeptIndices((en: Entry) => Keep(Some(target), en), es);
            |ix| == |os| &&
            (forall k :: 0 <= k < |os| ==> ix[k] < |es| && es[ix[k]].typeStr == target &&
                                           os[k].typeStr == target && os[k].line == es[ix[k]].node.pos.line) &&
            (forall k, l :: 0 <= k < l < |os| ==> ix[k] < ix[l]) &&
            (forall j :: 0 <= j < |es| ==> (j in ix <==> es[j].typeStr == target))
  {
    var aliases := AliasTable(env, filePath, tree);
    FilterMapIsSubsequence((en: Entry) => Keep(Some(target), en), (en: Entry) => Render(lines, aliases, en),
                           AllEntries(tree));
  }

  /** Without a target every entry is reported, in order. */
  lemma NoTargetKeepsAll(env: Environment, filePath: Path, lines: seq<string>, tree: Module, target: Option<string>)
    requires target.None? || target.value == ""
    ensures var es := AllEntries(tree);
            var os := Occurrences(env, filePath, Parsed(lines, tree), target);
            |os| == |es| &&
            forall k :: 0 <= k < |es| ==> os[k] == Render(lines, AliasTable(env, filePath, tree), es[k])
  {
    var aliases := AliasTable(env, filePath, tree);
    FilterMapAllKept((en: Entry) => Keep(target, en), (en: Entry) => Render(lines, aliases, en), AllEntries(tree));
  }

  /** The snippet is the piece of the source line that starts at the column, at most as wide
      as the node's columns, and both are empty past the end of the file. */
  lemma SnippetShape(lines: seq<string>, p: Pos)
    ensures var line := SourceLine(lines, p);
            var snip := Snippet(lines, p);
            (p.line - 1 >= |lines| ==> line == "" && snip == "") &&
            (p.col <= |line| ==> p.col + |snip| <= |line| && line[p.col..p.col + |snip|] == snip) &&
            (p.col > |line| ==> snip == "") &&
            (EndCol(p) > p.col ==> |snip| <= EndCol(p) - p.col) &&
            (EndCol(p) > p.col && EndCol(p) <= |line| ==> snip == line[p.col..EndCol(p)]) &&
            (EndCol(p) <= p.col && p.col <= |line| ==> snip == line[p.col..])
  {
  }

  /** A name imported by the file reports the source of its import (a `.py` source by its
      file name), and nothing else reports one. */
  lemma ImportSourceShape(lines: seq<string>, aliases: map<string, AliasEntry>, en: Entry)
    ensures var o := Render(lines, aliases, en);
            (o.importSource.Some? <==> en.node.Name? && en.node.id in aliases) &&
            (o.pkgInfo.Some? <==> o.importSource.Some?) &&
            (o.importSource.Some? && EndsWith(aliases[en.node.id].source, ".py") ==>
               '/' !in o.importSource.value && EndsWith(aliases[en.node.id].source, o.importSource.value)) &&
            (o.importSource.Some? && !EndsWith(aliases[en.node.id].source, ".py") ==>
               o.importSource.value == aliases[en.node.id].source)
  {
  }

  // ---------------------------------------------------------------------------------------
  // colorize and highlight_expression

  const COLOR_RESET: string := "\U{1B}[0m"
  const COLOR_GREEN: string := "\U{1B}[32m"

  /** `text` between the code and the reset code, which can be taken off again. */
  function Colorize(text: string, code: string): (r: string)
    ensures |r| == |code| + |text| + |COLOR_RESET|
    ensures r[..|code|] == code && r[|code|..|code| + |text|] == text && r[|code| + |text|..] == COLOR_RESET
  {
    code + text + COLOR_RESET
  }

  /** The line with `expr` wrapped in the green code at column `col`. */
  function HighlightExpression(sourceLine: string, exprStr: string, col: nat): string
  {
    Slice(sourceLine, 0, col) + Colorize(exprStr, COLOR_GREEN) + SliceFrom(sourceLine, col + |exprStr|)
  }

  /** When `expr` is what the line holds at `col` (or the column is past the end and `expr`
      is empty), highlighting splices only the two codes into the line: removing them gives
      the line back. */
  lemma HighlightRestores(sourceLine: string, exprStr: string, col: nat)
    requires (col <= |sourceLine| && col + |exprStr| <= |sourceLine| && sourceLine[col..col + |exprStr|] == exprStr) ||
             (col > |sourceLine| && exprStr == "")
    ensures var h := HighlightExpression(sourceLine, exprStr, col);
            var before := Slice(sourceLine, 0, col);
            var after := SliceFrom(sourceLine, col + |exprStr|);
            h == before + COLOR_GREEN + exprStr + COLOR_RESET + after &&
            before + exprStr + after == sourceLine
  {
    if col <= |sourceLine| {
      assert sourceLine[..col] + sourceLine[col..col + |exprStr|] + sourceLine[col + |exprStr|..] == sourceLine;
    }
  }

  /** Every occurrence `search_file` reports can be highlighted in its own source line
      without changing the line's text. */
  lemma RenderHighlightRestores(lines: seq<string>, aliases: map<string, AliasEntry>, en: Entry)
    ensures var o := Render(lines, aliases, en);
            Slice(o.sourceLine, 0, o.col) + o.exprStr + SliceFrom(o.sourceLine, o.col + |o.exprStr|) == o.sourceLine
  {
    var p := en.node.pos;
    SnippetShape(lines, p);
    HighlightRestores(SourceLine(lines, p), Snippet(lines, p), p.col);
  }

  lemma OccurrenceHighlightRestores(env: Environment, filePath: Path, file: SourceFile, target: Option<string>, k: nat)
    requires k < |Occurrences(env, filePath, file, target)|
    ensures var o := Occurrences(env, filePath, file, target)[k];
            Slice(o.sourceLine, 0, o.col) + o.exprStr + SliceFrom(o.sourceLine, o.col + |o.exprStr|) == o.sourceLine
  {    assert file.Parsed?;
    var aliases := AliasTable(env, filePath, file.tree);
    var es := AllEntries(file.tree);
    assert Occurrences(env, filePath, file, target) == Kept(target, file.lines, aliases, es);
    KeptSound(target, file.lines, aliases, es, k);
    var j :| 0 <= j < |es| && Keep(target, es[j]) && Kept(target, file.lines, aliases, es)[k] == Render(file.lines, aliases, es[j]);
    RenderHighlightRestores(file.lines, aliases, es[j]);
  }

}
