/** poogle3: a type analyzer that records annotated variables, class definitions and calls of
    plain names, maps imported names to the `.py` files they would be defined in, and follows
    those files depth-first, each at most once, collecting every location in one shared list. */
module Poogle3 {
  import opened Wrappers
  import opened Ast
  import opened Seqs
  import opened Text
  import opened Files
  import opened Bindings
  import Samples

  // ---------------------------------------------------------------------------------------
  // TypeLocation and TypeVisitor

  /** A recorded location. The visitor always fills in `sourceLine`; `sourceFile` is filled in
      later, for names the import map knows. */
  datatype TypeLocation = TypeLocation(file: Path, line: LineNo, column: nat, typeName: string,
                                       exprKind: string, sourceLine: string, sourceFile: Option<string>)

  /** `source_lines[lineno - 1].strip()`; the visitor only asks for lines that exist. */
  function StrippedLine(lines: seq<string>, line: LineNo): string
  {
    if line <= |lines| then Strip(lines[line - 1]) else ""
  }

  /** The location the visitor makes at position `p` for a name of the given kind. */
  function LocationOf(file: Path, lines: seq<string>, p: Pos, name: string, kind: string): TypeLocation
  {
    TypeLocation(file, p.line, p.col, name, kind, StrippedLine(lines, p.line), None)
  }

  /** What the visitor records on reaching node `n`, before it descends into `n`. */
  function LocationsAt(file: Path, lines: seq<string>, n: Node): seq<TypeLocation>
  {
    if n.StmtNode? && n.stmt.AnnAssign? && n.stmt.annotation.Name? then
      [LocationOf(file, lines, n.stmt.pos, n.stmt.annotation.id, "TypeAnnotation")]
    else if n.StmtNode? && n.stmt.ClassDef? then
      [LocationOf(file, lines, n.stmt.pos, n.stmt.name, "ClassDef")]
    else if n.ExprNode? && n.expr.Call? && n.expr.func.Name? then
      [LocationOf(file, lines, n.expr.pos, n.expr.func.id, "Call")]
    else []
  }

  /** What the visitor records at each of `nodes`, in order. */
  function NodeLocations(file: Path, lines: seq<string>, nodes: seq<Node>): seq<TypeLocation>
  {
    FlatMap((n: Node) => LocationsAt(file, lines, n), nodes)
  }

  lemma NodeLocationsStep(file: Path, lines: seq<string>, nodes: seq<Node>, i: nat)
    requires i < |nodes|
    ensures NodeLocations(file, lines, nodes[..i + 1]) == NodeLocations(file, lines, nodes[..i]) + LocationsAt(file, lines, nodes[i])
  {
    assert nodes[..i + 1][..i] == nodes[..i];
  }

  /** Nodes none of which the visitor records at give no locations. */
  lemma {:induction false} NodeLocationsNone(file: Path, lines: seq<string>, nodes: seq<Node>)
    requires forall i :: 0 <= i < |nodes| ==> LocationsAt(file, lines, nodes[i]) == []
    ensures NodeLocations(file, lines, nodes) == []
    decreases |nodes|
  {
    if nodes != [] {
      var m := |nodes| - 1;
      NodeLocationsStep(file, lines, nodes, m);
      assert nodes[..m + 1] == nodes;
      assert forall i :: 0 <= i < m ==> nodes[..m][i] == nodes[i];
      NodeLocationsNone(file, lines, nodes[..m]);
    }
  }

  /** When the visitor records at a single one of the nodes, the locations are that node's. */
  lemma {:induction false} NodeLocationsOnly(file: Path, lines: seq<string>, nodes: seq<Node>, k: nat)
    requires k < |nodes|
    requires forall i :: 0 <= i < |nodes| && i != k ==> LocationsAt(file, lines, nodes[i]) == []
    ensures NodeLocations(file, lines, nodes) == LocationsAt(file, lines, nodes[k])
    decreases |nodes|
  {
    var m := |nodes| - 1;
    NodeLocationsStep(file, lines, nodes, m);
    assert nodes[..m + 1] == nodes;
    assert forall i :: 0 <= i < m ==> nodes[..m][i] == nodes[i];
    if k == m {
      NodeLocationsNone(file, lines, nodes[..m]);
    } else {
      NodeLocationsOnly(file, lines, nodes[..m], k);
    }
  }

  /** Every handler ends in `generic_visit`, so the visitor meets the nodes in pre-order. */
  function Locations(file: Path, lines: seq<string>, m: Module): seq<TypeLocation>
  {
    NodeLocations(file, lines, PreOrder(m))
  }

  /** The three kinds of node the visitor records, with the name and kind it records them
      under: an annotated assignment whose annotation is a plain name, any class definition,
      a call whose callee is a plain name. */
  predicate RecordedAs(n: Node, name: string, kind: string)
  {
    if n.StmtNode? && n.stmt.AnnAssign? then
      n.stmt.annotation.Name? && name == n.stmt.annotation.id && kind == "TypeAnnotation"
    else if n.StmtNode? && n.stmt.ClassDef? then name == n.stmt.name && kind == "ClassDef"
    else if n.ExprNode? && n.expr.Call? then n.expr.func.Name? && name == n.expr.func.id && kind == "Call"
    else false
  }

  /** `loc` is the location the visitor makes of node `n` of `file`: the node's position,
      the stripped text of its line and no source file yet. */
  predicate Describes(file: Path, lines: seq<string>, n: Node, loc: TypeLocation)
  {
    RecordedAs(n, loc.typeName, loc.exprKind) && loc.file == file &&
    loc.line == NodePos(n).line && loc.column == NodePos(n).col && NodePos(n).line <= |lines| &&
    loc.sourceLine == StrippedLine(lines, NodePos(n).line) && loc.sourceFile.None?
  }

  lemma LocationsAtDescribe(file: Path, lines: seq<string>, n: Node, loc: TypeLocation)
    requires NodePos(n).line <= |lines|
    ensures loc in LocationsAt(file, lines, n) <==> Describes(file, lines, n, loc)
  {
    if LocationsAt(file, lines, n) == [] {
      assert !RecordedAs(n, loc.typeName, loc.exprKind);
    } else {
      var x := LocationsAt(file, lines, n)[0];
      assert LocationsAt(file, lines, n) == [x];
      assert Describes(file, lines, n, x);
      assert Describes(file, lines, n, loc) ==> loc == x;
    }
  }

  /** The visitor records exactly the nodes of the three kinds: every location describes a
      node of the tree, and every node of those kinds is described by a location. */
  lemma LocationsExact(file: Path, lines: seq<string>, m: Module, loc: TypeLocation)
    requires LinesCover(lines, m)
    ensures loc in Locations(file, lines, m) <==> exists n :: n in PreOrder(m) && Describes(file, lines, n, loc)
  {
    var nodes := PreOrder(m);
    FlatMapMember((n: Node) => LocationsAt(file, lines, n), nodes, loc);
    if loc in Locations(file, lines, m) {
      var i :| 0 <= i < |nodes| && loc in LocationsAt(file, lines, nodes[i]);
      LocationsAtDescribe(file, lines, nodes[i], loc);
    }
    if exists n :: n in nodes && Describes(file, lines, n, loc) {
      var n :| n in nodes && Describes(file, lines, n, loc);
      var i :| 0 <= i < |nodes| && nodes[i] == n;
      LocationsAtDescribe(file, lines, n, loc);
    }
  }

  /** A recorded source line never starts or ends with white space. */
  lemma SourceLinesStripped(file: Path, lines: seq<string>, m: Module, loc: TypeLocation)
    requires LinesCover(lines, m)
    requires loc in Locations(file, lines, m)
    ensures loc.sourceLine == "" || (!IsSpace(loc.sourceLine[0]) && !IsSpace(loc.sourceLine[|loc.sourceLine| - 1]))
  {
    LocationsExact(file, lines, m, loc);
  }

  class TypeVisitor {
    const filePath: Path
    const sourceLines: seq<string>
    var locations: seq<TypeLocation>

    constructor (filePath: Path, sourceLines: seq<string>)
      ensures this.filePath == filePath && this.sourceLines == sourceLines && locations == []
    {
      this.filePath := filePath;
      this.sourceLines := sourceLines;
      locations := [];
    }

    method VisitAnnAssign(s: Stmt)
      requires s.AnnAssign? && (s.annotation.Name? ==> s.pos.line <= |sourceLines|)
      modifies this
      ensures locations == old(locations) + LocationsAt(filePath, sourceLines, StmtNode(s))
    {
      if s.annotation.Name? {
        locations := locations + [LocationOf(filePath, sourceLines, s.pos, s.annotation.id, "TypeAnnotation")];
      }
    }

    method VisitClassDef(s: Stmt)
      requires s.ClassDef? && s.pos.line <= |sourceLines|
      modifies this
      ensures locations == old(locations) + LocationsAt(filePath, sourceLines, StmtNode(s))
    {
      locations := locations + [LocationOf(filePath, sourceLines, s.pos, s.name, "ClassDef")];
    }

    method VisitCall(e: Expr)
      requires e.Call? && (e.func.Name? ==> e.pos.line <= |sourceLines|)
      modifies this
      ensures locations == old(locations) + LocationsAt(filePath, sourceLines, ExprNode(e))
    {
      if e.func.Name? {
        locations := locations + [LocationOf(filePath, sourceLines, e.pos, e.func.id, "Call")];
      }
    }

    /** The handler for the node's kind; every other kind only has `generic_visit`. */
    method Visit(n: Node)
      requires NodePos(n).line <= |sourceLines|
      modifies this
      ensures locations == old(locations) + LocationsAt(filePath, sourceLines, n)
    {
      match n {
        case StmtNode(s) =>
          match s {
            case AnnAssign(_, _, _, _) => VisitAnnAssign(s);
            case ClassDef(_, _, _, _, _, _) => VisitClassDef(s);
            case _ =>
          }
        case ExprNode(e) =>
          match e {
            case Call(_, _, _, _) => VisitCall(e);
            case _ =>
          }
      }
    }

    /** Visits the given nodes in order, as the generic traversal reaches them. */
    method VisitNodes(nodes: seq<Node>)
      requires forall n | n in nodes :: NodePos(n).line <= |sourceLines|
      modifies this
      ensures locations == old(locations) + NodeLocations(filePath, sourceLines, nodes)
    {
      ghost var start := locations;
      var i := 0;
      while i < |nodes|
        invariant 0 <= i <= |nodes|
        invariant locations == start + NodeLocations(filePath, sourceLines, nodes[..i])
      {
        NodeLocationsStep(filePath, sourceLines, nodes, i);
        Visit(nodes[i]);
        i := i + 1;
      }
      assert nodes[..i] == nodes;
    }

    method VisitTree(m: Module)
      requires LinesCover(sourceLines, m)
      modifies this
      ensures locations == old(locations) + Locations(filePath, sourceLines, m)
    {
      VisitNodes(PreOrder(m));
    }
  }

  // ---------------------------------------------------------------------------------------
  // ImportTracker

  /** The directory `d` extended by each of `parts` in turn, as `module_path / part` does. */
  function Children(d: Path, parts: seq<string>): Path
  {
    if parts == [] then d else PathChild(Children(d, parts[..|parts| - 1]), parts[|parts| - 1])
  }

  /** `str(module_path)` for a module name: the importing file's directory, one component per
      dot-separated part, then the suffix `.py`. */
  function ModulePathOf(file: Path, dotted: string): Path
  {
    Children(PathParent(file), Split(dotted, '.')) + ".py"
  }

  /** The loop that builds `module_path`, one part at a time. */
  method ModulePath(file: Path, dotted: string) returns (p: Path)
    ensures p == ModulePathOf(file, dotted)
  {
    var parts := Split(dotted, '.');
    p := PathParent(file);
    var i := 0;
    while i < |parts|
      invariant 0 <= i <= |parts|
      invariant p == Children(PathParent(file), parts[..i])
    {
      assert parts[..i + 1][..i] == parts[..i];
      p := PathChild(p, parts[i]);
      i := i + 1;
    }
    assert parts[..i] == parts;
    p := p + ".py";
  }

  /** A module name without dots, imported from a file in the working directory, is looked
      for in the file of that name with the suffix `.py`. */
  lemma PlainModulePath(file: Path, name: string)
    requires '/' !in file && name != "" && '.' !in name && '/' !in name
    ensures ModulePathOf(file, name) == name + ".py"
  {
    assert RFind(file, '/') == -1;
    SplitNoSeparator(name, '.');
    var parts := [name];
    assert parts[..0] == [];
    assert Children(".", parts) == PathChild(Children(".", []), name);
  }

  /** A dotted module name as the parser produces one: no empty part and no '/'. */
  predicate ModuleName(dotted: string)
  {
    forall k :: 0 <= k < |Split(dotted, '.')| ==> Split(dotted, '.')[k] != "" && '/' !in Split(dotted, '.')[k]
  }

  lemma {:induction false} ChildrenJoin(d: Path, parts: seq<string>)
    requires parts != []
    requires forall k :: 0 <= k < |parts| ==> parts[k] != "" && '/' !in parts[k] && '.' !in parts[k]
    ensures Children(d, parts) == DirPrefix(d) + Join(parts, "/")
    decreases |parts|
  {
    var init, last := parts[..|parts| - 1], parts[|parts| - 1];
    if |parts| == 1 {
      assert init == [];
      assert Children(d, parts) == PathChild(d, last);
      assert Join(parts, "/") == last;
    } else {
      var y := DirPrefix(d) + Join(init, "/");
      assert Children(d, parts) == y + "/" + last by {
        ChildrenJoin(d, init);
        JoinEndsWith(init, "/");
        PlainEnd(DirPrefix(d), Join(init, "/"), init[|init| - 1]);
        assert parts[..|parts| - 1] == init;
        assert Children(d, parts) == PathChild(Children(d, init), last);
      }
      assert DirPrefix(d) + Join(parts, "/") == y + "/" + last by {
        JoinSnoc(init, last, "/");
        assert init + [last] == parts;
        AppendAssoc(DirPrefix(d), Join(init, "/") + "/", last);
        AppendAssoc(DirPrefix(d), Join(init, "/"), "/");
      }
    }
  }

  /** A path ending in a part without '.' or '/' is neither `.` nor a directory prefix. */
  lemma PlainEnd(prefix: string, path: string, part: string)
    requires part != "" && '/' !in part && '.' !in part && EndsWith(path, part)
    ensures prefix + path != "." && !EndsWith(prefix + path, "/")
  {
    var y := prefix + path;
    assert y[|y| - 1] == path[|path| - 1] == part[|part| - 1];
    assert part[|part| - 1] in part;
  }

  /** A join ends with its last part. */
  lemma {:induction false} JoinEndsWith(parts: seq<string>, sep: string)
    requires parts != []
    ensures EndsWith(Join(parts, sep), parts[|parts| - 1])
    decreases |parts|
  {
    if |parts| > 1 {
      JoinEndsWith(parts[1..], sep);
      var rest := Join(parts[1..], sep);
      var last := parts[|parts| - 1];
      var j := parts[0] + sep + rest;
      assert j[|j| - |last|..] == rest[|rest| - |last|..];
    }
  }

  /** The path of a dotted module is the importing file's directory, then the name with its
      dots turned into '/', then `.py`; a file without a directory gives the bare
      `a/b/c.py`. */
  lemma ModulePathShape(file: Path, dotted: string)
    requires ModuleName(dotted)
    ensures ModulePathOf(file, dotted) == DirPrefix(PathParent(file)) + ReplaceChar(dotted, '.', '/') + ".py"
    ensures '/' !in file ==> ModulePathOf(file, dotted) == ReplaceChar(dotted, '.', '/') + ".py"
  {
    var parts := Split(dotted, '.');
    ChildrenJoin(PathParent(file), parts);
    JoinSplitReplace(dotted, '.', '/');
    if '/' !in file {
      assert RFind(file, '/') == -1;
    }
  }

  /** `self.imports[name.name] = path` for every name of a from-import: all share the
      module's path. */
  function FromPairs(names: seq<Alias>, path: Path): (r: seq<(string, Path)>)
    ensures |r| == |names|
    ensures forall k :: 0 <= k < |names| ==> r[k] == (names[k].name, path)
  {
    if names == [] then [] else FromPairs(names[..|names| - 1], path) + [(names[|names| - 1].name, path)]
  }

  /** `self.imports[name.name] = path` for every name of a plain import, each with the path of
      its own module. */
  function ImportPairs(file: Path, names: seq<Alias>): (r: seq<(string, Path)>)
    ensures |r| == |names|
    ensures forall k :: 0 <= k < |names| ==> r[k] == (names[k].name, ModulePathOf(file, names[k].name))
  {
    if names == [] then [] else ImportPairs(file, names[..|names| - 1]) + [(names[|names| - 1].name, ModulePathOf(file, names[|names| - 1].name))]
  }

  lemma ImportPairsStep(file: Path, names: seq<Alias>, j: nat)
    requires j < |names|
    ensures ImportPairs(file, names[..j + 1]) == ImportPairs(file, names[..j]) + [(names[j].name, ModulePathOf(file, names[j].name))]
  {
    assert names[..j + 1][..j] == names[..j];
  }

  /** The assignments one statement makes: a from-import only when it names a module (`if
      node.module`), keyed by the imported name and never by its `as` name. */
  function StmtImports(file: Path, s: Stmt): seq<(string, Path)>
  {
    match s
    case ImportFrom(_, fromModule, names) =>
      if fromModule.Some? && fromModule.value != "" then FromPairs(names, ModulePathOf(file, fromModule.value)) else []
    case Import(_, names) => ImportPairs(file, names)
    case _ => []
  }

  /** The assignments of the statements `stmts`, in order. */
  function WalkImports(file: Path, stmts: seq<Stmt>): seq<(string, Path)>
  {
    FlatMap((s: Stmt) => StmtImports(file, s), stmts)
  }

  lemma WalkImportsStep(file: Path, stmts: seq<Stmt>, i: nat)
    requires i < |stmts|
    ensures WalkImports(file, stmts[..i + 1]) == WalkImports(file, stmts[..i]) + StmtImports(file, stmts[i])
  {
    assert stmts[..i + 1][..i] == stmts[..i];
  }

  /** `name` is the imported name of an import statement that assigns it. */
  predicate ImportsName(s: Stmt, name: string)
  {
    (s.Import? || (s.ImportFrom? && s.fromModule.Some? && s.fromModule.value != "")) &&
    exists a :: a in s.names && a.name == name
  }

  lemma StmtImportsKeys(file: Path, s: Stmt, name: string)
    ensures (exists i :: 0 <= i < |StmtImports(file, s)| && StmtImports(file, s)[i].0 == name) <==> ImportsName(s, name)
  {
    if ImportsName(s, name) {
      var a :| a in s.names && a.name == name;
      var k :| 0 <= k < |s.names| && s.names[k] == a;
      assert StmtImports(file, s)[k].0 == name;
    }
  }

  /** All paths in the map are `.py` paths (so none is empty). */
  predicate AllPy(imports: map<string, Path>)
  {
    forall k | k in imports :: EndsWith(imports[k], ".py")
  }

  lemma {:induction false} BindPy(imports: map<string, Path>, bs: seq<(string, Path)>)
    requires AllPy(imports)
    requires forall i :: 0 <= i < |bs| ==> EndsWith(bs[i].1, ".py")
    ensures AllPy(Bind(imports, bs))
    decreases |bs|
  {
    if bs != [] {
      BindPy(imports, bs[..|bs| - 1]);
    }
  }

  lemma StmtImportsPy(file: Path, s: Stmt)
    ensures forall i :: 0 <= i < |StmtImports(file, s)| ==> EndsWith(StmtImports(file, s)[i].1, ".py")
  {
  }

  /** Each assignment of the walk comes from one statement of it, and has a `.py` path. */
  lemma WalkImportsFrom(file: Path, stmts: seq<Stmt>, b: (string, Path))
    ensures b in WalkImports(file, stmts) <==> exists j :: 0 <= j < |stmts| && b in StmtImports(file, stmts[j])
    ensures b in WalkImports(file, stmts) ==> EndsWith(b.1, ".py")
  {
    FlatMapMember((s: Stmt) => StmtImports(file, s), stmts, b);
    if b in WalkImports(file, stmts) {
      var j :| 0 <= j < |stmts| && b in StmtImports(file, stmts[j]);
      StmtImportsPy(file, stmts[j]);
    }
  }

  /** The import map after reading file `file`: every import anywhere in the tree, in the
      order `ast.walk` yields them, assigned over the map as it was. */
  function Tracked(imports: map<string, Path>, file: Path, m: Module): map<string, Path>
  {
    Bind(imports, WalkImports(file, Walk(m)))
  }

  /** Reading a file keeps every path of the map a `.py` path. */
  lemma TrackedPy(imports: map<string, Path>, file: Path, m: Module)
    requires AllPy(imports)
    ensures AllPy(Tracked(imports, file, m))
  {
    var stmts := Walk(m);
    var bs := WalkImports(file, stmts);
    forall i | 0 <= i < |bs|
      ensures EndsWith(bs[i].1, ".py")
    {
      WalkImportsFrom(file, stmts, bs[i]);
    }
    BindPy(imports, bs);
  }

  /** A name is a key afterwards exactly when it was one before or an import statement at any
      depth of the tree imports it. */
  lemma TrackedKeys(imports: map<string, Path>, file: Path, m: Module, name: string)
    ensures name in Tracked(imports, file, m) <==>
              name in imports || exists s :: s in StmtsWithin(m.body) && ImportsName(s, name)
  {
    var stmts := Walk(m);
    var bs := WalkImports(file, stmts);
    BindKeys(imports, bs, name);
    if exists i :: 0 <= i < |bs| && bs[i].0 == name {
      var i :| 0 <= i < |bs| && bs[i].0 == name;
      assert exists s :: s in StmtsWithin(m.body) && ImportsName(s, name) by {
        WalkImportsFrom(file, stmts, bs[i]);
        var j :| 0 <= j < |stmts| && bs[i] in StmtImports(file, stmts[j]);
        StmtImportsKeys(file, stmts[j], name);
        WalkCoversAll(m.body, stmts[j]);
      }
    }
    if exists s :: s in StmtsWithin(m.body) && ImportsName(s, name) {
      var s :| s in StmtsWithin(m.body) && ImportsName(s, name);
      assert exists i :: 0 <= i < |bs| && bs[i].0 == name by {
        WalkCoversAll(m.body, s);
        var j :| 0 <= j < |stmts| && stmts[j] == s;
        StmtImportsKeys(file, s, name);
        var l :| 0 <= l < |StmtImports(file, s)| && StmtImports(file, s)[l].0 == name;
        var b := StmtImports(file, s)[l];
        WalkImportsFrom(file, stmts, b);
        var k := IndexOf(bs, b);
      }
    }
  }

  /** Later assignments overwrite earlier ones: a name maps to the path of the last import of
      the walk that assigns it. */
  lemma TrackedLastWins(imports: map<string, Path>, file: Path, m: Module, j: nat)
    requires j < |WalkImports(file, Walk(m))|
    requires forall i :: j < i < |WalkImports(file, Walk(m))| ==>
               WalkImports(file, Walk(m))[i].0 != WalkImports(file, Walk(m))[j].0
    ensures var b := WalkImports(file, Walk(m))[j];
            b.0 in Tracked(imports, file, m) && Tracked(imports, file, m)[b.0] == b.1
  {
    LastBindingWins(imports, WalkImports(file, Walk(m)), j);
  }

  /** A name that no import of the tree assigns keeps the path it had before. */
  lemma TrackedUntouched(imports: map<string, Path>, file: Path, m: Module, name: string)
    requires forall s :: s in StmtsWithin(m.body) ==> !ImportsName(s, name)
    ensures name in Tracked(imports, file, m) <==> name in imports
    ensures name in imports ==> Tracked(imports, file, m)[name] == imports[name]
  {
    var stmts := Walk(m);
    var bs := WalkImports(file, stmts);
    forall i | 0 <= i < |bs|
      ensures bs[i].0 != name
    {
      WalkImportsFrom(file, stmts, bs[i]);
      var j :| 0 <= j < |stmts| && bs[i] in StmtImports(file, stmts[j]);
      WalkCoversAll(m.body, stmts[j]);
      StmtImportsKeys(file, stmts[j], name);
      var l := IndexOf(StmtImports(file, stmts[j]), bs[i]);
    }
    UnboundKeyUnchanged(imports, bs, name);
  }

  class ImportTracker {
    var imports: map<string, Path>

    constructor ()
      ensures imports == map[]
    {
      imports := map[];
    }

    /** `analyze_imports` on the parsed tree of `file` (reading and parsing are the
        caller's). */
    method AnalyzeImports(file: Path, m: Module)
      modifies this
      ensures imports == Tracked(old(imports), file, m)
    {
      ghost var start := imports;
      var stmts := Walk(m);
      var i := 0;
      while i < |stmts|
        invariant 0 <= i <= |stmts|
        invariant imports == Bind(start, WalkImports(file, stmts[..i]))
      {
        WalkImportsStep(file, stmts, i);
        BindAppend(start, WalkImports(file, stmts[..i]), StmtImports(file, stmts[i]));
        TrackStmt(file, stmts[i]);
        i := i + 1;
      }
      assert stmts[..i] == stmts;
    }

    /** The body of the loop over `ast.walk(tree)` for one statement. */
    method TrackStmt(file: Path, s: Stmt)
      modifies this
      ensures imports == Bind(old(imports), StmtImports(file, s))
    {
      if s.ImportFrom? {
        if s.fromModule.Some? && s.fromModule.value != "" {
          TrackFrom(file, s);
        } else {
          assert StmtImports(file, s) == [];
        }
      } else if s.Import? {
        TrackImport(file, s);
      } else {
        assert StmtImports(file, s) == [];
      }
    }

    method TrackFrom(file: Path, s: Stmt)
      requires s.ImportFrom? && s.fromModule.Some? && s.fromModule.value != ""
      modifies this
      ensures imports == Bind(old(imports), StmtImports(file, s))
    {
      var modulePath := ModulePath(file, s.fromModule.value);
      ghost var start := imports;
      var names := s.names;
      var j := 0;
      while j < |names|
        invariant 0 <= j <= |names|
        invariant imports == Bind(start, FromPairs(names[..j], modulePath))
      {
        assert names[..j + 1][..j] == names[..j];
        BindSnoc(start, FromPairs(names[..j], modulePath), (names[j].name, modulePath));
        imports := imports[names[j].name := modulePath];
        j := j + 1;
      }
      assert names[..j] == names;
    }

    method TrackImport(file: Path, s: Stmt)
      requires s.Import?
      modifies this
      ensures imports == Bind(old(imports), StmtImports(file, s))
    {
      ghost var start := imports;
      var names := s.names;
      var j := 0;
      while j < |names|
        invariant 0 <= j <= |names|
        invariant imports == Bind(start, ImportPairs(file, names[..j]))
      {
        var modulePath := ModulePath(file, names[j].name);
        ImportPairsStep(file, names, j);
        BindSnoc(start, ImportPairs(file, names[..j]), (names[j].name, modulePath));
        imports := imports[names[j].name := modulePath];
        j := j + 1;
      }
      assert names[..j] == names;
    }
  }

  // ---------------------------------------------------------------------------------------
  // TypeAnalyzer.analyze_file, as a function of the analyzer's state

  /** The analyzer's state: the analyzed files, the shared list of locations and the import
      tracker's map. */
  datatype State = State(analyzed: set<Path>, locations: seq<TypeLocation>, imports: map<string, Path>)

  /** What a call of `analyze_file` leaves behind: whether it ran to the end (a file that is
      missing or does not parse raises and ends the whole run), the state afterwards and the
      files it entered, in order. */
  datatype Run = Run(ok: bool, st: State, trace: seq<Path>)

  /** `type_pattern is None or type_pattern in type_name`. */
  predicate Selected(pattern: Option<string>, name: string)
  {
    pattern.None? || Contains(name, pattern.value)
  }

  /** The location with its source file set when the map, as it is now, knows its name. */
  function Tag(loc: TypeLocation, imports: map<string, Path>): (r: TypeLocation)
    ensures r.typeName == loc.typeName
  {
    if loc.typeName in imports then loc.(sourceFile := Some(imports[loc.typeName])) else loc
  }

  /** `if location.source_file:` — set and non-empty. */
  predicate Follows(loc: TypeLocation)
  {
    loc.sourceFile.Some? && loc.sourceFile.value != ""
  }

  function Analyze(fs: FileSystem, pattern: Option<string>, file: Path, st: State): (r: Run)
    ensures st.analyzed <= r.st.analyzed && file in r.st.analyzed
    ensures st.locations <= r.st.locations
    decreases 2 * |fs.files.Keys - st.analyzed| + (if file in st.analyzed then 0 else 1), 0, 0
  {
    if file in st.analyzed then Run(true, st, [])
    else
      var entered := st.(analyzed := st.analyzed + {file});
      if file !in fs.files || fs.files[file].Unparseable? then Run(false, entered, [file])
      else
        var source := fs.files[file];
        Shrinks(fs.files.Keys, st.analyzed, entered.analyzed, file);
        var rest := Process(fs, pattern, Locations(file, source.lines, source.tree),
                            entered.(imports := Tracked(st.imports, file, source.tree)));
        Run(rest.ok, rest.st, [file] + rest.trace)
  }

  /** The loop over the visitor's locations; a failure inside a recursive call ends it. */
  function Process(fs: FileSystem, pattern: Option<string>, locs: seq<TypeLocation>, st: State): (r: Run)
    ensures st.analyzed <= r.st.analyzed
    ensures st.locations <= r.st.locations
    decreases 2 * |fs.files.Keys - st.analyzed| + 1, 2, |locs|
  {
    if locs == [] then Run(true, st, [])
    else
      var first := ProcessOne(fs, pattern, locs[0], st);
      if !first.ok then first
      else
        Grows(fs.files.Keys, st.analyzed, first.st.analyzed);
        var rest := Process(fs, pattern, locs[1..], first.st);
        Run(rest.ok, rest.st, first.trace + rest.trace)
  }

  /** One iteration: tag the location, and if the pattern selects it, append it and analyze
      its source file straight away. */
  function ProcessOne(fs: FileSystem, pattern: Option<string>, loc: TypeLocation, st: State): (r: Run)
    ensures st.analyzed <= r.st.analyzed
    ensures st.locations <= r.st.locations
    decreases 2 * |fs.files.Keys - st.analyzed| + 1, 1, 0
  {
    var tagged := Tag(loc, st.imports);
    if Selected(pattern, tagged.typeName) then
      var appended := st.(locations := st.locations + [tagged]);
      if Follows(tagged) then Analyze(fs, pattern, tagged.sourceFile.value, appended)
      else Run(true, appended, [])
    else Run(true, st, [])
  }

  // ---------------------------------------------------------------------------------------
  // What the analyzer guarantees


  /** A location is appended exactly when the pattern selects its name; it is appended at
      once, tagged with the map as it is at that moment, and the analysis of its source file
      comes right after it. */
  lemma ProcessOneAppends(fs: FileSystem, pattern: Option<string>, loc: TypeLocation, st: State)
    ensures var r := ProcessOne(fs, pattern, loc, st);
            !Selected(pattern, loc.typeName) ==> r == Run(true, st, [])
    ensures var r := ProcessOne(fs, pattern, loc, st);
            var tagged := Tag(loc, st.imports);
            Selected(pattern, loc.typeName) ==>
              |st.locations| < |r.st.locations| && r.st.locations[|st.locations|] == tagged &&
              (Follows(tagged) ==> r == Analyze(fs, pattern, tagged.sourceFile.value, st.(locations := st.locations + [tagged]))) &&
              (!Follows(tagged) ==> r == Run(true, st.(locations := st.locations + [tagged]), []))
  {
    var tagged := Tag(loc, st.imports);
    if Selected(pattern, loc.typeName) {
      var appended := st.(locations := st.locations + [tagged]);
      assert appended.locations[|st.locations|] == tagged;
    }
  }

  /** A location fresh from the visitor gets a source file exactly when the map knows its
      name, and then the map's path; with `.py` paths in the map, that source file is always
      followed. */
  lemma TagSource(loc: TypeLocation, imports: map<string, Path>)
    requires loc.sourceFile.None?
    ensures Tag(loc, imports).sourceFile.Some? <==> loc.typeName in imports
    ensures loc.typeName in imports ==> Tag(loc, imports).sourceFile.value == imports[loc.typeName]
    ensures AllPy(imports) ==> (Follows(Tag(loc, imports)) <==> loc.typeName in imports)
  {
  }

  /** A run that started from the analyzed set `analyzed` entered only files that were not
      yet analyzed, and left exactly those added to the set. */
  predicate Accounted(analyzed: set<Path>, r: Run)
  {
    Fresh(analyzed, r.trace) && r.st.analyzed == After(analyzed, r.trace)
  }

  lemma {:induction false} AnalyzeAccounted(fs: FileSystem, pattern: Option<string>, file: Path, st: State)
    ensures Accounted(st.analyzed, Analyze(fs, pattern, file, st))
    decreases 2 * |fs.files.Keys - st.analyzed| + (if file in st.analyzed then 0 else 1), 0, 0
  {
    if file !in st.analyzed {
      var entered := st.(analyzed := st.analyzed + {file});
      EnterOne(st.analyzed, file);
      if file in fs.files && fs.files[file].Parsed? {
        var source := fs.files[file];
        Shrinks(fs.files.Keys, st.analyzed, entered.analyzed, file);
        var tracked := entered.(imports := Tracked(st.imports, file, source.tree));
        var rest := Process(fs, pattern, Locations(file, source.lines, source.tree), tracked);
        assert Analyze(fs, pattern, file, st) == Run(rest.ok, rest.st, [file] + rest.trace);
        ProcessAccounted(fs, pattern, Locations(file, source.lines, source.tree), tracked);
        FreshAppend(st.analyzed, [file], rest.trace);
      }
    }
  }

  lemma {:induction false} ProcessAccounted(fs: FileSystem, pattern: Option<string>, locs: seq<TypeLocation>, st: State)
    ensures Accounted(st.analyzed, Process(fs, pattern, locs, st))
    decreases 2 * |fs.files.Keys - st.analyzed| + 1, 2, |locs|
  {
    if locs != [] {
      var first := ProcessOne(fs, pattern, locs[0], st);
      ProcessOneAccounted(fs, pattern, locs[0], st);
      if first.ok {
        Grows(fs.files.Keys, st.analyzed, first.st.analyzed);
        ProcessAccounted(fs, pattern, locs[1..], first.st);
        FreshAppend(st.analyzed, first.trace, Process(fs, pattern, locs[1..], first.st).trace);
      }
    }
  }

  lemma {:induction false} ProcessOneAccounted(fs: FileSystem, pattern: Option<string>, loc: TypeLocation, st: State)
    ensures Accounted(st.analyzed, ProcessOne(fs, pattern, loc, st))
    decreases 2 * |fs.files.Keys - st.analyzed| + 1, 1, 0
  {
    var tagged := Tag(loc, st.imports);
    var r := ProcessOne(fs, pattern, loc, st);
    if Selected(pattern, tagged.typeName) && Follows(tagged) {
      var appended := st.(locations := st.locations + [tagged]);
      assert r == Analyze(fs, pattern, tagged.sourceFile.value, appended);
      AnalyzeAccounted(fs, pattern, tagged.sourceFile.value, appended);
    } else {
      assert r.trace == [] && r.st.analyzed == st.analyzed;
    }
  }

  /** `analyze_file` analyzes each file at most once: the files it entered are distinct, none
      was analyzed before the call, and the analyzed set afterwards is the old one plus
      exactly those files. Re-entering an analyzed file changes nothing. */
  lemma AnalyzeEntersOnce(fs: FileSystem, pattern: Option<string>, file: Path, st: State)
    ensures var r := Analyze(fs, pattern, file, st);
            NoDuplicates(r.trace) && (forall k :: 0 <= k < |r.trace| ==> r.trace[k] !in st.analyzed) &&
            r.st.analyzed == After(st.analyzed, r.trace) &&
            (file in st.analyzed ==> r == Run(true, st, [])) &&
            (file !in st.analyzed ==> r.trace != [] && r.trace[0] == file)
  {
    AnalyzeAccounted(fs, pattern, file, st);
    FreshDistinct(st.analyzed, Analyze(fs, pattern, file, st).trace);
  }

  /** Every location the run appended was selected by the pattern, and the source file of each
      one that has one has been analyzed by the end of the run. */
  predicate AppendsSelected(pattern: Option<string>, st: State, r: Run)
  {
    forall k :: |st.locations| <= k < |r.st.locations| ==>
      Selected(pattern, r.st.locations[k].typeName) &&
      (Follows(r.st.locations[k]) ==> r.st.locations[k].sourceFile.value in r.st.analyzed)
  }

  lemma {:induction false} AnalyzeSelects(fs: FileSystem, pattern: Option<string>, file: Path, st: State)
    ensures AppendsSelected(pattern, st, Analyze(fs, pattern, file, st))
    decreases 2 * |fs.files.Keys - st.analyzed| + (if file in st.analyzed then 0 else 1), 0, 0
  {
    if file !in st.analyzed && file in fs.files && fs.files[file].Parsed? {
      var source := fs.files[file];
      var entered := st.(analyzed := st.analyzed + {file});
      Shrinks(fs.files.Keys, st.analyzed, entered.analyzed, file);
      var tracked := entered.(imports := Tracked(st.imports, file, source.tree));
      ProcessSelects(fs, pattern, Locations(file, source.lines, source.tree), tracked);
    }
  }

  lemma {:induction false} ProcessSelects(fs: FileSystem, pattern: Option<string>, locs: seq<TypeLocation>, st: State)
    ensures AppendsSelected(pattern, st, Process(fs, pattern, locs, st))
    decreases 2 * |fs.files.Keys - st.analyzed| + 1, 2, |locs|
  {
    if locs != [] {
      var first := ProcessOne(fs, pattern, locs[0], st);
      ProcessOneSelects(fs, pattern, locs[0], st);
      if first.ok {
        Grows(fs.files.Keys, st.analyzed, first.st.analyzed);
        var rest := Process(fs, pattern, locs[1..], first.st);
        ProcessSelects(fs, pattern, locs[1..], first.st);
        forall k | |st.locations| <= k < |first.st.locations|
          ensures rest.st.locations[k] == first.st.locations[k]
        {
        }
      }
    }
  }

  lemma {:induction false} ProcessOneSelects(fs: FileSystem, pattern: Option<string>, loc: TypeLocation, st: State)
    ensures AppendsSelected(pattern, st, ProcessOne(fs, pattern, loc, st))
    decreases 2 * |fs.files.Keys - st.analyzed| + 1, 1, 0
  {
    var tagged := Tag(loc, st.imports);
    var r := ProcessOne(fs, pattern, loc, st);
    if Selected(pattern, tagged.typeName) {
      var appended := st.(locations := st.locations + [tagged]);
      if Follows(tagged) {
        assert r == Analyze(fs, pattern, tagged.sourceFile.value, appended);
        AnalyzeSelects(fs, pattern, tagged.sourceFile.value, appended);
        assert r.st.locations[|st.locations|] == tagged;
      } else {
        assert r == Run(true, appended, []);
      }
    } else {
      assert r == Run(true, st, []);
    }
  }

  /** The import map only ever holds `.py` paths, so every source file set on a location is
      followed. */
  lemma {:induction false} AnalyzeKeepsPy(fs: FileSystem, pattern: Option<string>, file: Path, st: State)
    requires AllPy(st.imports)
    ensures AllPy(Analyze(fs, pattern, file, st).st.imports)
    decreases 2 * |fs.files.Keys - st.analyzed| + (if file in st.analyzed then 0 else 1), 0, 0
  {
    if file !in st.analyzed && file in fs.files && fs.files[file].Parsed? {
      var source := fs.files[file];
      var entered := st.(analyzed := st.analyzed + {file});
      Shrinks(fs.files.Keys, st.analyzed, entered.analyzed, file);
      TrackedPy(st.imports, file, source.tree);
      var tracked := entered.(imports := Tracked(st.imports, file, source.tree));
      ProcessKeepsPy(fs, pattern, Locations(file, source.lines, source.tree), tracked);
    }
  }

  lemma {:induction false} ProcessKeepsPy(fs: FileSystem, pattern: Option<string>, locs: seq<TypeLocation>, st: State)
    requires AllPy(st.imports)
    ensures AllPy(Process(fs, pattern, locs, st).st.imports)
    decreases 2 * |fs.files.Keys - st.analyzed| + 1, 2, |locs|
  {
    if locs != [] {
      var first := ProcessOne(fs, pattern, locs[0], st);
      ProcessOneKeepsPy(fs, pattern, locs[0], st);
      if first.ok {
        Grows(fs.files.Keys, st.analyzed, first.st.analyzed);
        ProcessKeepsPy(fs, pattern, locs[1..], first.st);
      }
    }
  }

  lemma {:induction false} ProcessOneKeepsPy(fs: FileSystem, pattern: Option<string>, loc: TypeLocation, st: State)
    requires AllPy(st.imports)
    ensures AllPy(ProcessOne(fs, pattern, loc, st).st.imports)
    decreases 2 * |fs.files.Keys - st.analyzed| + 1, 1, 0
  {
    var tagged := Tag(loc, st.imports);
    if Selected(pattern, tagged.typeName) && Follows(tagged) {
      AnalyzeKeepsPy(fs, pattern, tagged.sourceFile.value, st.(locations := st.locations + [tagged]));
    }
  }

  // ---------------------------------------------------------------------------------------
  // TypeAnalyzer, updating its state in place

  /** The remaining loop, run from the current state, ends as `expected` does. */
  predicate Continues(rest: Run, expected: Run)
  {
    rest.ok == expected.ok && rest.st == expected.st
  }

  /** The loop over the locations passes location `i`, whose iteration ended with verdict `ok`
      and state `st'`. */
  lemma ProcessAdvance(fs: FileSystem, pattern: Option<string>, locs: seq<TypeLocation>, i: nat, st: State,
                       expected: Run, ok: bool, st': State)
    requires i < |locs|
    requires Continues(Process(fs, pattern, locs[i..], st), expected)
    requires ok == ProcessOne(fs, pattern, locs[i], st).ok && st' == ProcessOne(fs, pattern, locs[i], st).st
    ensures ok ==> Continues(Process(fs, pattern, locs[i + 1..], st'), expected)
    ensures !ok ==> !expected.ok && expected.st == st'
  {
    assert locs[i..][0] == locs[i] && locs[i..][1..] == locs[i + 1..];
  }

  class TypeAnalyzer {
    const importTracker: ImportTracker
    var analyzedFiles: set<Path>
    var locations: seq<TypeLocation>

    constructor ()
      ensures fresh(importTracker)
      ensures importTracker.imports == map[] && analyzedFiles == {} && locations == []
    {
      importTracker := new ImportTracker();
      analyzedFiles := {};
      locations := [];
    }

    function Snapshot(): State
      reads this, importTracker
    {
      State(analyzedFiles, locations, importTracker.imports)
    }

    /** `analyze_file(file_path, type_pattern)`; `ok` is false when the run raised, and
        otherwise `result` is the shared list of locations. */
    method AnalyzeFile(fs: FileSystem, filePath: Path, typePattern: Option<string>)
      returns (ok: bool, result: seq<TypeLocation>)
      requires WellFormed(fs)
      modifies this, importTracker
      ensures ok == Analyze(fs, typePattern, filePath, old(Snapshot())).ok
      ensures Snapshot() == Analyze(fs, typePattern, filePath, old(Snapshot())).st
      ensures ok ==> result == locations
      decreases 2 * |fs.files.Keys - analyzedFiles| + (if filePath in analyzedFiles then 0 else 1), 0
    {
      if filePath in analyzedFiles {
        return true, locations;
      }
      ghost var st0 := Snapshot();
      analyzedFiles := analyzedFiles + {filePath};
      if filePath !in fs.files || fs.files[filePath].Unparseable? {
        return false, [];
      }
      var source := fs.files[filePath];
      importTracker.AnalyzeImports(filePath, source.tree);
      var visitor := new TypeVisitor(filePath, source.lines);
      visitor.VisitTree(source.tree);
      var found := visitor.locations;
      Shrinks(fs.files.Keys, st0.analyzed, analyzedFiles, filePath);
      ghost var expected := Process(fs, typePattern, found, Snapshot());
      assert found == Locations(filePath, source.lines, source.tree);
      assert Snapshot() == st0.(analyzed := st0.analyzed + {filePath}).(imports := Tracked(st0.imports, filePath, source.tree));
      assert Analyze(fs, typePattern, filePath, st0) == Run(expected.ok, expected.st, [filePath] + expected.trace);
      ok := ProcessFound(fs, typePattern, found, expected);
      result := if ok then locations else [];
    }

    /** The loop over the visitor's locations, which stops at the first failure. */
    method ProcessFound(fs: FileSystem, typePattern: Option<string>, found: seq<TypeLocation>, ghost expected: Run)
      returns (ok: bool)
      requires WellFormed(fs)
      requires Continues(Process(fs, typePattern, found, Snapshot()), expected)
      modifies this, importTracker
      ensures ok == expected.ok && Snapshot() == expected.st
      decreases 2 * |fs.files.Keys - analyzedFiles| + 1, 3
    {
      ghost var start := analyzedFiles;
      assert found[0..] == found;
      var i := 0;
      while i < |found|
        invariant 0 <= i <= |found|
        invariant start <= analyzedFiles
        invariant Continues(Process(fs, typePattern, found[i..], Snapshot()), expected)
      {
        Grows(fs.files.Keys, start, analyzedFiles);
        var stepOk := ProcessAt(fs, typePattern, found, i, expected);
        if !stepOk {
          return false;
        }
        i := i + 1;
      }
      assert found[i..] == [];
      return true;
    }

    /** Iteration `i` of the loop over the visitor's locations: the remaining locations then
        continue to the expected end, or the whole run has failed. */
    method ProcessAt(fs: FileSystem, typePattern: Option<string>, found: seq<TypeLocation>, i: nat, ghost expected: Run)
      returns (ok: bool)
      requires WellFormed(fs)
      requires i < |found|
      requires Continues(Process(fs, typePattern, found[i..], Snapshot()), expected)
      modifies this, importTracker
      ensures old(analyzedFiles) <= analyzedFiles
      ensures ok ==> Continues(Process(fs, typePattern, found[i + 1..], Snapshot()), expected)
      ensures !ok ==> !expected.ok && expected.st == Snapshot()
      decreases 2 * |fs.files.Keys - analyzedFiles| + 1, 2
    {
      ghost var st := Snapshot();
      ok := ProcessLocation(fs, typePattern, found[i]);
      ProcessAdvance(fs, typePattern, found, i, st, expected, ok, Snapshot());
    }

    /** The body of the loop for one location. */
    method ProcessLocation(fs: FileSystem, typePattern: Option<string>, location: TypeLocation)
      returns (ok: bool)
      requires WellFormed(fs)
      modifies this, importTracker
      ensures ok == ProcessOne(fs, typePattern, location, old(Snapshot())).ok
      ensures Snapshot() == ProcessOne(fs, typePattern, location, old(Snapshot())).st
      decreases 2 * |fs.files.Keys - analyzedFiles| + 1, 1
    {
      var loc := location;
      if loc.typeName in importTracker.imports {
        loc := loc.(sourceFile := Some(importTracker.imports[loc.typeName]));
      }
      if typePattern.None? || Contains(loc.typeName, typePattern.value) {
        locations := locations + [loc];
        if loc.sourceFile.Some? && loc.sourceFile.value != "" {
          var more;
          ok, more := AnalyzeFile(fs, loc.sourceFile.value, typePattern);
          return;
        }
      }
      ok := true;
    }
  }

  // ---------------------------------------------------------------------------------------
  // format_location

  /** ` from "<source_file>"` when the location has a source file, else nothing. */
  function SourceInfo(loc: TypeLocation): string
  {
    if Follows(loc) then " from \"" + loc.sourceFile.value + "\"" else ""
  }

  /** `file:line:column`. */
  function Header(loc: TypeLocation): string
  {
    loc.file + ":" + NatToString(loc.line) + ":" + NatToString(loc.column)
  }

  /** The indented name, the kind and the source file, if any. */
  function Detail(loc: TypeLocation): string
  {
    "      " + loc.typeName + " (" + loc.exprKind + SourceInfo(loc) + ")"
  }

  /** The four lines of a location report, each ended by a newline. */
  function FormatLocation(loc: TypeLocation): string
  {
    Header(loc) + "\n" + Detail(loc) + "\n" + "      v" + "\n" + loc.sourceLine + "\n"
  }

  /** No field of the location holds a line break. */
  predicate SingleLineFields(loc: TypeLocation)
  {
    '\n' !in loc.file && '\n' !in loc.typeName && '\n' !in loc.exprKind && '\n' !in loc.sourceLine &&
    (loc.sourceFile.Some? ==> '\n' !in loc.sourceFile.value)
  }

  /** A report splits back into exactly its four lines (and the empty rest after the last
      newline): the header with the position, the detail line, the caret and the stripped
      source line. */
  lemma FormatLines(loc: TypeLocation)
    requires SingleLineFields(loc)
    ensures Split(FormatLocation(loc), '\n') == [Header(loc), Detail(loc), "      v", loc.sourceLine, ""]
  {
    var h, d, v, l := Header(loc), Detail(loc), "      v", loc.sourceLine;
    var lines := [h, d, v, l, ""];
    assert '\n' !in NatToString(loc.line) && '\n' !in NatToString(loc.column);
    assert '\n' !in SourceInfo(loc);
    assert forall k :: 0 <= k < |lines| ==> '\n' !in lines[k];
    assert Join(lines, "\n") == FormatLocation(loc) by {
      assert Join(lines[4..], "\n") == "";
      assert Join(lines[3..], "\n") == l + "\n" + "";
      assert Join(lines[2..], "\n") == v + "\n" + Join(lines[3..], "\n");
      assert Join(lines[1..], "\n") == d + "\n" + Join(lines[2..], "\n");
      assert Join(lines, "\n") == h + "\n" + Join(lines[1..], "\n");
    }
    SplitJoin(lines, '\n');
  }

  /** The ` from "…"` part shows exactly when the location has a source file (names and
      kinds never hold a double quote). */
  lemma SourceInfoShown(loc: TypeLocation)
    requires '"' !in loc.typeName && '"' !in loc.exprKind
    ensures Follows(loc) <==> Contains(Detail(loc), " from \"")
  {
    var pat := " from \"";
    var pre := "      " + loc.typeName + " (" + loc.exprKind;
    if Follows(loc) {
      var rest := loc.sourceFile.value + "\"" + ")";
      assert Detail(loc) == pre + (pat + rest) by {
        AppendAssoc(pre, pat + loc.sourceFile.value + "\"", ")");
        AppendAssoc(pat, loc.sourceFile.value + "\"", ")");
        AppendAssoc(pat, loc.sourceFile.value, "\"");
        AppendAssoc(pat + loc.sourceFile.value, "\"", ")");
      }
      assert OccursAt(Detail(loc), pat, |pre|);
      ContainsAt(Detail(loc), pat, |pre|);
    } else {
      assert Detail(loc) == pre + ")";
      assert '"' !in Detail(loc);
      NoQuoteNoContains(Detail(loc), pat);
    }
  }

  /** A string without a double quote contains no piece that has one. */
  lemma NoQuoteNoContains(s: string, p: string)
    requires '"' !in s && '"' in p
    ensures !Contains(s, p)
  {
    var q := IndexOf(p, '"');
    forall i: nat
      ensures !OccursAt(s, p, i)
    {
      if i + |p| <= |s| {
        assert s[i..i + |p|][q] == s[i + q];
        assert s[i + q] in s;
      }
    }
    ContainsIffOccurs(s, p);
  }

  // ---------------------------------------------------------------------------------------
  // Worked examples

  /** In the two-file example the parameter annotation `x: Widget` is not a location: only
      annotated assignments, class definitions and calls are recorded, so a search for
      `Widget` from `a.py` finds nothing and never enters `b.py`. */
  lemma ParameterNotRecorded()
    ensures var r := Analyze(Samples.WidgetProject, Some("Widget"), "a.py", State({}, [], map[]));
            r.ok && r.st.locations == [] && r.trace == ["a.py"] && "b.py" !in r.st.analyzed
  {
    var a := Samples.WidgetUse;
    Samples.WidgetUseNodes();
    var nodes := PreOrder(a.tree);
    FlatMapNil((n: Node) => LocationsAt("a.py", a.lines, n), nodes);
    assert Locations("a.py", a.lines, a.tree) == [];
  }

  /** Its first statement, `from os import getcwd`, assigns `getcwd` the path `os.py`. */
  lemma GetcwdImportsFirst(file: Path)
    requires '/' !in file
    ensures StmtImports(file, Samples.GetcwdUse.tree.body[0]) == [("getcwd", "os.py")]
  {
    var s := Samples.GetcwdUse.tree.body[0];
    PlainModulePath(file, "os");
    assert "os" + ".py" == "os.py";
    assert s.names == [Alias("getcwd", None)];
    assert StmtImports(file, s) == FromPairs(s.names, ModulePathOf(file, "os"));
    assert FromPairs([Alias("getcwd", None)], "os.py") == [("getcwd", "os.py")];
  }

  /** The import map after reading the library example from a file in the working
      directory: `getcwd` points at an `os.py` next to it. */
  lemma GetcwdTracked(file: Path)
    requires '/' !in file
    ensures Tracked(map[], file, Samples.GetcwdUse.tree) == map["getcwd" := "os.py"]
  {
    var body := Samples.GetcwdUse.tree.body;
    WalkFlat(Samples.GetcwdUse.tree);
    GetcwdImportsFirst(file);
    var pairs := [("getcwd", "os.py")];
    assert StmtImports(file, body[1]) == [];
    WalkImportsStep(file, body, 0);
    WalkImportsStep(file, body, 1);
    assert body[..0] == [] && body[..2] == body;
    assert WalkImports(file, body[..0]) == [];
    assert WalkImports(file, body) == pairs;
    assert Bind(map[], pairs) == map["getcwd" := "os.py"] by {
      assert pairs[..0] == [];
    }
  }

  /** The library example records one location, the call `getcwd()` on line 2. */
  lemma GetcwdLocations(file: Path)
    ensures var a := Samples.GetcwdUse;
            Locations(file, a.lines, a.tree) == [LocationOf(file, a.lines, Pos(2, 0, None), "getcwd", "Call")]
  {
    var a := Samples.GetcwdUse;
    Samples.GetcwdUseNodes();
    var nodes := PreOrder(a.tree);
    assert LocationsAt(file, a.lines, nodes[0]) == [] && LocationsAt(file, a.lines, nodes[1]) == [];
    assert LocationsAt(file, a.lines, nodes[3]) == [];
    NodeLocationsOnly(file, a.lines, nodes, 2);
  }

  /** Its stripped source line is the line itself. */
  lemma GetcwdLine()
    ensures StrippedLine(Samples.GetcwdUse.lines, 2) == "getcwd()"
  {
    StripUnchanged(Samples.GetcwdUse.lines[1]);
  }

  /** A parsed file not yet analyzed is marked analyzed, its imports are read into the map,
      and its locations are processed with that state. */
  lemma AnalyzeParsed(fs: FileSystem, pattern: Option<string>, file: Path, st: State,
                      locs: seq<TypeLocation>, imports: map<string, Path>)
    requires file !in st.analyzed && file in fs.files && fs.files[file].Parsed?
    requires locs == Locations(file, fs.files[file].lines, fs.files[file].tree)
    requires imports == Tracked(st.imports, file, fs.files[file].tree)
    ensures var rest := Process(fs, pattern, locs, st.(analyzed := st.analyzed + {file}, imports := imports));
            Analyze(fs, pattern, file, st) == Run(rest.ok, rest.st, [file] + rest.trace)
  {
  }

  /** The call of the library example, tagged with `os.py` and appended, sends the analyzer
      to `os.py`, and a missing or unparseable `os.py` ends the run there. */
  lemma GetcwdFollowed(fs: FileSystem, file: Path, loc: TypeLocation)
    requires file != "os.py" && loc.typeName == "getcwd" && loc.sourceFile.None?
    requires "os.py" !in fs.files || fs.files["os.py"].Unparseable?
    ensures var imports := map["getcwd" := "os.py"];
            var tagged := loc.(sourceFile := Some("os.py"));
            Process(fs, None, [loc], State({file}, [], imports)) ==
              Run(false, State({file, "os.py"}, [tagged], imports), ["os.py"])
  {
    var imports := map["getcwd" := "os.py"];
    var tagged := loc.(sourceFile := Some("os.py"));
    var failed := Run(false, State({file, "os.py"}, [tagged], imports), ["os.py"]);
    assert Analyze(fs, None, "os.py", State({file}, [tagged], imports)) == failed;
    assert ProcessOne(fs, None, loc, State({file}, [], imports)) == failed;
  }

  /** A first file that parses: the run is that file followed by the processing of its
      locations, with the file marked analyzed and its imports read. */
  lemma AnalyzeEntered(fs: FileSystem, pattern: Option<string>, file: Path,
                       locs: seq<TypeLocation>, imports: map<string, Path>, rest: Run)
    requires file in fs.files && fs.files[file].Parsed?
    requires locs == Locations(file, fs.files[file].lines, fs.files[file].tree)
    requires imports == Tracked(map[], file, fs.files[file].tree)
    requires Process(fs, pattern, locs, State({file}, [], imports)) == rest
    ensures Analyze(fs, pattern, file, State({}, [], map[])) == Run(rest.ok, rest.st, [file] + rest.trace)
  {
    var st := State({}, [], map[]);
    AnalyzeParsed(fs, pattern, file, st, locs, imports);
    assert st.(analyzed := st.analyzed + {file}, imports := imports) == State({file}, [], imports);
  }

  /** The whole run of the library example when `os.py` cannot be read. */
  lemma GetcwdRun(fs: FileSystem, file: Path)
    requires '/' !in file && file in fs.files && fs.files[file] == Samples.GetcwdUse
    requires "os.py" !in fs.files || fs.files["os.py"].Unparseable?
    ensures var loc := LocationOf(file, Samples.GetcwdUse.lines, Pos(2, 0, None), "getcwd", "Call");
            var imports := map["getcwd" := "os.py"];
            Analyze(fs, None, file, State({}, [], map[])) ==
              Run(false, State({file, "os.py"}, [loc.(sourceFile := Some("os.py"))], imports), [file] + ["os.py"])
  {
    var source := fs.files[file];
    GetcwdTracked(file);
    GetcwdLocations(file);
    var loc := LocationOf(file, source.lines, Pos(2, 0, None), "getcwd", "Call");
    GetcwdFollowed(fs, file, loc);
    var imports := map["getcwd" := "os.py"];
    AnalyzeEntered(fs, None, file, [loc], imports, Process(fs, None, [loc], State({file}, [], imports)));
  }

  /** An imported name is followed whether or not a file for it exists: after
      `from os import getcwd`, the call `getcwd()` sends the analyzer to `os.py`, and when
      that file is missing or does not parse the whole run fails, with the call already
      recorded. */
  lemma UnresolvedImportFails(fs: FileSystem, file: Path)
    requires '/' !in file && file in fs.files && fs.files[file] == Samples.GetcwdUse
    requires "os.py" !in fs.files || fs.files["os.py"].Unparseable?
    ensures var r := Analyze(fs, None, file, State({}, [], map[]));
            !r.ok && r.trace == [file, "os.py"] &&
            r.st.locations == [TypeLocation(file, 2, 0, "getcwd", "Call", "getcwd()", Some("os.py"))]
  {
    GetcwdRun(fs, file);
    GetcwdLine();
    TwoTrace(file, "os.py");
  }

  /** A two-element trace. */
  lemma TwoTrace(a: Path, b: Path)
    ensures [a] + [b] == [a, b]
  {
  }
}
