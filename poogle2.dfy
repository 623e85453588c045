/** poogle2: a finder for names, calls and attribute accesses, and `dora`, which searches a
    file and then the files its from-imports resolve to, guarded by a set of visited files and
    sharing one import map across the whole traversal. */
module Poogle2 {
  import opened Wrappers
  import opened Ast
  import opened Seqs
  import opened Text
  import opened Files
  import Samples

  // ---------------------------------------------------------------------------------------
  // TypeFinder

  /** A finder entry `(lineno, col_offset, name, kind)`. */
  datatype Finding = Finding(line: LineNo, col: nat, name: string, exprType: string)

  /** With no target every name qualifies; with one, only the identical name. */
  predicate Wanted(target: Option<string>, name: string)
  {
    target.None? || name == target.value
  }

  /** What the finder's handler for `n` appends: a `Name` under its id, a `Call` whose callee
      is a plain name under the callee's id, an `Attribute` on a plain name under
      `value.attr`; every other node, and a filtered-out name, appends nothing. */
  function FinderRecord(target: Option<string>, n: Node): seq<Finding>
  {
    match n
    case StmtNode(_) => []
    case ExprNode(e) =>
      match e
      case Name(pos, id) =>
        if Wanted(target, id) then [Finding(pos.line, pos.col, id, "NameExpr")] else []
      case Call(pos, Name(_, id), _, _) =>
        if Wanted(target, id) then [Finding(pos.line, pos.col, id, "CallExpr")] else []
      case Attribute(pos, Name(_, base), attr) =>
        var full := base + "." + attr;
        if Wanted(target, full) then [Finding(pos.line, pos.col, full, "AttributeExpr")] else []
      case _ => []
  }

  /** The finder's entries for a whole module: every handler ends in `generic_visit`, so the
      nodes are met in pre-order. */
  function Findings(m: Module, target: Option<string>): seq<Finding>
  {
    FindingsIn(target, PreOrder(m))
  }

  /** The finder's entries for the nodes `nodes`, met in order. */
  function FindingsIn(target: Option<string>, nodes: seq<Node>): seq<Finding>
  {
    FlatMap((n: Node) => FinderRecord(target, n), nodes)
  }

  /** Visiting one more node appends that node's entries. */
  lemma FindingsInStep(target: Option<string>, nodes: seq<Node>, i: nat)
    requires i < |nodes|
    ensures FindingsIn(target, nodes[..i + 1]) == FindingsIn(target, nodes[..i]) + FinderRecord(target, nodes[i])
  {
    assert nodes[..i + 1][..i] == nodes[..i];
  }

  class TypeFinder {
    const targetType: Option<string>
    var results: seq<Finding>

    constructor (target: Option<string>)
      ensures targetType == target && results == []
    {
      targetType := target;
      results := [];
    }

    method VisitName(e: Expr)
      requires e.Name?
      modifies this
      ensures results == old(results) + FinderRecord(targetType, ExprNode(e))
    {
      if targetType == None || e.id == targetType.value {
        results := results + [Finding(e.pos.line, e.pos.col, e.id, "NameExpr")];
      }
    }

    method VisitCall(e: Expr)
      requires e.Call?
      modifies this
      ensures results == old(results) + FinderRecord(targetType, ExprNode(e))
    {
      if e.func.Name? {
        if targetType == None || e.func.id == targetType.value {
          results := results + [Finding(e.pos.line, e.pos.col, e.func.id, "CallExpr")];
        }
      }
    }

    method VisitAttribute(e: Expr)
      requires e.Attribute?
      modifies this
      ensures results == old(results) + FinderRecord(targetType, ExprNode(e))
    {
      if e.value.Name? {
        var full := e.value.id + "." + e.attr;
        if targetType == None || full == targetType.value {
          results := results + [Finding(e.pos.line, e.pos.col, full, "AttributeExpr")];
        }
      }
    }

    /** `visit`: the handler for the node's kind; other kinds append nothing. */
    method Visit(n: Node)
      modifies this
      ensures results == old(results) + FinderRecord(targetType, n)
    {
      match n {
        case StmtNode(_) =>
        case ExprNode(e) =>
          if e.Name? {
            VisitName(e);
          } else if e.Call? {
            VisitCall(e);
          } else if e.Attribute? {
            VisitAttribute(e);
          }
      }
    }

    method VisitTree(m: Module)
      modifies this
      ensures results == old(results) + Findings(m, targetType)
    {
      var nodes := PreOrder(m);
      ghost var start := results;
      var i := 0;
      while i < |nodes|
        invariant 0 <= i <= |nodes|
        invariant results == start + FindingsIn(targetType, nodes[..i])
      {
        FindingsInStep(targetType, nodes, i);
        Visit(nodes[i]);
        i := i + 1;
      }
      assert nodes[..i] == nodes;
    }
  }

  /** Each finder entry comes from a node of the tree at the entry's position, of the kind
      the entry names, carrying the entry's name, and the name is wanted. */
  lemma FindingsSound(m: Module, target: Option<string>, f: Finding)
    requires f in Findings(m, target)
    ensures Wanted(target, f.name)
    ensures exists n :: n in PreOrder(m) && n.ExprNode? && NodePos(n).line == f.line && NodePos(n).col == f.col &&
              ((f.exprType == "NameExpr" && n.expr.Name? && n.expr.id == f.name) ||
               (f.exprType == "CallExpr" && n.expr.Call? && n.expr.func.Name? && n.expr.func.id == f.name) ||
               (f.exprType == "AttributeExpr" && n.expr.Attribute? && n.expr.value.Name? &&
                f.name == n.expr.value.id + "." + n.expr.attr))
  {
    var rec := (n: Node) => FinderRecord(target, n);
    FlatMapMember(rec, PreOrder(m), f);
    var i :| 0 <= i < |PreOrder(m)| && f in rec(PreOrder(m)[i]);
    var n := PreOrder(m)[i];
    assert n in PreOrder(m);
  }

  /** Conversely, every wanted name, call on a plain name and attribute of a plain name in
      the tree has its entry. */
  lemma FindingsComplete(m: Module, target: Option<string>, n: Node)
    requires n in PreOrder(m) && n.ExprNode?
    ensures n.expr.Name? && Wanted(target, n.expr.id) ==>
              Finding(n.expr.pos.line, n.expr.pos.col, n.expr.id, "NameExpr") in Findings(m, target)
    ensures n.expr.Call? && n.expr.func.Name? && Wanted(target, n.expr.func.id) ==>
              Finding(n.expr.pos.line, n.expr.pos.col, n.expr.func.id, "CallExpr") in Findings(m, target)
    ensures n.expr.Attribute? && n.expr.value.Name? && Wanted(target, n.expr.value.id + "." + n.expr.attr) ==>
              Finding(n.expr.pos.line, n.expr.pos.col, n.expr.value.id + "." + n.expr.attr, "AttributeExpr")
                in Findings(m, target)
  {
    var rec := (n: Node) => FinderRecord(target, n);
    var nodes := PreOrder(m);
    var i :| 0 <= i < |nodes| && nodes[i] == n;
    var fs := FinderRecord(target, n);
    if fs != [] {
      FlatMapMember(rec, nodes, fs[0]);
    }
  }

  /** A call on a plain name is entered twice in a row, first as the call and then, its
      callee being its first child, as the name. */
  lemma CallThenCallee(target: Option<string>, pos: Pos, calleePos: Pos, id: string,
                       args: seq<Expr>, kws: seq<Keyword>)
    requires Wanted(target, id)
    ensures var call := Call(pos, Name(calleePos, id), args, kws);
            var rs := FlatMap((n: Node) => FinderRecord(target, n), ExprNodes(call));
            |rs| >= 2 &&
            rs[..2] == [Finding(pos.line, pos.col, id, "CallExpr"), Finding(calleePos.line, calleePos.col, id, "NameExpr")]
  {
    var rec := (n: Node) => FinderRecord(target, n);
    var call := Call(pos, Name(calleePos, id), args, kws);
    var rest := ExprListNodes(args) + KeywordListNodes(kws);
    assert ExprNodes(Name(calleePos, id)) == [ExprNode(Name(calleePos, id))];
    assert ExprNodes(call) == [ExprNode(call)] + ([ExprNode(Name(calleePos, id))] + rest);
    FlatMapCons(rec, ExprNode(call), [ExprNode(Name(calleePos, id))] + rest);
    FlatMapCons(rec, ExprNode(Name(calleePos, id)), rest);
  }

  // ---------------------------------------------------------------------------------------
  // resolve_import

  /** The file an imported name would live in: the current file's directory joined with the
      name, dots turned into separators, plus `.py`. */
  function Candidate(current: Path, name: string): Path
  {
    PathJoin(Dirname(current), ReplaceChar(name, '.', '/') + ".py")
  }

  function ResolveImport(fs: FileSystem, current: Path, name: string): (r: Option<Path>)
    ensures r.Some? <==> Candidate(current, name) in fs.files
    ensures r.Some? ==> r.value == Candidate(current, name) && r.value in fs.files
  {
    var p := Candidate(current, name);
    if p in fs.files then Some(p) else None
  }

  /** The candidate always names a `.py` file. */
  lemma CandidateIsPy(current: Path, name: string)
    ensures EndsWith(Candidate(current, name), ".py")
  {
    var tail := ReplaceChar(name, '.', '/') + ".py";
    var p := Candidate(current, name);
    assert p[|p| - |tail|..] == tail;
    assert p[|p| - 3..] == p[|p| - |tail|..][|tail| - 3..];
  }

  /** For a file in the working directory the candidate is the dotted name spelled as a path:
      the last segment becomes the file name, so `from b import Widget` is looked up as
      `b/Widget.py`. */
  lemma CandidateLocal(current: Path, name: string)
    requires '/' !in current
    ensures Candidate(current, name) == ReplaceChar(name, '.', '/') + ".py"
  {
    assert RFind(current, '/') == -1;
    assert Dirname(current) == "";
  }

  // ---------------------------------------------------------------------------------------
  // dora

  /** A result tuple: a finder entry with the source file looked up in the import map. */
  datatype Row = Row(line: LineNo, col: nat, name: string, exprType: string, sourceFile: string)

  /** `import_map.get(name, filename)`. */
  function SourceOf(importMap: map<string, string>, name: string, filename: Path): string
  {
    if name in importMap then importMap[name] else filename
  }

  function Tagged(fs: seq<Finding>, importMap: map<string, string>, filename: Path): (r: seq<Row>)
    ensures |r| == |fs|
  {
    if fs == [] then []
    else
      var f := fs[|fs| - 1];
      Tagged(fs[..|fs| - 1], importMap, filename) + [Row(f.line, f.col, f.name, f.exprType, SourceOf(importMap, f.name, filename))]
  }

  /** Each row is its entry with the source file the map held for the name when it was
      looked up, the file itself when the map had no binding. */
  lemma {:induction false} TaggedAt(fs: seq<Finding>, importMap: map<string, string>, filename: Path, k: nat)
    requires k < |fs|
    ensures var f := fs[k];
            Tagged(fs, importMap, filename)[k] == Row(f.line, f.col, f.name, f.exprType, SourceOf(importMap, f.name, filename))
    decreases |fs|
  {
    if k < |fs| - 1 {
      TaggedAt(fs[..|fs| - 1], importMap, filename, k);
    }
  }

  /** One binding of the import loop over the top-level statements: the key `asname or name`,
      the qualified name it is bound to, and whether it came from a from-import, the only
      kind that is followed. */
  datatype ImportItem = ImportItem(key: string, qualified: string, fromImport: bool)

  /** `module.name`, or the bare name for a from-import without a module. */
  function QualifiedName(fromModule: Option<string>, name: string): string
  {
    match fromModule
    case Some(mod) => mod + "." + name
    case None => name
  }

  function ItemOf(s: Stmt, a: Alias): ImportItem
    requires s.Import? || s.ImportFrom?
  {
    if s.Import? then ImportItem(a.Bound(), a.name, false)
    else ImportItem(a.Bound(), QualifiedName(s.fromModule, a.name), true)
  }

  /** Whether the loop follows the item: a from-import whose qualified name is wanted and
      whose candidate file exists. */
  predicate Followed(fs: FileSystem, target: Option<string>, current: Path, it: ImportItem)
  {
    it.fromImport && Wanted(target, it.qualified) && ResolveImport(fs, current, it.qualified).Some?
  }

  /** What a call of `dora` leaves behind: whether it ran to the end (a file that cannot be
      opened or parsed raises and ends the whole run), its results, the shared set and map
      afterwards, and the files it entered in order. */
  datatype Outcome = Outcome(ok: bool, results: seq<Row>, visited: set<Path>, importMap: map<string, string>,
                             trace: seq<Path>)

  /** `dora(filename, target, visited, import_map)`: an already visited file gives nothing;
      otherwise the file is marked visited, its finder entries are tagged with the map as it
      is now, and then the import loop runs. */
  function Dora(fs: FileSystem, target: Option<string>, filename: Path, visited: set<Path>,
                importMap: map<string, string>): (r: Outcome)
    ensures visited <= r.visited && filename in r.visited
    ensures importMap.Keys <= r.importMap.Keys
    ensures !r.ok ==> r.results == []
    decreases 2 * |fs.files.Keys - visited| + (if filename in visited then 0 else 1), 0, 0
  {
    if filename in visited then Outcome(true, [], visited, importMap, [])
    else
      var entered := visited + {filename};
      if filename !in fs.files || fs.files[filename].Unparseable? then
        Outcome(false, [], entered, importMap, [filename])
      else
        var tree := fs.files[filename].tree;
        Shrinks(fs.files.Keys, visited, entered, filename);
        var rest := FollowStatements(fs, target, filename, tree.body, entered, importMap);
        Outcome(rest.ok, if rest.ok then Tagged(Findings(tree, target), importMap, filename) + rest.results else [],
                rest.visited, rest.importMap, [filename] + rest.trace)
  }

  /** The import loop over the top-level statements from `body` on; nested statements are
      not scanned. Each statement runs with the set and map the previous one left behind. */
  function FollowStatements(fs: FileSystem, target: Option<string>, current: Path, body: seq<Stmt>,
                            visited: set<Path>, importMap: map<string, string>): (r: Outcome)
    ensures visited <= r.visited
    ensures importMap.Keys <= r.importMap.Keys
    ensures !r.ok ==> r.results == []
    decreases 2 * |fs.files.Keys - visited| + 1, 4, |body|
  {
    if body == [] then Outcome(true, [], visited, importMap, [])
    else
      var sub := StatementOutcome(fs, target, current, body[0], visited, importMap);
      if !sub.ok then sub
      else
        Grows(fs.files.Keys, visited, sub.visited);
        Then(sub, FollowStatements(fs, target, current, body[1..], sub.visited, sub.importMap))
  }

  /** One top-level statement: an import runs the loop over its aliases; any other
      statement binds nothing and follows nothing. */
  function StatementOutcome(fs: FileSystem, target: Option<string>, current: Path, s: Stmt,
                            visited: set<Path>, importMap: map<string, string>): (r: Outcome)
    ensures visited <= r.visited
    ensures importMap.Keys <= r.importMap.Keys
    ensures !r.ok ==> r.results == []
    decreases 2 * |fs.files.Keys - visited| + 1, 3, 0
  {
    if s.Import? || s.ImportFrom? then FollowAliases(fs, target, current, s, s.names, visited, importMap)
    else Outcome(true, [], visited, importMap, [])
  }

  /** The loop over the aliases of an import statement from `names` on. */
  function FollowAliases(fs: FileSystem, target: Option<string>, current: Path, s: Stmt, names: seq<Alias>,
                         visited: set<Path>, importMap: map<string, string>): (r: Outcome)
    requires s.Import? || s.ImportFrom?
    ensures visited <= r.visited
    ensures importMap.Keys <= r.importMap.Keys
    ensures !r.ok ==> r.results == []
    decreases 2 * |fs.files.Keys - visited| + 1, 2, |names|
  {
    if names == [] then Outcome(true, [], visited, importMap, [])
    else
      var sub := Step(fs, target, current, ItemOf(s, names[0]), visited, importMap);
      if !sub.ok then sub
      else
        Grows(fs.files.Keys, visited, sub.visited);
        Then(sub, FollowAliases(fs, target, current, s, names[1..], sub.visited, sub.importMap))
  }

  /** One item of the import loop: bind its key, then follow it when it qualifies. */
  function Step(fs: FileSystem, target: Option<string>, current: Path, it: ImportItem,
                visited: set<Path>, importMap: map<string, string>): (r: Outcome)
    ensures visited <= r.visited
    ensures importMap.Keys + {it.key} <= r.importMap.Keys
    ensures !r.ok ==> r.results == []
    decreases 2 * |fs.files.Keys - visited| + 1, 1, 0
  {
    var bound := importMap[it.key := it.qualified];
    if Followed(fs, target, current, it)
    then Dora(fs, target, ResolveImport(fs, current, it.qualified).value, visited, bound)
    else Outcome(true, [], visited, bound, [])
  }

  /** A successful stretch of the run followed by the next one: the results and entered files
      of both in order, and the state and verdict of the second. */
  function Then(first: Outcome, second: Outcome): Outcome
  {
    Outcome(second.ok, if second.ok then first.results + second.results else [], second.visited,
            second.importMap, first.trace + second.trace)
  }


  // ---------------------------------------------------------------------------------------
  // What the search guarantees

  /** A run that started from the visited set `visited` entered only files that were not yet
      visited, and left exactly those added to the set. */
  predicate Accounted(visited: set<Path>, r: Outcome)
  {
    Fresh(visited, r.trace) && r.visited == After(visited, r.trace)
  }

  lemma ThenAccounted(visited: set<Path>, first: Outcome, second: Outcome)
    requires Accounted(visited, first) && Accounted(first.visited, second)
    ensures Accounted(visited, Then(first, second))
  {
    FreshAppend(visited, first.trace, second.trace);
  }

  lemma {:induction false} DoraAccounted(fs: FileSystem, target: Option<string>, filename: Path,
                                         visited: set<Path>, importMap: map<string, string>)
    ensures var r := Dora(fs, target, filename, visited, importMap);
            Accounted(visited, r) && (filename !in visited ==> r.trace != [] && r.trace[0] == filename)
    decreases 2 * |fs.files.Keys - visited| + (if filename in visited then 0 else 1), 0, 0
  {
    if filename !in visited {
      var entered := visited + {filename};
      var first := Outcome(true, [], entered, importMap, [filename]);
      assert After(entered, []) == entered;
      if filename in fs.files && fs.files[filename].Parsed? {
        var tree := fs.files[filename].tree;
        Shrinks(fs.files.Keys, visited, entered, filename);
        var rest := FollowStatements(fs, target, filename, tree.body, entered, importMap);
        StatementsAccounted(fs, target, filename, tree.body, entered, importMap);
        ThenAccounted(visited, first, rest);
        var r := Dora(fs, target, filename, visited, importMap);
        assert r.trace == Then(first, rest).trace && r.visited == Then(first, rest).visited;
      }
    }
  }

  lemma {:induction false} StatementsAccounted(fs: FileSystem, target: Option<string>, current: Path, body: seq<Stmt>,
                                               visited: set<Path>, importMap: map<string, string>)
    ensures Accounted(visited, FollowStatements(fs, target, current, body, visited, importMap))
    decreases 2 * |fs.files.Keys - visited| + 1, 4, |body|
  {
    if body != [] {
      StatementAccounted(fs, target, current, body[0], visited, importMap);
      var sub := StatementOutcome(fs, target, current, body[0], visited, importMap);
      if sub.ok {
        Grows(fs.files.Keys, visited, sub.visited);
        StatementsAccounted(fs, target, current, body[1..], sub.visited, sub.importMap);
        ThenAccounted(visited, sub, FollowStatements(fs, target, current, body[1..], sub.visited, sub.importMap));
      }
    }
  }

  lemma {:induction false} StatementAccounted(fs: FileSystem, target: Option<string>, current: Path, s: Stmt,
                                              visited: set<Path>, importMap: map<string, string>)
    ensures Accounted(visited, StatementOutcome(fs, target, current, s, visited, importMap))
    decreases 2 * |fs.files.Keys - visited| + 1, 3, 0
  {
    if s.Import? || s.ImportFrom? {
      AliasesAccounted(fs, target, current, s, s.names, visited, importMap);
    }
  }

  lemma {:induction false} AliasesAccounted(fs: FileSystem, target: Option<string>, current: Path, s: Stmt,
                                            names: seq<Alias>, visited: set<Path>, importMap: map<string, string>)
    requires s.Import? || s.ImportFrom?
    ensures Accounted(visited, FollowAliases(fs, target, current, s, names, visited, importMap))
    decreases 2 * |fs.files.Keys - visited| + 1, 2, |names|
  {
    if names != [] {
      StepAccounted(fs, target, current, ItemOf(s, names[0]), visited, importMap);
      var sub := Step(fs, target, current, ItemOf(s, names[0]), visited, importMap);
      if sub.ok {
        Grows(fs.files.Keys, visited, sub.visited);
        AliasesAccounted(fs, target, current, s, names[1..], sub.visited, sub.importMap);
        ThenAccounted(visited, sub, FollowAliases(fs, target, current, s, names[1..], sub.visited, sub.importMap));
      }
    }
  }

  lemma {:induction false} StepAccounted(fs: FileSystem, target: Option<string>, current: Path, it: ImportItem,
                                         visited: set<Path>, importMap: map<string, string>)
    ensures Accounted(visited, Step(fs, target, current, it, visited, importMap))
    decreases 2 * |fs.files.Keys - visited| + 1, 1, 0
  {
    var bound := importMap[it.key := it.qualified];
    if Followed(fs, target, current, it) {
      var next := ResolveImport(fs, current, it.qualified).value;
      DoraAccounted(fs, target, next, visited, bound);
      assert Step(fs, target, current, it, visited, importMap) == Dora(fs, target, next, visited, bound);
    } else {
      assert Step(fs, target, current, it, visited, importMap) == Outcome(true, [], visited, bound, []);
      assert After(visited, []) == visited;
    }
  }

  /** `dora` enters each file at most once: the files it entered are distinct, none was
      visited before the call, and the visited set afterwards is the old one plus exactly
      those files. */
  lemma DoraEntersOnce(fs: FileSystem, target: Option<string>, filename: Path,
                       visited: set<Path>, importMap: map<string, string>)
    ensures var r := Dora(fs, target, filename, visited, importMap);
            NoDuplicates(r.trace) && (forall k :: 0 <= k < |r.trace| ==> r.trace[k] !in visited) &&
            r.visited == After(visited, r.trace) &&
            (filename in visited ==> r.trace == [] && r.results == []) &&
            (filename !in visited ==> r.trace != [] && r.trace[0] == filename)
  {
    var r := Dora(fs, target, filename, visited, importMap);
    DoraAccounted(fs, target, filename, visited, importMap);
    FreshDistinct(visited, r.trace);
  }

  /** `f` is a file of the tree whose finder produced the entry behind `row`. */
  predicate FoundAt(fs: FileSystem, target: Option<string>, f: Path, row: Row)
  {
    f in fs.files && fs.files[f].Parsed? &&
    Finding(row.line, row.col, row.name, row.exprType) in Findings(fs.files[f].tree, target)
  }

  /** `row` comes from the finder of one of the files of `trace`. */
  predicate RowFound(fs: FileSystem, target: Option<string>, trace: seq<Path>, row: Row)
  {
    exists i :: 0 <= i < |trace| && FoundAt(fs, target, trace[i], row)
  }

  /** Every row of `r` comes from the finder of a file the run entered. */
  predicate RowsFound(fs: FileSystem, target: Option<string>, r: Outcome)
  {
    forall k :: 0 <= k < |r.results| ==> RowFound(fs, target, r.trace, r.results[k])
  }

  lemma ThenFound(fs: FileSystem, target: Option<string>, first: Outcome, second: Outcome)
    requires RowsFound(fs, target, first) && RowsFound(fs, target, second)
    ensures RowsFound(fs, target, Then(first, second))
  {
    var r := Then(first, second);
    if !second.ok {
      assert r.results == [];
    } else {
      assert r.results == first.results + second.results;
      assert r.trace == first.trace + second.trace;
      forall k | 0 <= k < |r.results|
        ensures RowFound(fs, target, r.trace, r.results[k])
      {
        if k < |first.results| {
          assert RowFound(fs, target, first.trace, first.results[k]);
          var i :| 0 <= i < |first.trace| && FoundAt(fs, target, first.trace[i], first.results[k]);
          assert r.trace[i] == first.trace[i] && r.results[k] == first.results[k];
        } else {
          var k' := k - |first.results|;
          assert r.results[k] == second.results[k'];
          assert RowFound(fs, target, second.trace, second.results[k']);
          var i :| 0 <= i < |second.trace| && FoundAt(fs, target, second.trace[i], second.results[k']);
          assert r.trace[|first.trace| + i] == second.trace[i];
        }
      }
    }
  }

  /** The rows a file contributes itself are its own findings. */
  lemma OwnRowsFound(fs: FileSystem, target: Option<string>, filename: Path,
                     entered: set<Path>, importMap: map<string, string>)
    requires filename in fs.files && fs.files[filename].Parsed?
    ensures var found := Findings(fs.files[filename].tree, target);
            RowsFound(fs, target, Outcome(true, Tagged(found, importMap, filename), entered, importMap, [filename]))
  {
    var found := Findings(fs.files[filename].tree, target);
    var own := Outcome(true, Tagged(found, importMap, filename), entered, importMap, [filename]);
    forall k | 0 <= k < |own.results|
      ensures FoundAt(fs, target, filename, own.results[k])
    {
      TaggedAt(found, importMap, filename, k);
      assert Finding(own.results[k].line, own.results[k].col, own.results[k].name, own.results[k].exprType) == found[k];
    }
    assert own.trace[0] == filename;
  }

  lemma {:induction false} DoraFound(fs: FileSystem, target: Option<string>, filename: Path,
                                     visited: set<Path>, importMap: map<string, string>)
    ensures RowsFound(fs, target, Dora(fs, target, filename, visited, importMap))
    decreases 2 * |fs.files.Keys - visited| + (if filename in visited then 0 else 1), 0, 0
  {
    if filename !in visited && filename in fs.files && fs.files[filename].Parsed? {
      var entered := visited + {filename};
      var tree := fs.files[filename].tree;
      var found := Findings(tree, target);
      var own := Outcome(true, Tagged(found, importMap, filename), entered, importMap, [filename]);
      OwnRowsFound(fs, target, filename, entered, importMap);
      Shrinks(fs.files.Keys, visited, entered, filename);
      StatementsFound(fs, target, filename, tree.body, entered, importMap);
      ThenFound(fs, target, own, FollowStatements(fs, target, filename, tree.body, entered, importMap));
    }
  }

  lemma {:induction false} StatementsFound(fs: FileSystem, target: Option<string>, current: Path, body: seq<Stmt>,
                                           visited: set<Path>, importMap: map<string, string>)
    ensures RowsFound(fs, target, FollowStatements(fs, target, current, body, visited, importMap))
    decreases 2 * |fs.files.Keys - visited| + 1, 4, |body|
  {
    if body != [] {
      var s := body[0];
      if s.Import? || s.ImportFrom? {
        AliasesFound(fs, target, current, s, s.names, visited, importMap);
      }
      var sub := StatementOutcome(fs, target, current, s, visited, importMap);
      if sub.ok {
        Grows(fs.files.Keys, visited, sub.visited);
        StatementsFound(fs, target, current, body[1..], sub.visited, sub.importMap);
        ThenFound(fs, target, sub, FollowStatements(fs, target, current, body[1..], sub.visited, sub.importMap));
      }
    }
  }

  lemma {:induction false} AliasesFound(fs: FileSystem, target: Option<string>, current: Path, s: Stmt,
                                        names: seq<Alias>, visited: set<Path>, importMap: map<string, string>)
    requires s.Import? || s.ImportFrom?
    ensures RowsFound(fs, target, FollowAliases(fs, target, current, s, names, visited, importMap))
    decreases 2 * |fs.files.Keys - visited| + 1, 2, |names|
  {
    if names != [] {
      StepFound(fs, target, current, ItemOf(s, names[0]), visited, importMap);
      var sub := Step(fs, target, current, ItemOf(s, names[0]), visited, importMap);
      if sub.ok {
        Grows(fs.files.Keys, visited, sub.visited);
        AliasesFound(fs, target, current, s, names[1..], sub.visited, sub.importMap);
        ThenFound(fs, target, sub, FollowAliases(fs, target, current, s, names[1..], sub.visited, sub.importMap));
      }
    }
  }

  lemma {:induction false} StepFound(fs: FileSystem, target: Option<string>, current: Path, it: ImportItem,
                                     visited: set<Path>, importMap: map<string, string>)
    ensures RowsFound(fs, target, Step(fs, target, current, it, visited, importMap))
    decreases 2 * |fs.files.Keys - visited| + 1, 1, 0
  {
    if Followed(fs, target, current, it) {
      DoraFound(fs, target, ResolveImport(fs, current, it.qualified).value, visited, importMap[it.key := it.qualified]);
    }
  }

  /** With a target, every row carries exactly the target name; without one, every row still
      comes from a name, call or attribute node of a file the run entered. */
  lemma DoraRowsWanted(fs: FileSystem, target: Option<string>, filename: Path,
                       visited: set<Path>, importMap: map<string, string>, row: Row)
    requires row in Dora(fs, target, filename, visited, importMap).results
    ensures Wanted(target, row.name)
    ensures exists f :: f in Dora(fs, target, filename, visited, importMap).trace && FoundAt(fs, target, f, row)
  {
    var r := Dora(fs, target, filename, visited, importMap);
    DoraFound(fs, target, filename, visited, importMap);
    var k :| 0 <= k < |r.results| && r.results[k] == row;
    var i :| 0 <= i < |r.trace| && FoundAt(fs, target, r.trace[i], row);
    FindingsSound(fs.files[r.trace[i]].tree, target, Finding(row.line, row.col, row.name, row.exprType));
  }

  /** A file entered for the first time contributes its own rows first, each tagged with the
      import map as it stood on entry, before any of its own imports are bound. */
  lemma DoraOwnRowsFirst(fs: FileSystem, target: Option<string>, filename: Path,
                         visited: set<Path>, importMap: map<string, string>)
    requires filename !in visited && filename in fs.files && fs.files[filename].Parsed?
    requires Dora(fs, target, filename, visited, importMap).ok
    ensures var found := Findings(fs.files[filename].tree, target);
            var rows := Dora(fs, target, filename, visited, importMap).results;
            |found| <= |rows| &&
            forall k :: 0 <= k < |found| ==>
              rows[k] == Row(found[k].line, found[k].col, found[k].name, found[k].exprType,
                             SourceOf(importMap, found[k].name, filename))
  {
    var found := Findings(fs.files[filename].tree, target);
    forall k | 0 <= k < |found| {
      TaggedAt(found, importMap, filename, k);
    }
  }

  /** Every key an import statement of `body` binds, `asname or name`. */
  predicate BindsAll(body: seq<Stmt>, keys: set<string>)
  {
    forall i, j :: 0 <= i < |body| && (body[i].Import? || body[i].ImportFrom?) && 0 <= j < |body[i].names| ==>
      body[i].names[j].Bound() in keys
  }

  lemma {:induction false} AliasesBind(fs: FileSystem, target: Option<string>, current: Path, s: Stmt,
                                       names: seq<Alias>, visited: set<Path>, importMap: map<string, string>)
    requires s.Import? || s.ImportFrom?
    ensures var r := FollowAliases(fs, target, current, s, names, visited, importMap);
            r.ok ==> forall j :: 0 <= j < |names| ==> names[j].Bound() in r.importMap
    decreases |names|
  {
    if names != [] {
      var sub := Step(fs, target, current, ItemOf(s, names[0]), visited, importMap);
      if sub.ok {
        AliasesBind(fs, target, current, s, names[1..], sub.visited, sub.importMap);
        assert forall j :: 1 <= j < |names| ==> names[j] == names[1..][j - 1];
      }
    }
  }

  lemma {:induction false} StatementsBind(fs: FileSystem, target: Option<string>, current: Path, body: seq<Stmt>,
                                          visited: set<Path>, importMap: map<string, string>)
    ensures var r := FollowStatements(fs, target, current, body, visited, importMap);
            r.ok ==> BindsAll(body, r.importMap.Keys)
    decreases |body|
  {
    if body != [] {
      var s := body[0];
      if s.Import? || s.ImportFrom? {
        AliasesBind(fs, target, current, s, s.names, visited, importMap);
      }
      var sub := StatementOutcome(fs, target, current, s, visited, importMap);
      if sub.ok {
        StatementsBind(fs, target, current, body[1..], sub.visited, sub.importMap);
        assert forall i :: 1 <= i < |body| ==> body[i] == body[1..][i - 1];
      }
    }
  }

  /** A run that ends normally leaves every top-level import of the file bound in the map. */
  lemma DoraBindsImports(fs: FileSystem, target: Option<string>, filename: Path,
                         visited: set<Path>, importMap: map<string, string>)
    requires filename !in visited && filename in fs.files && fs.files[filename].Parsed?
    ensures var r := Dora(fs, target, filename, visited, importMap);
            r.ok ==> BindsAll(fs.files[filename].tree.body, r.importMap.Keys)
  {
    StatementsBind(fs, target, filename, fs.files[filename].tree.body, visited + {filename}, importMap);
  }

  /** No from-import of `body` is followed from `current`. */
  predicate NoneFollowed(fs: FileSystem, target: Option<string>, current: Path, body: seq<Stmt>)
  {
    forall i, j :: 0 <= i < |body| && body[i].ImportFrom? && 0 <= j < |body[i].names| ==>
      !Followed(fs, target, current, ItemOf(body[i], body[i].names[j]))
  }

  lemma {:induction false} AliasesAlone(fs: FileSystem, target: Option<string>, current: Path, s: Stmt,
                                        names: seq<Alias>, visited: set<Path>, importMap: map<string, string>)
    requires s.Import? || s.ImportFrom?
    requires forall j :: 0 <= j < |names| ==> !Followed(fs, target, current, ItemOf(s, names[j]))
    ensures var r := FollowAliases(fs, target, current, s, names, visited, importMap);
            r.ok && r.results == [] && r.visited == visited && r.trace == []
    decreases |names|
  {
    if names != [] {
      var sub := Step(fs, target, current, ItemOf(s, names[0]), visited, importMap);
      assert forall j :: 0 <= j < |names[1..]| ==> names[1..][j] == names[j + 1];
      AliasesAlone(fs, target, current, s, names[1..], sub.visited, sub.importMap);
    }
  }

  lemma {:induction false} StatementsAlone(fs: FileSystem, target: Option<string>, current: Path, body: seq<Stmt>,
                                           visited: set<Path>, importMap: map<string, string>)
    requires NoneFollowed(fs, target, current, body)
    ensures var r := FollowStatements(fs, target, current, body, visited, importMap);
            r.ok && r.results == [] && r.visited == visited && r.trace == []
    decreases |body|
  {
    if body != [] {
      var s := body[0];
      if s.Import? || s.ImportFrom? {
        AliasesAlone(fs, target, current, s, s.names, visited, importMap);
      }
      var sub := StatementOutcome(fs, target, current, s, visited, importMap);
      assert forall i :: 0 <= i < |body[1..]| ==> body[1..][i] == body[i + 1];
      StatementsAlone(fs, target, current, body[1..], sub.visited, sub.importMap);
    }
  }

  /** A file none of whose from-imports is wanted and resolves is searched on its own: its
      rows are its own entries tagged with the map it was entered with. */
  lemma DoraAlone(fs: FileSystem, target: Option<string>, filename: Path,
                  visited: set<Path>, importMap: map<string, string>)
    requires filename !in visited && filename in fs.files && fs.files[filename].Parsed?
    requires NoneFollowed(fs, target, filename, fs.files[filename].tree.body)
    ensures var r := Dora(fs, target, filename, visited, importMap);
            r.ok && r.results == Tagged(Findings(fs.files[filename].tree, target), importMap, filename) &&
            r.visited == visited + {filename} && r.trace == [filename]
  {
    StatementsAlone(fs, target, filename, fs.files[filename].tree.body, visited + {filename}, importMap);
  }

  /** A method's verdict, rows and final state are those of the outcome `r`. */
  predicate Mirrors(r: Outcome, ok: bool, rows: seq<Row>, visited: set<Path>, importMap: map<string, string>)
  {
    ok == r.ok && rows == r.results && visited == r.visited && importMap == r.importMap
  }

  /** The remaining loop, run from the current state, yields `rest`; put after the rows
      `done` collected so far it gives `expected`, the outcome of the whole loop. */
  predicate Agrees(rest: Outcome, expected: Outcome, done: seq<Row>)
  {
    rest.ok == expected.ok && rest.visited == expected.visited && rest.importMap == expected.importMap &&
    expected.results == (if rest.ok then done + rest.results else [])
  }

  predicate StatementsContinue(fs: FileSystem, target: Option<string>, current: Path, body: seq<Stmt>,
                               visited: set<Path>, importMap: map<string, string>, expected: Outcome, done: seq<Row>)
  {
    Agrees(FollowStatements(fs, target, current, body, visited, importMap), expected, done)
  }

  predicate AliasesContinue(fs: FileSystem, target: Option<string>, current: Path, s: Stmt, names: seq<Alias>,
                            visited: set<Path>, importMap: map<string, string>, expected: Outcome, done: seq<Row>)
    requires s.Import? || s.ImportFrom?
  {
    Agrees(FollowAliases(fs, target, current, s, names, visited, importMap), expected, done)
  }

  /** The import loop passes statement `i` of the body, an import whose aliases ended with
      verdict `ok`, rows `rows` and the shared state `visited`, `importMap`. */
  lemma StatementAdvance(fs: FileSystem, target: Option<string>, current: Path, body: seq<Stmt>, i: nat,
                         visited: set<Path>, importMap: map<string, string>, expected: Outcome, done: seq<Row>,
                         ok: bool, rows: seq<Row>, visited': set<Path>, importMap': map<string, string>)
    requires i < |body|
    requires StatementsContinue(fs, target, current, body[i..], visited, importMap, expected, done)
    requires Mirrors(StatementOutcome(fs, target, current, body[i], visited, importMap), ok, rows, visited', importMap')
    ensures ok ==> StatementsContinue(fs, target, current, body[i + 1..], visited', importMap', expected, done + rows)
    ensures !ok ==> Mirrors(expected, false, [], visited', importMap')
  {
    assert body[i..][0] == body[i] && body[i..][1..] == body[i + 1..];
    if ok {
      var rest := FollowStatements(fs, target, current, body[i + 1..], visited', importMap');
      if rest.ok {
        assert done + (rows + rest.results) == (done + rows) + rest.results;
      }
    }
  }

  /** The loop over a statement's aliases passes alias `j`, whose step ended with verdict
      `ok`, rows `rows` and the shared state `visited'`, `importMap'`. */
  lemma AliasAdvance(fs: FileSystem, target: Option<string>, current: Path, s: Stmt, names: seq<Alias>, j: nat,
                     visited: set<Path>, importMap: map<string, string>, expected: Outcome, done: seq<Row>,
                     ok: bool, rows: seq<Row>, visited': set<Path>, importMap': map<string, string>)
    requires s.Import? || s.ImportFrom?
    requires j < |names|
    requires AliasesContinue(fs, target, current, s, names[j..], visited, importMap, expected, done)
    requires Mirrors(Step(fs, target, current, ItemOf(s, names[j]), visited, importMap), ok, rows, visited', importMap')
    ensures ok ==> AliasesContinue(fs, target, current, s, names[j + 1..], visited', importMap', expected, done + rows)
    ensures !ok ==> Mirrors(expected, false, [], visited', importMap')
  {
    assert names[j..][0] == names[j] && names[j..][1..] == names[j + 1..];
    if ok {
      var rest := FollowAliases(fs, target, current, s, names[j + 1..], visited', importMap');
      if rest.ok {
        assert done + (rows + rest.results) == (done + rows) + rest.results;
      }
    }
  }

  /** A loop with nothing left to run has produced exactly `done`. */
  lemma StatementsEnd(fs: FileSystem, target: Option<string>, current: Path, visited: set<Path>,
                      importMap: map<string, string>, expected: Outcome, done: seq<Row>)
    requires StatementsContinue(fs, target, current, [], visited, importMap, expected, done)
    ensures Mirrors(expected, true, done, visited, importMap)
  {
  }

  lemma AliasesEnd(fs: FileSystem, target: Option<string>, current: Path, s: Stmt, visited: set<Path>,
                   importMap: map<string, string>, expected: Outcome, done: seq<Row>)
    requires s.Import? || s.ImportFrom?
    requires AliasesContinue(fs, target, current, s, [], visited, importMap, expected, done)
    ensures Mirrors(expected, true, done, visited, importMap)
  {
  }

  /** The visited set and the import map that one run of `dora` and all its recursive calls
      share by reference. */
  class DoraState {
    var visited: set<Path>
    var importMap: map<string, string>

    constructor ()
      ensures visited == {} && importMap == map[]
    {
      visited := {};
      importMap := map[];
    }
  }

  /** `dora`, updating the shared state in place; `ok` is false when the run raised. */
  method RunDora(fs: FileSystem, filename: Path, target: Option<string>, st: DoraState)
    returns (ok: bool, results: seq<Row>)
    modifies st
    ensures Mirrors(Dora(fs, target, filename, old(st.visited), old(st.importMap)), ok, results, st.visited, st.importMap)
    decreases 2 * |fs.files.Keys - st.visited| + (if filename in st.visited then 0 else 1), 0
  {
    if filename in st.visited {
      return true, [];
    }
    ghost var visited0 := st.visited;
    ghost var map0 := st.importMap;
    st.visited := st.visited + {filename};
    if filename !in fs.files || fs.files[filename].Unparseable? {
      return false, [];
    }
    var tree := fs.files[filename].tree;
    var finder := new TypeFinder(target);
    finder.VisitTree(tree);
    var own := TagFindings(finder.results, st.importMap, filename);
    Shrinks(fs.files.Keys, visited0, st.visited, filename);
    ghost var rest := FollowStatements(fs, target, filename, tree.body, st.visited, map0);
    assert finder.results == Findings(tree, target);
    assert own == Tagged(Findings(tree, target), map0, filename);
    assert Dora(fs, target, filename, visited0, map0) ==
           Outcome(rest.ok, if rest.ok then own + rest.results else [], rest.visited, rest.importMap,
                   [filename] + rest.trace);
    var imported;
    ok, imported := ScanImports(fs, filename, target, st, tree.body);
    results := if ok then own + imported else [];
  }

  /** The result tuples of this file's finder entries, with the map as it is before the
      file's own imports are read. */
  method TagFindings(found: seq<Finding>, importMap: map<string, string>, filename: Path) returns (rows: seq<Row>)
    ensures rows == Tagged(found, importMap, filename)
  {
    rows := [];
    var k := 0;
    while k < |found|
      invariant 0 <= k <= |found|
      invariant rows == Tagged(found[..k], importMap, filename)
    {
      var f := found[k];
      assert found[..k + 1][..k] == found[..k];
      var source := if f.name in importMap then importMap[f.name] else filename;
      rows := rows + [Row(f.line, f.col, f.name, f.exprType, source)];
      k := k + 1;
    }
    assert found[..k] == found;
  }

  /** The import loop over the top-level statements of `filename`. */
  method ScanImports(fs: FileSystem, filename: Path, target: Option<string>, st: DoraState, body: seq<Stmt>)
    returns (ok: bool, imported: seq<Row>)
    requires filename in fs.files && filename in st.visited
    modifies st
    ensures Mirrors(FollowStatements(fs, target, filename, body, old(st.visited), old(st.importMap)),
                    ok, imported, st.visited, st.importMap)
    decreases 2 * |fs.files.Keys - st.visited| + 1, 5
  {
    ghost var expected := FollowStatements(fs, target, filename, body, st.visited, st.importMap);
    ghost var visited0 := st.visited;
    assert body[0..] == body;
    imported := [];
    var i := 0;
    while i < |body|
      invariant 0 <= i <= |body| && visited0 <= st.visited
      invariant StatementsContinue(fs, target, filename, body[i..], st.visited, st.importMap, expected, imported)
    {
      Grows(fs.files.Keys, visited0, st.visited);
      var stmtOk, stmtImported := ScanStatementAt(fs, filename, target, st, body, i, expected, imported);
      if !stmtOk {
        return false, [];
      }
      imported := imported + stmtImported;
      i := i + 1;
    }
    assert body[i..] == [];
    StatementsEnd(fs, target, filename, st.visited, st.importMap, expected, imported);
    ok := true;
  }

  /** Iteration `i` of the loop over a module body: the remaining statements then continue
      to the expected outcome, or the whole search has failed. */
  method ScanStatementAt(fs: FileSystem, filename: Path, target: Option<string>, st: DoraState,
                         body: seq<Stmt>, i: nat, ghost expected: Outcome, ghost done: seq<Row>)
    returns (ok: bool, imported: seq<Row>)
    requires filename in fs.files && filename in st.visited
    requires i < |body|
    requires StatementsContinue(fs, target, filename, body[i..], st.visited, st.importMap, expected, done)
    modifies st
    ensures old(st.visited) <= st.visited
    ensures ok ==> StatementsContinue(fs, target, filename, body[i + 1..], st.visited, st.importMap, expected, done + imported)
    ensures !ok ==> Mirrors(expected, false, [], st.visited, st.importMap)
    decreases 2 * |fs.files.Keys - st.visited| + 1, 4
  {
    ghost var visited, importMap := st.visited, st.importMap;
    var s := body[i];
    if s.Import? || s.ImportFrom? {
      ok, imported := ScanAliases(fs, filename, target, st, s);
    } else {
      ok, imported := true, [];
    }
    StatementAdvance(fs, target, filename, body, i, visited, importMap, expected, done,
                     ok, imported, st.visited, st.importMap);
  }

  /** The aliases of one import statement, following each from-import that qualifies. */
  method ScanAliases(fs: FileSystem, filename: Path, target: Option<string>, st: DoraState, s: Stmt)
    returns (ok: bool, imported: seq<Row>)
    requires s.Import? || s.ImportFrom?
    requires filename in fs.files && filename in st.visited
    modifies st
    ensures Mirrors(FollowAliases(fs, target, filename, s, s.names, old(st.visited), old(st.importMap)),
                    ok, imported, st.visited, st.importMap)
    decreases 2 * |fs.files.Keys - st.visited| + 1, 3
  {
    ghost var expected := FollowAliases(fs, target, filename, s, s.names, st.visited, st.importMap);
    ghost var visited0 := st.visited;
    var names := s.names;
    assert names[0..] == names;
    imported := [];
    var j := 0;
    while j < |names|
      invariant 0 <= j <= |names| && visited0 <= st.visited
      invariant AliasesContinue(fs, target, filename, s, names[j..], st.visited, st.importMap, expected, imported)
    {
      Grows(fs.files.Keys, visited0, st.visited);
      var aliasOk, aliasImported := ScanAliasAt(fs, filename, target, st, s, names, j, expected, imported);
      if !aliasOk {
        return false, [];
      }
      imported := imported + aliasImported;
      j := j + 1;
    }
    assert names[j..] == [];
    AliasesEnd(fs, target, filename, s, st.visited, st.importMap, expected, imported);
    ok := true;
  }

  /** Iteration `j` of the loop over a statement's aliases: the remaining aliases then
      continue to the expected outcome, or the whole search has failed. */
  method ScanAliasAt(fs: FileSystem, filename: Path, target: Option<string>, st: DoraState, s: Stmt,
                     names: seq<Alias>, j: nat, ghost expected: Outcome, ghost done: seq<Row>)
    returns (ok: bool, imported: seq<Row>)
    requires s.Import? || s.ImportFrom?
    requires j < |names|
    requires AliasesContinue(fs, target, filename, s, names[j..], st.visited, st.importMap, expected, done)
    modifies st
    ensures old(st.visited) <= st.visited
    ensures ok ==> AliasesContinue(fs, target, filename, s, names[j + 1..], st.visited, st.importMap, expected, done + imported)
    ensures !ok ==> Mirrors(expected, false, [], st.visited, st.importMap)
    decreases 2 * |fs.files.Keys - st.visited| + 1, 2
  {
    ghost var visited, importMap := st.visited, st.importMap;
    ok, imported := ScanAlias(fs, filename, target, st, s, names[j]);
    AliasAdvance(fs, target, filename, s, names, j, visited, importMap, expected, done,
                 ok, imported, st.visited, st.importMap);
  }

  /** One alias: bind `asname or name`, then, for a from-import whose qualified name is wanted
      and resolves to an existing file, search that file with the shared state. */
  method ScanAlias(fs: FileSystem, filename: Path, target: Option<string>, st: DoraState, s: Stmt, a: Alias)
    returns (ok: bool, imported: seq<Row>)
    requires s.Import? || s.ImportFrom?
    modifies st
    ensures Mirrors(Step(fs, target, filename, ItemOf(s, a), old(st.visited), old(st.importMap)),
                    ok, imported, st.visited, st.importMap)
    decreases 2 * |fs.files.Keys - st.visited| + 1, 1
  {
    var full := if s.Import? then a.name else if s.fromModule.Some? then s.fromModule.value + "." + a.name else a.name;
    StepCases(fs, target, filename, s, a, full, st.visited, st.importMap);
    st.importMap := st.importMap[a.Bound() := full];
    if s.ImportFrom? && (target == None || full == target.value) {
      var resolved := ResolveImport(fs, filename, full);
      if resolved.Some? {
        ok, imported := RunDora(fs, resolved.value, target, st);
        return;
      }
    }
    return true, [];
  }

  /** The step of one alias, spelt out: a plain import only binds its name; a from-import
      binds `module.name` and follows it when it is wanted and resolves. */
  lemma StepCases(fs: FileSystem, target: Option<string>, filename: Path, s: Stmt, a: Alias, full: string,
                  visited: set<Path>, importMap: map<string, string>)
    requires s.Import? || s.ImportFrom?
    requires full == if s.Import? then a.name else QualifiedName(s.fromModule, a.name)
    ensures var bound := importMap[a.Bound() := full];
            Step(fs, target, filename, ItemOf(s, a), visited, importMap) ==
              if s.ImportFrom? && Wanted(target, full) && ResolveImport(fs, filename, full).Some?
              then Dora(fs, target, ResolveImport(fs, filename, full).value, visited, bound)
              else Outcome(true, [], visited, bound, [])
  {
  }

  // ---------------------------------------------------------------------------------------
  // Worked examples

  /** In the two-file example the only from-import binds `Widget` to `b.Widget`, which is
      not the target `Widget`, so nothing is followed. */
  lemma WidgetNotFollowed(fs: FileSystem)
    ensures NoneFollowed(fs, Some("Widget"), "a.py", Samples.WidgetUse.tree.body)
  {
    var body := Samples.WidgetUse.tree.body;
    assert body[0].names == [Alias("Widget", None)];
    assert |QualifiedName(Some("b"), "Widget")| == 8;
    assert !Wanted(Some("Widget"), ItemOf(body[0], body[0].names[0]).qualified);
    assert !body[1].ImportFrom?;
  }

  /** The parameter annotation `x: Widget` is a wanted name. */
  lemma WidgetFound()
    ensures Finding(2, 9, "Widget", "NameExpr") in Findings(Samples.WidgetUse.tree, Some("Widget"))
  {
    Samples.WidgetUseNodes();
    assert ExprNode(Samples.WidgetParam) in PreOrder(Samples.WidgetUse.tree);
    FindingsComplete(Samples.WidgetUse.tree, Some("Widget"), ExprNode(Samples.WidgetParam));
  }

  /** Searching the two-file example for `Widget` from `a.py` stays in `a.py` and tags every
      row, the parameter annotation among them, with `a.py`: the map is read only after the
      rows are tagged, and the import is not followed because its qualified name is
      `b.Widget`. */
  lemma WidgetTaggedLocally()
    ensures var r := Dora(Samples.WidgetProject, Some("Widget"), "a.py", {}, map[]);
            r.ok && r.trace == ["a.py"] && "b.py" !in r.visited &&
            Row(2, 9, "Widget", "NameExpr", "a.py") in r.results &&
            forall k :: 0 <= k < |r.results| ==> r.results[k].sourceFile == "a.py"
  {
    var fs := Samples.WidgetProject;
    var a := fs.files["a.py"];
    assert a == Samples.WidgetUse;
    WidgetNotFollowed(fs);
    DoraAlone(fs, Some("Widget"), "a.py", {}, map[]);
    var found := Findings(a.tree, Some("Widget"));
    forall k | 0 <= k < |found|
      ensures Tagged(found, map[], "a.py")[k].sourceFile == "a.py"
    {
      TaggedAt(found, map[], "a.py", k);
    }
    WidgetFound();
    var k :| 0 <= k < |found| && found[k] == Finding(2, 9, "Widget", "NameExpr");
    TaggedAt(found, map[], "a.py", k);
  }

  /** The file a sibling import `from . import b` in `a.py` resolves to. */
  lemma SiblingCandidate()
    ensures Candidate("a.py", "b") == "b.py"
  {
    CandidateLocal("a.py", "b");
    assert ReplaceChar("b", '.', '/') == "b";
  }

  /** A search from a parsed file whose import loop fails fails too, after that file. */
  lemma DoraFailsAfter(fs: FileSystem, target: Option<string>, filename: Path, rest: Outcome)
    requires filename in fs.files && fs.files[filename].Parsed?
    requires FollowStatements(fs, target, filename, fs.files[filename].tree.body, {filename}, map[]) == rest
    requires !rest.ok
    ensures Dora(fs, target, filename, {}, map[]) == Outcome(false, [], rest.visited, rest.importMap, [filename] + rest.trace)
  {
    assert {} + {filename} == {filename};
  }

  /** A followed file that does not parse ends the whole search: `a.py`'s own rows are
      dropped and the result is a failure. */
  lemma BrokenImportFails(fs: FileSystem)
    requires "a.py" in fs.files && fs.files["a.py"] == Samples.LocalImport
    requires "b.py" in fs.files && fs.files["b.py"].Unparseable?
    ensures var r := Dora(fs, None, "a.py", {}, map[]);
            !r.ok && r.results == [] && r.trace == ["a.py", "b.py"]
  {
    var s := Samples.LocalImport.tree.body[0];
    var it := ItemOf(s, s.names[0]);
    assert it == ImportItem("b", "b", true);
    SiblingCandidate();
    var bound := map["b" := "b"];
    var failed := Outcome(false, [], {"a.py", "b.py"}, bound, ["b.py"]);
    assert Dora(fs, None, "b.py", {"a.py"}, bound) == failed;
    assert Step(fs, None, "a.py", it, {"a.py"}, map[]) == failed;
    assert FollowAliases(fs, None, "a.py", s, s.names, {"a.py"}, map[]) == failed;
    assert FollowStatements(fs, None, "a.py", Samples.LocalImport.tree.body, {"a.py"}, map[]) == failed;
    DoraFailsAfter(fs, None, "a.py", failed);
    assert ["a.py"] + ["b.py"] == ["a.py", "b.py"];
  }
}
