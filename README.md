# Type-reference search over Python syntax trees

This project models four versions of a command-line tool that finds where a type name is
referenced in Python source files. Each version walks the parsed syntax tree of a file and
reports the places a type appears. The later versions also follow imports into other files.

- `poogle.py` collects every annotation of a file: parameters, return types, annotated
  assignments, type comments and class bases. It keeps those where a structural matcher finds
  the searched name. The matcher looks inside generics, tuples, lists, `|` unions and
  call-style aliases (module `Poogle`, with the extraction order in module `Annotations`).
- `second_dora.py` works in three steps. It tags each expression with a kind, renders
  annotations as qualified names, and infers a naive type for every call, name, attribute,
  subscript and constant. It then builds an import alias table. Last, it keeps the entries
  whose type string equals the target, cuts the matching snippet out of the source line, and
  can highlight that snippet with colour codes (module `SecondDora`).
- `poogle2.py` contains `dora`. It finds names, calls and attributes, and follows
  `from … import` statements into the imported file. A visited set and an import map are
  shared by reference across the recursion (module `Poogle2`).
- `poogle3.py` is a stateful analyzer. A visitor records annotated assignments, class
  definitions and calls. An import tracker maps imported names to `.py` paths. A
  `TypeAnalyzer` holds the analyzed-files set and an append-only list of locations, follows
  every location whose name the import map knows, and formats each location as a
  four-line report (module `Poogle3`).

Shared modules:
- `Ast` is the syntax tree. Every node carries its position. `PreOrder` is the order in
  which a `NodeVisitor` meets the nodes, and `Walk` is the breadth-first order of `ast.walk`.
- `Files` is the file system. It is a map from path to the file's lines and parsed tree, or
  to an unparseable marker. It also holds the visited-set bookkeeping.
- `Bindings` covers dictionary assignment in order.
- `Text` holds Python's string and path operations: slicing, `split`, `strip`, `join`,
  `os.path`, `pathlib`.
- `Seqs` holds `FlatMap`, `Map` and `FilterMap`.
- `Wrappers` holds `Option`.
- `Samples` holds three small concrete projects, with the pre-order of their nodes. The worked
  examples in `Poogle2` and `Poogle3` search them.

Each visitor is a class whose methods append to its list. Each method is proved against the
`FlatMap` of a per-node record over `PreOrder`. The recursive searches (`dora` and
`analyze_file`) are methods that update a shared state object. Each is proved equal to a
recursive specification function, and the properties of those functions are proved as
lemmas: visited-once, prefix preservation, which imports are followed, and where results
come from.

## Model

| member | source | states |
|---|---|---|
| Poogle.Spine | poogle.py:26-45 | the sub-expressions the matcher descends into start with the annotation itself |
| Poogle.MatchesIffNamedLeaf | poogle.py:26-45 | an annotation matches a target exactly when some node the matcher reaches is a Name with that id or an Attribute with that last part |
| Poogle.LeafSpine | poogle.py:30-33 | for a Name or Attribute the matcher's verdict is whether that leaf names the target |
| Poogle.AnyMatchesIffNamedLeaf | poogle.py:35-44 | `any` over a list of annotations matches exactly when one reachable leaf names the target |
| Poogle.AnyMatchesIffSome | poogle.py:37-44 | the `any(...)` over elements is true exactly when some element matches |
| Poogle.MatchLeafRules | poogle.py:30-33 | a Name matches iff its id is the target; an Attribute matches iff its attr is the target, whatever the qualifier |
| Poogle.MatchContainerRules | poogle.py:34-39 | a Subscript matches iff its base or slice matches; a Tuple or List iff some element does; empty ones never match |
| Poogle.MatchOperatorRules | poogle.py:40-44 | a BinOp matches only with `\|` and then iff a side matches; a Call iff its callee or a positional argument matches, keywords ignored |
| Poogle.OtherKindsNeverMatch | poogle.py:45 | every node kind the matcher does not handle is never a match |
| Poogle.AnnotationVisitor.constructor | poogle.py:52-54 | the visitor starts with no annotations |
| Poogle.AnnotationVisitor.VisitFunctionDef | poogle.py:55-66 | a (possibly async) function appends its positional, then keyword-only parameter annotations, then its return annotation |
| Poogle.AnnotationVisitor.VisitAnnAssign | poogle.py:68-71 | an annotated assignment appends its annotation |
| Poogle.AnnotationVisitor.VisitAssign | poogle.py:73-83 | an assignment with a parsed type comment appends the comment once per plain-name target |
| Poogle.AnnotationVisitor.VisitClassDef | poogle.py:85-89 | a class appends each base, in order |
| Poogle.AnnotationVisitor.Visit | poogle.py:55-91 | one visit appends exactly what that node's handler records, nothing for other kinds |
| Poogle.AnnotationVisitor.VisitNodes | poogle.py:55-91 | visiting nodes in turn appends their records in that order |
| Poogle.AnnotationVisitor.VisitTree | poogle.py:91 | visiting the tree appends the records of every node in NodeVisitor order |
| Poogle.ExtractAnnotations | poogle.py:47-92 | the extracted list is each statement's own entries followed by those of its nested statements, in source order |
| Annotations.VisitorRecordsStructure | poogle.py:47-92 | the record of the generic pre-order traversal equals the structural definition: a statement's own entries, then its body's |
| Annotations.StmtListRecords | poogle.py:91 | the traversal of a statement list records the structural entries of that list |
| Annotations.StmtRecords | poogle.py:91 | a statement's traversal records its own entries followed by those of its body |
| Annotations.ChildRecords | poogle.py:91 | the expression children of a statement record nothing; only its nested statements do |
| Annotations.FunctionDefRecords | poogle.py:55-66 | below a function only its body records anything: parameters, decorators and return annotation are expressions |
| Annotations.ClassDefRecords | poogle.py:85-89 | below a class only its body records anything: bases, keywords and decorators are expressions |
| Annotations.OtherStmtRecords | poogle.py:91 | below any other compound statement only its nested statements record anything |
| Annotations.LeafRecords | poogle.py:68-83 | nothing below an assignment or an import records anything |
| Annotations.SplitRecords | poogle.py:91 | nodes made only of expressions around a block of statements record nothing |
| Annotations.ExprOnlyExprs | poogle.py:91 | the traversal below an expression meets only expressions, never a statement |
| Poogle.StmtListSitesAppend | poogle.py:47-92 | the entries of consecutive statements are those of each, in order |
| Poogle.ParamSitesAppend | poogle.py:57-59 | the parameter entries of two parameter lists are those of each, in order |
| Poogle.FunctionSitesOrder | poogle.py:55-66 | a function records positional annotations, then keyword-only ones, then the return annotation, then its body's entries |
| Poogle.ParamSitesExact | poogle.py:57-59 | a parameter list contributes exactly the annotations of the parameters that have one |
| Poogle.BaseSitesInOrder | poogle.py:85-89 | a class contributes exactly one entry per base, at the base's index |
| Poogle.SearchFile | poogle.py:94-106 | the loop returns the matches of the specification: nothing for an unparseable file, else every matching annotation |
| Poogle.MatchesAreMatchingSites | poogle.py:99-103 | the matches are exactly the extracted annotations that match, in extraction order, each tagged with the target |
| Poogle.DictStrInt | poogle.py:34-37 | `Dict[str, int]` is found by searches for `int`, `str` and `Dict` and not for `float` |
| Poogle.UnionWithNone | poogle.py:40-42 | `int \| None` is found by a search for `int`, but not for `None`, which parses as a constant |
| Poogle.NoMatchInStrFunction | poogle.py:94-106 | `def f(x: str) -> str` holds no match for `int` |
| SecondDora.TagIsInferredType | second_dora.py:39-74 | for constants and the operator-like kinds, the tag is the inferred type followed by `Expr` |
| SecondDora.InferredTypeKinds | second_dora.py:255-291 | names, attributes and subscripts infer their rendering; a call never infers the empty string; other kinds infer `Unknown` and are tagged with their own class name |
| SecondDora.FqnList | second_dora.py:91-96 | rendering the elements of a tuple or list gives one string per element |
| SecondDora.DottedNameRendering | second_dora.py:80-84 | a dotted name renders as its parts joined by `.` and is never empty |
| SecondDora.DottedNameRoundTrip | second_dora.py:80-84 | splitting a dotted name's rendering at `.` gives back its parts |
| SecondDora.RenderingExamples | second_dora.py:80-96 | `f().x` renders as `x`; `List[int]` and `Dict[str, int]` render as written |
| SecondDora.AliasBindings | second_dora.py:135-165 | an import statement makes one assignment per alias |
| SecondDora.ExtractImports | second_dora.py:128-166 | the loop builds exactly the alias table of the module's top-level import statements |
| SecondDora.BindAliases | second_dora.py:136-165 | the inner loop assigns each alias of one import statement in order |
| SecondDora.AliasBindingsStep | second_dora.py:136-146 | one more alias appends that alias's assignment |
| SecondDora.AssignmentsStep | second_dora.py:134-165 | one more top-level statement appends that statement's assignments |
| SecondDora.AliasBindingsAssign | second_dora.py:138-152 | an import statement assigns a key exactly when one of its aliases has that key, `asname` or else the name |
| SecondDora.AssignsAppend | second_dora.py:134-165 | an assignment list made of two parts assigns a key iff one of the parts does |
| SecondDora.ImportsNameSnoc | second_dora.py:134-165 | a key is imported by a list of statements iff it is imported by all but the last one or by the last one |
| SecondDora.AssignmentsAssign | second_dora.py:134-165 | the top-level statements assign a key exactly when some import among them binds it |
| SecondDora.AliasTableKeys | second_dora.py:134-135 | a name is in the table exactly when a direct child of the module imports it; nested imports are ignored |
| SecondDora.AppendedStatement | second_dora.py:146-165 | a later import overwrites earlier bindings of its names; a later non-import changes nothing |
| SecondDora.LastFromImportBinds | second_dora.py:148-165 | a final `from m import n [as a]` binds `a`, else `n`, to `m.n` |
| SecondDora.LastLocalImportBinds | second_dora.py:148-165 | a final `from . import n [as a]` binds `a`, else `n`, to `n` as a local module whose source is the file's directory made absolute: absolute under an absolute working directory, and the working directory itself for a bare file name |
| SecondDora.LastImportBinds | second_dora.py:135-146 | a final `import a.b [as c]` binds `c`, else `a.b`, to `a.b` |
| SecondDora.FromBindingQualified | second_dora.py:148-165 | `from m import n [as a]` assigns `a`, else `n`, the qualified name `m.n`, whether or not `m` can be imported |
| SecondDora.LastSingleImport | second_dora.py:134-165 | an import of one name as the last statement makes exactly that one assignment on top of the table of the statements before it |
| Text.AbsPath | second_dora.py:160 | an absolute path is kept, the empty directory is the working directory, any other is joined onto it and ends with it |
| SecondDora.ExpressionsExact | second_dora.py:168-198 | an expression is collected iff it is a Call, Name, Attribute, Subscript or Constant that occurs in the tree |
| SecondDora.ExprVisitor.constructor | second_dora.py:172-174 | the visitor starts with no expressions |
| SecondDora.ExprVisitor.Visit | second_dora.py:175-193 | one visit appends the node when it is one of the five recorded kinds |
| SecondDora.ExprVisitor.VisitTree | second_dora.py:197 | visiting the tree appends the recorded expressions in pre-order |
| SecondDora.ExtractExpressions | second_dora.py:168-198 | the list returned is the recorded expressions of the whole tree in pre-order |
| SecondDora.ParamEntriesStep | second_dora.py:210-212 | one more parameter appends an entry exactly when it has an annotation |
| SecondDora.FunctionDefEntries | second_dora.py:208-216 | a function's entries are its parameter annotations, then its return annotation if present |
| SecondDora.CommentEntriesStep | second_dora.py:228-233 | one more target appends the type comment's entry exactly when the target is a plain name and a comment exists |
| SecondDora.BaseEntriesStep | second_dora.py:240-241 | one more base appends that base's entry |
| SecondDora.NodeEntriesStep | second_dora.py:207-244 | one more visited node appends that node's entries |
| SecondDora.AnnotationExprVisitor.constructor | second_dora.py:205-207 | the visitor starts with no entries |
| SecondDora.AnnotationExprVisitor.VisitFunctionDef | second_dora.py:208-219 | a function appends its parameter annotations then its return annotation, each with its rendering |
| SecondDora.AnnotationExprVisitor.VisitAnnAssign | second_dora.py:221-224 | an annotated assignment appends its annotation with its rendering |
| SecondDora.AnnotationExprVisitor.VisitAssign | second_dora.py:226-236 | an assignment appends its parsed type comment once per plain-name target |
| SecondDora.AnnotationExprVisitor.VisitClassDef | second_dora.py:238-242 | a class appends each base with its rendering, in order |
| SecondDora.AnnotationExprVisitor.Visit | second_dora.py:207-244 | one visit appends exactly that node's annotation entries |
| SecondDora.AnnotationExprVisitor.VisitNodes | second_dora.py:207-244 | visiting the nodes in turn appends their entries in that order |
| SecondDora.AnnotationExprVisitor.VisitTree | second_dora.py:244 | visiting the tree appends the annotation entries in visit order |
| SecondDora.ExtractAnnotationsAndExprs | second_dora.py:200-253 | the entries are all annotation entries, then all recorded expressions with their inferred types |
| SecondDora.AppendExprEntries | second_dora.py:247-251 | the second loop appends each expression with its inferred type, in order |
| SecondDora.EntriesOrder | second_dora.py:200-253 | annotation entries come first and keep their order; expression entries follow and keep theirs |
| SecondDora.KeptStep | second_dora.py:311-339 | one more entry adds its rendering exactly when it passes the filter |
| SecondDora.Describe | second_dora.py:315-339 | the loop body produces the rendering of one kept entry |
| SecondDora.SearchFile | second_dora.py:296-342 | the result is nothing for an unparseable file, else every kept entry rendered, in order |
| SecondDora.OccurrencesFiltered | second_dora.py:327-328 | with a non-empty target the occurrences are exactly the entries whose type string equals it, in order |
| SecondDora.NoTargetKeepsAll | second_dora.py:327-328 | with no target or an empty one every entry is reported, in order |
| SecondDora.SnippetShape | second_dora.py:324-337 | the snippet starts at the column of its source line and is at most as wide as the end column allows; past the end of the file both are empty |
| SecondDora.ImportSourceShape | second_dora.py:316-320 | an imported Name reports the basename of a `.py` source, else the source; anything else reports none |
| SecondDora.Colorize | second_dora.py:293-294 | the result is the code, the text, and the reset code, each recoverable |
| SecondDora.HighlightRestores | second_dora.py:344-351 | when the line holds the snippet at the column, removing the two codes restores the line |
| SecondDora.RenderHighlightRestores | second_dora.py:332-351 | every rendered occurrence can be highlighted in its line and restored |
| SecondDora.OccurrenceHighlightRestores | second_dora.py:296-351 | every reported occurrence highlights and restores its own source line |
| SecondDora.KeptSound | second_dora.py:311-339 | every reported occurrence is the rendering of an entry whose type passed the filter |
| Poogle2.FindingsInStep | poogle2.py:12-28 | visiting one more node appends that node's findings |
| Poogle2.TypeFinder.constructor | poogle2.py:8-10 | the finder starts with its target and no results |
| Poogle2.TypeFinder.VisitName | poogle2.py:12-15 | a Name is recorded under its id only when it is wanted |
| Poogle2.TypeFinder.VisitCall | poogle2.py:17-21 | a Call is recorded under its callee's id only when the callee is a plain Name that is wanted |
| Poogle2.TypeFinder.VisitAttribute | poogle2.py:23-28 | an Attribute of a plain Name is recorded under `value.attr` only when that is wanted |
| Poogle2.TypeFinder.Visit | poogle2.py:12-28 | one visit appends exactly that node's findings |
| Poogle2.TypeFinder.VisitTree | poogle2.py:45-46 | visiting the tree appends the findings of every node in pre-order |
| Poogle2.FindingsSound | poogle2.py:12-28 | every finding is wanted and comes from a node of the right kind, name and position in the tree |
| Poogle2.FindingsComplete | poogle2.py:12-28 | every wanted Name, Call of a plain Name and Attribute of a plain Name in the tree has its finding |
| Poogle2.CallThenCallee | poogle2.py:17-21 | a wanted call on a plain name yields the call's finding and then the callee Name's finding |
| Poogle2.ResolveImport | poogle2.py:76-82 | the result is the candidate path exactly when it exists, else none |
| Poogle2.CandidateIsPy | poogle2.py:79 | the candidate path always ends in `.py` |
| Poogle2.CandidateLocal | poogle2.py:78-79 | for a file in the working directory the candidate is the dotted name with `/` for `.`, plus `.py` |
| Poogle2.Tagged | poogle2.py:48-51 | there is one result per finding |
| Poogle2.TaggedAt | poogle2.py:49-51 | each result is its finding with `import_map.get(name, filename)` as its source |
| Poogle2.Dora | poogle2.py:30-74 | the visited set only grows and ends holding the file; bound names stay bound; a run that raised returns no rows |
| Poogle2.FollowStatements | poogle2.py:54-72 | the import loop only grows the visited set and the map's keys, and a raised run returns no rows |
| Poogle2.StatementOutcome | poogle2.py:55-72 | one top-level statement only grows the visited set and the map's keys |
| Poogle2.FollowAliases | poogle2.py:56-72 | the loop over a statement's aliases only grows the visited set and the map's keys |
| Poogle2.Step | poogle2.py:57-72 | one alias always binds its key, and only grows the visited set |
| Poogle2.ThenAccounted | poogle2.py:30-74 | two fresh runs in sequence form one fresh run |
| Poogle2.DoraAccounted | poogle2.py:36-74 | `dora` enters only files not yet visited, and the visited set grows by exactly those files |
| Poogle2.StatementsAccounted | poogle2.py:54-72 | the import loop enters only unvisited files |
| Poogle2.StatementAccounted | poogle2.py:55-72 | one statement of the loop enters only unvisited files |
| Poogle2.AliasesAccounted | poogle2.py:56-72 | the loop over a statement's aliases enters only unvisited files |
| Poogle2.StepAccounted | poogle2.py:57-72 | one alias enters only unvisited files |
| Poogle2.DoraEntersOnce | poogle2.py:36-39 | the run enters distinct, previously unvisited files; a visited file gives nothing, else it is entered first |
| Poogle2.ThenFound | poogle2.py:72 | rows found by two runs in sequence come from files one of them entered |
| Poogle2.OwnRowsFound | poogle2.py:48-51 | a file's own rows come from its own findings |
| Poogle2.DoraFound | poogle2.py:30-74 | every result row comes from the finder of a file the run entered |
| Poogle2.StatementsFound | poogle2.py:54-72 | every row of the import loop comes from an entered file |
| Poogle2.AliasesFound | poogle2.py:56-72 | every row of an alias loop comes from an entered file |
| Poogle2.StepFound | poogle2.py:68-72 | every row of one followed import comes from an entered file |
| Poogle2.DoraRowsWanted | poogle2.py:12-28 | every row carries a wanted name and comes from a name, call or attribute of an entered file |
| Poogle2.DoraOwnRowsFirst | poogle2.py:48-54 | a newly entered file's own rows come first, tagged with the map as it was before that file's imports |
| Poogle2.AliasesBind | poogle2.py:56-66 | after the alias loop each alias's key is bound |
| Poogle2.StatementsBind | poogle2.py:54-66 | after the import loop every top-level import's key is bound |
| Poogle2.DoraBindsImports | poogle2.py:54-66 | a finished run leaves every top-level import of the file bound in the map |
| Poogle2.AliasesAlone | poogle2.py:56-72 | an alias loop that follows nothing adds no rows and visits nothing |
| Poogle2.StatementsAlone | poogle2.py:54-72 | an import loop that follows nothing adds no rows and visits nothing |
| Poogle2.DoraAlone | poogle2.py:36-74 | a file with no followed import yields exactly its own tagged findings and enters only itself |
| Poogle2.StatementAdvance | poogle2.py:54-72 | passing one statement of the loop keeps the loop on course to the expected outcome |
| Poogle2.AliasAdvance | poogle2.py:56-72 | passing one alias keeps the loop on course to the expected outcome |
| Poogle2.StatementsEnd | poogle2.py:54-74 | an exhausted statement loop has produced exactly the rows collected |
| Poogle2.AliasesEnd | poogle2.py:56-72 | an exhausted alias loop has produced exactly the rows collected |
| Poogle2.DoraState.constructor | poogle2.py:31-34 | a fresh run starts with an empty visited set and an empty import map |
| Poogle2.RunDora | poogle2.py:30-74 | the verdict, rows, visited set and import map are those of the recursive specification |
| Poogle2.TagFindings | poogle2.py:48-51 | the loop builds exactly the tagged rows of the findings |
| Poogle2.ScanImports | poogle2.py:54-72 | the loop over top-level statements ends as the specification's import loop does |
| Poogle2.ScanStatementAt | poogle2.py:55-72 | one iteration keeps the loop on course or ends the run as the specification does |
| Poogle2.ScanAliases | poogle2.py:56-72 | the loop over a statement's aliases ends as the specification's does |
| Poogle2.ScanAliasAt | poogle2.py:56-72 | one alias iteration keeps the loop on course or ends the run |
| Poogle2.ScanAlias | poogle2.py:57-72 | one alias binds `asname or name` and, when wanted and resolved, runs `dora` on the imported file |
| Poogle2.StepCases | poogle2.py:57-72 | a plain import only binds its name; a from-import binds `module.name` and follows it iff wanted and resolved |
| Poogle2.WidgetNotFollowed | poogle2.py:58-68 | `from b import Widget` binds `Widget` to `b.Widget`, which a search for `Widget` does not follow |
| Poogle2.WidgetFound | poogle2.py:12-15 | the parameter annotation `x: Widget` is a finder entry for `Widget` at line 2, column 9 |
| Poogle2.WidgetTaggedLocally | poogle2.py:47-51 | in the two-file example the search for `Widget` enters only `a.py` and tags every row, the parameter's among them, with `a.py` and not with `b.py` |
| Poogle2.SiblingCandidate | poogle2.py:76-79 | `from . import b` in `a.py` resolves to `b.py` |
| Poogle2.DoraFailsAfter | poogle2.py:36-74 | when the import loop of a parsed first file fails, the run fails after entering that file, with no rows |
| Poogle2.BrokenImportFails | poogle2.py:40-44 | a followed file that does not parse ends the whole search with no rows, after entering both files |
| Poogle3.LocationsAtDescribe | poogle3.py:23-56 | a node yields a location exactly when the location describes it: an AnnAssign with a plain-name annotation, a ClassDef, or a Call on a plain name |
| Poogle3.NodeLocationsStep | poogle3.py:17-56 | visiting one more node appends that node's locations |
| Poogle3.NodeLocationsNone | poogle3.py:17-56 | nodes none of which yields a location yield nothing together |
| Poogle3.NodeLocationsOnly | poogle3.py:17-56 | when only one node yields locations, the nodes together yield exactly those |
| Poogle3.LocationsExact | poogle3.py:17-56 | a location is recorded iff it describes some node of the tree |
| Poogle3.SourceLinesStripped | poogle3.py:31 | every recorded source line is stripped, with no white space at either end |
| Poogle3.TypeVisitor.constructor | poogle3.py:18-21 | the visitor keeps its file and lines and starts with no locations |
| Poogle3.TypeVisitor.VisitAnnAssign | poogle3.py:23-33 | an annotated assignment with a plain-name annotation appends one stripped-line location |
| Poogle3.TypeVisitor.VisitClassDef | poogle3.py:35-44 | every class appends one location under its name |
| Poogle3.TypeVisitor.VisitCall | poogle3.py:46-56 | a call on a plain name appends one location under the callee's id |
| Poogle3.TypeVisitor.Visit | poogle3.py:17-56 | one visit appends exactly that node's locations |
| Poogle3.TypeVisitor.VisitNodes | poogle3.py:17-56 | visiting nodes in turn appends their locations in that order |
| Poogle3.TypeVisitor.VisitTree | poogle3.py:107-108 | visiting the tree appends the locations of every node in pre-order |
| Poogle3.ModulePath | poogle3.py:70-74 | the loop builds the parent directory extended by each part, with `.py` |
| Poogle3.ChildrenJoin | poogle3.py:72-73 | extending a directory by plain parts appends them joined with `/` |
| Poogle3.PlainEnd | poogle3.py:73-74 | a path ending in a plain part is neither `.` nor a directory prefix, so the suffix is appended |
| Poogle3.JoinEndsWith | poogle3.py:72-73 | a joined path ends with its last part |
| Poogle3.ModulePathShape | poogle3.py:69-74 | a dotted module's path is the file's directory, the name with `/` for `.`, then `.py` |
| Poogle3.PlainModulePath | poogle3.py:69-74 | a one-part module imported from a file in the working directory maps to `name.py` |
| Poogle3.FromPairs | poogle3.py:76-77 | a from-import assigns every name, asname ignored, the same module path |
| Poogle3.ImportPairs | poogle3.py:81-87 | a plain import assigns each full dotted name its own module path |
| Poogle3.ImportPairsStep | poogle3.py:81-87 | one more name of a plain import appends its assignment |
| Poogle3.WalkImportsStep | poogle3.py:66-87 | one more walked statement appends that statement's assignments |
| Poogle3.StmtImportsKeys | poogle3.py:67-87 | a statement assigns a name iff it is a from-import with a module, or a plain import, that names it |
| Poogle3.BindPy | poogle3.py:77-87 | assigning `.py` paths keeps every path of the map a `.py` path |
| Poogle3.StmtImportsPy | poogle3.py:74-87 | every path a statement assigns ends in `.py` |
| Poogle3.WalkImportsFrom | poogle3.py:66-87 | every assignment of the walk comes from one walked statement and has a `.py` path |
| Poogle3.TrackedPy | poogle3.py:62-87 | reading a file keeps every path of the map a `.py` path |
| Poogle3.TrackedKeys | poogle3.py:62-87 | a name is a key afterwards iff it was before or an import at any depth assigns it |
| Poogle3.TrackedLastWins | poogle3.py:66-87 | a name maps to the path of the last assignment to it in walk order |
| Poogle3.TrackedUntouched | poogle3.py:62-87 | a name no import of the tree assigns keeps its old path |
| Ast.WalkCoversAll | poogle3.py:66 | `ast.walk` yields exactly the statements at every depth, none missed and none invented |
| Ast.WalkFlat | poogle3.py:66 | `ast.walk` over a module without nested statements meets them in source order |
| Poogle3.ImportTracker.constructor | poogle3.py:59-60 | the tracker starts with an empty map |
| Poogle3.ImportTracker.AnalyzeImports | poogle3.py:62-87 | the map after the walk is the old map updated by every import of the tree in walk order |
| Poogle3.ImportTracker.TrackStmt | poogle3.py:67-87 | one walked statement updates the map by its own assignments |
| Poogle3.ImportTracker.TrackFrom | poogle3.py:69-77 | a from-import with a module assigns each name the module path |
| Poogle3.ImportTracker.TrackImport | poogle3.py:80-87 | a plain import assigns each dotted name its own path |
| Poogle3.Tag | poogle3.py:111-113 | tagging never changes the location's name |
| Poogle3.Analyze | poogle3.py:95-120 | a run never shrinks the analyzed set or the locations list, and the file ends up analyzed |
| Poogle3.Process | poogle3.py:110-118 | the loop never shrinks the analyzed set or the locations list |
| Poogle3.ProcessOne | poogle3.py:111-118 | one iteration never shrinks the analyzed set or the locations list |
| Poogle3.ProcessOneAppends | poogle3.py:115-118 | a location is appended iff the pattern selects it, and its recursive visit follows right after it |
| Poogle3.TagSource | poogle3.py:111-113 | the source file is set iff the map knows the name, to the map's path; it is then followed |
| Poogle3.AnalyzeAccounted | poogle3.py:95-120 | a run enters only files not yet analyzed, and the analyzed set grows by exactly those |
| Poogle3.ProcessAccounted | poogle3.py:110-118 | the location loop enters only files not yet analyzed |
| Poogle3.ProcessOneAccounted | poogle3.py:111-118 | one iteration enters only files not yet analyzed |
| Poogle3.AnalyzeEntersOnce | poogle3.py:96-99 | each file is analyzed at most once; re-entering an analyzed file changes nothing |
| Poogle3.AnalyzeSelects | poogle3.py:95-120 | the old locations stay a prefix, and every appended location is selected by the pattern |
| Poogle3.ProcessSelects | poogle3.py:110-118 | the location loop appends only selected locations and keeps the old ones as a prefix |
| Poogle3.ProcessOneSelects | poogle3.py:111-118 | one iteration appends only selected locations and keeps the old ones as a prefix |
| Poogle3.AnalyzeKeepsPy | poogle3.py:95-120 | a run keeps every path of the import map a `.py` path |
| Poogle3.ProcessKeepsPy | poogle3.py:110-118 | the location loop keeps the map's paths `.py` paths |
| Poogle3.ProcessOneKeepsPy | poogle3.py:111-118 | one iteration keeps the map's paths `.py` paths |
| Poogle3.ProcessAdvance | poogle3.py:110-118 | passing one location keeps the loop on course to the expected outcome, or ends the run as expected |
| Poogle3.TypeAnalyzer.constructor | poogle3.py:90-93 | the analyzer starts with a fresh empty tracker, no analyzed files and no locations |
| Poogle3.TypeAnalyzer.AnalyzeFile | poogle3.py:95-120 | the verdict and the new state are those of the recursive specification, and the shared list is returned |
| Poogle3.TypeAnalyzer.ProcessFound | poogle3.py:110-118 | the loop over the visitor's locations ends as the specification's loop does |
| Poogle3.TypeAnalyzer.ProcessAt | poogle3.py:110-118 | one iteration keeps the loop on course or ends the run as expected |
| Poogle3.TypeAnalyzer.ProcessLocation | poogle3.py:111-118 | one location is tagged, appended when selected, and followed when it has a source file |
| Poogle3.FormatLines | poogle3.py:122-127 | a report splits back into exactly its header, detail, arrow and source lines |
| Poogle3.SourceInfoShown | poogle3.py:123 | the ` from "…"` part appears iff the location has a source file |
| Poogle3.NoQuoteNoContains | poogle3.py:123-125 | a detail without a double quote cannot contain the ` from "` marker |
| Poogle3.ParameterNotRecorded | poogle3.py:23-56 | in the two-file example the parameter annotation `x: Widget` is not a location, so a search for `Widget` from `a.py` finds nothing and never reads `b.py` |
| Poogle3.GetcwdImportsFirst | poogle3.py:69-77 | `from os import getcwd` assigns `getcwd` the path `os.py` next to the importing file |
| Poogle3.GetcwdTracked | poogle3.py:62-87 | after reading the library example the map holds exactly `getcwd` with `os.py` |
| Poogle3.GetcwdLocations | poogle3.py:46-56 | the library example yields one location, the call `getcwd()` on line 2 |
| Poogle3.GetcwdLine | poogle3.py:54 | the call's stripped source line is `getcwd()` |
| Poogle3.AnalyzeParsed | poogle3.py:95-118 | a parsed file not yet analyzed is marked, its imports read, and its locations processed with that state, the file coming first in the trace |
| Poogle3.GetcwdFollowed | poogle3.py:110-118 | the tagged call is appended first, then followed to `os.py`, and the run fails when that file is missing or unparseable |
| Poogle3.AnalyzeEntered | poogle3.py:95-118 | a first file that parses gives the run of its locations, with the file marked and its imports read |
| Poogle3.GetcwdRun | poogle3.py:95-120 | the whole run of the library example when `os.py` cannot be read |
| Poogle3.UnresolvedImportFails | poogle3.py:112-118 | a call of an imported standard-library name is followed to a `.py` file that does not exist, and the run fails after recording the call |

## Where the design and the code differ

The model follows the code. Each item below names the lemma that shows, on a concrete file or
file system, where the code does not do what the tools are meant to do.

- A union with `None` is not found for `None` (poogle.py:40-45). `Poogle.UnionWithNone`
  shows `int | None` found for `int` but not for `None`. `None` parses as a constant, and
  the matcher returns false for every constant (poogle.py:45).
- `poogle3.py` follows every imported name as if its `.py` file existed (poogle3.py:112-118).
  `Poogle3.UnresolvedImportFails` takes `from os import getcwd` followed by `getcwd()`. The
  call is tagged with `os.py` next to the importing file and followed. When that file is
  missing, `open` raises (poogle3.py:63) and the whole run fails, after the call has been
  recorded.
- Across two files, neither later tool links a use to its definition. In the example, `a.py`
  holds `from b import Widget` and `def f(x: Widget) -> None: ...`, and `b.py` defines
  `Widget`. `Poogle2.WidgetTaggedLocally` shows that `poogle2.py` tags the row for
  `x: Widget` with `a.py` (poogle2.py:49-51). The import map is consulted before this
  file's imports are added to it, and what it would hold is the qualified name `b.Widget`, not
  a file. It also never enters `b.py`, because the import's qualified name `b.Widget`
  is not the target `Widget` (poogle2.py:68). `Poogle3.ParameterNotRecorded` shows that
  `poogle3.py` records no location for the annotation, because its visitor knows only
  annotated assignments, classes and calls (poogle3.py:23-56).
- A syntax error in a followed file aborts the whole run, not just that file (poogle2.py:44,
  poogle3.py:64). `Poogle2.BrokenImportFails` shows `from . import b` with an
  unparseable `b.py` ending the search with no rows, `a.py`'s own rows included. For
  `poogle3.py`, `Poogle3.UnresolvedImportFails` covers an unparseable `os.py` as well as a
  missing one.

## Left out

- Command-line handling is not modelled: `argparse`, `sys.argv`, `main`, printing and `find_py_files`. These are input and output glue.
- Reading files and `ast.parse` are not modelled. A file is given as its lines and its parsed tree, or as unparseable. The `SyntaxError` skip in `poogle.py` and `second_dora.py` gives no matches. In `poogle2.py` and `poogle3.py` a missing or unparseable file raises, which is modelled as a run that ends with `ok` false.
- `get_package_info`, `__import__` and `__file__` are foreign calls. They are modelled as a given environment of loadable modules, whose source and package info are opaque values.
- `os.path.exists` is membership in the given file system.
- `os.path.dirname`, `os.path.join`, `os.path.basename` and `pathlib` are modelled as string functions on `/`-separated paths that are already normalised: no empty or `.` segment and no trailing `/`. `pathlib` itself drops empty and `.` segments and keeps `..`; `os.path` normalises nothing except in `abspath`.
- `SecondDora.FromBinding`: `os.path.abspath` is modelled as joining a relative directory onto the environment's working directory (`Text.AbsPath`). The `normpath` step of `abspath`, which removes `.`, `..` and doubled `/`, is not modelled.
- `Poogle3.TypeAnalyzer.AnalyzeFile`: every path, the root included, is taken as already normalised. The analyzed set compares paths as strings, where `poogle3.py` compares `Path` values. So `./a.py` and `a.py` are one file there and two here. A root given as `./a.py` that is reached again as `a.py` is analysed once by `poogle3.py` and twice by the model.
- The lines from `splitlines()` are given alongside the tree. The model assumes every node lies on one of them (`LinesCover`), which is what `poogle3.py` needs to index `source_lines`.
- A constant's `type(value).__name__` is carried as a precomputed string in the node, and so is its `repr`.
- Type comments are carried as an optional pre-parsed expression. `ast.parse` is never asked for type comments, so in practice they are absent.
- The legacy `ast.Index` and `ast.Str` branches of `second_dora.py` are not modelled: current parsers never produce them.
- The `hasattr(node, 'lineno')` skip in `second_dora.py` is not modelled. Every node the lists hold has a position, so it never fires.
- `Poogle3.TypeAnalyzer.ProcessLocation`: `poogle3.py` assigns `source_file` on the visitor's own location object before appending it. The model copies the location as a value, so aliasing between the visitor's list and the analyzer's list is not captured.
- `Poogle3.TypeAnalyzer.AnalyzeFile`: the value a recursive call returns is ignored, as it is in the source. The caller keeps using the shared list.
- The ANSI colour codes are opaque constants. Terminal behaviour is not modelled.
- Nothing in the tool is concurrent or uses floating point.
