/** The file system the tools read, as data: reading and `ast.parse` are not modelled; each
    existing path holds either its lines and its syntax tree or a parse failure (a
    `SyntaxError` or `UnicodeDecodeError`). */
module Files {
  import opened Ast
  import opened Seqs

  type Path = string

  /** `source.splitlines()` and `ast.parse(source)` of a readable file, or the failure. */
  datatype SourceFile = Parsed(lines: seq<string>, tree: Module) | Unparseable

  /** The existing files; `os.path.exists(p)` is `p in files`. */
  datatype FileSystem = FileSystem(files: map<Path, SourceFile>)

  /** Every node of the tree lies on one of the lines, as it does when both come from the
      same source text. */
  predicate LinesCover(lines: seq<string>, tree: Module)
  {
    forall n | n in PreOrder(tree) :: NodePos(n).line <= |lines|
  }

  predicate WellFormed(fs: FileSystem)
  {
    forall p | p in fs.files && fs.files[p].Parsed? :: LinesCover(fs.files[p].lines, fs.files[p].tree)
  }

  lemma {:induction false} SubsetCard<T>(a: set<T>, b: set<T>)
    requires a <= b
    ensures |a| <= |b|
    decreases |b|
  {
    if a != {} {
      var x :| x in a;
      SubsetCard(a - {x}, b - {x});
      assert a == (a - {x}) + {x};
      assert b == (b - {x}) + {x};
    }
  }

  /** Entering a file of the file system leaves fewer unvisited files: the measure that
      bounds the recursive searches. */
  lemma Shrinks(keys: set<Path>, before: set<Path>, after: set<Path>, f: Path)
    requires before + {f} <= after && f in keys && f !in before
    ensures |keys - after| < |keys - before|
  {
    SubsetCard(keys - after, (keys - before) - {f});
    assert keys - before == ((keys - before) - {f}) + {f};
  }

  lemma Grows(keys: set<Path>, before: set<Path>, after: set<Path>)
    requires before <= after
    ensures |keys - after| <= |keys - before|
  {
    SubsetCard(keys - after, keys - before);
  }

  /** Each file of `trace` was not yet visited when it was entered, starting from the
      visited set `visited`. */
  predicate Fresh(visited: set<Path>, trace: seq<Path>)
    decreases |trace|
  {
    trace == [] || (trace[0] !in visited && Fresh(visited + {trace[0]}, trace[1..]))
  }

  /** The visited set once the files of `trace` have been entered. */
  function After(visited: set<Path>, trace: seq<Path>): (r: set<Path>)
    ensures visited <= r
    decreases |trace|
  {
    if trace == [] then visited else After(visited + {trace[0]}, trace[1..])
  }

  /** Entering one file not visited yet. */
  lemma EnterOne(visited: set<Path>, x: Path)
    requires x !in visited
    ensures Fresh(visited, [x]) && After(visited, [x]) == visited + {x}
  {
    assert [x][1..] == [];
    assert After(visited + {x}, []) == visited + {x};
  }

  lemma {:induction false} FreshAppend(visited: set<Path>, a: seq<Path>, b: seq<Path>)
    requires Fresh(visited, a) && Fresh(After(visited, a), b)
    ensures Fresh(visited, a + b) && After(visited, a + b) == After(After(visited, a), b)
    decreases |a|
  {
    if a != [] {
      assert (a + b)[0] == a[0] && (a + b)[1..] == a[1..] + b;
      FreshAppend(visited + {a[0]}, a[1..], b);
    } else {
      assert a + b == b;
    }
  }

  /** A fresh trace enters no file twice and none of the files visited before. */
  lemma {:induction false} FreshDistinct(visited: set<Path>, trace: seq<Path>)
    requires Fresh(visited, trace)
    ensures NoDuplicates(trace)
    ensures forall k :: 0 <= k < |trace| ==> trace[k] !in visited && trace[k] in After(visited, trace)
    decreases |trace|
  {
    if trace != [] {
      var t := trace[1..];
      FreshDistinct(visited + {trace[0]}, t);
      assert forall k :: 1 <= k < |trace| ==> trace[k] == t[k - 1];
    }
  }
}
