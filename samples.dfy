/** Small concrete projects that the worked examples of `Poogle2` and `Poogle3` search. */
module Samples {
  import opened Wrappers
  import opened Ast
  import opened Files

  /** The parameter annotation of the two-file example, `Widget` in `def f(x: Widget)`. */
  const WidgetParam: Expr := Name(Pos(2, 9, None), "Widget")

  /** `a.py` of the two-file example:
        from b import Widget
        def f(x: Widget) -> None: ...                                                     */
  const WidgetUse: SourceFile :=
    Parsed(["from b import Widget", "def f(x: Widget) -> None: ..."],
           Module([ImportFrom(Pos(1, 0, None), Some("b"), [Alias("Widget", None)]),
                   FunctionDef(Pos(2, 0, None), "f", Arguments([], [Arg("x", Some(WidgetParam))], None, [], [], None, []),
                               [OtherStmt(Pos(2, 26, None), "Expr", [Constant(Pos(2, 26, None), "ellipsis", "Ellipsis")], [])],
                               [], Some(Constant(Pos(2, 20, None), "NoneType", "None")), false)]))

  /** `b.py` of the two-file example: `class Widget: ...`. */
  const WidgetDef: SourceFile :=
    Parsed(["class Widget: ..."],
           Module([ClassDef(Pos(1, 0, None), "Widget", [], [],
                            [OtherStmt(Pos(1, 14, None), "Expr", [Constant(Pos(1, 14, None), "ellipsis", "Ellipsis")], [])], [])]))

  /** The two-file example: `a.py` annotates a parameter with a class defined in `b.py`. */
  const WidgetProject: FileSystem := FileSystem(map["a.py" := WidgetUse, "b.py" := WidgetDef])

  /** The call of the library example, `getcwd()`. */
  const GetcwdCall: Expr := Call(Pos(2, 0, None), Name(Pos(2, 0, None), "getcwd"), [], [])

  /** A file using a standard-library name:
        from os import getcwd
        getcwd()                                                                           */
  const GetcwdUse: SourceFile :=
    Parsed(["from os import getcwd", "getcwd()"],
           Module([ImportFrom(Pos(1, 0, None), Some("os"), [Alias("getcwd", None)]),
                   OtherStmt(Pos(2, 0, None), "Expr", [GetcwdCall], [])]))

  /** A file importing a sibling module: `from . import b`. */
  const LocalImport: SourceFile :=
    Parsed(["from . import b"], Module([ImportFrom(Pos(1, 0, None), None, [Alias("b", None)])]))

  /** The nodes a visitor meets in the two-file example's `a.py`, in order. */
  lemma WidgetUseNodes()
    ensures var body := WidgetUse.tree.body;
            var f := body[1];
            PreOrder(WidgetUse.tree) ==
              [StmtNode(body[0]), StmtNode(f), ExprNode(WidgetParam), StmtNode(f.body[0]),
               ExprNode(f.body[0].exprs[0]), ExprNode(f.returnAnnotation.value)]
  {
    var body := WidgetUse.tree.body;
    var f := body[1];
    var ps := f.params;
    assert ArgListNodes(ps.args) == [ExprNode(WidgetParam)] by {
      assert ps.args[1..] == [];
    }
    assert ArgumentsNodes(ps) == [ExprNode(WidgetParam)];
    assert StmtListNodes(f.body) == [StmtNode(f.body[0]), ExprNode(f.body[0].exprs[0])] by {
      assert f.body[0].exprs[1..] == [];
      assert f.body[1..] == [];
    }
    assert StmtNodes(f) == [StmtNode(f), ExprNode(WidgetParam), StmtNode(f.body[0]),
                            ExprNode(f.body[0].exprs[0]), ExprNode(f.returnAnnotation.value)];
    assert body[1..] == [f];
    assert StmtListNodes(body[1..]) == StmtNodes(f) by {
      assert body[1..][1..] == [];
    }
    assert StmtNodes(body[0]) == [StmtNode(body[0])];
    assert PreOrder(WidgetUse.tree) == StmtNodes(body[0]) + StmtListNodes(body[1..]);
  }

  /** The nodes a visitor meets in the library example, in order. */
  lemma GetcwdUseNodes()
    ensures var body := GetcwdUse.tree.body;
            PreOrder(GetcwdUse.tree) ==
              [StmtNode(body[0]), StmtNode(body[1]), ExprNode(GetcwdCall), ExprNode(GetcwdCall.func)]
  {
    var body := GetcwdUse.tree.body;
    assert ExprNodes(GetcwdCall) == [ExprNode(GetcwdCall), ExprNode(GetcwdCall.func)];
    assert ExprListNodes(body[1].exprs) == ExprNodes(GetcwdCall) by {
      assert body[1].exprs[1..] == [];
    }
    assert body[1..] == [body[1]];
    assert StmtNodes(body[1]) == [StmtNode(body[1])] + ExprNodes(GetcwdCall) by {
      assert StmtListNodes(body[1].body) == [];
      assert StmtChildNodes(body[1]) == ExprListNodes(body[1].exprs) + StmtListNodes(body[1].body);
    }
    assert StmtListNodes(body[1..]) == StmtNodes(body[1]) by {
      assert body[1..][1..] == [];
    }
    assert StmtNodes(body[0]) == [StmtNode(body[0])];
    assert PreOrder(GetcwdUse.tree) == StmtNodes(body[0]) + StmtListNodes(body[1..]);
  }
}
