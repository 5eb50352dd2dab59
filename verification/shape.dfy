/** What the normal form keeps: everything except identifiers, string
    contents, definition names, positions and leading docstrings. Two
    definitions with the same normal form have the same shape, so
    structurally different code is never grouped together. */
module Shape {
  import opened PyAst
  import opened Normalizer

  /** The tree with every leading docstring removed. */
  function StripDocs(t: Tree): Tree
    decreases t
  {
    match t
    case Name(_, _) => t
    case Arg(_, _) => t
    case Constant(_) => t
    case Expr(v) => Expr(StripDocs(v))
    case FunctionDef(isAsync, n, a, b, d, r, l, e) =>
      FunctionDef(isAsync, n, StripDocsArgs(a), StripDocsSeq(StripDocstring(b)), StripDocsSeq(d),
                  StripDocsSeq(r), l, e)
    case Node(tag, fs) => Node(tag, StripDocsSeq(fs))
    case List(items) => List(StripDocsSeq(items))
    case Params(a) => Params(StripDocsArgs(a))
  }

  function StripDocsSeq(ts: seq<Tree>): seq<Tree>
    decreases ts
  {
    if |ts| == 0 then [] else [StripDocs(ts[0])] + StripDocsSeq(ts[1..])
  }

  function StripDocsArgs(a: Arguments): Arguments
    decreases a
  {
    Arguments(StripDocsSeq(a.posonly), StripDocsSeq(a.args), StripDocsSeq(a.vararg), StripDocsSeq(a.kwonly),
              StripDocsSeq(a.kwDefaults), StripDocsSeq(a.kwarg), StripDocsSeq(a.defaults))
  }

  /** The tree with identifiers, string contents, definition names and
      positions blanked; parameter annotations are kept as they are. */
  function Erase(t: Tree): Tree
    decreases t
  {
    match t
    case Name(_, c) => Name("", c)
    case Arg(_, ann) => Arg("", ann)
    case Constant(lit) => if lit.StrLit? then Constant(StrLit("", lit.uPrefix)) else t
    case Expr(v) => Expr(Erase(v))
    case FunctionDef(isAsync, _, a, b, d, r, _, _) =>
      FunctionDef(isAsync, "", EraseArgs(a), EraseSeq(b), EraseSeq(d), EraseSeq(r), 0, 0)
    case Node(tag, fs) => Node(tag, EraseSeq(fs))
    case List(items) => List(EraseSeq(items))
    case Params(a) => Params(EraseArgs(a))
  }

  function EraseSeq(ts: seq<Tree>): seq<Tree>
    decreases ts
  {
    if |ts| == 0 then [] else [Erase(ts[0])] + EraseSeq(ts[1..])
  }

  function EraseArgs(a: Arguments): Arguments
    decreases a
  {
    Arguments(EraseSeq(a.posonly), EraseSeq(a.args), EraseSeq(a.vararg), EraseSeq(a.kwonly),
              EraseSeq(a.kwDefaults), EraseSeq(a.kwarg), EraseSeq(a.defaults))
  }

  lemma {:induction false} NormKeepsShape(t: Tree, st: NameMap)
    requires TokensOnly(st)
    ensures Erase(NormTree(t, st).0) == Erase(StripDocs(t))
    decreases t
  {
    match t
    case Name(_, _) =>
    case Arg(_, _) =>
    case Constant(_) =>
    case Expr(v) => NormKeepsShape(v, st);
    case FunctionDef(_, _, a, b, d, r, _, _) =>
      NormArgsKeepsShape(a, st);
      var s1 := NormArgs(a, st).1;
      NormSeqKeepsShape(StripDocstring(b), s1);
      var s2 := NormSeq(StripDocstring(b), s1).1;
      NormSeqKeepsShape(d, s2);
      NormSeqKeepsShape(r, NormSeq(d, s2).1);
    case Node(_, fs) => NormSeqKeepsShape(fs, st);
    case List(items) => NormSeqKeepsShape(items, st);
    case Params(a) => NormArgsKeepsShape(a, st);
  }

  lemma {:induction false} NormSeqKeepsShape(ts: seq<Tree>, st: NameMap)
    requires TokensOnly(st)
    ensures EraseSeq(NormSeq(ts, st).0) == EraseSeq(StripDocsSeq(ts))
    decreases ts
  {
    if |ts| > 0 {
      NormKeepsShape(ts[0], st);
      NormSeqKeepsShape(ts[1..], NormTree(ts[0], st).1);
      var h := NormTree(ts[0], st).0;
      var rest := NormSeq(ts[1..], NormTree(ts[0], st).1).0;
      assert ([h] + rest)[1..] == rest;
      assert StripDocsSeq(ts)[1..] == StripDocsSeq(ts[1..]);
    }
  }

  lemma {:induction false} NormArgsKeepsShape(a: Arguments, st: NameMap)
    requires TokensOnly(st)
    ensures EraseArgs(NormArgs(a, st).0) == EraseArgs(StripDocsArgs(a))
    decreases a
  {
    var s1 := NormSeq(a.posonly, st).1;
    var s2 := NormSeq(a.args, s1).1;
    var s3 := NormSeq(a.vararg, s2).1;
    var s4 := NormSeq(a.kwonly, s3).1;
    var s5 := NormSeq(a.kwDefaults, s4).1;
    var s6 := NormSeq(a.kwarg, s5).1;
    NormSeqKeepsShape(a.posonly, st);
    NormSeqKeepsShape(a.args, s1);
    NormSeqKeepsShape(a.vararg, s2);
    NormSeqKeepsShape(a.kwonly, s3);
    NormSeqKeepsShape(a.kwDefaults, s4);
    NormSeqKeepsShape(a.kwarg, s5);
    NormSeqKeepsShape(a.defaults, s6);
  }

  /** Equal normal forms imply equal shapes once docstrings are dropped:
      operators, node kinds, statement structure, non-string constants and
      parameter annotations all agree. */
  lemma SameNormalFormSameShape(t1: Tree, t2: Tree)
    requires Normalize(t1) == Normalize(t2)
    ensures Erase(StripDocs(t1)) == Erase(StripDocs(t2))
  {
    NormKeepsShape(t1, Fresh);
    NormKeepsShape(t2, Fresh);
  }

  /** `def f(a, b): return a + b` */
  function AddDef(): Tree {
    FunctionDef(false, "f", Arguments([], [Arg("a", []), Arg("b", [])], [], [], [], [], []),
                [Node("Return", [Node("BinOp:Add", [Name("a", Load), Name("b", Load)])])], [], [], 1, 2)
  }

  /** `def f(a, b): return a * b` */
  function MulDef(): Tree {
    FunctionDef(false, "f", Arguments([], [Arg("a", []), Arg("b", [])], [], [], [], [], []),
                [Node("Return", [Node("BinOp:Mult", [Name("a", Load), Name("b", Load)])])], [], [], 1, 2)
  }

  /** Replacing `+` by `*` changes the normal form. */
  lemma OperatorChangesNormalForm()
    ensures Normalize(AddDef()) != Normalize(MulDef())
  {
    NormKeepsShape(AddDef(), Fresh);
    NormKeepsShape(MulDef(), Fresh);
    AddDefErased();
    MulDefErased();
  }

  lemma AddDefErased()
    ensures Erase(StripDocs(AddDef())).body[0].fields[0].tag == "BinOp:Add"
  {
  }

  lemma MulDefErased()
    ensures Erase(StripDocs(MulDef())).body[0].fields[0].tag == "BinOp:Mult"
  {
  }

  // ---------------------------------------------------------------------
  // Different operators serialise and hash apart
  // ---------------------------------------------------------------------

  /** `def f(a, b): return a <op> b`, for the node tag `op` of a binary
      operation. */
  function OpDef(op: string): Tree {
    FunctionDef(false, "f", Arguments([], [Arg("a", []), Arg("b", [])], [], [], [], [], []),
                [Node("Return", [Node(op, [Name("a", Load), Name("b", Load)])])], [], [], 1, 2)
  }

  /** The normalised parameters and operands of `OpDef(op)`. */
  function NormParams(): Arguments {
    Arguments([], [Arg(VarToken(0), []), Arg(VarToken(1), [])], [], [], [], [], [])
  }

  function NormOperands(): seq<Tree> {
    [Name(VarToken(0), Load), Name(VarToken(1), Load)]
  }

  /** The serialisation of the normal form of `OpDef(op)` around the
      operator; neither part depends on `op`. */
  function OpPrefix(): string {
    "FunctionDef(" + Quote(FuncPlaceholder) + ", " + DumpArgs(NormParams()) + ", " + "[" + "Return("
  }

  function OpSuffix(): string {
    "(" + DumpJoin(NormOperands()) + ")" + ")" + "]" + ", " + DumpList([]) + DumpOptional([]) + ")"
  }

  lemma NormSeqOne(t: Tree, st: NameMap)
    requires TokensOnly(st)
    ensures NormSeq([t], st) == ([NormTree(t, st).0], NormTree(t, st).1)
  {
    var s1 := NormTree(t, st).1;
    assert [t][0] == t && [t][1..] == [];
    assert NormSeq([], s1) == ([], s1);
    assert [NormTree(t, st).0] + [] == [NormTree(t, st).0];
  }

  lemma NormSeqTwo(t: Tree, u: Tree, st: NameMap)
    requires TokensOnly(st)
    ensures NormSeq([t, u], st)
              == ([NormTree(t, st).0, NormTree(u, NormTree(t, st).1).0], NormTree(u, NormTree(t, st).1).1)
  {
    var s1 := NormTree(t, st).1;
    assert [t, u][0] == t && [t, u][1..] == [u];
    NormSeqOne(u, s1);
    assert [NormTree(t, st).0] + [NormTree(u, s1).0] == [NormTree(t, st).0, NormTree(u, s1).0];
  }

  /** The normal form of `OpDef(op)`: parameters become `var_0` and
      `var_1`, the name becomes the placeholder, and the operator stays. */
  lemma NormOpDef(op: string)
    ensures Normalize(OpDef(op))
              == FunctionDef(false, FuncPlaceholder, NormParams(),
                             [Node("Return", [Node(op, NormOperands())])], [], [], 1, 2)
  {
    var s1 := NameMap(map["a" := VarToken(0)], 1);
    var s2 := NameMap(map["a" := VarToken(0), "b" := VarToken(1)], 2);
    NormSeqTwo(Arg("a", []), Arg("b", []), Fresh);
    assert NormArgs(OpDef(op).args, Fresh) == (NormParams(), s2);
    var e := Node(op, [Name("a", Load), Name("b", Load)]);
    NormSeqTwo(Name("a", Load), Name("b", Load), s2);
    assert NormTree(e, s2) == (Node(op, NormOperands()), s2);
    NormSeqOne(e, s2);
    NormSeqOne(Node("Return", [e]), s2);
    assert StripDocstring(OpDef(op).body) == OpDef(op).body;
  }

  lemma DumpNormOpDefOuter(op: string)
    ensures NormalizeAst(OpDef(op))
              == "FunctionDef(" + Quote(FuncPlaceholder) + ", " + DumpArgs(NormParams()) + ", "
                 + DumpList([Node("Return", [Node(op, NormOperands())])])
                 + (", " + DumpList([]) + DumpOptional([]) + ")")
  {
    NormOpDef(op);
  }

  lemma DumpReturnOp(op: string)
    ensures DumpList([Node("Return", [Node(op, NormOperands())])])
              == "[" + ("Return(" + (op + "(" + DumpJoin(NormOperands()) + ")") + ")") + "]"
  {
    var e := Node(op, NormOperands());
    assert DumpJoin([Node("Return", [e])]) == Dump(Node("Return", [e]));
    assert DumpJoin([e]) == Dump(e);
  }

  lemma RegroupAroundOp(h: string, op: string, j: string, t: string)
    ensures h + ("[" + ("Return(" + (op + "(" + j + ")") + ")") + "]") + t
              == (h + "[" + "Return(") + op + ("(" + j + ")" + ")" + "]" + t)
  {
  }

  /** The operator sits between a fixed prefix and a fixed suffix of the
      serialised normal form. */
  lemma DumpNormOpDef(op: string)
    ensures NormalizeAst(OpDef(op)) == OpPrefix() + op + OpSuffix()
  {
    var head := "FunctionDef(" + Quote(FuncPlaceholder) + ", " + DumpArgs(NormParams()) + ", ";
    var tail := ", " + DumpList([]) + DumpOptional([]) + ")";
    DumpNormOpDefOuter(op);
    DumpReturnOp(op);
    RegroupAroundOp(head, op, DumpJoin(NormOperands()), tail);
  }

  /** A fixed prefix and suffix determine what lies between them. */
  lemma MiddleDetermined(p: string, x: string, y: string, q: string)
    ensures p + x + q == p + y + q ==> x == y
  {
    if p + x + q == p + y + q {
      assert |x| == |y|;
      assert (p + x + q)[|p|..|p| + |x|] == x;
      assert (p + y + q)[|p|..|p| + |y|] == y;
    }
  }

  /** Two functions that differ only in their binary operator have
      different serialised normal forms. */
  lemma DifferentOperatorsDumpApart(op1: string, op2: string)
    requires op1 != op2
    ensures NormalizeAst(OpDef(op1)) != NormalizeAst(OpDef(op2))
  {
    DumpNormOpDef(op1);
    DumpNormOpDef(op2);
    MiddleDetermined(OpPrefix(), op1, op2, OpSuffix());
  }

  /** With a collision-free digest, `a + b` and `a * b` hash apart, so the
      two functions are never grouped as duplicates. */
  lemma OperatorChangesHash(digest: string -> string)
    requires forall x, y :: digest(x) == digest(y) ==> x == y
    ensures HashFunctionBody(AddDef(), digest) != HashFunctionBody(MulDef(), digest)
  {
    assert AddDef() == OpDef("BinOp:Add");
    assert MulDef() == OpDef("BinOp:Mult");
    DifferentOperatorsDumpApart("BinOp:Add", "BinOp:Mult");
  }
}
