/** The slice of Python's `ast` module the clone detector and the style
    rules look at.

    Node kinds the analyser treats specially get their own constructor;
    every other node kind is a generic `Node` whose `tag` holds the class
    name together with any non-node field values (operator, attribute name,
    ...), e.g. `Node("BinOp:Add", ...)` or `Node("Attribute:append:Load",
    ...)`. A list-valued field of a generic node is wrapped in `List`, so
    `If(test, [a], [b, c])` is `Node("If", [test, List([a]), List([b, c])])`
    and differs from `Node("If", [test, List([a, b]), List([c])])`, as it
    does in Python. An absent optional child is `Node("None", [])`. */
module PyAst {

  /** Python's expression contexts `Load()`, `Store()` and `Del()`. */
  datatype Ctx = Load | Store | Del

  /** The value of an `ast.Constant` together with its `kind`. Only whether
      it is a `str` matters to the analyser; a `str` also records whether it
      was written with a `u` prefix (`kind == 'u'`, the only `kind` the
      parser produces), and every other constant is kept as its `repr`. */
  datatype Literal = StrLit(s: string, uPrefix: bool) | OtherLit(repr: string)

  datatype Tree =
    | Name(id: string, ctx: Ctx)
      /** `ast.arg`: a parameter name and its (optional, zero or one)
          annotation. */
    | Arg(arg: string, annotation: seq<Tree>)
    | Constant(lit: Literal)
      /** `ast.Expr`: an expression used as a statement. */
    | Expr(value: Tree)
      /** `ast.FunctionDef`, or `ast.AsyncFunctionDef` when `isAsync`.
          `returnAnn` (Python's `returns`) holds zero or one annotation. */
    | FunctionDef(isAsync: bool, name: string, args: Arguments, body: seq<Tree>,
                  decorators: seq<Tree>, returnAnn: seq<Tree>, lineno: int, endLineno: int)
    | Node(tag: string, fields: seq<Tree>)
    | List(items: seq<Tree>)
      /** An `ast.arguments` node standing as a field of a generic node, as
          the parameters of a `Lambda` do. */
    | Params(params: Arguments)

  /** `ast.arguments`, fields in Python's order. `vararg` and `kwarg` hold
      zero or one `Arg`; the other parameter lists hold `Arg`s. */
  datatype Arguments = Arguments(posonly: seq<Tree>, args: seq<Tree>, vararg: seq<Tree>,
                                 kwonly: seq<Tree>, kwDefaults: seq<Tree>, kwarg: seq<Tree>,
                                 defaults: seq<Tree>)

  /** The parameter name of an `ast.arg` (parsed trees only ever hold `Arg`
      nodes in the parameter lists). */
  function ArgName(t: Tree): string {
    if t.Arg? then t.arg else ""
  }

  /** A statement consisting of a string constant: a docstring when it is
      the first statement of a body. */
  predicate IsDocstring(t: Tree) {
    t.Expr? && t.value.Constant? && t.value.lit.StrLit?
  }

  /** The body with a leading docstring removed, as the normaliser does. */
  function StripDocstring(body: seq<Tree>): (r: seq<Tree>)
    ensures |body| > 0 && IsDocstring(body[0]) ==> r == body[1..]
    ensures !(|body| > 0 && IsDocstring(body[0])) ==> r == body
  {
    if |body| > 0 && IsDocstring(body[0]) then body[1..] else body
  }

  // ---------------------------------------------------------------------
  // Children, as `ast.iter_child_nodes` lists them
  // ---------------------------------------------------------------------

  function ArgumentsChildren(a: Arguments): seq<Tree> {
    a.posonly + a.args + a.vararg + a.kwonly + a.kwDefaults + a.kwarg + a.defaults
  }

  /** List-valued fields contribute their items, other fields themselves. */
  function FlattenFields(fs: seq<Tree>): seq<Tree> {
    if |fs| == 0 then []
    else (if fs[0].List? then fs[0].items else [fs[0]]) + FlattenFields(fs[1..])
  }

  /** The direct child nodes in field order. Python also lists the
      `arguments` node itself and the context objects; definitions never
      occur inside them, so the order in which a walk meets definitions is
      the same. */
  function ChildNodes(t: Tree): seq<Tree> {
    match t
    case Name(_, _) => []
    case Arg(_, ann) => ann
    case Constant(_) => []
    case Expr(v) => [v]
    case FunctionDef(_, _, a, b, d, r, _, _) => ArgumentsChildren(a) + b + d + r
    case Node(_, fs) => FlattenFields(fs)
    case List(items) => items
    case Params(a) => ArgumentsChildren(a)
  }

  // ---------------------------------------------------------------------
  // Size, for termination of the breadth-first walk
  // ---------------------------------------------------------------------

  function Size(t: Tree): nat {
    match t
    case Name(_, _) => 1
    case Arg(_, ann) => 1 + SeqSize(ann)
    case Constant(_) => 1
    case Expr(v) => 1 + Size(v)
    case FunctionDef(_, _, a, b, d, r, _, _) => 1 + ArgsSize(a) + SeqSize(b) + SeqSize(d) + SeqSize(r)
    case Node(_, fs) => 1 + SeqSize(fs)
    case List(items) => 1 + SeqSize(items)
    case Params(a) => 1 + ArgsSize(a)
  }

  function SeqSize(ts: seq<Tree>): nat {
    if |ts| == 0 then 0 else Size(ts[0]) + SeqSize(ts[1..])
  }

  function ArgsSize(a: Arguments): nat {
    SeqSize(a.posonly) + SeqSize(a.args) + SeqSize(a.vararg) + SeqSize(a.kwonly)
      + SeqSize(a.kwDefaults) + SeqSize(a.kwarg) + SeqSize(a.defaults)
  }

  lemma {:induction false} SeqSizeConcat(a: seq<Tree>, b: seq<Tree>)
    ensures SeqSize(a + b) == SeqSize(a) + SeqSize(b)
  {
    if |a| == 0 {
      assert a + b == b;
    } else {
      assert (a + b)[0] == a[0];
      assert (a + b)[1..] == a[1..] + b;
      SeqSizeConcat(a[1..], b);
    }
  }

  lemma {:induction false} FlattenFieldsSize(fs: seq<Tree>)
    ensures SeqSize(FlattenFields(fs)) <= SeqSize(fs)
  {
    if |fs| > 0 {
      var head := if fs[0].List? then fs[0].items else [fs[0]];
      SeqSizeConcat(head, FlattenFields(fs[1..]));
      FlattenFieldsSize(fs[1..]);
      if !fs[0].List? {
        assert SeqSize([fs[0]]) == Size(fs[0]) + SeqSize([fs[0]][1..]);
      }
    }
  }

  /** The children of a node are smaller than the node. */
  lemma ChildNodesSmaller(t: Tree)
    ensures SeqSize(ChildNodes(t)) < Size(t)
  {
    match t
    case Name(_, _) =>
    case Arg(_, _) =>
    case Constant(_) =>
    case Expr(v) =>
      assert SeqSize([v]) == Size(v) + SeqSize([v][1..]);
    case Params(a) => ArgumentsChildrenSize(a);
    case FunctionDef(_, _, a, b, d, r, _, _) =>
      ArgumentsChildrenSize(a);
      SeqSizeConcat(ArgumentsChildren(a), b);
      SeqSizeConcat(ArgumentsChildren(a) + b, d);
      SeqSizeConcat(ArgumentsChildren(a) + b + d, r);
    case Node(_, fs) => FlattenFieldsSize(fs);
    case List(_) =>
  }

  lemma ArgumentsChildrenSize(a: Arguments)
    ensures SeqSize(ArgumentsChildren(a)) == ArgsSize(a)
  {
    SeqSizeConcat(a.posonly, a.args);
    SeqSizeConcat(a.posonly + a.args, a.vararg);
    SeqSizeConcat(a.posonly + a.args + a.vararg, a.kwonly);
    SeqSizeConcat(a.posonly + a.args + a.vararg + a.kwonly, a.kwDefaults);
    SeqSizeConcat(a.posonly + a.args + a.vararg + a.kwonly + a.kwDefaults, a.kwarg);
    SeqSizeConcat(a.posonly + a.args + a.vararg + a.kwonly + a.kwDefaults + a.kwarg, a.defaults);
  }
}
