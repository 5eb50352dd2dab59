/** What the normal form forgets: consistent renaming of identifiers, the
    contents (not the `u` prefix) of string constants, definition names, positions and leading
    docstrings. Two definitions that differ only in these have the same
    normal form (up to positions) and therefore the same hash. */
module Invariance {
  import opened PyAst
  import opened Normalizer

  ghost predicate Injective(rho: string -> string) {
    forall x, y :: rho(x) == rho(y) ==> x == y
  }

  /** `t2` is `t1` with every visited identifier renamed by `rho`, the
      contents of string constants, definition names, positions and leading
      docstrings changed freely, and everything else (including parameter
      annotations) kept. */
  predicate Variant(t1: Tree, t2: Tree, rho: string -> string)
    decreases t1
  {
    match t1
    case Name(id, c) => t2 == Name(rho(id), c)
    case Arg(a, ann) => t2 == Arg(rho(a), ann)
    case Constant(lit) => if lit.StrLit? then t2.Constant? && t2.lit.StrLit? && t2.lit.uPrefix == lit.uPrefix else t2 == t1
    case Expr(v) => t2.Expr? && Variant(v, t2.value, rho)
    case FunctionDef(isAsync, _, a, b, d, r, _, _) =>
      t2.FunctionDef? && t2.isAsync == isAsync && VariantArgs(a, t2.args, rho)
        && VariantSeq(StripDocstring(b), StripDocstring(t2.body), rho)
        && VariantSeq(d, t2.decorators, rho) && VariantSeq(r, t2.returnAnn, rho)
    case Node(tag, fs) => t2.Node? && t2.tag == tag && VariantSeq(fs, t2.fields, rho)
    case List(items) => t2.List? && VariantSeq(items, t2.items, rho)
    case Params(a) => t2.Params? && VariantArgs(a, t2.params, rho)
  }

  predicate VariantSeq(ts1: seq<Tree>, ts2: seq<Tree>, rho: string -> string)
    decreases ts1
  {
    |ts1| == |ts2|
      && (|ts1| == 0 || (Variant(ts1[0], ts2[0], rho) && VariantSeq(ts1[1..], ts2[1..], rho)))
  }

  predicate VariantArgs(a1: Arguments, a2: Arguments, rho: string -> string)
    decreases a1
  {
    VariantSeq(a1.posonly, a2.posonly, rho) && VariantSeq(a1.args, a2.args, rho)
      && VariantSeq(a1.vararg, a2.vararg, rho) && VariantSeq(a1.kwonly, a2.kwonly, rho)
      && VariantSeq(a1.kwDefaults, a2.kwDefaults, rho) && VariantSeq(a1.kwarg, a2.kwarg, rho)
      && VariantSeq(a1.defaults, a2.defaults, rho)
  }

  /** The tree with every definition's positions set to zero; the
      serialiser never looks at positions. */
  function Unplaced(t: Tree): Tree
    decreases t
  {
    match t
    case Name(_, _) => t
    case Arg(a, ann) => Arg(a, UnplacedSeq(ann))
    case Constant(_) => t
    case Expr(v) => Expr(Unplaced(v))
    case FunctionDef(isAsync, n, a, b, d, r, _, _) =>
      FunctionDef(isAsync, n, UnplacedArgs(a), UnplacedSeq(b), UnplacedSeq(d), UnplacedSeq(r), 0, 0)
    case Node(tag, fs) => Node(tag, UnplacedSeq(fs))
    case List(items) => List(UnplacedSeq(items))
    case Params(a) => Params(UnplacedArgs(a))
  }

  function UnplacedSeq(ts: seq<Tree>): (r: seq<Tree>)
    ensures |r| == |ts|
    decreases ts
  {
    if |ts| == 0 then [] else [Unplaced(ts[0])] + UnplacedSeq(ts[1..])
  }

  function UnplacedArgs(a: Arguments): Arguments
    decreases a
  {
    Arguments(UnplacedSeq(a.posonly), UnplacedSeq(a.args), UnplacedSeq(a.vararg), UnplacedSeq(a.kwonly),
              UnplacedSeq(a.kwDefaults), UnplacedSeq(a.kwarg), UnplacedSeq(a.defaults))
  }

  /** Two renaming states that agree up to `rho`. */
  ghost predicate Corresponds(s1: NameMap, s2: NameMap, rho: string -> string) {
    s1.counter == s2.counter
      && (forall x :: x in s1.names <==> rho(x) in s2.names)
      && (forall x :: x in s1.names ==> s2.names[rho(x)] == s1.names[x])
  }

  lemma TokenCorresponds(x: string, s1: NameMap, s2: NameMap, rho: string -> string)
    requires Injective(rho) && Corresponds(s1, s2, rho)
    ensures Token(s1, x).0 == Token(s2, rho(x)).0
    ensures Corresponds(Token(s1, x).1, Token(s2, rho(x)).1, rho)
  {
  }

  lemma {:induction false} NormVariant(t1: Tree, t2: Tree, rho: string -> string, s1: NameMap, s2: NameMap)
    requires Injective(rho) && Variant(t1, t2, rho) && Corresponds(s1, s2, rho)
    requires TokensOnly(s1) && TokensOnly(s2)
    ensures Unplaced(NormTree(t1, s1).0) == Unplaced(NormTree(t2, s2).0)
    ensures Corresponds(NormTree(t1, s1).1, NormTree(t2, s2).1, rho)
    decreases t1, 1
  {
    match t1
    case Name(id, _) => TokenCorresponds(id, s1, s2, rho);
    case Arg(a, _) => TokenCorresponds(a, s1, s2, rho);
    case Constant(_) =>
    case Expr(v) => NormVariant(v, t2.value, rho, s1, s2);
    case FunctionDef(_, _, _, _, _, _, _, _) => NormDefVariant(t1, t2, rho, s1, s2);
    case Node(_, fs) => NormSeqVariant(fs, t2.fields, rho, s1, s2);
    case List(items) => NormSeqVariant(items, t2.items, rho, s1, s2);
    case Params(a) => NormArgsVariant(a, t2.params, rho, s1, s2);
  }

  /** The definition case of `NormVariant`. */
  lemma {:induction false} NormDefVariant(t1: Tree, t2: Tree, rho: string -> string, s1: NameMap, s2: NameMap)
    requires t1.FunctionDef?
    requires Injective(rho) && Variant(t1, t2, rho) && Corresponds(s1, s2, rho)
    requires TokensOnly(s1) && TokensOnly(s2)
    ensures Unplaced(NormTree(t1, s1).0) == Unplaced(NormTree(t2, s2).0)
    ensures Corresponds(NormTree(t1, s1).1, NormTree(t2, s2).1, rho)
    decreases t1, 0
  {
    match t1
    case FunctionDef(_, _, a, b, d, r, _, _) =>
      NormArgsVariant(a, t2.args, rho, s1, s2);
      var u1 := NormArgs(a, s1).1;
      var u2 := NormArgs(t2.args, s2).1;
      NormSeqVariant(StripDocstring(b), StripDocstring(t2.body), rho, u1, u2);
      var v1 := NormSeq(StripDocstring(b), u1).1;
      var v2 := NormSeq(StripDocstring(t2.body), u2).1;
      NormSeqVariant(d, t2.decorators, rho, v1, v2);
      NormSeqVariant(r, t2.returnAnn, rho, NormSeq(d, v1).1, NormSeq(t2.decorators, v2).1);
  }

  lemma {:induction false} NormSeqVariant(ts1: seq<Tree>, ts2: seq<Tree>, rho: string -> string, s1: NameMap, s2: NameMap)
    requires Injective(rho) && VariantSeq(ts1, ts2, rho) && Corresponds(s1, s2, rho)
    requires TokensOnly(s1) && TokensOnly(s2)
    ensures UnplacedSeq(NormSeq(ts1, s1).0) == UnplacedSeq(NormSeq(ts2, s2).0)
    ensures Corresponds(NormSeq(ts1, s1).1, NormSeq(ts2, s2).1, rho)
    decreases ts1
  {
    if |ts1| > 0 {
      NormVariant(ts1[0], ts2[0], rho, s1, s2);
      NormSeqVariant(ts1[1..], ts2[1..], rho, NormTree(ts1[0], s1).1, NormTree(ts2[0], s2).1);
      var h1 := NormTree(ts1[0], s1).0;
      var rest1 := NormSeq(ts1[1..], NormTree(ts1[0], s1).1).0;
      assert ([h1] + rest1)[1..] == rest1;
      var h2 := NormTree(ts2[0], s2).0;
      var rest2 := NormSeq(ts2[1..], NormTree(ts2[0], s2).1).0;
      assert ([h2] + rest2)[1..] == rest2;
    }
  }

  lemma {:induction false} NormArgsVariant(a1: Arguments, a2: Arguments, rho: string -> string, s1: NameMap, s2: NameMap)
    requires Injective(rho) && VariantArgs(a1, a2, rho) && Corresponds(s1, s2, rho)
    requires TokensOnly(s1) && TokensOnly(s2)
    ensures UnplacedArgs(NormArgs(a1, s1).0) == UnplacedArgs(NormArgs(a2, s2).0)
    ensures Corresponds(NormArgs(a1, s1).1, NormArgs(a2, s2).1, rho)
    decreases a1
  {
    var p1, p2 := s1, s2;
    NormSeqVariant(a1.posonly, a2.posonly, rho, p1, p2);
    p1, p2 := NormSeq(a1.posonly, p1).1, NormSeq(a2.posonly, p2).1;
    NormSeqVariant(a1.args, a2.args, rho, p1, p2);
    p1, p2 := NormSeq(a1.args, p1).1, NormSeq(a2.args, p2).1;
    NormSeqVariant(a1.vararg, a2.vararg, rho, p1, p2);
    p1, p2 := NormSeq(a1.vararg, p1).1, NormSeq(a2.vararg, p2).1;
    NormSeqVariant(a1.kwonly, a2.kwonly, rho, p1, p2);
    p1, p2 := NormSeq(a1.kwonly, p1).1, NormSeq(a2.kwonly, p2).1;
    NormSeqVariant(a1.kwDefaults, a2.kwDefaults, rho, p1, p2);
    p1, p2 := NormSeq(a1.kwDefaults, p1).1, NormSeq(a2.kwDefaults, p2).1;
    NormSeqVariant(a1.kwarg, a2.kwarg, rho, p1, p2);
    p1, p2 := NormSeq(a1.kwarg, p1).1, NormSeq(a2.kwarg, p2).1;
    NormSeqVariant(a1.defaults, a2.defaults, rho, p1, p2);
  }

  /** Cosmetic variants have the same normal form, positions aside. */
  lemma CosmeticVariantsNormalizeAlike(t1: Tree, t2: Tree, rho: string -> string)
    requires Injective(rho) && Variant(t1, t2, rho)
    ensures Unplaced(Normalize(t1)) == Unplaced(Normalize(t2))
  {
    NormVariant(t1, t2, rho, Fresh, Fresh);
  }

  // ---------------------------------------------------------------------
  // Positions never reach the hash
  // ---------------------------------------------------------------------

  lemma {:induction false} DumpUnplaced(t: Tree)
    ensures Dump(Unplaced(t)) == Dump(t)
    decreases t
  {
    match t
    case Name(_, _) =>
    case Arg(_, ann) => DumpJoinUnplaced(ann);
    case Constant(_) =>
    case Expr(v) => DumpUnplaced(v);
    case FunctionDef(_, _, a, b, d, r, _, _) =>
      DumpArgsUnplaced(a);
      DumpJoinUnplaced(b);
      DumpJoinUnplaced(d);
      DumpJoinUnplaced(r);
    case Node(_, fs) => DumpJoinUnplaced(fs);
    case List(items) => DumpJoinUnplaced(items);
    case Params(a) => DumpArgsUnplaced(a);
  }

  lemma {:induction false} DumpJoinUnplaced(ts: seq<Tree>)
    ensures DumpJoin(UnplacedSeq(ts)) == DumpJoin(ts)
    decreases ts
  {
    if |ts| > 0 {
      DumpUnplaced(ts[0]);
      DumpJoinUnplaced(ts[1..]);
      assert UnplacedSeq(ts)[0] == Unplaced(ts[0]);
      assert UnplacedSeq(ts)[1..] == UnplacedSeq(ts[1..]);
    }
  }

  lemma {:induction false} DumpArgsUnplaced(a: Arguments)
    ensures DumpArgs(UnplacedArgs(a)) == DumpArgs(a)
    decreases a
  {
    DumpJoinUnplaced(a.posonly);
    DumpJoinUnplaced(a.args);
    DumpJoinUnplaced(a.vararg);
    DumpJoinUnplaced(a.kwonly);
    DumpJoinUnplaced(a.kwDefaults);
    DumpJoinUnplaced(a.kwarg);
    DumpJoinUnplaced(a.defaults);
  }

  /** Cosmetic variants hash alike, whatever the digest function. */
  lemma CosmeticVariantsHashAlike(t1: Tree, t2: Tree, rho: string -> string, digest: string -> string)
    requires Injective(rho) && Variant(t1, t2, rho)
    ensures HashFunctionBody(t1, digest) == HashFunctionBody(t2, digest)
  {
    CosmeticVariantsNormalizeAlike(t1, t2, rho);
    DumpUnplaced(Normalize(t1));
    DumpUnplaced(Normalize(t2));
  }

  // ---------------------------------------------------------------------
  // Copy-and-paste with cosmetic edits
  // ---------------------------------------------------------------------

  /** A copy of `t` with identifiers renamed by `rho`, the contents of
      string constants rewritten by `f` and definitions renamed by `g`. Parameter
      annotations are copied verbatim. */
  function Disguise(t: Tree, rho: string -> string, f: string -> string, g: string -> string): Tree
    decreases t
  {
    match t
    case Name(id, c) => Name(rho(id), c)
    case Arg(a, ann) => Arg(rho(a), ann)
    case Constant(lit) => if lit.StrLit? then Constant(StrLit(f(lit.s), lit.uPrefix)) else t
    case Expr(v) => Expr(Disguise(v, rho, f, g))
    case FunctionDef(isAsync, n, a, b, d, r, l, e) =>
      FunctionDef(isAsync, g(n), DisguiseArgs(a, rho, f, g), DisguiseSeq(b, rho, f, g),
                  DisguiseSeq(d, rho, f, g), DisguiseSeq(r, rho, f, g), l, e)
    case Node(tag, fs) => Node(tag, DisguiseSeq(fs, rho, f, g))
    case List(items) => List(DisguiseSeq(items, rho, f, g))
    case Params(a) => Params(DisguiseArgs(a, rho, f, g))
  }

  function DisguiseSeq(ts: seq<Tree>, rho: string -> string, f: string -> string, g: string -> string): (r: seq<Tree>)
    ensures |r| == |ts|
    ensures forall i :: 0 <= i < |ts| ==> r[i] == Disguise(ts[i], rho, f, g)
    decreases ts
  {
    if |ts| == 0 then [] else [Disguise(ts[0], rho, f, g)] + DisguiseSeq(ts[1..], rho, f, g)
  }

  function DisguiseArgs(a: Arguments, rho: string -> string, f: string -> string, g: string -> string): Arguments
    decreases a
  {
    Arguments(DisguiseSeq(a.posonly, rho, f, g), DisguiseSeq(a.args, rho, f, g),
              DisguiseSeq(a.vararg, rho, f, g), DisguiseSeq(a.kwonly, rho, f, g),
              DisguiseSeq(a.kwDefaults, rho, f, g), DisguiseSeq(a.kwarg, rho, f, g),
              DisguiseSeq(a.defaults, rho, f, g))
  }

  /** Disguising keeps a leading docstring a docstring. */
  lemma DisguiseStripDocstring(b: seq<Tree>, rho: string -> string, f: string -> string, g: string -> string)
    ensures StripDocstring(DisguiseSeq(b, rho, f, g)) == DisguiseSeq(StripDocstring(b), rho, f, g)
  {
    if |b| > 0 {
      assert DisguiseSeq(b, rho, f, g)[0] == Disguise(b[0], rho, f, g);
      assert DisguiseSeq(b, rho, f, g)[1..] == DisguiseSeq(b[1..], rho, f, g);
      assert IsDocstring(Disguise(b[0], rho, f, g)) == IsDocstring(b[0]);
    }
  }

  lemma {:induction false} DisguiseIsVariant(t: Tree, rho: string -> string, f: string -> string, g: string -> string)
    ensures Variant(t, Disguise(t, rho, f, g), rho)
    decreases t
  {
    match t
    case Name(_, _) =>
    case Arg(_, _) =>
    case Constant(_) =>
    case Expr(v) => DisguiseIsVariant(v, rho, f, g);
    case FunctionDef(_, _, a, b, d, r, _, _) =>
      DisguiseArgsIsVariant(a, rho, f, g);
      DisguiseStripDocstring(b, rho, f, g);
      DisguiseSeqIsVariant(StripDocstring(b), rho, f, g);
      DisguiseSeqIsVariant(d, rho, f, g);
      DisguiseSeqIsVariant(r, rho, f, g);
    case Node(_, fs) => DisguiseSeqIsVariant(fs, rho, f, g);
    case List(items) => DisguiseSeqIsVariant(items, rho, f, g);
    case Params(a) => DisguiseArgsIsVariant(a, rho, f, g);
  }

  lemma {:induction false} DisguiseSeqIsVariant(ts: seq<Tree>, rho: string -> string, f: string -> string, g: string -> string)
    ensures VariantSeq(ts, DisguiseSeq(ts, rho, f, g), rho)
    decreases ts
  {
    if |ts| > 0 {
      DisguiseIsVariant(ts[0], rho, f, g);
      DisguiseSeqIsVariant(ts[1..], rho, f, g);
      assert DisguiseSeq(ts, rho, f, g)[0] == Disguise(ts[0], rho, f, g);
      assert DisguiseSeq(ts, rho, f, g)[1..] == DisguiseSeq(ts[1..], rho, f, g);
    }
  }

  lemma {:induction false} DisguiseArgsIsVariant(a: Arguments, rho: string -> string, f: string -> string, g: string -> string)
    ensures VariantArgs(a, DisguiseArgs(a, rho, f, g), rho)
    decreases a
  {
    DisguiseSeqIsVariant(a.posonly, rho, f, g);
    DisguiseSeqIsVariant(a.args, rho, f, g);
    DisguiseSeqIsVariant(a.vararg, rho, f, g);
    DisguiseSeqIsVariant(a.kwonly, rho, f, g);
    DisguiseSeqIsVariant(a.kwDefaults, rho, f, g);
    DisguiseSeqIsVariant(a.kwarg, rho, f, g);
    DisguiseSeqIsVariant(a.defaults, rho, f, g);
  }

  /** A copy with identifiers consistently renamed, the contents of string
      constants and definition names changed hashes like the original. */
  lemma DisguisedCopyHashesAlike(t: Tree, rho: string -> string, f: string -> string, g: string -> string,
                                 digest: string -> string)
    requires Injective(rho)
    ensures HashFunctionBody(Disguise(t, rho, f, g), digest) == HashFunctionBody(t, digest)
  {
    DisguiseIsVariant(t, rho, f, g);
    CosmeticVariantsHashAlike(t, Disguise(t, rho, f, g), rho, digest);
  }

  // ---------------------------------------------------------------------
  // Names, positions and the docstring of the definition itself
  // ---------------------------------------------------------------------

  function Id(x: string): string { x }

  lemma {:induction false} VariantRefl(t: Tree)
    ensures Variant(t, t, Id)
    decreases t
  {
    match t
    case Name(_, _) =>
    case Arg(_, _) =>
    case Constant(_) =>
    case Expr(v) => VariantRefl(v);
    case FunctionDef(_, _, a, b, d, r, _, _) =>
      VariantArgsRefl(a);
      VariantSeqRefl(StripDocstring(b));
      VariantSeqRefl(d);
      VariantSeqRefl(r);
    case Node(_, fs) => VariantSeqRefl(fs);
    case List(items) => VariantSeqRefl(items);
    case Params(a) => VariantArgsRefl(a);
  }

  lemma {:induction false} VariantSeqRefl(ts: seq<Tree>)
    ensures VariantSeq(ts, ts, Id)
    decreases ts
  {
    if |ts| > 0 {
      VariantRefl(ts[0]);
      VariantSeqRefl(ts[1..]);
    }
  }

  lemma {:induction false} VariantArgsRefl(a: Arguments)
    ensures VariantArgs(a, a, Id)
    decreases a
  {
    VariantSeqRefl(a.posonly);
    VariantSeqRefl(a.args);
    VariantSeqRefl(a.vararg);
    VariantSeqRefl(a.kwonly);
    VariantSeqRefl(a.kwDefaults);
    VariantSeqRefl(a.kwarg);
    VariantSeqRefl(a.defaults);
  }

  /** Two definitions that differ only in their names, their positions and
      their leading docstrings (present in one, absent or different in the
      other) hash alike. */
  lemma DefinitionCosmeticsHashAlike(t1: Tree, t2: Tree, digest: string -> string)
    requires t1.FunctionDef? && t2.FunctionDef? && t1.isAsync == t2.isAsync
    requires t1.args == t2.args && t1.decorators == t2.decorators && t1.returnAnn == t2.returnAnn
    requires StripDocstring(t1.body) == StripDocstring(t2.body)
    ensures HashFunctionBody(t1, digest) == HashFunctionBody(t2, digest)
  {
    VariantArgsRefl(t1.args);
    VariantSeqRefl(StripDocstring(t1.body));
    VariantSeqRefl(t1.decorators);
    VariantSeqRefl(t1.returnAnn);
    assert Variant(t1, t2, Id);
    CosmeticVariantsHashAlike(t1, t2, Id, digest);
  }
}
