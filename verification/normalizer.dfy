/** The clone detector's normal form of a function: identifiers are
    replaced by `var_0`, `var_1`, ... in order of first appearance, string
    constants by `str_const`, function names by `normalized_func`, and the
    leading docstring of every definition is dropped. The normal form is
    serialised and hashed; two functions with the same hash are reported
    as duplicates. */
module Normalizer {
  import opened Text
  import opened PyAst

  const FuncPlaceholder: string := "normalized_func"
  const StrPlaceholder: string := "str_const"
  const TokenPrefix: string := "var_"

  /** The `k`-th fresh identifier, `var_k`. */
  function VarToken(k: nat): string {
    TokenPrefix + NatToString(k)
  }

  /** The shape of every token. */
  predicate IsVarToken(s: string) {
    |s| > |TokenPrefix| && s[..|TokenPrefix|] == TokenPrefix && AllDigits(s[|TokenPrefix|..])
  }

  lemma VarTokenShape(k: nat)
    ensures IsVarToken(VarToken(k))
  {
    assert VarToken(k)[|TokenPrefix|..] == NatToString(k);
  }

  /** Distinct counters give distinct tokens. */
  lemma VarTokenInjective(i: nat, j: nat)
    ensures VarToken(i) == VarToken(j) <==> i == j
  {
    if VarToken(i) == VarToken(j) {
      assert VarToken(i)[|TokenPrefix|..] == NatToString(i);
      assert VarToken(j)[|TokenPrefix|..] == NatToString(j);
      NatToStringInjective(i, j);
    }
  }

  /** The renaming state of one normaliser: identifiers seen so far and the
      number of tokens handed out. */
  datatype NameMap = NameMap(names: map<string, string>, counter: nat)

  const Fresh: NameMap := NameMap(map[], 0)

  /** `later` keeps every assignment of `st`. */
  predicate Agrees(st: NameMap, later: map<string, string>) {
    forall x :: x in st.names ==> x in later && later[x] == st.names[x]
  }

  predicate Extends(st: NameMap, later: NameMap) {
    st.counter <= later.counter && Agrees(st, later.names)
  }

  /** The token for `x`: the one already assigned, or the next fresh one. */
  function Token(st: NameMap, x: string): (r: (string, NameMap))
    ensures x in r.1.names && r.1.names[x] == r.0
    ensures Extends(st, r.1)
    ensures IsVarToken(r.0) || x in st.names
    ensures x in st.names ==> r == (st.names[x], st)
  {
    if x in st.names then (st.names[x], st)
    else
      VarTokenShape(st.counter);
      (VarToken(st.counter), NameMap(st.names[x := VarToken(st.counter)], st.counter + 1))
  }

  // ---------------------------------------------------------------------
  // Canonical trees: what the normaliser's output looks like
  // ---------------------------------------------------------------------

  /** Every visited identifier is a token, every visited string constant
      is the placeholder, and every definition is named by the placeholder.
      Parameter annotations are not visited and may hold anything. */
  predicate Canonical(t: Tree) {
    match t
    case Name(id, _) => IsVarToken(id)
    case Arg(a, _) => IsVarToken(a)
    case Constant(lit) => lit.StrLit? ==> lit.s == StrPlaceholder
    case Expr(v) => Canonical(v)
    case FunctionDef(_, n, a, b, d, r, _, _) =>
      n == FuncPlaceholder && CanonicalArgs(a) && CanonicalSeq(b) && CanonicalSeq(d) && CanonicalSeq(r)
    case Node(_, fs) => CanonicalSeq(fs)
    case List(items) => CanonicalSeq(items)
    case Params(a) => CanonicalArgs(a)
  }

  predicate CanonicalSeq(ts: seq<Tree>) {
    forall i :: 0 <= i < |ts| ==> Canonical(ts[i])
  }

  predicate CanonicalArgs(a: Arguments) {
    CanonicalSeq(a.posonly) && CanonicalSeq(a.args) && CanonicalSeq(a.vararg) && CanonicalSeq(a.kwonly)
      && CanonicalSeq(a.kwDefaults) && CanonicalSeq(a.kwarg) && CanonicalSeq(a.defaults)
  }

  /** Every identifier the state has assigned holds a token. */
  predicate TokensOnly(st: NameMap) {
    forall x :: x in st.names ==> IsVarToken(st.names[x])
  }

  // ---------------------------------------------------------------------
  // The normaliser: a pre-order walk threading the renaming state
  // ---------------------------------------------------------------------

  function NormTree(t: Tree, st: NameMap): (r: (Tree, NameMap))
    requires TokensOnly(st)
    ensures TokensOnly(r.1)
    ensures Extends(st, r.1)
    ensures Canonical(r.0)
    decreases t
  {
    match t
    case Name(id, ctx) =>
      var (v, s) := Token(st, id);
      (Name(v, ctx), s)
    case Arg(a, ann) =>
      var (v, s) := Token(st, a);
      (Arg(v, ann), s)
    case Constant(lit) =>
      (if lit.StrLit? then Constant(StrLit(StrPlaceholder, lit.uPrefix)) else t, st)
    case Expr(v) =>
      var (v', s) := NormTree(v, st);
      (Expr(v'), s)
    case FunctionDef(isAsync, _, a, b, d, ret, l, e) =>
      var (a', s1) := NormArgs(a, st);
      var (b', s2) := NormSeq(StripDocstring(b), s1);
      var (d', s3) := NormSeq(d, s2);
      var (ret', s4) := NormSeq(ret, s3);
      (FunctionDef(isAsync, FuncPlaceholder, a', b', d', ret', l, e), s4)
    case Node(tag, fs) =>
      var (fs', s) := NormSeq(fs, st);
      (Node(tag, fs'), s)
    case List(items) =>
      var (items', s) := NormSeq(items, st);
      (List(items'), s)
    case Params(a) =>
      var (a', s) := NormArgs(a, st);
      (Params(a'), s)
  }

  function NormSeq(ts: seq<Tree>, st: NameMap): (r: (seq<Tree>, NameMap))
    requires TokensOnly(st)
    ensures |r.0| == |ts|
    ensures TokensOnly(r.1)
    ensures Extends(st, r.1)
    ensures CanonicalSeq(r.0)
    decreases ts
  {
    if |ts| == 0 then ([], st)
    else
      var (h, s1) := NormTree(ts[0], st);
      var (rest, s2) := NormSeq(ts[1..], s1);
      ([h] + rest, s2)
  }

  function NormArgs(a: Arguments, st: NameMap): (r: (Arguments, NameMap))
    requires TokensOnly(st)
    ensures TokensOnly(r.1)
    ensures Extends(st, r.1)
    ensures CanonicalArgs(r.0)
    decreases a
  {
    var (po, s1) := NormSeq(a.posonly, st);
    var (ar, s2) := NormSeq(a.args, s1);
    var (va, s3) := NormSeq(a.vararg, s2);
    var (ko, s4) := NormSeq(a.kwonly, s3);
    var (kd, s5) := NormSeq(a.kwDefaults, s4);
    var (kw, s6) := NormSeq(a.kwarg, s5);
    var (de, s7) := NormSeq(a.defaults, s6);
    (Arguments(po, ar, va, ko, kd, kw, de), s7)
  }

  /** The normal form of a definition, starting from a fresh renaming. */
  function Normalize(t: Tree): (r: Tree)
    ensures Canonical(r)
  {
    NormTree(t, Fresh).0
  }

  // ---------------------------------------------------------------------
  // Serialisation and hashing
  // ---------------------------------------------------------------------

  function Quote(s: string): string { "'" + s + "'" }

  function CtxDump(c: Ctx): string {
    match c
    case Load => "Load()"
    case Store => "Store()"
    case Del => "Del()"
  }

  /** A serialiser in the manner of `ast.dump(..., annotate_fields=False)`:
      it writes node kinds and field values and leaves out positions. */
  function Dump(t: Tree): string
    decreases t
  {
    match t
    case Name(id, c) => "Name(" + Quote(id) + ", " + CtxDump(c) + ")"
    case Arg(a, ann) => "arg(" + Quote(a) + DumpOptional(ann) + ")"
    case Constant(lit) =>
      "Constant(" + (if lit.StrLit? then Quote(lit.s) + (if lit.uPrefix then ", " + Quote("u") else "") else lit.repr) + ")"
    case Expr(v) => "Expr(" + Dump(v) + ")"
    case FunctionDef(isAsync, n, a, b, d, r, _, _) =>
      (if isAsync then "AsyncFunctionDef(" else "FunctionDef(") + Quote(n) + ", " + DumpArgs(a)
        + ", " + DumpList(b) + ", " + DumpList(d) + DumpOptional(r) + ")"
    case Node(tag, fs) => tag + "(" + DumpJoin(fs) + ")"
    case List(items) => DumpList(items)
    case Params(a) => DumpArgs(a)
  }

  function DumpJoin(ts: seq<Tree>): string
    decreases ts, 0
  {
    if |ts| == 0 then ""
    else if |ts| == 1 then Dump(ts[0])
    else Dump(ts[0]) + ", " + DumpJoin(ts[1..])
  }

  function DumpList(ts: seq<Tree>): string
    decreases ts, 1
  {
    "[" + DumpJoin(ts) + "]"
  }

  function DumpOptional(ts: seq<Tree>): string
    decreases ts, 1
  {
    if |ts| == 0 then "" else ", " + DumpJoin(ts)
  }

  function DumpArgs(a: Arguments): string
    decreases a
  {
    "arguments(" + DumpList(a.posonly) + ", " + DumpList(a.args) + DumpOptional(a.vararg) + ", "
      + DumpList(a.kwonly) + ", " + DumpList(a.kwDefaults) + DumpOptional(a.kwarg) + ", "
      + DumpList(a.defaults) + ")"
  }

  /** `normalize_ast`: the serialised normal form. */
  function NormalizeAst(t: Tree): string {
    Dump(Normalize(t))
  }

  /** The normaliser rewrites a string's value but not its `kind`: a
      `u"..."` constant and a plain one still serialise differently, while
      two plain ones (or two `u` ones) serialise alike. */
  lemma StringKindSurvives(a: string, b: string, pa: bool, pb: bool)
    ensures NormalizeAst(Constant(StrLit(a, pa))) == NormalizeAst(Constant(StrLit(b, pb))) <==> pa == pb
  {
    var da := NormalizeAst(Constant(StrLit(a, pa)));
    var db := NormalizeAst(Constant(StrLit(b, pb)));
    if pa != pb {
      assert |da| != |db|;
    }
  }

  /** `hash_function_body`: a digest of the serialised normal form. The
      digest function (MD5 rendered in hex) is a parameter. */
  function HashFunctionBody(t: Tree, digest: string -> string): string {
    digest(NormalizeAst(t))
  }
}
