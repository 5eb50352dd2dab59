/** Which token each identifier receives: the `k`-th distinct identifier
    met in visiting order becomes `var_k`, and every later occurrence of it
    receives the same token. The normal form is the tree with that fixed
    renaming applied (`Apply`), stated here without any threaded state. */
module Numbering {
  import opened PyAst
  import opened Normalizer
  import opened Seqs

  /** The identifiers the normaliser renames, in the order it meets them:
      names and parameter names, but nothing inside parameter annotations
      and nothing inside a leading docstring. */
  function Idents(t: Tree): seq<string>
    decreases t
  {
    match t
    case Name(id, _) => [id]
    case Arg(a, _) => [a]
    case Constant(_) => []
    case Expr(v) => Idents(v)
    case FunctionDef(_, _, a, b, d, r, _, _) =>
      IdentsArgs(a) + IdentsSeq(StripDocstring(b)) + IdentsSeq(d) + IdentsSeq(r)
    case Node(_, fs) => IdentsSeq(fs)
    case List(items) => IdentsSeq(items)
    case Params(a) => IdentsArgs(a)
  }

  function IdentsSeq(ts: seq<Tree>): seq<string>
    decreases ts
  {
    if |ts| == 0 then [] else Idents(ts[0]) + IdentsSeq(ts[1..])
  }

  function IdentsArgs(a: Arguments): seq<string>
    decreases a
  {
    IdentsSeq(a.posonly) + IdentsSeq(a.args) + IdentsSeq(a.vararg) + IdentsSeq(a.kwonly)
      + IdentsSeq(a.kwDefaults) + IdentsSeq(a.kwarg) + IdentsSeq(a.defaults)
  }

  /** The state after asking for the token of each of `xs` in turn. */
  function Assign(st: NameMap, xs: seq<string>): NameMap
    decreases xs
  {
    if |xs| == 0 then st else Assign(Token(st, xs[0]).1, xs[1..])
  }

  lemma {:induction false} AssignConcat(st: NameMap, a: seq<string>, b: seq<string>)
    ensures Assign(st, a + b) == Assign(Assign(st, a), b)
    decreases a
  {
    if |a| == 0 {
      assert a + b == b;
    } else {
      assert (a + b)[0] == a[0];
      assert (a + b)[1..] == a[1..] + b;
      AssignConcat(Token(st, a[0]).1, a[1..], b);
    }
  }

  // ---------------------------------------------------------------------
  // The final state is determined by the visiting order alone
  // ---------------------------------------------------------------------

  lemma {:induction false} NormState(t: Tree, st: NameMap)
    requires TokensOnly(st)
    ensures NormTree(t, st).1 == Assign(st, Idents(t))
    decreases t
  {
    match t
    case Name(id, _) =>
    case Arg(a, _) =>
    case Constant(_) =>
    case Expr(v) => NormState(v, st);
    case FunctionDef(_, _, a, b, d, r, _, _) =>
      NormArgsState(a, st);
      var s1 := NormArgs(a, st).1;
      NormSeqState(StripDocstring(b), s1);
      var s2 := NormSeq(StripDocstring(b), s1).1;
      NormSeqState(d, s2);
      NormSeqState(r, NormSeq(d, s2).1);
      AssignConcat(st, IdentsArgs(a), IdentsSeq(StripDocstring(b)));
      AssignConcat(st, IdentsArgs(a) + IdentsSeq(StripDocstring(b)), IdentsSeq(d));
      AssignConcat(st, IdentsArgs(a) + IdentsSeq(StripDocstring(b)) + IdentsSeq(d), IdentsSeq(r));
    case Node(_, fs) => NormSeqState(fs, st);
    case List(items) => NormSeqState(items, st);
    case Params(a) => NormArgsState(a, st);
  }

  lemma {:induction false} NormSeqState(ts: seq<Tree>, st: NameMap)
    requires TokensOnly(st)
    ensures NormSeq(ts, st).1 == Assign(st, IdentsSeq(ts))
    decreases ts
  {
    if |ts| > 0 {
      NormState(ts[0], st);
      NormSeqState(ts[1..], NormTree(ts[0], st).1);
      AssignConcat(st, Idents(ts[0]), IdentsSeq(ts[1..]));
    }
  }

  lemma {:induction false} NormArgsState(a: Arguments, st: NameMap)
    requires TokensOnly(st)
    ensures NormArgs(a, st).1 == Assign(st, IdentsArgs(a))
    decreases a
  {
    var p := st;
    var xs: seq<string> := [];
    assert Assign(st, xs) == p;
    NormSeqState(a.posonly, p);
    AssignConcat(st, xs, IdentsSeq(a.posonly));
    p, xs := NormSeq(a.posonly, p).1, xs + IdentsSeq(a.posonly);
    NormSeqState(a.args, p);
    AssignConcat(st, xs, IdentsSeq(a.args));
    p, xs := NormSeq(a.args, p).1, xs + IdentsSeq(a.args);
    NormSeqState(a.vararg, p);
    AssignConcat(st, xs, IdentsSeq(a.vararg));
    p, xs := NormSeq(a.vararg, p).1, xs + IdentsSeq(a.vararg);
    NormSeqState(a.kwonly, p);
    AssignConcat(st, xs, IdentsSeq(a.kwonly));
    p, xs := NormSeq(a.kwonly, p).1, xs + IdentsSeq(a.kwonly);
    NormSeqState(a.kwDefaults, p);
    AssignConcat(st, xs, IdentsSeq(a.kwDefaults));
    p, xs := NormSeq(a.kwDefaults, p).1, xs + IdentsSeq(a.kwDefaults);
    NormSeqState(a.kwarg, p);
    AssignConcat(st, xs, IdentsSeq(a.kwarg));
    p, xs := NormSeq(a.kwarg, p).1, xs + IdentsSeq(a.kwarg);
    NormSeqState(a.defaults, p);
    AssignConcat(st, xs, IdentsSeq(a.defaults));
    assert [] + IdentsSeq(a.posonly) == IdentsSeq(a.posonly);
  }

  // ---------------------------------------------------------------------
  // First occurrences
  // ---------------------------------------------------------------------

  /** `st` holds exactly the identifiers of `d`, the `i`-th with token
      `var_i`. */
  ghost predicate Numbered(st: NameMap, d: seq<string>) {
    st.counter == |d|
      && (forall x :: x in st.names <==> x in d)
      && (forall i :: 0 <= i < |d| ==> d[i] in st.names && st.names[d[i]] == VarToken(i))
  }

  lemma {:induction false} AssignNumbered(st: NameMap, d: seq<string>, xs: seq<string>)
    requires Numbered(st, d) && Distinct(d)
    ensures Numbered(Assign(st, xs), DedupFrom(d, xs))
    decreases xs
  {
    if |xs| > 0 {
      var x := xs[0];
      if x in d {
        AssignNumbered(st, d, xs[1..]);
      } else {
        var d' := d + [x];
        var st' := Token(st, x).1;
        assert st' == NameMap(st.names[x := VarToken(|d|)], |d| + 1);
        forall i | 0 <= i < |d'|
          ensures d'[i] in st'.names && st'.names[d'[i]] == VarToken(i)
        {
          if i < |d| {
            assert d'[i] == d[i] && d[i] != x;
          }
        }
        assert Distinct(d');
        AssignNumbered(st', d', xs[1..]);
      }
    }
  }

  // ---------------------------------------------------------------------
  // The normal form as a fixed renaming
  // ---------------------------------------------------------------------

  function Lookup(m: map<string, string>, x: string): string {
    if x in m then m[x] else x
  }

  /** `t` with the renaming `m` applied to every visited identifier, string
      constants and definition names replaced by the placeholders and
      leading docstrings dropped. */
  function Apply(t: Tree, m: map<string, string>): Tree
    decreases t
  {
    match t
    case Name(id, c) => Name(Lookup(m, id), c)
    case Arg(a, ann) => Arg(Lookup(m, a), ann)
    case Constant(lit) => if lit.StrLit? then Constant(StrLit(StrPlaceholder, lit.uPrefix)) else t
    case Expr(v) => Expr(Apply(v, m))
    case FunctionDef(isAsync, _, a, b, d, r, l, e) =>
      FunctionDef(isAsync, FuncPlaceholder, ApplyArgs(a, m), ApplySeq(StripDocstring(b), m),
                  ApplySeq(d, m), ApplySeq(r, m), l, e)
    case Node(tag, fs) => Node(tag, ApplySeq(fs, m))
    case List(items) => List(ApplySeq(items, m))
    case Params(a) => Params(ApplyArgs(a, m))
  }

  function ApplySeq(ts: seq<Tree>, m: map<string, string>): seq<Tree>
    decreases ts
  {
    if |ts| == 0 then [] else [Apply(ts[0], m)] + ApplySeq(ts[1..], m)
  }

  function ApplyArgs(a: Arguments, m: map<string, string>): Arguments
    decreases a
  {
    Arguments(ApplySeq(a.posonly, m), ApplySeq(a.args, m), ApplySeq(a.vararg, m), ApplySeq(a.kwonly, m),
              ApplySeq(a.kwDefaults, m), ApplySeq(a.kwarg, m), ApplySeq(a.defaults, m))
  }

  lemma AgreesTrans(s1: NameMap, s2: NameMap, m: map<string, string>)
    requires Extends(s1, s2) && Agrees(s2, m)
    ensures Agrees(s1, m)
  {
  }

  lemma {:induction false} NormIsApply(t: Tree, st: NameMap, m: map<string, string>)
    requires TokensOnly(st) && Agrees(NormTree(t, st).1, m)
    ensures NormTree(t, st).0 == Apply(t, m)
    decreases t
  {
    match t
    case Name(_, _) =>
    case Arg(_, _) =>
    case Constant(_) =>
    case Expr(v) => NormIsApply(v, st, m);
    case FunctionDef(_, _, a, b, d, r, _, _) =>
      var s1 := NormArgs(a, st).1;
      var s2 := NormSeq(StripDocstring(b), s1).1;
      var s3 := NormSeq(d, s2).1;
      var s4 := NormSeq(r, s3).1;
      AgreesTrans(s3, s4, m);
      AgreesTrans(s2, s3, m);
      AgreesTrans(s1, s2, m);
      NormArgsIsApply(a, st, m);
      NormSeqIsApply(StripDocstring(b), s1, m);
      NormSeqIsApply(d, s2, m);
      NormSeqIsApply(r, s3, m);
    case Node(_, fs) => NormSeqIsApply(fs, st, m);
    case List(items) => NormSeqIsApply(items, st, m);
    case Params(a) => NormArgsIsApply(a, st, m);
  }

  lemma {:induction false} NormSeqIsApply(ts: seq<Tree>, st: NameMap, m: map<string, string>)
    requires TokensOnly(st) && Agrees(NormSeq(ts, st).1, m)
    ensures NormSeq(ts, st).0 == ApplySeq(ts, m)
    decreases ts
  {
    if |ts| > 0 {
      var s1 := NormTree(ts[0], st).1;
      AgreesTrans(s1, NormSeq(ts[1..], s1).1, m);
      NormIsApply(ts[0], st, m);
      NormSeqIsApply(ts[1..], s1, m);
    }
  }

  lemma {:induction false} NormArgsIsApply(a: Arguments, st: NameMap, m: map<string, string>)
    requires TokensOnly(st) && Agrees(NormArgs(a, st).1, m)
    ensures NormArgs(a, st).0 == ApplyArgs(a, m)
    decreases a
  {
    var s1 := NormSeq(a.posonly, st).1;
    var s2 := NormSeq(a.args, s1).1;
    var s3 := NormSeq(a.vararg, s2).1;
    var s4 := NormSeq(a.kwonly, s3).1;
    var s5 := NormSeq(a.kwDefaults, s4).1;
    var s6 := NormSeq(a.kwarg, s5).1;
    var s7 := NormSeq(a.defaults, s6).1;
    AgreesTrans(s6, s7, m);
    AgreesTrans(s5, s6, m);
    AgreesTrans(s4, s5, m);
    AgreesTrans(s3, s4, m);
    AgreesTrans(s2, s3, m);
    AgreesTrans(s1, s2, m);
    NormSeqIsApply(a.posonly, st, m);
    NormSeqIsApply(a.args, s1, m);
    NormSeqIsApply(a.vararg, s2, m);
    NormSeqIsApply(a.kwonly, s3, m);
    NormSeqIsApply(a.kwDefaults, s4, m);
    NormSeqIsApply(a.kwarg, s5, m);
    NormSeqIsApply(a.defaults, s6, m);
  }

  /** The normal form renames the `i`-th distinct identifier (in visiting
      order) to `var_i`, renames nothing else, gives distinct identifiers
      distinct tokens and gives every occurrence of one identifier the
      same token. */
  lemma NormalFormNumbering(t: Tree)
    ensures var m := NormTree(t, Fresh).1.names;
            var d := FirstOccurrences(Idents(t));
            && Normalize(t) == Apply(t, m)
            && Distinct(d)
            && (forall x :: x in m <==> x in Idents(t))
            && (forall i :: 0 <= i < |d| ==> d[i] in m && m[d[i]] == VarToken(i))
            && (forall x, y :: x in m && y in m && m[x] == m[y] ==> x == y)
  {
    var m := NormTree(t, Fresh).1.names;
    var d := FirstOccurrences(Idents(t));
    NormIsApply(t, Fresh, m);
    NormState(t, Fresh);
    assert Numbered(Fresh, []);
    AssignNumbered(Fresh, [], Idents(t));
    FirstOccurrencesFacts(Idents(t));
    NumberedInjective(NormTree(t, Fresh).1, d);
  }

  /** Numbered identifiers get distinct tokens. */
  lemma NumberedInjective(st: NameMap, d: seq<string>)
    requires Numbered(st, d)
    ensures forall x, y :: x in st.names && y in st.names && st.names[x] == st.names[y] ==> x == y
  {
    forall x, y | x in st.names && y in st.names && st.names[x] == st.names[y]
      ensures x == y
    {
      var i :| 0 <= i < |d| && d[i] == x;
      var j :| 0 <= j < |d| && d[j] == y;
      VarTokenInjective(i, j);
    }
  }
}
