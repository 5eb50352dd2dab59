/** Function extraction for the clone detector: a breadth-first walk over
    the module's tree (as `ast.walk` does) producing one signature record
    per function definition, nested and async ones included. */
module Extractor {
  import opened Wrappers
  import opened Text
  import opened Seqs
  import opened Paths
  import opened PyAst
  import opened Normalizer

  /** `FunctionSignature`. */
  datatype Signature = Signature(file: string, name: string, startLine: int, endLine: int,
                                 parameters: seq<string>, bodyHash: string,
                                 parameterCount: int, lineCount: int)
  {
    /** `location`: `file:start-end`. */
    function Location(): (r: string)
      ensures StartsWith(r, file + ":")
      ensures EndsWith(r, "-" + IntToString(endLine))
      ensures |r| == |file| + 1 + |IntToString(startLine)| + 1 + |IntToString(endLine)|
    {
      assert (file + ":" + IntToString(startLine) + "-" + IntToString(endLine))[..|file + ":"|] == file + ":";
      file + ":" + IntToString(startLine) + "-" + IntToString(endLine)
    }

    /** `qualified_name`: the file's stem, a dot, the function name. */
    function QualifiedName(): (r: string)
      ensures EndsWith(r, "." + name)
      ensures StartsWith(r, Stem(file))
      ensures |r| == |Stem(file)| + 1 + |name|
    {
      assert (Stem(file) + "." + name)[..|Stem(file)|] == Stem(file);
      Stem(file) + "." + name
    }
  }

  /** Reads a location back: the end line is the digits after the last
      `-`, the start line the digits between that `-` and the `:` before
      them, and the file everything before that `:`. */
  function ParseLocation(r: string): Option<(string, int, int)> {
    var e := TrailDigits(r);
    if e == 0 || e == |r| || r[|r| - 1 - e] != '-' then None
    else
      var rest := r[..|r| - 1 - e];
      var k := TrailDigits(rest);
      if k == 0 || k == |rest| || rest[|rest| - 1 - k] != ':' then None
      else Some((rest[..|rest| - 1 - k], DigitsValue(rest[|rest| - k..]) as int, DigitsValue(r[|r| - e..]) as int))
  }

  /** A location reads back to its file and its two line numbers (Python's
      line numbers are never negative), so it is `file:start-end`. */
  lemma LocationReadBack(s: Signature)
    requires s.startLine >= 0 && s.endLine >= 0
    ensures ParseLocation(s.Location()) == Some((s.file, s.startLine, s.endLine))
  {
    ParseLocationOf(s.file, NatToString(s.startLine), NatToString(s.endLine));
    DigitsValueOfNatToString(s.startLine);
    DigitsValueOfNatToString(s.endLine);
  }

  lemma ParseLocationOf(f: string, a: string, b: string)
    requires |a| >= 1 && |b| >= 1 && AllDigits(a) && AllDigits(b)
    ensures ParseLocation(f + ":" + a + "-" + b) == Some((f, DigitsValue(a) as int, DigitsValue(b) as int))
  {
    var rest := f + [':'] + a;
    var r := rest + ['-'] + b;
    assert f + ":" + a + "-" + b == r;
    TrailDigitsAfter(rest, '-', b);
    assert r[..|r| - 1 - |b|] == rest;
    assert r[|r| - 1 - |b|] == '-';
    assert r[|r| - |b|..] == b;
    TrailDigitsAfter(f, ':', a);
    assert rest[|rest| - 1 - |a|] == ':';
    assert rest[|rest| - |a|..] == a;
    assert rest[..|rest| - 1 - |a|] == f;
  }

  // ---------------------------------------------------------------------
  // The breadth-first walk
  // ---------------------------------------------------------------------

  /** `ast.walk` started from the queue `q`: take the front node, queue its
      children at the back. */
  function Walk(q: seq<Tree>): seq<Tree>
    decreases SeqSize(q)
  {
    if |q| == 0 then []
    else
      ChildNodesSmaller(q[0]);
      assert q == [q[0]] + q[1..];
      SeqSizeConcat([q[0]], q[1..]);
      SeqSizeConcat(q[1..], ChildNodes(q[0]));
      [q[0]] + Walk(q[1..] + ChildNodes(q[0]))
  }

  predicate IsDef(t: Tree) { t.FunctionDef? }

  /** The number of definitions in a tree, counted structurally. */
  function DefCount(t: Tree): nat
    decreases t
  {
    match t
    case Name(_, _) => 0
    case Arg(_, ann) => DefCountSeq(ann)
    case Constant(_) => 0
    case Expr(v) => DefCount(v)
    case FunctionDef(_, _, a, b, d, r, _, _) => 1 + DefCountArgs(a) + DefCountSeq(b) + DefCountSeq(d) + DefCountSeq(r)
    case Node(_, fs) => DefCountSeq(fs)
    case List(items) => DefCountSeq(items)
    case Params(a) => DefCountArgs(a)
  }

  function DefCountSeq(ts: seq<Tree>): nat
    decreases ts
  {
    if |ts| == 0 then 0 else DefCount(ts[0]) + DefCountSeq(ts[1..])
  }

  function DefCountArgs(a: Arguments): nat
    decreases a
  {
    DefCountSeq(a.posonly) + DefCountSeq(a.args) + DefCountSeq(a.vararg) + DefCountSeq(a.kwonly)
      + DefCountSeq(a.kwDefaults) + DefCountSeq(a.kwarg) + DefCountSeq(a.defaults)
  }

  lemma {:induction false} DefCountSeqConcat(a: seq<Tree>, b: seq<Tree>)
    ensures DefCountSeq(a + b) == DefCountSeq(a) + DefCountSeq(b)
  {
    if |a| == 0 {
      assert a + b == b;
    } else {
      assert (a + b)[0] == a[0];
      assert (a + b)[1..] == a[1..] + b;
      DefCountSeqConcat(a[1..], b);
    }
  }

  lemma {:induction false} DefCountFlatten(fs: seq<Tree>)
    ensures DefCountSeq(FlattenFields(fs)) == DefCountSeq(fs)
  {
    if |fs| > 0 {
      var head := if fs[0].List? then fs[0].items else [fs[0]];
      DefCountSeqConcat(head, FlattenFields(fs[1..]));
      DefCountFlatten(fs[1..]);
      if !fs[0].List? {
        assert DefCountSeq([fs[0]]) == DefCount(fs[0]) + DefCountSeq([fs[0]][1..]);
      }
    }
  }

  lemma DefCountArgsChildren(a: Arguments)
    ensures DefCountSeq(ArgumentsChildren(a)) == DefCountArgs(a)
  {
    DefCountSeqConcat(a.posonly, a.args);
    DefCountSeqConcat(a.posonly + a.args, a.vararg);
    DefCountSeqConcat(a.posonly + a.args + a.vararg, a.kwonly);
    DefCountSeqConcat(a.posonly + a.args + a.vararg + a.kwonly, a.kwDefaults);
    DefCountSeqConcat(a.posonly + a.args + a.vararg + a.kwonly + a.kwDefaults, a.kwarg);
    DefCountSeqConcat(a.posonly + a.args + a.vararg + a.kwonly + a.kwDefaults + a.kwarg, a.defaults);
  }

  /** A node's definitions are itself (if it is one) and its children's. */
  lemma DefCountChildren(t: Tree)
    ensures DefCount(t) == (if IsDef(t) then 1 else 0) + DefCountSeq(ChildNodes(t))
  {
    match t
    case Name(_, _) =>
    case Arg(_, _) =>
    case Constant(_) =>
    case Expr(v) =>
      assert DefCountSeq([v]) == DefCount(v) + DefCountSeq([v][1..]);
    case FunctionDef(_, _, a, b, d, r, _, _) =>
      DefCountArgsChildren(a);
      DefCountSeqConcat(ArgumentsChildren(a), b);
      DefCountSeqConcat(ArgumentsChildren(a) + b, d);
      DefCountSeqConcat(ArgumentsChildren(a) + b + d, r);
    case Node(_, fs) => DefCountFlatten(fs);
    case List(_) =>
    case Params(a) => DefCountArgsChildren(a);
  }

  /** The walk meets every definition of the queued trees exactly once. */
  lemma {:induction false} WalkCountsDefs(q: seq<Tree>)
    ensures Count(Walk(q), IsDef) == DefCountSeq(q)
    decreases SeqSize(q)
  {
    if |q| > 0 {
      ChildNodesSmaller(q[0]);
      assert q == [q[0]] + q[1..];
      SeqSizeConcat([q[0]], q[1..]);
      SeqSizeConcat(q[1..], ChildNodes(q[0]));
      WalkCountsDefs(q[1..] + ChildNodes(q[0]));
      DefCountSeqConcat(q[1..], ChildNodes(q[0]));
      DefCountChildren(q[0]);
      CountConcat([q[0]], Walk(q[1..] + ChildNodes(q[0])), IsDef);
    }
  }

  /** The definitions the walk meets, in the order it meets them. */
  function Definitions(t: Tree): (r: seq<Tree>)
    ensures |r| == DefCount(t)
    ensures forall i :: 0 <= i < |r| ==> r[i].FunctionDef? && r[i] in Walk([t])
    ensures t.FunctionDef? ==> |r| > 0 && r[0] == t
  {
    WalkCountsDefs([t]);
    CountIsFilterLength(Walk([t]), IsDef);
    assert DefCountSeq([t]) == DefCount(t) + DefCountSeq([t][1..]);
    Filter(Walk([t]), IsDef)
  }

  // ---------------------------------------------------------------------
  // Signatures
  // ---------------------------------------------------------------------

  function ArgNames(ts: seq<Tree>): (r: seq<string>)
    ensures |r| == |ts|
    ensures forall i :: 0 <= i < |ts| ==> r[i] == ArgName(ts[i])
  {
    if |ts| == 0 then [] else [ArgName(ts[0])] + ArgNames(ts[1..])
  }

  /** The signature of one definition: positional parameter names only,
      and an inclusive line count. */
  function SignatureOf(file: string, d: Tree, digest: string -> string): (s: Signature)
    requires d.FunctionDef?
    ensures s.parameterCount == |s.parameters| == |d.args.args|
    ensures s.lineCount == s.endLine - s.startLine + 1
    ensures s.file == file && s.name == d.name && s.startLine == d.lineno && s.endLine == d.endLineno
    ensures s.parameters == ArgNames(d.args.args)
    ensures s.bodyHash == HashFunctionBody(d, digest)
  {
    var ps := ArgNames(d.args.args);
    Signature(file, d.name, d.lineno, d.endLineno, ps, HashFunctionBody(d, digest), |ps|,
              d.endLineno - d.lineno + 1)
  }

  /** `extract_functions_from_file`, given the file's parse result: a parse
      failure (`None`) yields no signatures. */
  function ExtractFunctions(file: string, parsed: Option<Tree>, digest: string -> string): (r: seq<Signature>)
    ensures parsed.None? ==> r == []
    ensures parsed.Some? ==> |r| == DefCount(parsed.value)
    ensures parsed.Some? ==> forall i :: 0 <= i < |r| ==>
              r[i] == SignatureOf(file, Definitions(parsed.value)[i], digest)
    ensures forall i :: 0 <= i < |r| ==> r[i].file == file
  {
    match parsed
    case None => []
    case Some(t) =>
      var ds := Definitions(t);
      seq(|ds|, i requires 0 <= i < |ds| => SignatureOf(file, ds[i], digest))
  }
}
