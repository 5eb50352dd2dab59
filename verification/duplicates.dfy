/** Grouping of function signatures into duplicate groups by body hash,
    with the suggested shared name and module for each group. */
module Duplicates {
  import opened Text
  import opened Seqs
  import opened Paths
  import opened Extractor

  /** `DuplicateGroup`; `similarity` is always 1.0 for hash-equal groups.
      The suggested name and module are determined by the members, so they
      are computed from them rather than stored. */
  datatype DuplicateGroup = DuplicateGroup(functions: seq<Signature>, similarity: real)
  {
    function Count(): nat { |functions| }

    function SuggestedName(): string
      requires |functions| > 0
    {
      SuggestName(Names(functions))
    }

    function SuggestedModule(): string
      requires |functions| > 0
    {
      SuggestModule(functions)
    }

    /** The distinct files the members come from. */
    function Files(): (r: set<string>)
      ensures forall i :: 0 <= i < |functions| ==> functions[i].file in r
      ensures forall f :: f in r ==> exists i :: 0 <= i < |functions| && functions[i].file == f
    {
      set i | 0 <= i < |functions| :: functions[i].file
    }

    function TotalLines(): int {
      Sum(functions, LineCountOf)
    }

    /** Lines saved by keeping one average-sized copy: nothing for a
        single function, else the total less its floor average. */
    function PotentialSavings(): (r: int)
      ensures Count() <= 1 ==> r == 0
      ensures Count() > 1 && TotalLines() >= 0 ==> 0 <= r <= TotalLines()
    {
      if Count() <= 1 then 0 else TotalLines() - TotalLines() / Count()
    }
  }

  function LineCountOf(s: Signature): int { s.lineCount }

  lemma {:induction false} SumUniform(fs: seq<Signature>, n: int)
    requires forall i :: 0 <= i < |fs| ==> fs[i].lineCount == n
    ensures Sum(fs, LineCountOf) == |fs| * n
  {
    if |fs| > 0 {
      SumUniform(fs[1..], n);
    }
  }

  /** `k` copies of an `n`-line function save `(k - 1) * n` lines. */
  lemma UniformSavings(g: DuplicateGroup, n: int)
    requires g.Count() >= 2
    requires forall i :: 0 <= i < |g.functions| ==> g.functions[i].lineCount == n
    ensures g.PotentialSavings() == (g.Count() - 1) * n
  {
    SumUniform(g.functions, n);
    MulDiv(g.Count(), n);
    assert (g.Count() - 1) * n == g.Count() * n - n;
  }

  lemma MulDiv(k: int, n: int)
    requires k > 0
    ensures (k * n) / k == n
  {
    var q, r := (k * n) / k, (k * n) % k;
    assert k * n == k * q + r && 0 <= r < k;
    assert k * (n - q) == r;
    if n - q >= 1 {
    } else if n - q <= -1 {
    }
  }

  // ---------------------------------------------------------------------
  // Words of a function name
  // ---------------------------------------------------------------------

  /** The words of `rest`, given the word `cur` collected so far: a word
      ends at `_` and before an upper-case letter that follows a non-empty
      word; letters are lower-cased and no word is empty. */
  function WordsFrom(rest: string, cur: string): seq<string>
    decreases |rest|
  {
    if |rest| == 0 then (if |cur| > 0 then [cur] else [])
    else if rest[0] == '_' then (if |cur| > 0 then [cur] else []) + WordsFrom(rest[1..], "")
    else if IsUpper(rest[0]) && |cur| > 0 then [cur] + WordsFrom(rest[1..], [LowerChar(rest[0])])
    else WordsFrom(rest[1..], cur + [LowerChar(rest[0])])
  }

  /** The words of a name, in order (the source keeps them as a set). */
  function Words(name: string): seq<string> {
    WordsFrom(name, "")
  }

  predicate WellFormedWord(w: string) {
    |w| > 0 && forall k :: 0 <= k < |w| ==> w[k] != '_' && !IsUpper(w[k])
  }

  /** The name with its underscores dropped. */
  function WithoutUnderscores(s: string): string {
    if |s| == 0 then "" else (if s[0] == '_' then "" else [s[0]]) + WithoutUnderscores(s[1..])
  }

  lemma LowerAppend(a: string, b: string)
    ensures Lower(a + b) == Lower(a) + Lower(b)
  {
  }

  /** An underscore closes the current word and is itself dropped. */
  lemma UnderscoreEndsWord(rest: string, cur: string)
    requires |rest| > 0 && rest[0] == '_'
    requires Concat(WordsFrom(rest[1..], "")) == Lower(WithoutUnderscores(rest[1..]))
    ensures Concat(WordsFrom(rest, cur)) == cur + Lower(WithoutUnderscores(rest))
  {
    var pre := if |cur| > 0 then [cur] else [];
    assert WordsFrom(rest, cur) == pre + WordsFrom(rest[1..], "");
    ConcatAppend(pre, WordsFrom(rest[1..], ""));
    assert Concat(pre) == cur;
    assert WithoutUnderscores(rest) == WithoutUnderscores(rest[1..]);
  }

  /** A letter survives underscore removal, lower-cased. */
  lemma LowerFirst(rest: string)
    requires |rest| > 0 && rest[0] != '_'
    ensures Lower(WithoutUnderscores(rest)) == [LowerChar(rest[0])] + Lower(WithoutUnderscores(rest[1..]))
  {
    var tail := WithoutUnderscores(rest[1..]);
    assert WithoutUnderscores(rest) == [rest[0]] + tail;
    LowerAppend([rest[0]], tail);
    assert Lower([rest[0]]) == [LowerChar(rest[0])];
  }

  /** An upper-case letter after a non-empty word starts a new word. */
  lemma CapitalStartsWord(rest: string, cur: string)
    requires |rest| > 0 && rest[0] != '_' && IsUpper(rest[0]) && |cur| > 0
    requires Concat(WordsFrom(rest[1..], [LowerChar(rest[0])]))
          == [LowerChar(rest[0])] + Lower(WithoutUnderscores(rest[1..]))
    ensures Concat(WordsFrom(rest, cur)) == cur + Lower(WithoutUnderscores(rest))
  {
    var next := WordsFrom(rest[1..], [LowerChar(rest[0])]);
    assert WordsFrom(rest, cur) == [cur] + next;
    ConcatAppend([cur], next);
    assert Concat([cur]) == cur;
    LowerFirst(rest);
  }

  /** Any other letter extends the current word. */
  lemma LetterExtendsWord(rest: string, cur: string)
    requires |rest| > 0 && rest[0] != '_' && !(IsUpper(rest[0]) && |cur| > 0)
    requires Concat(WordsFrom(rest[1..], cur + [LowerChar(rest[0])]))
          == cur + [LowerChar(rest[0])] + Lower(WithoutUnderscores(rest[1..]))
    ensures Concat(WordsFrom(rest, cur)) == cur + Lower(WithoutUnderscores(rest))
  {
    var tail := Lower(WithoutUnderscores(rest[1..]));
    assert WordsFrom(rest, cur) == WordsFrom(rest[1..], cur + [LowerChar(rest[0])]);
    LowerFirst(rest);
    AppendAssoc(cur, [LowerChar(rest[0])], tail);
  }

  lemma {:induction false} WordsFromConcat(rest: string, cur: string)
    ensures Concat(WordsFrom(rest, cur)) == cur + Lower(WithoutUnderscores(rest))
    decreases |rest|
  {
    if |rest| == 0 {
      assert Lower("") == "";
    } else {
      var c := rest[0];
      if c == '_' {
        WordsFromConcat(rest[1..], "");
        UnderscoreEndsWord(rest, cur);
      } else {
        if IsUpper(c) && |cur| > 0 {
          WordsFromConcat(rest[1..], [LowerChar(c)]);
          CapitalStartsWord(rest, cur);
        } else {
          WordsFromConcat(rest[1..], cur + [LowerChar(c)]);
          LetterExtendsWord(rest, cur);
        }
      }
    }
  }

  lemma {:induction false} WordsFromWellFormed(rest: string, cur: string)
    requires |cur| > 0 ==> WellFormedWord(cur)
    ensures forall i :: 0 <= i < |WordsFrom(rest, cur)| ==> WellFormedWord(WordsFrom(rest, cur)[i])
    decreases |rest|
  {
    if |rest| > 0 {
      var c := rest[0];
      if c == '_' {
        WordsFromWellFormed(rest[1..], "");
      } else {
        assert WellFormedWord([LowerChar(c)]);
        if IsUpper(c) && |cur| > 0 {
          WordsFromWellFormed(rest[1..], [LowerChar(c)]);
        } else {
          WordsFromWellFormed(rest[1..], cur + [LowerChar(c)]);
        }
      }
    }
  }

  /** Splitting loses only underscores and case, and yields well-formed
      words. */
  lemma WordsFacts(name: string)
    ensures Concat(Words(name)) == Lower(WithoutUnderscores(name))
    ensures forall i :: 0 <= i < |Words(name)| ==> WellFormedWord(Words(name)[i])
  {
    WordsFromConcat(name, "");
    WordsFromWellFormed(name, "");
  }

  // ---------------------------------------------------------------------
  // Common words and the suggested name
  // ---------------------------------------------------------------------

  /** `w` is a word of every name. */
  predicate InAll(w: string, names: seq<string>) {
    forall k :: 0 <= k < |names| ==> w in Words(names[k])
  }

  function Length(w: string): int { |w| }

  /** `_find_common_words`: the words shared by all names, longest first.
      Words of equal length come in order of appearance in the first name;
      the source leaves their order to set iteration. */
  function CommonWords(names: seq<string>): (r: seq<string>)
    ensures |names| == 0 ==> r == []
    ensures forall i :: 0 <= i < |r| ==> InAll(r[i], names)
    ensures forall w :: |names| > 0 && InAll(w, names) ==> w in r
    ensures Distinct(r)
    ensures SortedDesc(r, Length)
  {
    if |names| == 0 then []
    else
      var firsts := FirstOccurrences(Words(names[0]));
      var shared := Filter(firsts, w => InAll(w, names));
      FirstOccurrencesFacts(Words(names[0]));
      FilterKeepsDistinct(firsts, w => InAll(w, names));
      var r := SortDesc(shared, Length);
      PermutationKeepsDistinct(shared, r);
      forall i | 0 <= i < |r| ensures InAll(r[i], names) {
        assert r[i] in multiset(shared);
      }
      forall w | InAll(w, names) ensures w in r {
        assert w in Words(names[0]);
        assert w in firsts;
        var k :| 0 <= k < |firsts| && firsts[k] == w;
        assert w in shared;
        assert w in multiset(r);
      }
      r
  }

  /** The name suggested for a group: its longest common word, or the
      first member's name when the names share no word. */
  function SuggestName(names: seq<string>): string
    requires |names| > 0
  {
    var cw := CommonWords(names);
    if |cw| > 0 then cw[0] else names[0]
  }

  lemma SuggestNameSpec(names: seq<string>)
    requires |names| > 0
    ensures (exists w :: InAll(w, names)) ==>
              InAll(SuggestName(names), names)
              && forall w :: InAll(w, names) ==> |w| <= |SuggestName(names)|
    ensures (forall w :: !InAll(w, names)) ==> SuggestName(names) == names[0]
  {
    var cw := CommonWords(names);
    if |cw| > 0 {
      forall w | InAll(w, names) ensures |w| <= |cw[0]| {
        var i :| 0 <= i < |cw| && cw[i] == w;
        assert i == 0 || Length(cw[0]) >= Length(cw[i]);
      }
    }
  }

  // ---------------------------------------------------------------------
  // The suggested module
  // ---------------------------------------------------------------------

  /** The last component of a file's directory. */
  function DirName(file: string): string { Name(Parent(file)) }

  /** `_suggest_module`: `<d>/utils.py` when every member's directory has
      the same last component `d`, else `shared.py` beside the first
      member. */
  function SuggestModule(group: seq<Signature>): string
    requires |group| > 0
  {
    if forall i :: 0 <= i < |group| ==> DirName(group[i].file) == DirName(group[0].file) then
      DirName(group[0].file) + "/utils.py"
    else
      JoinPath(Parent(group[0].file), "shared.py")
  }

  lemma SuggestModuleSpec(group: seq<Signature>)
    requires |group| > 0
    ensures (forall i :: 0 <= i < |group| ==> DirName(group[i].file) == DirName(group[0].file))
            <==> SuggestModule(group) == DirName(group[0].file) + "/utils.py"
    ensures !(forall i :: 0 <= i < |group| ==> DirName(group[i].file) == DirName(group[0].file))
            ==> SuggestModule(group) == JoinPath(Parent(group[0].file), "shared.py")
  {
    var r := JoinPath(Parent(group[0].file), "shared.py");
    var u := DirName(group[0].file) + "/utils.py";
    assert u[|u| - 9..] == "/utils.py";
    assert r[|r| - 9..] == "shared.py";
  }

  // ---------------------------------------------------------------------
  // find_duplicates
  // ---------------------------------------------------------------------

  function HashOf(s: Signature): string { s.bodyHash }

  function Hashes(fs: seq<Signature>): (r: seq<string>)
    ensures |r| == |fs|
    ensures forall i :: 0 <= i < |fs| ==> r[i] == fs[i].bodyHash
  {
    if |fs| == 0 then [] else [fs[0].bodyHash] + Hashes(fs[1..])
  }

  function Names(fs: seq<Signature>): (r: seq<string>)
    ensures |r| == |fs|
    ensures forall i :: 0 <= i < |fs| ==> r[i] == fs[i].name
  {
    if |fs| == 0 then [] else [fs[0].name] + Names(fs[1..])
  }

  /** The functions long enough to be considered. */
  function Candidates(fs: seq<Signature>, minLines: int): seq<Signature> {
    Filter(fs, (s: Signature) => s.lineCount >= minLines)
  }

  function HashIs(h: string): Signature -> bool {
    (s: Signature) => s.bodyHash == h
  }

  /** The bucket of hash `h`: the candidates with that hash, in input order. */
  function Bucket(cands: seq<Signature>, h: string): seq<Signature> {
    Filter(cands, HashIs(h))
  }


  /** A well-formed group of the candidates: two or more members making
      up the whole bucket of their hash. */
  predicate GoodGroup(g: DuplicateGroup, cands: seq<Signature>) {
    |g.functions| >= 2 && g.similarity == 1.0
      && g.functions == Bucket(cands, g.functions[0].bodyHash)
  }

  function GroupHash(g: DuplicateGroup): string
    requires |g.functions| > 0
  {
    g.functions[0].bodyHash
  }

  /** Some group has hash `h`. */
  predicate Covers(r: seq<DuplicateGroup>, h: string) {
    exists i :: 0 <= i < |r| && |r[i].functions| > 0 && r[i].functions[0].bodyHash == h
  }

  /** The groups of the buckets of `hs` that hold at least two functions,
      in the order of `hs`. */
  function GroupsFor(cands: seq<Signature>, hs: seq<string>): (r: seq<DuplicateGroup>)
    ensures forall i :: 0 <= i < |r| ==> GoodGroup(r[i], cands) && r[i].functions[0].bodyHash in hs
  {
    if |hs| == 0 then []
    else
      var b := Bucket(cands, hs[0]);
      var rest := GroupsFor(cands, hs[1..]);
      if |b| >= 2 then
        assert b[0].bodyHash == hs[0];
        [DuplicateGroup(b, 1.0)] + rest
      else
        rest
  }

  lemma {:induction false} GroupsForCovers(cands: seq<Signature>, hs: seq<string>, h: string)
    requires h in hs && |Bucket(cands, h)| >= 2
    ensures Covers(GroupsFor(cands, hs), h)
  {
    var r := GroupsFor(cands, hs);
    var b := Bucket(cands, hs[0]);
    var rest := GroupsFor(cands, hs[1..]);
    if h == hs[0] {
      assert b[0].bodyHash == h;
      assert r[0].functions[0].bodyHash == h;
    } else {
      assert h in hs[1..];
      GroupsForCovers(cands, hs[1..], h);
      var i :| 0 <= i < |rest| && |rest[i].functions| > 0 && rest[i].functions[0].bodyHash == h;
      if |b| >= 2 {
        assert r[i + 1] == rest[i];
      }
    }
  }

  lemma {:induction false} GroupsForDistinct(cands: seq<Signature>, hs: seq<string>)
    requires Distinct(hs)
    ensures Distinct(GroupsFor(cands, hs))
  {
    if |hs| > 0 {
      var b := Bucket(cands, hs[0]);
      var rest := GroupsFor(cands, hs[1..]);
      assert Distinct(hs[1..]) by {
        forall i, j | 0 <= i < j < |hs| - 1 ensures hs[1..][i] != hs[1..][j] {
          assert hs[1..][i] == hs[i + 1];
        }
      }
      GroupsForDistinct(cands, hs[1..]);
      if |b| >= 2 {
        var r := [DuplicateGroup(b, 1.0)] + rest;
        forall i | 0 <= i < |rest| ensures rest[i] != r[0] {
          var k :| 0 <= k < |hs[1..]| && hs[1..][k] == rest[i].functions[0].bodyHash;
          assert hs[k + 1] == hs[1..][k];
          assert b[0].bodyHash == hs[0];
        }
        assert forall i :: 1 <= i < |r| ==> r[i] == rest[i - 1];
      }
    }
  }

  function GroupCount(g: DuplicateGroup): int { |g.functions| }

  /** The groups before sorting: buckets of two or more candidates, in
      order of each hash's first appearance among the candidates. */
  function GroupsInHashOrder(fs: seq<Signature>, minLines: int): seq<DuplicateGroup> {
    var cands := Candidates(fs, minLines);
    GroupsFor(cands, FirstOccurrences(Hashes(cands)))
  }

  /** Every hash with a bucket of two or more candidates is among the
      first occurrences. */
  lemma BucketHashListed(cands: seq<Signature>, h: string)
    requires |Bucket(cands, h)| >= 1
    ensures h in FirstOccurrences(Hashes(cands))
  {
    var b := Bucket(cands, h);
    assert b[0] in cands;
    var k :| 0 <= k < |cands| && cands[k] == b[0];
    assert Hashes(cands)[k] == h;
    FirstOccurrencesFacts(Hashes(cands));
  }

  /** `find_duplicates`: the groups in descending order of size; groups of
      equal size keep the order of their hash's first appearance. The
      similarity threshold is accepted and has no effect. */
  function FindDuplicates(fs: seq<Signature>, threshold: real, minLines: int): (r: seq<DuplicateGroup>)
    ensures SortedDesc(r, GroupCount)
    ensures forall v :: KeyClass(r, GroupCount, v) == KeyClass(GroupsInHashOrder(fs, minLines), GroupCount, v)
    ensures multiset(r) == multiset(GroupsInHashOrder(fs, minLines))
  {
    SortDesc(GroupsInHashOrder(fs, minLines), GroupCount)
  }

  /** Every group is a full bucket of two or more candidates, and no group
      appears twice. */
  lemma FindDuplicatesGroups(fs: seq<Signature>, threshold: real, minLines: int)
    ensures var r := FindDuplicates(fs, threshold, minLines);
            && (forall i :: 0 <= i < |r| ==> GoodGroup(r[i], Candidates(fs, minLines)))
            && Distinct(r)
  {
    var cands := Candidates(fs, minLines);
    var hs := FirstOccurrences(Hashes(cands));
    FirstOccurrencesFacts(Hashes(cands));
    var groups := GroupsFor(cands, hs);
    var r := FindDuplicates(fs, threshold, minLines);
    GroupsForDistinct(cands, hs);
    PermutationKeepsDistinct(groups, r);
    PermutationAll(groups, r, (g: DuplicateGroup) => GoodGroup(g, cands));
  }

  /** Every hash shared by two or more candidates has its group. */
  lemma FindDuplicatesCovers(fs: seq<Signature>, threshold: real, minLines: int, h: string)
    requires |Bucket(Candidates(fs, minLines), h)| >= 2
    ensures Covers(FindDuplicates(fs, threshold, minLines), h)
  {
    var cands := Candidates(fs, minLines);
    var hs := FirstOccurrences(Hashes(cands));
    var groups := GroupsFor(cands, hs);
    var r := FindDuplicates(fs, threshold, minLines);
    BucketHashListed(cands, h);
    GroupsForCovers(cands, hs, h);
    PermutationSome(groups, r, (g: DuplicateGroup) => |g.functions| > 0 && g.functions[0].bodyHash == h);
  }

  /** A function lands in at most one group. */
  lemma AtMostOneGroup(fs: seq<Signature>, threshold: real, minLines: int, s: Signature, i: nat, j: nat)
    requires var r := FindDuplicates(fs, threshold, minLines);
             i < |r| && j < |r| && s in r[i].functions && s in r[j].functions
    ensures i == j
  {
    var r := FindDuplicates(fs, threshold, minLines);
    var cands := Candidates(fs, minLines);
    FindDuplicatesGroups(fs, threshold, minLines);
    assert GoodGroup(r[i], cands) && GoodGroup(r[j], cands);
    assert r[i] == r[j];
  }

  /** Every member of a group shares its hash and is a candidate. */
  lemma GroupMembersAlike(fs: seq<Signature>, threshold: real, minLines: int, i: nat)
    requires i < |FindDuplicates(fs, threshold, minLines)|
    ensures var g := FindDuplicates(fs, threshold, minLines)[i];
            forall k :: 0 <= k < |g.functions| ==>
              g.functions[k].bodyHash == g.functions[0].bodyHash
              && g.functions[k].lineCount >= minLines && g.functions[k] in fs
  {
    var g := FindDuplicates(fs, threshold, minLines)[i];
    var cands := Candidates(fs, minLines);
    FindDuplicatesGroups(fs, threshold, minLines);
    assert GoodGroup(g, cands);
    forall k | 0 <= k < |g.functions|
      ensures g.functions[k].bodyHash == g.functions[0].bodyHash
      ensures g.functions[k].lineCount >= minLines && g.functions[k] in fs
    {
      assert g.functions[k] in cands;
      var m :| 0 <= m < |cands| && cands[m] == g.functions[k];
    }
  }
}
