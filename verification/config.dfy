/** Configuration: the `Config` record with its defaults, `from_dict`, the
    fallback line-by-line TOML parser, the `[tool.auto-refactor-ai]`
    extraction for `pyproject.toml`, and the fallbacks of `load_config`.
    Reading files, the YAML loader and the search for a configuration file
    are parameters. */
module Settings {
  import opened Wrappers
  import opened Text
  import opened Seqs
  import opened Paths

  // ---------------------------------------------------------------------
  // Values
  // ---------------------------------------------------------------------

  /** The values a loaded configuration holds. Floats keep their source
      text; lists hold the strings the TOML parser produces. */
  datatype Value =
    | Null
    | Bool(b: bool)
    | Int(i: int)
    | Float(text: string)
    | Str(s: string)
    | List(items: seq<string>)
    | Table(entries: map<string, Value>)

  /** Python truthiness. */
  predicate Truthy(v: Value) {
    match v
    case Null => false
    case Bool(b) => b
    case Int(i) => i != 0
    case Float(t) => !FloatIsZero(t)
    case Str(s) => |s| > 0
    case List(items) => |items| > 0
    case Table(e) => |e| > 0
  }

  // ---------------------------------------------------------------------
  // Float literals (`float(s)` on ASCII text)
  // ---------------------------------------------------------------------

  function Unsigned(s: string): string {
    if |s| > 0 && (s[0] == '+' || s[0] == '-') then s[1..] else s
  }

  predicate IsSpecialFloat(s: string) {
    Lower(Unsigned(s)) in {"inf", "infinity", "nan"}
  }

  /** The index of the exponent marker, if any. */
  function ExponentAt(s: string): (r: Option<nat>)
    ensures r.Some? ==> r.value < |s| && s[r.value] in {'e', 'E'}
    ensures r.Some? ==> forall k :: 0 <= k < r.value ==> s[k] !in {'e', 'E'}
    ensures r.None? ==> forall k :: 0 <= k < |s| ==> s[k] !in {'e', 'E'}
  {
    if |s| == 0 then None
    else if s[0] in {'e', 'E'} then Some(0)
    else match ExponentAt(s[1..])
      case None => None
      case Some(k) => Some(k + 1)
  }

  function Mantissa(s: string): string {
    var u := Unsigned(s);
    match ExponentAt(u)
    case None => u
    case Some(k) => u[..k]
  }

  /** Digits with at most one point, and at least one digit. */
  predicate MantissaOk(m: string) {
    && (forall k :: 0 <= k < |m| ==> IsDigit(m[k]) || m[k] == '.')
    && (forall j, k :: 0 <= j < k < |m| && m[j] == '.' ==> m[k] != '.')
    && (exists k :: 0 <= k < |m| && IsDigit(m[k]))
  }

  /** An optional sign, then at least one digit. */
  predicate ExponentOk(x: string) {
    var d := Unsigned(x);
    |d| > 0 && AllDigits(d)
  }

  /** The decimal forms `float` accepts (underscores left out). */
  predicate FloatText(s: string) {
    var u := Unsigned(s);
    IsSpecialFloat(s)
    || match ExponentAt(u)
       case None => MantissaOk(u)
       case Some(k) => MantissaOk(u[..k]) && ExponentOk(u[k + 1..])
  }

  /** A zero float: no non-zero digit in the mantissa. */
  predicate FloatIsZero(s: string) {
    !IsSpecialFloat(s) && forall k :: 0 <= k < |Mantissa(s)| ==> Mantissa(s)[k] !in "123456789"
  }

  // ---------------------------------------------------------------------
  // Typing a value
  // ---------------------------------------------------------------------

  const Quotes: set<char> := {'"', '\''}

  /** `[v.strip().strip("\"'") for v in parts if v.strip()]`. */
  function ListItems(parts: seq<string>): (r: seq<string>)
    ensures |r| <= |parts|
  {
    if |parts| == 0 then []
    else
      var p := Strip(parts[0]);
      (if p != "" then [StripChars(p, Quotes)] else []) + ListItems(parts[1..])
  }

  /** The text starts and ends with the same quote character, `"` or `'`
      (a lone quote counts). */
  predicate Quoted(v: string) {
    (StartsWith(v, "\"") && EndsWith(v, "\"")) || (StartsWith(v, "'") && EndsWith(v, "'"))
  }

  /** The typing of a stripped value text, in the parser's order: a
      boolean, a list, a double- or single-quoted string, an int, a float,
      and otherwise the text itself. */
  function ParseValue(v: string): (r: Value)
    ensures !r.Null? && !r.Table?
    ensures r.Bool? <==> Lower(v) in {"true", "false"}
    ensures r.Bool? ==> r.b == (Lower(v) == "true")
    ensures r.List? <==> Lower(v) !in {"true", "false"} && StartsWith(v, "[") && EndsWith(v, "]")
    ensures r.Int? ==> ParseInt(v) == Some(r.i)
    ensures r.Float? ==> r.text == v && ParseInt(v).None? && FloatText(v)
    ensures !r.Bool? && !r.List? && Quoted(v) ==> r == Str(PySlice(v, 1, -1))
    ensures !r.Bool? && !r.List? && !Quoted(v) && ParseInt(v).Some? ==> r == Int(ParseInt(v).value)
    ensures !r.Bool? && !r.List? && !Quoted(v) && ParseInt(v).None? ==>
              r == (if FloatText(v) then Float(v) else Str(v))
  {
    var lower := Lower(v);
    if lower == "true" || lower == "false" then Bool(lower == "true")
    else if StartsWith(v, "[") && EndsWith(v, "]") then List(ListItems(Split(PySlice(v, 1, -1), ",")))
    else if StartsWith(v, "\"") && EndsWith(v, "\"") then Str(PySlice(v, 1, -1))
    else if StartsWith(v, "'") && EndsWith(v, "'") then Str(PySlice(v, 1, -1))
    else match ParseInt(v)
      case Some(i) => Int(i)
      case None => if FloatText(v) then Float(v) else Str(v)
  }

  /** How a value is written in a configuration file. */
  function Render(v: Value): string
    requires v.Bool? || v.Int? || v.Str?
  {
    match v
    case Bool(b) => if b then "true" else "false"
    case Int(i) => IntToString(i)
    case Str(s) => "\"" + s + "\""
  }

  /** Booleans, integers and double-quoted strings read back as written;
      a string keeps inner quotes and spaces. */
  lemma ParseValueOfRender(v: Value)
    requires v.Bool? || v.Int? || v.Str?
    ensures ParseValue(Render(v)) == v
  {
    match v
    case Bool(b) =>
    case Int(i) => ParseRenderedInt(i);
    case Str(s) => ParseRenderedStr(s);
  }

  lemma ParseRenderedInt(i: int)
    ensures ParseValue(IntToString(i)) == Int(i)
  {
    var t := IntToString(i);
    ParseIntOfIntToString(i);
    assert t[0] == '-' || IsDigit(t[0]);
    assert Lower(t)[0] == LowerChar(t[0]);
    assert Lower(t) != "true" && Lower(t) != "false";
    assert !StartsWith(t, "[") && !StartsWith(t, "\"") && !StartsWith(t, "'");
  }

  lemma ParseRenderedStr(s: string)
    ensures ParseValue("\"" + s + "\"") == Str(s)
  {
    var t := "\"" + s + "\"";
    assert Lower(t)[0] == '"';
    assert Lower(t) != "true" && Lower(t) != "false";
    assert !StartsWith(t, "[");
    assert StartsWith(t, "\"") && EndsWith(t, "\"");
    assert t[1..|t| - 1] == s;
  }

  /** Edge cases of the typing: a lone `"` is the empty string, `[""]` is
      a one-item list holding the empty string, and `TRUE` is a boolean. */
  lemma ParseValueQuirks()
    ensures ParseValue("\"") == Str("")
    ensures ParseValue("TRUE") == Bool(true)
  {
    assert Lower("\"") == "\"";
    assert Lower("TRUE") == "true";
  }

  /** A single-quoted string loses its quotes. */
  lemma ParseValueSingleQuoted()
    ensures ParseValue("'x'") == Str("x")
  {
    assert Lower("'x'") == "'x'";
  }

  /** Leading zeros still make an int. */
  lemma ParseValueLeadingZeros()
    ensures ParseValue("007") == Int(7)
  {
    assert Lower("007") == "007";
    assert ParseInt("007") == Some(DigitsValue("007"));
    assert DigitsValue("007") == 7 by {
      assert "007"[..2] == "00" && "00"[..1] == "0" && "0"[..0] == "";
    }
  }

  // ---------------------------------------------------------------------
  // Nested tables
  // ---------------------------------------------------------------------

  /** The value at a path of keys, walking nested tables from `t`. */
  function Lookup(t: map<string, Value>, path: seq<string>): Option<Value>
    decreases |path|
  {
    if |path| == 0 then Some(Table(t))
    else if path[0] !in t then None
    else if |path| == 1 then Some(t[path[0]])
    else if t[path[0]].Table? then Lookup(t[path[0]].entries, path[1..])
    else None
  }

  /** Why the source's parser raises: descending into, or assigning
      into, something that is not a table. */
  const NotATable := "TypeError: not a table"

  /** A section header `[a.b.c]`: from the root, each part is looked up
      and created as an empty table when missing. Passing through a value
      that is not a table fails; the last part may name one. */
  function EnterSection(t: map<string, Value>, parts: seq<string>): (r: Result<map<string, Value>, string>)
    requires |parts| > 0
    ensures r.Success? ==> Lookup(r.value, parts).Some?
    ensures r.Success? && Lookup(t, parts).Some? ==> Lookup(r.value, parts) == Lookup(t, parts)
    ensures r.Success? && Lookup(t, parts).None? ==> Lookup(r.value, parts) == Some(Table(map[]))
    ensures r.Success? ==> forall k :: k in t && k != parts[0] ==> k in r.value && r.value[k] == t[k]
    ensures r.Success? ==> r.value.Keys == t.Keys + {parts[0]}
    ensures r.Failure? <==> exists j :: Blocked(t, parts, j)
    decreases |parts|
  {
    var p := parts[0];
    var child := if p in t then t[p] else Table(map[]);
    if |parts| == 1 then
      Success(t[p := child])
    else if !child.Table? then
      assert parts[..1] == [p];
      assert Blocked(t, parts, 1);
      Failure(NotATable)
    else
      var sub := EnterSection(child.entries, parts[1..]);
      BlockedStep(t, parts, child.entries);
      if sub.Failure? then Failure(sub.error)
      else Success(t[p := Table(sub.value)])
  }

  /** A header walk is blocked at its `j`-th prefix (short of the last
      part) when that prefix names a value that is not a table. */
  predicate Blocked(t: map<string, Value>, parts: seq<string>, j: int) {
    && 1 <= j < |parts|
    && Lookup(t, parts[..j]).Some?
    && !Lookup(t, parts[..j]).value.Table?
  }

  /** Blocking one level down is blocking shifted by one. */
  lemma BlockedStep(t: map<string, Value>, parts: seq<string>, inner: map<string, Value>)
    requires |parts| >= 2 && (parts[0] !in t || t[parts[0]].Table?)
    requires inner == if parts[0] in t then t[parts[0]].entries else map[]
    ensures (exists j :: Blocked(t, parts, j)) <==> (exists j :: Blocked(inner, parts[1..], j))
  {
    assert parts[..1] == [parts[0]];
    assert !Blocked(t, parts, 1);
    forall j | 2 <= j <= |parts|
      ensures Lookup(t, parts[..j]) == Lookup(inner, parts[1..][..j - 1])
    {
      assert parts[..j][1..] == parts[1..][..j - 1];
      if parts[0] !in t {
        assert Lookup(inner, parts[1..][..j - 1]).None?;
      }
    }
    if exists j :: Blocked(t, parts, j) {
      var j :| Blocked(t, parts, j);
      assert Blocked(inner, parts[1..], j - 1);
    }
    if exists j :: Blocked(inner, parts[1..], j) {
      var j :| Blocked(inner, parts[1..], j);
      assert Blocked(t, parts, j + 1);
    }
  }

  /** `current_section[key] = value`, where the current section is the
      table at `path`: fails when that is not a table. */
  function SetAt(t: map<string, Value>, path: seq<string>, key: string, v: Value): (r: Result<map<string, Value>, string>)
    ensures r.Success? <==> Lookup(t, path).Some? && Lookup(t, path).value.Table?
    ensures r.Success? ==> Lookup(r.value, path + [key]) == Some(v)
    ensures r.Success? ==> forall k :: k in Lookup(t, path).value.entries && k != key ==>
                             Lookup(r.value, path + [k]) == Lookup(t, path + [k])
    decreases |path|
  {
    if |path| == 0 then Success(t[key := v])
    else if path[0] !in t || !t[path[0]].Table? then Failure(NotATable)
    else
      assert (path + [key])[1..] == path[1..] + [key];
      assert forall k :: (path + [k])[1..] == path[1..] + [k];
      match SetAt(t[path[0]].entries, path[1..], key, v)
      case Failure(e) => Failure(e)
      case Success(sub) => Success(t[path[0] := Table(sub)])
  }

  // ---------------------------------------------------------------------
  // The line parser
  // ---------------------------------------------------------------------

  /** The parsed document so far and the path of the current section. */
  datatype ParseState = ParseState(root: map<string, Value>, section: seq<string>)

  const Start := ParseState(map[], [])

  predicate IsSkipped(line: string) { line == "" || StartsWith(line, "#") }

  predicate IsHeader(line: string) { StartsWith(line, "[") && EndsWith(line, "]") }

  /** The parts of a header line's name, split at `.` without stripping
      the parts. */
  function HeaderParts(line: string): (r: seq<string>)
    ensures |r| >= 1
  {
    Split(Strip(PySlice(line, 1, -1)), ".")
  }

  /** The index of the first `=`. */
  function EqualsAt(line: string): (r: Option<nat>)
    ensures r.Some? ==> r.value < |line| && line[r.value] == '='
    ensures r.Some? ==> forall k :: 0 <= k < r.value ==> line[k] != '='
    ensures r.None? ==> forall k :: 0 <= k < |line| ==> line[k] != '='
  {
    if |line| == 0 then None
    else if line[0] == '=' then Some(0)
    else match EqualsAt(line[1..])
      case None => None
      case Some(k) => Some(k + 1)
  }

  /** What a line of the file is, once stripped. */
  datatype LineKind =
    | Skip
    | Header(parts: seq<string>)
    | KeyValue(key: string, value: Value)
    | Ignored

  /** Comments and blank lines are skipped; a bracketed line is a section
      header; a line with `=` is split at its first `=` into a stripped key
      and a stripped, typed value; anything else is ignored. */
  function Classify(raw: string): (k: LineKind)
    ensures var line := Strip(raw);
            && (k.Skip? <==> IsSkipped(line))
            && (k.Header? <==> !IsSkipped(line) && IsHeader(line))
            && (k.Header? ==> k.parts == HeaderParts(line))
            && (k.Ignored? <==> !IsSkipped(line) && !IsHeader(line) && '=' !in line)
            && (k.KeyValue? ==> exists i :: 0 <= i < |line| && line[i] == '=' && '=' !in line[..i]
                                            && k.key == Strip(line[..i])
                                            && k.value == ParseValue(Strip(line[i + 1..])))
  {
    var line := Strip(raw);
    if IsSkipped(line) then Skip
    else if IsHeader(line) then Header(HeaderParts(line))
    else match EqualsAt(line)
      case None => Ignored
      case Some(i) =>
        assert '=' !in line[..i];
        KeyValue(Strip(line[..i]), ParseValue(Strip(line[i + 1..])))
  }

  /** The effect of one line on the parser state. */
  function Apply(st: ParseState, k: LineKind): (r: Result<ParseState, string>)
    ensures (k.Skip? || k.Ignored?) ==> r == Success(st)
    ensures k.Header? && |k.parts| > 0 ==>
              (r.Success? <==> !exists j :: Blocked(st.root, k.parts, j))
    ensures r.Success? && k.Header? ==> r.value.section == k.parts
    ensures r.Success? && k.Header? && |k.parts| > 0 ==> Lookup(r.value.root, k.parts).Some?
    ensures k.KeyValue? ==>
              (r.Success? <==> Lookup(st.root, st.section).Some? && Lookup(st.root, st.section).value.Table?)
    ensures r.Success? && k.KeyValue? ==> r.value.section == st.section
                                          && Lookup(r.value.root, st.section + [k.key]) == Some(k.value)
    ensures r.Success? && k.KeyValue? ==>
              forall n :: n in Lookup(st.root, st.section).value.entries && n != k.key ==>
                Lookup(r.value.root, st.section + [n]) == Lookup(st.root, st.section + [n])
  {
    match k
    case Skip => Success(st)
    case Ignored => Success(st)
    case Header(parts) =>
      if |parts| == 0 then Success(ParseState(st.root, parts))
      else
        var e := EnterSection(st.root, parts);
        if e.Failure? then Failure(e.error) else Success(ParseState(e.value, parts))
    case KeyValue(key, value) =>
      var w := SetAt(st.root, st.section, key, value);
      if w.Failure? then Failure(w.error) else Success(ParseState(w.value, st.section))
  }

  /** The lines of the file, classified. */
  function Kinds(lines: seq<string>): (ks: seq<LineKind>)
    ensures |ks| == |lines|
    ensures forall i :: 0 <= i < |lines| ==> ks[i] == Classify(lines[i])
  {
    seq(|lines|, i requires 0 <= i < |lines| => Classify(lines[i]))
  }

  /** The lines' effects, in order; the first failure ends the parse. */
  function ApplyAll(st: ParseState, ks: seq<LineKind>): Result<ParseState, string>
    decreases |ks|
  {
    if |ks| == 0 then Success(st)
    else match Apply(st, ks[0])
      case Failure(e) => Failure(e)
      case Success(next) => ApplyAll(next, ks[1..])
  }

  /** `_parse_simple_toml` over the lines of the file. */
  function ParseSimpleToml(lines: seq<string>): Result<map<string, Value>, string> {
    match ApplyAll(Start, Kinds(lines))
    case Failure(e) => Failure(e)
    case Success(st) => Success(st.root)
  }

  /** Blank, comment and other ignored lines can be dropped from a file
      without changing what it parses to. */
  lemma {:induction false} SkippedLinesIrrelevant(st: ParseState, a: seq<LineKind>, b: seq<LineKind>, c: LineKind)
    requires c.Skip? || c.Ignored?
    ensures ApplyAll(st, a + [c] + b) == ApplyAll(st, a + b)
    decreases |a|
  {
    if |a| == 0 {
      assert a + [c] + b == [c] + b;
      assert ([c] + b)[1..] == b;
      assert a + b == b;
    } else {
      assert (a + [c] + b)[0] == a[0] && (a + b)[0] == a[0];
      assert (a + [c] + b)[1..] == a[1..] + [c] + b;
      assert (a + b)[1..] == a[1..] + b;
      match Apply(st, a[0])
      case Failure(_) =>
      case Success(next) => SkippedLinesIrrelevant(next, a[1..], b, c);
    }
  }

  /** Parsing a file is parsing its first part and then the rest. */
  lemma {:induction false} ApplyAllConcat(st: ParseState, a: seq<LineKind>, b: seq<LineKind>)
    ensures ApplyAll(st, a + b) == match ApplyAll(st, a)
                                   case Failure(e) => Failure(e)
                                   case Success(mid) => ApplyAll(mid, b)
    decreases |a|
  {
    if |a| == 0 {
      assert a + b == b;
    } else {
      assert (a + b)[0] == a[0];
      assert (a + b)[1..] == a[1..] + b;
      match Apply(st, a[0])
      case Failure(_) =>
      case Success(next) => ApplyAllConcat(next, a[1..], b);
    }
  }

  /** Of two settings of the same key in the same section, the later one
      wins. */
  lemma LaterKeyWins(st: ParseState, key: string, v1: Value, v2: Value)
    requires Lookup(st.root, st.section).Some? && Lookup(st.root, st.section).value.Table?
    ensures var r := ApplyAll(st, [KeyValue(key, v1), KeyValue(key, v2)]);
            && r.Success?
            && Lookup(r.value.root, st.section + [key]) == Some(v2)
  {
    var r1 := Apply(st, KeyValue(key, v1));
    var mid := r1.value;
    SectionStaysTable(st.root, st.section, key, v1);
    assert mid.root == SetAt(st.root, st.section, key, v1).value;
    assert [KeyValue(key, v1), KeyValue(key, v2)][1..] == [KeyValue(key, v2)];
    assert ApplyAll(mid, [KeyValue(key, v2)]) == Apply(mid, KeyValue(key, v2)) by {
      assert [KeyValue(key, v2)][1..] == [];
    }
  }

  /** Assigning into a section leaves it a table. */
  lemma {:induction false} SectionStaysTable(t: map<string, Value>, path: seq<string>, key: string, v: Value)
    requires Lookup(t, path).Some? && Lookup(t, path).value.Table?
    ensures var r := SetAt(t, path, key, v);
            Lookup(r.value, path).Some? && Lookup(r.value, path).value.Table?
    decreases |path|
  {
    if |path| > 0 {
      SectionStaysTable(t[path[0]].entries, path[1..], key, v);
    }
  }

  // ---------------------------------------------------------------------
  // pyproject.toml and load_toml_config
  // ---------------------------------------------------------------------

  const ToolKey := "tool"
  const OwnKey := "auto-refactor-ai"

  /** `dict(items)` for a list of strings: each must have exactly two
      characters, key and value; later keys win. */
  function PairsToMap(items: seq<string>): Option<map<string, Value>>
  {
    if |items| == 0 then Some(map[])
    else if |items[|items| - 1]| != 2 then None
    else match PairsToMap(items[..|items| - 1])
      case None => None
      case Some(m) =>
        var s := items[|items| - 1];
        Some(m[s[..1] := Str(s[1..])])
  }

  /** `dict(result) if result else {}`: a falsy value gives `{}`, a table
      its entries; `dict` of anything else fails. */
  function AsDict(v: Value): (r: Option<map<string, Value>>)
    ensures !Truthy(v) ==> r == Some(map[])
    ensures Truthy(v) && v.Table? ==> r == Some(v.entries)
    ensures Truthy(v) && !v.Table? && !v.List? ==> r.None?
  {
    if !Truthy(v) then Some(map[])
    else match v
      case Table(e) => Some(e)
      case List(items) => PairsToMap(items)
      case _ => None
  }

  /** The `[tool.auto-refactor-ai]` table of a parsed pyproject file. */
  function PyProjectSection(data: map<string, Value>): (r: Option<map<string, Value>>)
    ensures (ToolKey !in data || !data[ToolKey].Table?) ==> r == Some(map[])
    ensures Lookup(data, [ToolKey, OwnKey]).None? ==> r == Some(map[])
    ensures Lookup(data, [ToolKey, OwnKey]).Some? && Lookup(data, [ToolKey, OwnKey]).value.Table? ==>
              r == Some(Lookup(data, [ToolKey, OwnKey]).value.entries)
  {
    var tool := if ToolKey in data then data[ToolKey] else Table(map[]);
    assert [ToolKey, OwnKey][1..] == [OwnKey];
    if !tool.Table? then Some(map[])
    else if OwnKey !in tool.entries then
      assert !Truthy(Table(map[]));
      AsDict(Table(map[]))
    else
      assert Lookup(data, [ToolKey, OwnKey]) == Some(tool.entries[OwnKey]);
      AsDict(tool.entries[OwnKey])
  }

  /** `load_toml_config` with the fallback parser: `None` when the file
      cannot be read or parsed, the own table of a `pyproject.toml`, and
      the whole document otherwise. */
  function LoadToml(path: string, contents: Option<seq<string>>): (r: Option<map<string, Value>>)
    ensures contents.None? ==> r.None?
    ensures contents.Some? && ParseSimpleToml(contents.value).Failure? ==> r.None?
    ensures contents.Some? && ParseSimpleToml(contents.value).Success? && Name(path) != "pyproject.toml" ==>
              r == Some(ParseSimpleToml(contents.value).value)
    ensures contents.Some? && ParseSimpleToml(contents.value).Success? && Name(path) == "pyproject.toml" ==>
              r == PyProjectSection(ParseSimpleToml(contents.value).value)
  {
    match contents
    case None => None
    case Some(lines) =>
      match ParseSimpleToml(lines)
      case Failure(_) => None
      case Success(data) =>
        if Name(path) == "pyproject.toml" then PyProjectSection(data) else Some(data)
  }

  // ---------------------------------------------------------------------
  // Config
  // ---------------------------------------------------------------------

  /** `Config`: the fields take whatever value the loaded data holds. */
  datatype Config = Config(maxFunctionLength: Value, maxParameters: Value, maxNestingDepth: Value,
                           enabledRules: Value)

  const DefaultRules: seq<string> := ["function-too-long", "too-many-parameters", "deep-nesting"]

  const ValidKeys: set<string> := {"max_function_length", "max_parameters", "max_nesting_depth", "enabled_rules"}

  /** `__post_init__`: no rule list means all three rules. */
  function PostInit(c: Config): (r: Config)
    ensures c.enabledRules.Null? ==> r.enabledRules == List(DefaultRules)
    ensures !c.enabledRules.Null? ==> r == c
    ensures r.maxFunctionLength == c.maxFunctionLength && r.maxParameters == c.maxParameters
    ensures r.maxNestingDepth == c.maxNestingDepth
  {
    if c.enabledRules.Null? then c.(enabledRules := List(DefaultRules)) else c
  }

  function Get(data: map<string, Value>, key: string, default: Value): Value {
    if key in data then data[key] else default
  }

  /** `Config()`. */
  function DefaultConfig(): (c: Config)
    ensures c == Config(Int(30), Int(5), Int(3), List(DefaultRules))
  {
    PostInit(Config(Int(30), Int(5), Int(3), Null))
  }

  /** `Config.from_dict`: only the four field names are read; the others
      are dropped. */
  function FromDict(data: map<string, Value>): (c: Config)
    ensures c.maxFunctionLength == Get(data, "max_function_length", Int(30))
    ensures c.maxParameters == Get(data, "max_parameters", Int(5))
    ensures c.maxNestingDepth == Get(data, "max_nesting_depth", Int(3))
    ensures c.enabledRules == (if "enabled_rules" in data && !data["enabled_rules"].Null?
                               then data["enabled_rules"] else List(DefaultRules))
  {
    PostInit(Config(Get(data, "max_function_length", Int(30)), Get(data, "max_parameters", Int(5)),
                    Get(data, "max_nesting_depth", Int(3)), Get(data, "enabled_rules", Null)))
  }

  /** Keys outside the four field names make no difference, and an empty
      dictionary gives the defaults. */
  lemma FromDictIgnoresUnknownKeys(data: map<string, Value>, k: string, v: Value)
    requires k !in ValidKeys
    ensures FromDict(data[k := v]) == FromDict(data)
    ensures FromDict(map[]) == DefaultConfig()
    ensures FromDict(map k | k in data && k in ValidKeys :: data[k]) == FromDict(data)
  {
  }

  /** The defaults when loading failed, the loaded settings otherwise. */
  function FromLoaded(data: Option<map<string, Value>>): Config {
    match data
    case None => DefaultConfig()
    case Some(d) => FromDict(d)
  }

  /** `load_config`. `path` is the argument, `found` what the upward
      search would find, `readLines` the lines of a readable file and
      `loadYaml` the YAML loader's result. */
  function LoadConfig(path: Option<string>, found: Option<string>, readLines: string -> Option<seq<string>>,
                      loadYaml: string -> Option<map<string, Value>>): (c: Config)
    ensures path.None? && found.None? ==> c == DefaultConfig()
    ensures var p := if path.Some? then path else found;
            p.Some? && Suffix(p.value) !in {".toml", ".yaml", ".yml"} ==> c == DefaultConfig()
    ensures var p := if path.Some? then path else found;
            p.Some? && Suffix(p.value) == ".toml" ==>
              c == FromLoaded(LoadToml(p.value, readLines(p.value)))
    ensures var p := if path.Some? then path else found;
            p.Some? && Suffix(p.value) in {".yaml", ".yml"} ==>
              c == FromLoaded(loadYaml(p.value))
  {
    var p := if path.Some? then path else found;
    match p
    case None => DefaultConfig()
    case Some(file) =>
      if Suffix(file) == ".toml" then FromLoaded(LoadToml(file, readLines(file)))
      else if Suffix(file) in {".yaml", ".yml"} then FromLoaded(loadYaml(file))
      else DefaultConfig()
  }

  /** A `pyproject.toml` whose two lines classify as a
      `[tool.auto-refactor-ai]` header and one setting: the header creates the nested table, the setting lands
      in it, and the loader returns exactly that table. */
  lemma PyProjectSettingLands(lines: seq<string>, key: string, v: Value)
    requires Kinds(lines) == [Header([ToolKey, OwnKey]), KeyValue(key, v)]
    ensures LoadToml("pyproject.toml", Some(lines)) == Some(map[key := v])
  {
    var data := map[ToolKey := Table(map[OwnKey := Table(map[key := v])])];
    PyProjectParse(key, v);
    assert ParseSimpleToml(lines) == Success(data);
    PyProjectSectionOf(key, v);
    PyProjectName();
  }

  lemma PyProjectName()
    ensures Name("pyproject.toml") == "pyproject.toml"
  {
  }

  /** The section lookup finds the table a `[tool.auto-refactor-ai]`
      header created. */
  lemma PyProjectSectionOf(key: string, v: Value)
    ensures PyProjectSection(map[ToolKey := Table(map[OwnKey := Table(map[key := v])])]) == Some(map[key := v])
  {
    var data := map[ToolKey := Table(map[OwnKey := Table(map[key := v])])];
    assert [ToolKey, OwnKey][1..] == [OwnKey];
    assert [OwnKey][1..] == [];
    assert Lookup(data, [ToolKey, OwnKey]) == Some(Table(map[key := v]));
    assert key in map[key := v];
    assert Truthy(Table(map[key := v]));
  }

  /** The header and the setting of `PyProjectSettingLands`, as parsed
      line kinds. */
  lemma PyProjectParse(key: string, v: Value)
    ensures ApplyAll(Start, [Header([ToolKey, OwnKey]), KeyValue(key, v)])
              == Success(ParseState(map[ToolKey := Table(map[OwnKey := Table(map[key := v])])], [ToolKey, OwnKey]))
  {
    var parts := [ToolKey, OwnKey];
    assert parts[1..] == [OwnKey];
    assert [OwnKey][1..] == [];
    var inner := map[OwnKey := Table(map[])];
    assert EnterSection(map[], [OwnKey]) == Success(inner);
    var root := map[ToolKey := Table(inner)];
    assert EnterSection(map[], parts) == Success(root);
    var mid := ParseState(root, parts);
    assert Apply(Start, Header(parts)) == Success(mid);
    assert SetAt(map[], [], key, v) == Success(map[key := v]);
    assert inner[OwnKey].entries == map[];
    var r1 := SetAt(inner, [OwnKey], key, v);
    assert r1.Success? && r1.value == inner[OwnKey := Table(map[key := v])];
    assert root[ToolKey].entries == inner;
    var r2 := SetAt(root, parts, key, v);
    assert r2.Success? && r2.value == root[ToolKey := Table(r1.value)];
    assert Apply(mid, KeyValue(key, v)) == Success(ParseState(r2.value, parts));
    assert [Header(parts), KeyValue(key, v)][1..] == [KeyValue(key, v)];
    assert [KeyValue(key, v)][1..] == [];
    assert ApplyAll(ParseState(r2.value, parts), []) == Success(ParseState(r2.value, parts));
    assert ApplyAll(mid, [KeyValue(key, v)]) == Success(ParseState(r2.value, parts));
    assert ApplyAll(Start, [Header(parts), KeyValue(key, v)]) == ApplyAll(mid, [KeyValue(key, v)]);
    assert r1.value == map[OwnKey := Table(map[key := v])];
    assert r2.value == map[ToolKey := Table(map[OwnKey := Table(map[key := v])])];
  }
}
