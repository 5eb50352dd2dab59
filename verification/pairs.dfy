/** The three function pairs of the duplicate-detection sample files
    `test_files/test_duplicates_pair_a.py` and `test_duplicates_pair_b.py`:
    each pair differs only in the function name, the docstring and the
    names of some variables, and each pair hashes alike. The trees are
    written with a few builders for the statements the functions use. */
module Pairs {
  import opened PyAst
  import opened Normalizer
  import opened Invariance

  // ---------------------------------------------------------------------
  // Statement and expression builders
  // ---------------------------------------------------------------------

  function Load(x: string): Tree { Name(x, Ctx.Load) }
  function Store(x: string): Tree { Name(x, Ctx.Store) }
  function Lit(repr: string): Tree { Constant(OtherLit(repr)) }
  function Doc(s: string): Tree { Expr(Constant(StrLit(s, false))) }

  function Call(f: Tree, args: seq<Tree>): Tree { Node("Call", [f, List(args), List([])]) }
  function Compare(op: string, l: Tree, r: Tree): Tree { Node("Compare:" + op, [l, List([r])]) }
  function BinOp(op: string, l: Tree, r: Tree): Tree { Node("BinOp:" + op, [l, r]) }
  function Not(e: Tree): Tree { Node("UnaryOp:Not", [e]) }

  function Assign(target: Tree, value: Tree): Tree { Node("Assign", [List([target]), value]) }
  function Return(value: Tree): Tree { Node("Return", [value]) }
  function If(test: Tree, body: seq<Tree>): Tree { Node("If", [test, List(body), List([])]) }
  function For(target: Tree, iter: Tree, body: seq<Tree>): Tree {
    Node("For", [target, iter, List(body), List([])])
  }

  function Def(name: string, params: seq<string>, body: seq<Tree>, line: int, end: int): Tree {
    FunctionDef(false, name, Arguments([], ParamArgs(params), [], [], [], [], []), body, [], [], line, end)
  }

  function ParamArgs(params: seq<string>): (r: seq<Tree>)
    ensures |r| == |params|
    ensures forall i :: 0 <= i < |params| ==> r[i] == Arg(params[i], [])
  {
    if |params| == 0 then [] else [Arg(params[0], [])] + ParamArgs(params[1..])
  }

  // ---------------------------------------------------------------------
  // Variants, one builder at a time
  // ---------------------------------------------------------------------

  lemma {:induction false} VariantSeqOf(a: seq<Tree>, b: seq<Tree>, rho: string -> string)
    requires |a| == |b| && forall i :: 0 <= i < |a| ==> Variant(a[i], b[i], rho)
    ensures VariantSeq(a, b, rho)
  {
    if |a| > 0 {
      assert forall i :: 0 <= i < |a| - 1 ==> a[1..][i] == a[i + 1] && b[1..][i] == b[i + 1];
      VariantSeqOf(a[1..], b[1..], rho);
    }
  }

  lemma VNode(tag: string, a: seq<Tree>, b: seq<Tree>, rho: string -> string)
    requires |a| == |b| && forall i :: 0 <= i < |a| ==> Variant(a[i], b[i], rho)
    ensures Variant(Node(tag, a), Node(tag, b), rho)
    ensures Variant(List(a), List(b), rho)
  {
    VariantSeqOf(a, b, rho);
  }

  lemma VCall(f1: Tree, f2: Tree, a1: seq<Tree>, a2: seq<Tree>, rho: string -> string)
    requires Variant(f1, f2, rho) && |a1| == |a2| && forall i :: 0 <= i < |a1| ==> Variant(a1[i], a2[i], rho)
    ensures Variant(Call(f1, a1), Call(f2, a2), rho)
  {
    VNode("", a1, a2, rho);
    VNode("", [], [], rho);
    VNode("Call", [f1, List(a1), List([])], [f2, List(a2), List([])], rho);
  }

  lemma VCompare(op: string, l1: Tree, l2: Tree, r1: Tree, r2: Tree, rho: string -> string)
    requires Variant(l1, l2, rho) && Variant(r1, r2, rho)
    ensures Variant(Compare(op, l1, r1), Compare(op, l2, r2), rho)
  {
    VNode("", [r1], [r2], rho);
    VNode("Compare:" + op, [l1, List([r1])], [l2, List([r2])], rho);
  }

  lemma VBinOp(op: string, l1: Tree, l2: Tree, r1: Tree, r2: Tree, rho: string -> string)
    requires Variant(l1, l2, rho) && Variant(r1, r2, rho)
    ensures Variant(BinOp(op, l1, r1), BinOp(op, l2, r2), rho)
  {
    VNode("BinOp:" + op, [l1, r1], [l2, r2], rho);
  }

  lemma VNot(e1: Tree, e2: Tree, rho: string -> string)
    requires Variant(e1, e2, rho)
    ensures Variant(Not(e1), Not(e2), rho)
  {
    VNode("UnaryOp:Not", [e1], [e2], rho);
  }

  lemma VAssign(t1: Tree, t2: Tree, v1: Tree, v2: Tree, rho: string -> string)
    requires Variant(t1, t2, rho) && Variant(v1, v2, rho)
    ensures Variant(Assign(t1, v1), Assign(t2, v2), rho)
  {
    VNode("", [t1], [t2], rho);
    VNode("Assign", [List([t1]), v1], [List([t2]), v2], rho);
  }

  lemma VReturn(v1: Tree, v2: Tree, rho: string -> string)
    requires Variant(v1, v2, rho)
    ensures Variant(Return(v1), Return(v2), rho)
  {
    VNode("Return", [v1], [v2], rho);
  }

  lemma VIf(t1: Tree, t2: Tree, b1: seq<Tree>, b2: seq<Tree>, rho: string -> string)
    requires Variant(t1, t2, rho) && |b1| == |b2| && forall i :: 0 <= i < |b1| ==> Variant(b1[i], b2[i], rho)
    ensures Variant(If(t1, b1), If(t2, b2), rho)
  {
    VNode("", b1, b2, rho);
    VNode("", [], [], rho);
    VNode("If", [t1, List(b1), List([])], [t2, List(b2), List([])], rho);
  }

  lemma VFor(x1: Tree, x2: Tree, e1: Tree, e2: Tree, b1: seq<Tree>, b2: seq<Tree>, rho: string -> string)
    requires Variant(x1, x2, rho) && Variant(e1, e2, rho)
    requires |b1| == |b2| && forall i :: 0 <= i < |b1| ==> Variant(b1[i], b2[i], rho)
    ensures Variant(For(x1, e1, b1), For(x2, e2, b2), rho)
  {
    VNode("", b1, b2, rho);
    VNode("", [], [], rho);
    VNode("For", [x1, e1, List(b1), List([])], [x2, e2, List(b2), List([])], rho);
  }

  /** Two definitions whose parameters are renamed by `rho` and whose
      bodies after the docstring are variants are variants. */
  lemma VDef(n1: string, n2: string, p1: seq<string>, p2: seq<string>, d1: string, d2: string,
             b1: seq<Tree>, b2: seq<Tree>, l1: int, e1: int, l2: int, e2: int, rho: string -> string)
    requires |p1| == |p2| && forall i :: 0 <= i < |p1| ==> rho(p1[i]) == p2[i]
    requires |b1| == |b2| && forall i :: 0 <= i < |b1| ==> Variant(b1[i], b2[i], rho)
    requires |b1| == 0 || !IsDocstring(b1[0])
    requires |b2| == 0 || !IsDocstring(b2[0])
    ensures Variant(Def(n1, p1, [Doc(d1)] + b1, l1, e1), Def(n2, p2, [Doc(d2)] + b2, l2, e2), rho)
  {
    var a1, a2 := ParamArgs(p1), ParamArgs(p2);
    VNode("", a1, a2, rho);
    VariantSeqOf([], [], rho);
    assert StripDocstring([Doc(d1)] + b1) == b1;
    assert StripDocstring([Doc(d2)] + b2) == b2;
    VariantSeqOf(b1, b2, rho);
  }

  // ---------------------------------------------------------------------
  // Renamings
  // ---------------------------------------------------------------------

  /** Exchange two identifiers, keep every other one. */
  function Swap(a: string, b: string): string -> string {
    (x: string) => if x == a then b else if x == b then a else x
  }

  function Compose(f: string -> string, g: string -> string): string -> string {
    (x: string) => f(g(x))
  }

  lemma SwapInjective(a: string, b: string)
    ensures Injective(Swap(a, b))
  {
  }

  lemma ComposeInjective(f: string -> string, g: string -> string)
    requires Injective(f) && Injective(g)
    ensures Injective(Compose(f, g))
  {
  }

  /** Three exchanges applied together. */
  function Swap3(a1: string, b1: string, a2: string, b2: string, a3: string, b3: string): string -> string {
    Compose(Swap(a1, b1), Compose(Swap(a2, b2), Swap(a3, b3)))
  }

  lemma Swap3Injective(a1: string, b1: string, a2: string, b2: string, a3: string, b3: string)
    ensures Injective(Swap3(a1, b1, a2, b2, a3, b3))
  {
    SwapInjective(a1, b1);
    SwapInjective(a2, b2);
    SwapInjective(a3, b3);
    ComposeInjective(Swap(a2, b2), Swap(a3, b3));
    ComposeInjective(Swap(a1, b1), Compose(Swap(a2, b2), Swap(a3, b3)));
  }

  // ---------------------------------------------------------------------
  // The pairs
  // ---------------------------------------------------------------------

  /** The body of `validate_input(data)` / `check_value(value)` after the
      docstring, with the parameter called `x`. */
  function ValidateBody(x: string): seq<Tree> {
    [ If(Compare("Is", Load(x), Lit("None")), [Return(Lit("False"))]),
      If(Not(Call(Load("isinstance"), [Load(x), Load("dict")])), [Return(Lit("False"))]),
      If(Compare("Eq", Call(Load("len"), [Load(x)]), Lit("0")), [Return(Lit("False"))]),
      Return(Lit("True")) ]
  }

  /** The body of `calculate_total(items, rate)` / `compute_sum(numbers,
      multiplier)` after the docstring. */
  function TotalBody(items: string, rate: string, item: string): seq<Tree> {
    [ If(Not(Load(items)), [Return(Lit("0"))]),
      Assign(Store("subtotal"), Lit("0")),
      For(Store(item), Load(items), [Assign(Store("subtotal"), BinOp("Add", Load("subtotal"), Load(item)))]),
      Assign(Store("result"), BinOp("Mult", Load("subtotal"), Load(rate))),
      Return(Load("result")) ]
  }

  function Append(target: string, x: string): Tree {
    Expr(Call(Node("Attribute:append:Load", [Load(target)]), [Load(x)]))
  }

  /** The body of `process_data(records, limit)` / `filter_items(entries,
      max_count)` after the docstring. */
  function ProcessBody(records: string, limit: string, record: string): seq<Tree> {
    [ Assign(Store("output"), Node("List:Load", [List([])])),
      Assign(Store("count"), Lit("0")),
      For(Store(record), Load(records),
          [ If(Compare("GtE", Load("count"), Load(limit)), [Node("Break", [])]),
            If(Compare("IsNot", Load(record), Lit("None")),
               [ Append("output", record),
                 Assign(Store("count"), BinOp("Add", Load("count"), Lit("1"))) ]) ]),
      Return(Load("output")) ]
  }

  function ValidateInput(): Tree {
    Def("validate_input", ["data"], [Doc("Validate input data.")] + ValidateBody("data"), 8, 16)
  }

  function CheckValue(): Tree {
    Def("check_value", ["value"], [Doc("Check value validity.")] + ValidateBody("value"), 8, 16)
  }

  function CalculateTotal(): Tree {
    Def("calculate_total", ["items", "rate"], [Doc("Calculate total with rate.")] + TotalBody("items", "rate", "item"), 19, 27)
  }

  function ComputeSum(): Tree {
    Def("compute_sum", ["numbers", "multiplier"], [Doc("Compute sum with multiplier.")]
          + TotalBody("numbers", "multiplier", "number"), 19, 27)
  }

  function ProcessData(): Tree {
    Def("process_data", ["records", "limit"], [Doc("Process records up to limit.")]
          + ProcessBody("records", "limit", "record"), 30, 40)
  }

  function FilterItems(): Tree {
    Def("filter_items", ["entries", "max_count"], [Doc("Filter entries up to max_count.")]
          + ProcessBody("entries", "max_count", "entry"), 30, 40)
  }

  lemma ValidateBodyVariant(x1: string, x2: string, rho: string -> string)
    requires rho(x1) == x2 && rho("isinstance") == "isinstance" && rho("dict") == "dict" && rho("len") == "len"
    ensures var b1, b2 := ValidateBody(x1), ValidateBody(x2);
            |b1| == |b2| && forall i :: 0 <= i < |b1| ==> Variant(b1[i], b2[i], rho)
  {
    var no := [Return(Lit("False"))];
    VReturn(Lit("False"), Lit("False"), rho);
    VCompare("Is", Load(x1), Load(x2), Lit("None"), Lit("None"), rho);
    VIf(Compare("Is", Load(x1), Lit("None")), Compare("Is", Load(x2), Lit("None")), no, no, rho);
    var c1, c2 := Call(Load("isinstance"), [Load(x1), Load("dict")]), Call(Load("isinstance"), [Load(x2), Load("dict")]);
    VCall(Load("isinstance"), Load("isinstance"), [Load(x1), Load("dict")], [Load(x2), Load("dict")], rho);
    VNot(c1, c2, rho);
    VIf(Not(c1), Not(c2), no, no, rho);
    var l1, l2 := Call(Load("len"), [Load(x1)]), Call(Load("len"), [Load(x2)]);
    VCall(Load("len"), Load("len"), [Load(x1)], [Load(x2)], rho);
    VCompare("Eq", l1, l2, Lit("0"), Lit("0"), rho);
    VIf(Compare("Eq", l1, Lit("0")), Compare("Eq", l2, Lit("0")), no, no, rho);
    VReturn(Lit("True"), Lit("True"), rho);
  }

  lemma TotalBodyVariant(items1: string, rate1: string, item1: string,
                         items2: string, rate2: string, item2: string, rho: string -> string)
    requires rho(items1) == items2 && rho(rate1) == rate2 && rho(item1) == item2
    requires rho("subtotal") == "subtotal" && rho("result") == "result"
    ensures var b1, b2 := TotalBody(items1, rate1, item1), TotalBody(items2, rate2, item2);
            |b1| == |b2| && forall i :: 0 <= i < |b1| ==> Variant(b1[i], b2[i], rho)
  {
    var zero := [Return(Lit("0"))];
    VReturn(Lit("0"), Lit("0"), rho);
    VNot(Load(items1), Load(items2), rho);
    VIf(Not(Load(items1)), Not(Load(items2)), zero, zero, rho);
    VAssign(Store("subtotal"), Store("subtotal"), Lit("0"), Lit("0"), rho);
    var sum1, sum2 := BinOp("Add", Load("subtotal"), Load(item1)), BinOp("Add", Load("subtotal"), Load(item2));
    VBinOp("Add", Load("subtotal"), Load("subtotal"), Load(item1), Load(item2), rho);
    VAssign(Store("subtotal"), Store("subtotal"), sum1, sum2, rho);
    VFor(Store(item1), Store(item2), Load(items1), Load(items2),
         [Assign(Store("subtotal"), sum1)], [Assign(Store("subtotal"), sum2)], rho);
    VBinOp("Mult", Load("subtotal"), Load("subtotal"), Load(rate1), Load(rate2), rho);
    VAssign(Store("result"), Store("result"), BinOp("Mult", Load("subtotal"), Load(rate1)),
            BinOp("Mult", Load("subtotal"), Load(rate2)), rho);
    VReturn(Load("result"), Load("result"), rho);
  }

  /** The loop body of `process_data`. */
  function ProcessLoop(limit: string, record: string): seq<Tree> {
    [ If(Compare("GtE", Load("count"), Load(limit)), [Node("Break", [])]),
      If(Compare("IsNot", Load(record), Lit("None")),
         [ Append("output", record),
           Assign(Store("count"), BinOp("Add", Load("count"), Lit("1"))) ]) ]
  }

  lemma ProcessLoopVariant(limit1: string, record1: string, limit2: string, record2: string, rho: string -> string)
    requires rho(limit1) == limit2 && rho(record1) == record2
    requires rho("output") == "output" && rho("count") == "count"
    ensures var b1, b2 := ProcessLoop(limit1, record1), ProcessLoop(limit2, record2);
            |b1| == |b2| && forall i :: 0 <= i < |b1| ==> Variant(b1[i], b2[i], rho)
  {
    var brk := [Node("Break", [])];
    VNode("Break", [], [], rho);
    VCompare("GtE", Load("count"), Load("count"), Load(limit1), Load(limit2), rho);
    VIf(Compare("GtE", Load("count"), Load(limit1)), Compare("GtE", Load("count"), Load(limit2)), brk, brk, rho);
    var out := Node("Attribute:append:Load", [Load("output")]);
    VNode("Attribute:append:Load", [Load("output")], [Load("output")], rho);
    VCall(out, out, [Load(record1)], [Load(record2)], rho);
    assert Variant(Append("output", record1), Append("output", record2), rho);
    var inc := BinOp("Add", Load("count"), Lit("1"));
    VBinOp("Add", Load("count"), Load("count"), Lit("1"), Lit("1"), rho);
    VAssign(Store("count"), Store("count"), inc, inc, rho);
    VCompare("IsNot", Load(record1), Load(record2), Lit("None"), Lit("None"), rho);
    VIf(Compare("IsNot", Load(record1), Lit("None")), Compare("IsNot", Load(record2), Lit("None")),
        [Append("output", record1), Assign(Store("count"), inc)],
        [Append("output", record2), Assign(Store("count"), inc)], rho);
  }

  lemma ProcessBodyVariant(records1: string, limit1: string, record1: string,
                           records2: string, limit2: string, record2: string, rho: string -> string)
    requires rho(records1) == records2 && rho(limit1) == limit2 && rho(record1) == record2
    requires rho("output") == "output" && rho("count") == "count"
    ensures var b1, b2 := ProcessBody(records1, limit1, record1), ProcessBody(records2, limit2, record2);
            |b1| == |b2| && forall i :: 0 <= i < |b1| ==> Variant(b1[i], b2[i], rho)
  {
    var empty := Node("List:Load", [List([])]);
    VNode("", [], [], rho);
    VNode("List:Load", [List([])], [List([])], rho);
    VAssign(Store("output"), Store("output"), empty, empty, rho);
    VAssign(Store("count"), Store("count"), Lit("0"), Lit("0"), rho);
    ProcessLoopVariant(limit1, record1, limit2, record2, rho);
    VFor(Store(record1), Store(record2), Load(records1), Load(records2),
         ProcessLoop(limit1, record1), ProcessLoop(limit2, record2), rho);
    VReturn(Load("output"), Load("output"), rho);
    assert ProcessBody(records1, limit1, record1)[2] == For(Store(record1), Load(records1), ProcessLoop(limit1, record1));
    assert ProcessBody(records2, limit2, record2)[2] == For(Store(record2), Load(records2), ProcessLoop(limit2, record2));
  }

  /** The renaming taking `calculate_total`'s identifiers to
      `compute_sum`'s, and what it does to each identifier of the body. */
  function TotalRenaming(): string -> string {
    Swap3("items", "numbers", "rate", "multiplier", "item", "number")
  }

  lemma TotalRenamingFacts()
    ensures var rho := TotalRenaming();
            && rho("items") == "numbers" && rho("rate") == "multiplier" && rho("item") == "number"
            && rho("subtotal") == "subtotal" && rho("result") == "result"
  {
    var s1, s2, s3 := Swap("items", "numbers"), Swap("rate", "multiplier"), Swap("item", "number");
    assert s3("items") == "items" && s2("items") == "items" && s1("items") == "numbers";
    assert s3("rate") == "rate" && s2("rate") == "multiplier" && s1("multiplier") == "multiplier";
    assert s3("item") == "number" && s2("number") == "number" && s1("number") == "number";
    assert s3("subtotal") == "subtotal" && s2("subtotal") == "subtotal" && s1("subtotal") == "subtotal";
    assert s3("result") == "result" && s2("result") == "result" && s1("result") == "result";
  }

  lemma TotalRenamingInjective()
    ensures Injective(TotalRenaming())
  {
    Swap3Injective("items", "numbers", "rate", "multiplier", "item", "number");
  }

  function ProcessRenaming(): string -> string {
    Swap3("records", "entries", "limit", "max_count", "record", "entry")
  }

  lemma ProcessRenamingFacts()
    ensures var rho := ProcessRenaming();
            && rho("records") == "entries" && rho("limit") == "max_count" && rho("record") == "entry"
            && rho("output") == "output" && rho("count") == "count"
  {
    var s1, s2, s3 := Swap("records", "entries"), Swap("limit", "max_count"), Swap("record", "entry");
    assert s3("records") == "records" && s2("records") == "records" && s1("records") == "entries";
    assert s3("limit") == "limit" && s2("limit") == "max_count" && s1("max_count") == "max_count";
    assert s3("record") == "entry" && s2("entry") == "entry" && s1("entry") == "entry";
    assert s3("output") == "output" && s2("output") == "output" && s1("output") == "output";
    assert s3("count") == "count" && s2("count") == "count" && s1("count") == "count";
  }

  lemma ProcessRenamingInjective()
    ensures Injective(ProcessRenaming())
  {
    Swap3Injective("records", "entries", "limit", "max_count", "record", "entry");
  }

  /** `validate_input` and `check_value` hash alike. */
  lemma ValidatePairHashesAlike(digest: string -> string)
    ensures HashFunctionBody(ValidateInput(), digest) == HashFunctionBody(CheckValue(), digest)
  {
    var rho := Swap("data", "value");
    SwapInjective("data", "value");
    ValidateBodyVariant("data", "value", rho);
    VDef("validate_input", "check_value", ["data"], ["value"], "Validate input data.", "Check value validity.",
         ValidateBody("data"), ValidateBody("value"), 8, 16, 8, 16, rho);
    CosmeticVariantsHashAlike(ValidateInput(), CheckValue(), rho, digest);
  }

  lemma TotalDefVariant(n1: string, n2: string, d1: string, d2: string,
                        items1: string, rate1: string, item1: string,
                        items2: string, rate2: string, item2: string, rho: string -> string)
    requires rho(items1) == items2 && rho(rate1) == rate2 && rho(item1) == item2
    requires rho("subtotal") == "subtotal" && rho("result") == "result"
    ensures Variant(Def(n1, [items1, rate1], [Doc(d1)] + TotalBody(items1, rate1, item1), 19, 27),
                    Def(n2, [items2, rate2], [Doc(d2)] + TotalBody(items2, rate2, item2), 19, 27), rho)
  {
    TotalBodyVariant(items1, rate1, item1, items2, rate2, item2, rho);
    VDef(n1, n2, [items1, rate1], [items2, rate2], d1, d2,
         TotalBody(items1, rate1, item1), TotalBody(items2, rate2, item2), 19, 27, 19, 27, rho);
  }

  /** `calculate_total` and `compute_sum` hash alike. */
  lemma TotalPairHashesAlike(digest: string -> string)
    ensures HashFunctionBody(CalculateTotal(), digest) == HashFunctionBody(ComputeSum(), digest)
  {
    TotalRenamingFacts();
    TotalDefVariant("calculate_total", "compute_sum", "Calculate total with rate.", "Compute sum with multiplier.",
                    "items", "rate", "item", "numbers", "multiplier", "number", TotalRenaming());
    TotalRenamingInjective();
    CosmeticVariantsHashAlike(CalculateTotal(), ComputeSum(), TotalRenaming(), digest);
  }

  lemma ProcessDefVariant(n1: string, n2: string, d1: string, d2: string,
                          records1: string, limit1: string, record1: string,
                          records2: string, limit2: string, record2: string, rho: string -> string)
    requires rho(records1) == records2 && rho(limit1) == limit2 && rho(record1) == record2
    requires rho("output") == "output" && rho("count") == "count"
    ensures Variant(Def(n1, [records1, limit1], [Doc(d1)] + ProcessBody(records1, limit1, record1), 30, 40),
                    Def(n2, [records2, limit2], [Doc(d2)] + ProcessBody(records2, limit2, record2), 30, 40), rho)
  {
    ProcessBodyVariant(records1, limit1, record1, records2, limit2, record2, rho);
    VDef(n1, n2, [records1, limit1], [records2, limit2], d1, d2,
         ProcessBody(records1, limit1, record1), ProcessBody(records2, limit2, record2), 30, 40, 30, 40, rho);
  }

  /** `process_data` and `filter_items` hash alike. */
  lemma ProcessPairHashesAlike(digest: string -> string)
    ensures HashFunctionBody(ProcessData(), digest) == HashFunctionBody(FilterItems(), digest)
  {
    ProcessRenamingFacts();
    ProcessDefVariant("process_data", "filter_items", "Process records up to limit.", "Filter entries up to max_count.",
                      "records", "limit", "record", "entries", "max_count", "entry", ProcessRenaming());
    ProcessRenamingInjective();
    CosmeticVariantsHashAlike(ProcessData(), FilterItems(), ProcessRenaming(), digest);
  }
}
