/**
  What the compiled WHERE clause means: a reader for the emitted SQL, its three-valued evaluation on a row, and
  the meaning of the filters themselves. The main results connect the two for every list of filters.
 */
module DslMeaning {

  import opened Dsl
  import opened Options

  // ----- Rows and three-valued logic

  datatype Truth = Yes | No | Unknown

  function Of(b: bool): Truth {
    if b then Yes else No
  }

  function Complement(t: Truth): Truth {
    match t
    case Yes => No
    case No => Yes
    case Unknown => Unknown
  }

  function Conjunction(a: Truth, b: Truth): Truth {
    if a == No || b == No then No else if a == Yes && b == Yes then Yes else Unknown
  }

  /** A joined row as the database sees it: nullable cells, and its order, LIKE, text search and subqueries. */
  datatype Row = Row(
    cells: string -> Option<Value>,
    hasFile: bool,
    hasVideo: bool,
    quotes: Value -> bool,
    search: Value -> Truth,
    order: (Value, Value) -> int,
    like: (Value, Value) -> bool)

  function Compare(cell: Option<Value>, op: Comparison, v: Value, row: Row): Truth {
    match cell
    case None => Unknown
    case Some(x) =>
      match op
      case Equal => Of(row.order(x, v) == 0)
      case Differs => Of(row.order(x, v) != 0)
      case Above => Of(row.order(x, v) > 0)
      case AtLeast => Of(row.order(x, v) >= 0)
      case Below => Of(row.order(x, v) < 0)
      case AtMost => Of(row.order(x, v) <= 0)
      case Like => Of(row.like(x, v))
  }

  function AsTruth(cell: Option<Value>): Truth {
    match cell
    case Some(Flag(b)) => Of(b)
    case _ => Unknown
  }

  /** A column's cell; the quote subquery looks for the statement's first argument, and fails without one. */
  function CellOf(col: Column, first: Option<Value>, row: Row): Option<Option<Value>> {
    match col
    case Named(name) => Some(row.cells(name))
    case HasFile => Some(Some(Flag(row.hasFile)))
    case HasVideo => Some(Some(Flag(row.hasVideo)))
    case Quotes => if first == None then None else Some(Some(Flag(row.quotes(first.value))))
  }

  function First(args: seq<Value>): Option<Value> {
    if args == [] then None else Some(args[0])
  }

  // ----- Reading the SQL

  datatype Condition =
    | Compares(column: Column, comparison: Comparison, param: nat)
    | Searches(param: nat)
    | Tests(column: Column)
    | Negation(inner: Condition)
    | Both(left: Condition, right: Condition)

  datatype Reading = Reading(condition: Condition, rest: seq<Token>)

  /** NOT binds tighter than AND and looser than a comparison; parentheses hold a whole condition. */
  function ReadFactor(ts: seq<Token>): (r: Option<Reading>)
    ensures r.Some? ==> |r.value.rest| < |ts|
    decreases |ts|, 0
  {
    if ts == [] then None
    else match ts[0]
      case Not => (
        match ReadFactor(ts[1..])
        case None => None
        case Some(r) => Some(Reading(Negation(r.condition), r.rest))
      )
      case Open => (
        match ReadAll(ts[1..])
        case None => None
        case Some(r) => if r.rest != [] && r.rest[0] == Close then Some(Reading(r.condition, r.rest[1..])) else None
      )
      case TextMatch =>
        if |ts| >= 4 && ts[1] == Open && ts[2].Param? && ts[3] == Close
        then Some(Reading(Searches(ts[2].index), ts[4..])) else None
      case Operand(col) =>
        if |ts| == 1 || !ts[1].Operator? then Some(Reading(Tests(col), ts[1..]))
        else if |ts| >= 3 && ts[2].Param? then Some(Reading(Compares(col, ts[1].comparison, ts[2].index), ts[3..]))
        else None
      case _ => None
  }

  function ReadAll(ts: seq<Token>): (r: Option<Reading>)
    ensures r.Some? ==> |r.value.rest| < |ts|
    decreases |ts|, 1
  {
    match ReadFactor(ts)
    case None => None
    case Some(r) =>
      if r.rest == [] || r.rest[0] != And then Some(r)
      else match ReadAll(r.rest[1..])
        case None => None
        case Some(r') => Some(Reading(Both(r.condition, r'.condition), r'.rest))
  }

  // ----- Evaluating the SQL

  function Both2(a: Option<Truth>, b: Option<Truth>): Option<Truth> {
    if a.Some? && b.Some? then Some(Conjunction(a.value, b.value)) else None
  }

  function Flip(a: Option<Truth>): Option<Truth> {
    if a.Some? then Some(Complement(a.value)) else None
  }

  /** No value when a parameter is unbound: the database refuses the statement. */
  function Evaluate(c: Condition, args: seq<Value>, row: Row): Option<Truth> {
    match c
    case Compares(col, op, n) =>
      if !(1 <= n <= |args|) then None
      else (
        match CellOf(col, First(args), row)
        case None => None
        case Some(cell) => Some(Compare(cell, op, args[n - 1], row))
      )
    case Searches(n) => if 1 <= n <= |args| then Some(row.search(args[n - 1])) else None
    case Tests(col) => (
      match CellOf(col, First(args), row)
      case None => None
      case Some(cell) => Some(AsTruth(cell))
    )
    case Negation(inner) => Flip(Evaluate(inner, args, row))
    case Both(left, right) => Both2(Evaluate(left, args, row), Evaluate(right, args, row))
  }

  /** The truth of a whole clause on a row; no clause at all selects every row. */
  function RowTruth(ts: seq<Token>, args: seq<Value>, row: Row): Option<Truth> {
    if ts == [] then Some(Yes)
    else if ts[0] != Where then None
    else match ReadAll(ts[1..])
      case None => None
      case Some(r) => if r.rest == [] then Evaluate(r.condition, args, row) else None
  }

  // ----- What the filters mean

  /** Filters with an unknown field or operator, or ordering a subquery, are dropped without an error. */
  predicate IsKept(f: Filter) {
    && ColumnOf(f.field).Some?
    && f.operator in ["~", ":", "=", ">", ">=", "<", "<=", "!"]
    && (f.operator in ["~", ":", "=", "!"] || ColumnOf(f.field).value.Named?)
  }

  function AsksFor(operator: string): Comparison {
    if operator == "~" then Like
    else if operator == "!" then Differs
    else match ComparisonOf(operator)
      case Some(op) => op
      case None => Equal
  }

  function Sought(f: Filter): Value {
    if f.operator == "~" then Text("%" + f.value.Shown() + "%") else f.value
  }

  /** A filter without its negation. The quote subquery's subject is the parameter quoted. */
  function Positive(f: Filter, quoted: Option<Value>, row: Row): Option<Truth>
    requires IsKept(f)
  {
    var col := ColumnOf(f.field).value;
    if IsTextField(f.field) && f.operator in ["~", ":", "="] then Some(row.search(f.value))
    else match CellOf(col, quoted, row)
      case None => None
      case Some(cell) =>
        if col.Named? || f.operator == "~" then Some(Compare(cell, AsksFor(f.operator), Sought(f), row))
        else if f.operator == "!" then Some(Complement(AsTruth(cell)))
        else Some(AsTruth(cell))
  }

  function Meaning(f: Filter, quoted: Option<Value>, row: Row): Option<Truth>
    requires IsKept(f)
  {
    if f.negate then Flip(Positive(f, quoted, row)) else Positive(f, quoted, row)
  }

  /** All kept filters together. */
  function MeaningOfAll(filters: seq<Filter>, quoted: Option<Value>, row: Row): Option<Truth> {
    if filters == [] then Some(Yes)
    else
      var i := |filters| - 1;
      var before := MeaningOfAll(filters[..i], quoted, row);
      if IsKept(filters[i]) then Both2(before, Meaning(filters[i], quoted, row)) else before
  }

  /** A filter kept on the quote field, whose subquery names the first parameter of the statement. */
  predicate AsksForQuotes(f: Filter) {
    IsKept(f) && ColumnOf(f.field) == Some(Quotes)
  }

  lemma KeptIff(f: Filter, argIdx: nat)
    ensures ToSql(f, argIdx).Kept? <==> IsKept(f)
  {
  }

  // ----- Every fragment reads back as one condition

  ghost predicate ReadsAs(text: seq<Token>, c: Condition) {
    forall rest: seq<Token> | rest == [] || !rest[0].Operator? :: ReadFactor(text + rest) == Some(Reading(c, rest))
  }

  lemma ComparedReads(col: Column, op: Comparison, argIdx: nat)
    ensures ReadsAs(Compared(col, op, argIdx), Compares(col, op, argIdx))
  {
    forall rest: seq<Token> | rest == [] || !rest[0].Operator?
      ensures ReadFactor(Compared(col, op, argIdx) + rest) == Some(Reading(Compares(col, op, argIdx), rest))
    {
      ReadComparison(Compared(col, op, argIdx) + rest, col, op, argIdx, rest);
    }
  }

  lemma ReadComparison(ts: seq<Token>, col: Column, op: Comparison, argIdx: nat, rest: seq<Token>)
    requires ts == Compared(col, op, argIdx) + rest
    ensures ReadFactor(ts) == Some(Reading(Compares(col, op, argIdx), rest))
  {
    assert ts[0] == Operand(col) && ts[1] == Operator(op) && ts[2] == Param(argIdx);
    assert ts[3..] == rest;
  }

  lemma SearchReads(argIdx: nat)
    ensures ReadsAs(SearchText(argIdx), Searches(argIdx))
  {
    forall rest: seq<Token> | rest == [] || !rest[0].Operator?
      ensures ReadFactor(SearchText(argIdx) + rest) == Some(Reading(Searches(argIdx), rest))
    {
      hide ReadFactor;
      ReadSearch(SearchText(argIdx) + rest, argIdx, rest);
    }
  }

  lemma ReadSearch(ts: seq<Token>, argIdx: nat, rest: seq<Token>)
    requires ts == SearchText(argIdx) + rest
    ensures ReadFactor(ts) == Some(Reading(Searches(argIdx), rest))
  {
    assert ts[0] == TextMatch && ts[1] == Open && ts[2] == Param(argIdx) && ts[3] == Close;
    assert ts[4..] == rest;
  }

  lemma TestReads(col: Column)
    ensures ReadsAs([Operand(col)], Tests(col))
  {
    forall rest: seq<Token> | rest == [] || !rest[0].Operator?
      ensures ReadFactor([Operand(col)] + rest) == Some(Reading(Tests(col), rest))
    {
      assert ([Operand(col)] + rest)[1..] == rest;
    }
  }

  function NegatedIf(negate: bool, c: Condition): Condition {
    if negate then Negation(c) else c
  }

  lemma ReadAlone(ts: seq<Token>, c: Condition, rest: seq<Token>)
    requires ReadFactor(ts) == Some(Reading(c, rest)) && (rest == [] || rest[0] != And)
    ensures ReadAll(ts) == Some(Reading(c, rest))
  {
  }

  lemma ReadGroup(ts: seq<Token>, inner: seq<Token>, c: Condition, rest: seq<Token>)
    requires ts == [Open] + inner && ReadAll(inner) == Some(Reading(c, [Close] + rest))
    ensures ReadFactor(ts) == Some(Reading(c, rest))
  {
    assert ts[0] == Open && ts[1..] == inner;
    assert ([Close] + rest)[1..] == rest;
  }

  lemma ReadNegation(ts: seq<Token>, inner: seq<Token>, c: Condition, rest: seq<Token>)
    requires ts == [Not] + inner && ReadFactor(inner) == Some(Reading(c, rest))
    ensures ReadFactor(ts) == Some(Reading(Negation(c), rest))
  {
    assert ts[0] == Not && ts[1..] == inner;
  }

  lemma ReadNegatedGroup(text: seq<Token>, c: Condition, rest: seq<Token>)
    requires ReadFactor(text + ([Close] + rest)) == Some(Reading(c, [Close] + rest))
    ensures ReadFactor([Not, Open] + text + [Close] + rest) == Some(Reading(Negation(c), rest))
  {
    hide ReadFactor;
    hide ReadAll;
    var inner := text + ([Close] + rest);
    ReadAlone(inner, c, [Close] + rest);
    ReadGroup([Open] + inner, inner, c, rest);
    ReadNegation([Not] + ([Open] + inner), [Open] + inner, c, rest);
    assert [Not, Open] + text + [Close] + rest == [Not] + ([Open] + inner);
  }

  lemma NegatedReads(negate: bool, text: seq<Token>, c: Condition)
    requires ReadsAs(text, c)
    ensures ReadsAs(Negated(negate, text), NegatedIf(negate, c))
  {
    hide ReadFactor;
    if negate {
      forall rest: seq<Token> | rest == [] || !rest[0].Operator?
        ensures ReadFactor([Not, Open] + text + [Close] + rest) == Some(Reading(Negation(c), rest))
      {
        assert ([Close] + rest)[0] == Close;
        ReadNegatedGroup(text, c, rest);
      }
    }
  }

  /** The arguments hold a fragment's values at its own position. */
  ghost predicate Binds(args: seq<Value>, argIdx: nat, vals: seq<Value>) {
    1 <= argIdx && argIdx - 1 + |vals| <= |args| && args[argIdx - 1..argIdx - 1 + |vals|] == vals
  }

  /** The condition that a kept filter's fragment spells out. */
  function ConditionOf(f: Filter, argIdx: nat): Condition
    requires IsKept(f)
  {
    var col := ColumnOf(f.field).value;
    if IsTextField(f.field) && f.operator in ["~", ":", "="] then NegatedIf(f.negate, Searches(argIdx))
    else if f.operator == "~" || ComparisonOf(f.operator).Some? then
      NegatedIf(f.negate, Compares(col, AsksFor(f.operator), argIdx))
    else if col.Named? then Compares(col, if f.negate == (f.operator == "!") then Equal else Differs, argIdx)
    else NegatedIf(f.negate != (f.operator == "!"), Tests(col))
  }

  lemma FragmentReads(f: Filter, argIdx: nat)
    requires IsKept(f)
    ensures ToSql(f, argIdx).Kept? && ReadsAs(ToSql(f, argIdx).text, ConditionOf(f, argIdx))
  {
    hide ColumnOf, IsTextField, ReadsAs;
    var col := ColumnOf(f.field).value;
    if IsTextField(f.field) && f.operator in ["~", ":", "="] {
      SearchReads(argIdx);
      NegatedReads(f.negate, SearchText(argIdx), Searches(argIdx));
    } else if f.operator == "~" || ComparisonOf(f.operator).Some? {
      var op := AsksFor(f.operator);
      ComparedReads(col, op, argIdx);
      NegatedReads(f.negate, Compared(col, op, argIdx), Compares(col, op, argIdx));
    } else if col.Named? {
      ComparedReads(col, if f.negate == (f.operator == "!") then Equal else Differs, argIdx);
    } else {
      TestReads(col);
      NegatedReads(f.negate != (f.operator == "!"), [Operand(col)], Tests(col));
    }
  }

  lemma ConditionMeans(f: Filter, argIdx: nat, args: seq<Value>, row: Row)
    requires IsKept(f) && Binds(args, argIdx, Vals(ToSql(f, argIdx)))
    ensures Evaluate(ConditionOf(f, argIdx), args, row) == Meaning(f, First(args), row)
  {
    hide ColumnOf, IsTextField;
    var vals := Vals(ToSql(f, argIdx));
    assert vals != [] ==> args[argIdx - 1] == vals[0];
  }

  /** The fragment of a kept filter reads as a condition that means what the filter means. */
  lemma FragmentMeans(f: Filter, argIdx: nat, args: seq<Value>, row: Row) returns (c: Condition)
    requires IsKept(f) && Binds(args, argIdx, Vals(ToSql(f, argIdx)))
    ensures ToSql(f, argIdx).Kept? && ReadsAs(ToSql(f, argIdx).text, c)
    ensures Evaluate(c, args, row) == Meaning(f, First(args), row)
  {
    hide IsKept, ToSql, ConditionOf, ReadsAs, Evaluate, Meaning;
    c := ConditionOf(f, argIdx);
    FragmentReads(f, argIdx);
    ConditionMeans(f, argIdx, args, row);
  }
}
