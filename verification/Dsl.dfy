/**
  The query language's compiler to SQL (internal/search/dsl.go): a list of filters becomes a WHERE clause over
  positional parameters. The text is modelled as its tokens; a subquery column is one token.
 */
module Dsl {

  import opened Options

  /** A filter's right-hand side. Numbers and times carry the text the program prints for them. */
  datatype Value =
    | Text(chars: string)
    | Number(amount: real, shown: string)
    | Time(instant: int, shown: string)
    | Flag(isSet: bool)
  {
    function Shown(): string {
      match this
      case Text(chars) => chars
      case Number(_, shown) => shown
      case Time(_, shown) => shown
      case Flag(b) => if b then "true" else "false"
    }
  }

  datatype Filter = Filter(field: string, operator: string, value: Value, negate: bool)

  datatype Column = Named(name: string) | HasFile | HasVideo | Quotes

  datatype Comparison = Equal | Differs | Above | AtLeast | Below | AtMost | Like

  datatype Token =
    | Where
    | And
    | Not
    | Open
    | Close
    | Operand(column: Column)
    | Operator(comparison: Comparison)
    | Param(index: nat)
    | TextMatch

  datatype Fragment = Dropped | Kept(text: seq<Token>, vals: seq<Value>)

  // ----- The compiler

  function LowerChar(c: char): char {
    if 'A' <= c <= 'Z' then (c as int + 32) as char else c
  }

  function Lower(s: string): string {
    seq(|s|, i requires 0 <= i < |s| => LowerChar(s[i]))
  }

  function ColumnOf(field: string): Option<Column> {
    var f := Lower(field);
    if f == "board" then Some(Named("b.code"))
    else if f == "site" then Some(Named("st.name"))
    else if f in ["thread", "thread_id"] then Some(Named("t.thread_native_id"))
    else if f in ["post", "post_id"] then Some(Named("p.post_native_id"))
    else if f in ["author", "name", "tripcode"] then Some(Named("p.author_name"))
    else if f == "trip" then Some(Named("p.tripcode"))
    else if f in ["poster", "poster_id"] then Some(Named("p.poster_id"))
    else if f == "country" then Some(Named("p.country"))
    else if f == "flag" then Some(Named("p.flag"))
    else if f == "subject" then Some(Named("t.subject"))
    else if f in ["has_image", "hasimage", "image"] then Some(HasFile)
    else if f in ["has_video", "hasvideo", "video"] then Some(HasVideo)
    else if f in ["has_file", "hasfile", "file"] then Some(HasFile)
    else if f in ["filename", "file_name"] then Some(Named("f.original_filename"))
    else if f in ["before", "after", "date", "timestamp", "time"] then Some(Named("p.timestamp"))
    else if f == "sticky" then Some(Named("t.sticky"))
    else if f == "locked" then Some(Named("t.locked"))
    else if f == "archived" then Some(Named("t.archived"))
    else if f == "sage" then Some(Named("p.sage"))
    else if f in ["text", "content", "body", "comment"] then Some(Named("p.comment_parsed"))
    else if f == "quote" then Some(Quotes)
    else if f in ["vector", "embedding", "semantic"] then Some(Named("semantic"))
    else None
  }

  /** The spelling is compared as written: "Text" is no text field, although its column is the same. */
  predicate IsTextField(field: string) {
    field in ["text", "content", "body", "comment"]
  }

  function ComparisonOf(operator: string): Option<Comparison> {
    if operator == ">" then Some(Above)
    else if operator == ">=" then Some(AtLeast)
    else if operator == "<" then Some(Below)
    else if operator == "<=" then Some(AtMost)
    else None
  }

  function Negated(negate: bool, text: seq<Token>): seq<Token> {
    if negate then [Not, Open] + text + [Close] else text
  }

  function SearchText(argIdx: nat): seq<Token> {
    [TextMatch, Open, Param(argIdx), Close]
  }

  function Compared(col: Column, op: Comparison, argIdx: nat): seq<Token> {
    [Operand(col), Operator(op), Param(argIdx)]
  }

  function ToSql(f: Filter, argIdx: nat): Fragment {
    match ColumnOf(f.field)
    case None => Dropped
    case Some(col) =>
      if f.operator == "~" then
        if IsTextField(f.field) then Kept(Negated(f.negate, SearchText(argIdx)), [f.value])
        else Kept(Negated(f.negate, Compared(col, Like, argIdx)), [Text("%" + f.value.Shown() + "%")])
      else if f.operator == ":" || f.operator == "=" then
        if IsTextField(f.field) then Kept(Negated(f.negate, SearchText(argIdx)), [f.value])
        else if !col.Named? then Kept(Negated(f.negate, [Operand(col)]), [])
        else Kept(Compared(col, if f.negate then Differs else Equal, argIdx), [f.value])
      else if ComparisonOf(f.operator).Some? then
        if !col.Named? then Dropped
        else Kept(Negated(f.negate, Compared(col, ComparisonOf(f.operator).value, argIdx)), [f.value])
      else if f.operator == "!" then
        if !col.Named? then Kept(Negated(!f.negate, [Operand(col)]), [])
        else Kept(Compared(col, if f.negate then Equal else Differs, argIdx), [f.value])
      else Dropped
  }

  function Join(conditions: seq<seq<Token>>): seq<Token> {
    if conditions == [] then []
    else if |conditions| == 1 then conditions[0]
    else conditions[0] + [And] + Join(conditions[1..])
  }

  function Texts(fragment: Fragment): seq<seq<Token>> {
    match fragment
    case Dropped => []
    case Kept(text, _) => [text]
  }

  function Vals(fragment: Fragment): seq<Value> {
    match fragment
    case Dropped => []
    case Kept(_, vals) => vals
  }

  /** The values bound so far, in order: each filter's fragment is numbered after them. */
  function Bound(filters: seq<Filter>): seq<Value> {
    if filters == [] then []
    else
      var i := |filters| - 1;
      var before := Bound(filters[..i]);
      before + Vals(ToSql(filters[i], 1 + |before|))
  }

  function Conditions(filters: seq<Filter>): seq<seq<Token>> {
    if filters == [] then []
    else
      var i := |filters| - 1;
      Conditions(filters[..i]) + Texts(ToSql(filters[i], 1 + |Bound(filters[..i])|))
  }

  function WhereText(filters: seq<Filter>): seq<Token> {
    var conditions := Conditions(filters);
    if conditions == [] then [] else [Where] + Join(conditions)
  }

  lemma OneMore(filters: seq<Filter>, i: nat, fragment: Fragment)
    requires i < |filters|
    requires fragment == ToSql(filters[i], 1 + |Bound(filters[..i])|)
    ensures Bound(filters[..i + 1]) == Bound(filters[..i]) + Vals(fragment)
    ensures Conditions(filters[..i + 1]) == Conditions(filters[..i]) + Texts(fragment)
  {
    hide ToSql, Vals, Texts;
    assert filters[..i + 1][..i] == filters[..i];
  }

  method ToSqlWhere(filters: seq<Filter>) returns (text: seq<Token>, args: seq<Value>)
    ensures text == WhereText(filters)
    ensures args == Bound(filters)
  {
    hide ToSql;
    var conditions: seq<seq<Token>> := [];
    args := [];
    var argIdx: nat := 1;
    for i := 0 to |filters|
      invariant argIdx == 1 + |args|
      invariant conditions == Conditions(filters[..i])
      invariant args == Bound(filters[..i])
    {
      var fragment := ToSql(filters[i], argIdx);
      OneMore(filters, i, fragment);
      match fragment
      case Dropped =>
      case Kept(condition, vals) =>
        conditions := conditions + [condition];
        args := args + vals;
        argIdx := argIdx + |vals|;
    }
    assert filters[..|filters|] == filters;
    text := [];
    if |conditions| > 0 {
      text := [Where] + Join(conditions);
    }
  }
}
