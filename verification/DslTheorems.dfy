/**
  The compiled clause against the filters: it means the conjunction of what they mean, its parameters are
  numbered in order exactly when no filter asks for quotes, and negating a filter complements it.
 */
module DslTheorems {

  import opened Dsl
  import opened DslMeaning
  import opened Options

  // ----- A joined list reads as the conjunction of its conditions

  function AllOf(cs: seq<Condition>): Condition
    requires cs != []
  {
    if |cs| == 1 then cs[0] else Both(cs[0], AllOf(cs[1..]))
  }

  ghost predicate EachReadsAs(texts: seq<seq<Token>>, cs: seq<Condition>) {
    |texts| == |cs| && forall j :: 0 <= j < |cs| ==> ReadsAs(texts[j], cs[j])
  }

  lemma {:induction false} JoinReads(texts: seq<seq<Token>>, cs: seq<Condition>)
    requires cs != [] && EachReadsAs(texts, cs)
    ensures ReadAll(Join(texts)) == Some(Reading(AllOf(cs), []))
    decreases |cs|
  {
    hide ReadFactor;
    if |cs| == 1 {
      assert texts[0] + [] == texts[0];
      assert ReadFactor(texts[0] + []) == Some(Reading(cs[0], []));
    } else {
      var rest := Join(texts[1..]);
      JoinReads(texts[1..], cs[1..]);
      assert ([And] + rest)[0] == And && ([And] + rest)[1..] == rest;
      assert texts[0] + ([And] + rest) == Join(texts);
      assert ReadFactor(Join(texts)) == Some(Reading(cs[0], [And] + rest));
    }
  }

  function EvaluateAll(cs: seq<Condition>, args: seq<Value>, row: Row): Option<Truth> {
    if cs == [] then Some(Yes)
    else Both2(EvaluateAll(cs[..|cs| - 1], args, row), Evaluate(cs[|cs| - 1], args, row))
  }

  lemma {:induction false} EvaluateFront(cs: seq<Condition>, args: seq<Value>, row: Row)
    requires cs != []
    ensures EvaluateAll(cs, args, row) == Both2(Evaluate(cs[0], args, row), EvaluateAll(cs[1..], args, row))
    decreases |cs|
  {
    if |cs| > 1 {
      EvaluateFront(cs[..|cs| - 1], args, row);
      assert cs[..|cs| - 1][1..] == cs[1..][..|cs| - 2];
    }
  }

  lemma {:induction false} EvaluateConjunction(cs: seq<Condition>, args: seq<Value>, row: Row)
    requires cs != []
    ensures Evaluate(AllOf(cs), args, row) == EvaluateAll(cs, args, row)
    decreases |cs|
  {
    EvaluateFront(cs, args, row);
    if |cs| > 1 {
      EvaluateConjunction(cs[1..], args, row);
    }
  }

  // ----- The clause means the filters

  lemma PrefixBinds(args: seq<Value>, before: seq<Value>, vals: seq<Value>)
    requires before + vals <= args
    ensures Binds(args, 1 + |before|, vals)
  {
    assert args[..|before| + |vals|] == before + vals;
    assert args[|before|..|before| + |vals|] == args[..|before| + |vals|][|before|..];
  }

  lemma EachReadsMore(texts: seq<seq<Token>>, cs: seq<Condition>, text: seq<Token>, c: Condition)
    requires EachReadsAs(texts, cs) && ReadsAs(text, c)
    ensures EachReadsAs(texts + [text], cs + [c])
  {
    hide ReadsAs;
  }

  lemma {:induction false} ConditionsMean(filters: seq<Filter>, args: seq<Value>, row: Row) returns (cs: seq<Condition>)
    requires Bound(filters) <= args
    ensures EachReadsAs(Conditions(filters), cs)
    ensures EvaluateAll(cs, args, row) == MeaningOfAll(filters, First(args), row)
    decreases |filters|
  {
    hide ToSql, IsKept, ReadsAs, Meaning, Evaluate, Binds, Both2;
    if filters == [] {
      cs := [];
    } else {
      var i := |filters| - 1;
      var f, argIdx := filters[i], 1 + |Bound(filters[..i])|;
      cs := ConditionsMean(filters[..i], args, row);
      KeptIff(f, argIdx);
      if IsKept(f) {
        PrefixBinds(args, Bound(filters[..i]), Vals(ToSql(f, argIdx)));
        var c := FragmentMeans(f, argIdx, args, row);
        EachReadsMore(Conditions(filters[..i]), cs, ToSql(f, argIdx).text, c);
        assert (cs + [c])[..|cs|] == cs;
        cs := cs + [c];
      }
    }
  }

  /**
    On every row the WHERE clause under its arguments has the truth of all filters together, each comparing
    with its own value; only a quote filter looks elsewhere, at the first argument of the whole statement.
   */
  lemma WhereMeansFilters(filters: seq<Filter>, row: Row)
    ensures RowTruth(WhereText(filters), Bound(filters), row) == MeaningOfAll(filters, First(Bound(filters)), row)
  {
    hide ReadAll, Evaluate, MeaningOfAll;
    var cs := ConditionsMean(filters, Bound(filters), row);
    if cs != [] {
      JoinReads(Conditions(filters), cs);
      EvaluateConjunction(cs, Bound(filters), row);
      assert WhereText(filters)[1..] == Join(Conditions(filters));
    }
  }

  ghost predicate NoQuoteFilter(filters: seq<Filter>) {
    forall j :: 0 <= j < |filters| ==> !AsksForQuotes(filters[j])
  }

  /** Without quote filters the arguments of the statement do not matter to what the filters mean. */
  lemma {:induction false} MeaningIsOwn(filters: seq<Filter>, one: Option<Value>, other: Option<Value>, row: Row)
    requires NoQuoteFilter(filters)
    ensures MeaningOfAll(filters, one, row) == MeaningOfAll(filters, other, row)
    ensures MeaningOfAll(filters, one, row).Some?
    decreases |filters|
  {
    if filters != [] {
      var i := |filters| - 1;
      MeaningIsOwn(filters[..i], one, other, row);
      if IsKept(filters[i]) {
        MeaningOfOne(filters[i], one, other, row);
      }
    }
  }

  lemma MeaningOfOne(f: Filter, one: Option<Value>, other: Option<Value>, row: Row)
    requires IsKept(f) && !AsksForQuotes(f)
    ensures Meaning(f, one, row) == Meaning(f, other, row)
    ensures Meaning(f, one, row).Some?
  {
    hide ColumnOf, IsTextField;
  }

  ghost predicate EveryFilterHolds(filters: seq<Filter>, quoted: Option<Value>, row: Row) {
    forall j :: 0 <= j < |filters| && IsKept(filters[j]) ==> Meaning(filters[j], quoted, row) == Some(Yes)
  }

  lemma {:induction false} HoldsTogether(filters: seq<Filter>, quoted: Option<Value>, row: Row)
    ensures MeaningOfAll(filters, quoted, row) == Some(Yes) <==> EveryFilterHolds(filters, quoted, row)
    decreases |filters|
  {
    hide IsKept, Meaning;
    if filters != [] {
      var i := |filters| - 1;
      HoldsTogether(filters[..i], quoted, row);
      assert EveryFilterHolds(filters, quoted, row) ==> EveryFilterHolds(filters[..i], quoted, row);
    }
  }

  /** A row is selected exactly when each kept filter holds of it, none of them merely unknown. */
  lemma RowSelectedIff(filters: seq<Filter>, quoted: Option<Value>, row: Row)
    requires NoQuoteFilter(filters)
    ensures RowTruth(WhereText(filters), Bound(filters), row) == Some(Yes) <==> EveryFilterHolds(filters, quoted, row)
  {
    WhereMeansFilters(filters, row);
    MeaningIsOwn(filters, First(Bound(filters)), quoted, row);
    HoldsTogether(filters, quoted, row);
  }

  // ----- Negation

  function Flipped(f: Filter): Filter {
    f.(negate := !f.negate)
  }

  lemma FlippedKept(f: Filter, argIdx: nat)
    ensures IsKept(Flipped(f)) <==> IsKept(f)
    ensures Vals(ToSql(Flipped(f), argIdx)) == Vals(ToSql(f, argIdx))
  {
    hide ColumnOf, IsTextField;
  }

  lemma FlippedMeaning(f: Filter, quoted: Option<Value>, row: Row)
    requires IsKept(f) && IsKept(Flipped(f))
    ensures Meaning(Flipped(f), quoted, row) == Flip(Meaning(f, quoted, row))
  {
    hide ColumnOf, IsTextField;
  }

  lemma OneFilter(f: Filter, row: Row)
    requires IsKept(f)
    ensures Bound([f]) == Vals(ToSql(f, 1))
    ensures RowTruth(WhereText([f]), Bound([f]), row) == Meaning(f, First(Bound([f])), row)
  {
    hide ToSql, IsKept, Meaning, RowTruth, WhereText;
    assert [f][..0] == [];
    assert Bound([f]) == Bound([f][..0]) + Vals(ToSql(f, 1));
    WhereMeansFilters([f], row);
    assert MeaningOfAll([f], First(Bound([f])), row)
        == Both2(MeaningOfAll([f][..0], First(Bound([f])), row), Meaning(f, First(Bound([f])), row));
  }

  /** Negating a filter complements its compiled clause on every row: true and false swap, unknown stays. */
  lemma NegationComplements(f: Filter, row: Row)
    requires IsKept(f)
    ensures RowTruth(WhereText([Flipped(f)]), Bound([Flipped(f)]), row) ==
            Flip(RowTruth(WhereText([f]), Bound([f]), row))
  {
    hide RowTruth, WhereText, IsKept, Meaning, ToSql;
    FlippedKept(f, 1);
    OneFilter(f, row);
    OneFilter(Flipped(f), row);
    FlippedMeaning(f, First(Bound([f])), row);
  }

  // ----- Placeholders

  /** The parameter numbers a text mentions, left to right; the quote subquery has $1 written in it. */
  function Placeholders(ts: seq<Token>): seq<nat> {
    if ts == [] then []
    else
      var here: seq<nat> := match ts[0] case Param(n) => [n] case Operand(Quotes) => [1] case _ => [];
      here + Placeholders(ts[1..])
  }

  lemma {:induction false} PlaceholdersJoin(s: seq<Token>, t: seq<Token>)
    ensures Placeholders(s + t) == Placeholders(s) + Placeholders(t)
    decreases |s|
  {
    if s == [] {
      assert s + t == t;
    } else {
      assert (s + t)[0] == s[0] && (s + t)[1..] == s[1..] + t;
      PlaceholdersJoin(s[1..], t);
    }
  }

  function Numbers(from: nat, count: nat): seq<nat> {
    seq(count, i requires 0 <= i < count => from + i)
  }

  lemma NegatedPlaceholders(negate: bool, text: seq<Token>)
    ensures Placeholders(Negated(negate, text)) == Placeholders(text)
  {
    if negate {
      PlaceholdersJoin([Not, Open] + text, [Close]);
      PlaceholdersJoin([Not, Open], text);
      assert [Not, Open][1..] == [Open];
      assert Placeholders([Open]) == [] && Placeholders([Close]) == [];
    }
  }

  function QuoteMarks(f: Filter): seq<nat> {
    if AsksForQuotes(f) then [1] else []
  }

  lemma ComparedPlaceholders(col: Column, op: Comparison, argIdx: nat)
    ensures Placeholders(Compared(col, op, argIdx)) == (if col == Quotes then [1] else []) + [argIdx]
  {
    var ts := Compared(col, op, argIdx);
    assert ts[1..] == [Operator(op), Param(argIdx)] && ts[1..][1..] == [Param(argIdx)];
    assert Placeholders([Param(argIdx)]) == [argIdx];
  }

  lemma SearchPlaceholders(argIdx: nat)
    ensures Placeholders(SearchText(argIdx)) == [argIdx]
  {
    var ts := SearchText(argIdx);
    assert ts[1..] == [Open, Param(argIdx), Close] && ts[1..][1..] == [Param(argIdx), Close];
    assert [Param(argIdx), Close][1..] == [Close];
    assert Placeholders([Close]) == [];
    assert Placeholders([Param(argIdx), Close]) == [argIdx];
  }

  lemma QuoteField(field: string)
    requires ColumnOf(field) == Some(Quotes)
    ensures |field| == |"quote"|
  {
  }

  /** No text field is a quote field. */
  lemma TextIsNotQuote(field: string)
    requires IsTextField(field)
    ensures ColumnOf(field) != Some(Quotes)
  {
    hide ColumnOf;
    if ColumnOf(field) == Some(Quotes) {
      QuoteField(field);
    }
  }

  lemma FragmentPlaceholders(f: Filter, argIdx: nat)
    requires IsKept(f)
    ensures ToSql(f, argIdx).Kept?
    ensures Placeholders(ToSql(f, argIdx).text) == QuoteMarks(f) + Numbers(argIdx, |Vals(ToSql(f, argIdx))|)
  {
    hide ColumnOf, IsTextField, Placeholders;
    var col := ColumnOf(f.field).value;
    assert Numbers(argIdx, 1) == [argIdx] && Numbers(argIdx, 0) == [];
    if IsTextField(f.field) && f.operator in ["~", ":", "="] {
      TextIsNotQuote(f.field);
      SearchPlaceholders(argIdx);
      NegatedPlaceholders(f.negate, SearchText(argIdx));
    } else if f.operator == "~" || ComparisonOf(f.operator).Some? {
      ComparedPlaceholders(col, AsksFor(f.operator), argIdx);
      NegatedPlaceholders(f.negate, Compared(col, AsksFor(f.operator), argIdx));
    } else if col.Named? {
      ComparedPlaceholders(col, Equal, argIdx);
      ComparedPlaceholders(col, Differs, argIdx);
    } else {
      TestPlaceholders(col);
      NegatedPlaceholders(true, [Operand(col)]);
    }
  }

  lemma TestPlaceholders(col: Column)
    ensures Placeholders([Operand(col)]) == if col == Quotes then [1] else []
  {
    assert [Operand(col)][1..] == [];
  }

  function Marks(conditions: seq<seq<Token>>): seq<nat> {
    if conditions == [] then []
    else Marks(conditions[..|conditions| - 1]) + Placeholders(conditions[|conditions| - 1])
  }

  lemma MarksMore(conditions: seq<seq<Token>>, text: seq<Token>)
    ensures Marks(conditions + [text]) == Marks(conditions) + Placeholders(text)
  {
    assert (conditions + [text])[..|conditions|] == conditions;
  }

  lemma {:induction false} MarksFront(conditions: seq<seq<Token>>)
    requires conditions != []
    ensures Marks(conditions) == Placeholders(conditions[0]) + Marks(conditions[1..])
    decreases |conditions|
  {
    if |conditions| > 1 {
      MarksFront(conditions[..|conditions| - 1]);
      assert conditions[..|conditions| - 1][1..] == conditions[1..][..|conditions| - 2];
    }
  }

  lemma {:induction false} JoinPlaceholders(conditions: seq<seq<Token>>)
    ensures Placeholders(Join(conditions)) == Marks(conditions)
    decreases |conditions|
  {
    if conditions != [] {
      MarksFront(conditions);
      JoinPlaceholders(conditions[1..]);
      PlaceholdersJoin(conditions[0] + [And], Join(conditions[1..]));
      PlaceholdersJoin(conditions[0], [And]);
      assert Placeholders([And]) == [];
    }
  }

  lemma Extended(filters: seq<Filter>, f: Filter)
    ensures var fragment := ToSql(f, 1 + |Bound(filters)|);
            && Bound(filters + [f]) == Bound(filters) + Vals(fragment)
            && Conditions(filters + [f]) == Conditions(filters) + Texts(fragment)
  {
    hide ToSql, Bound, Conditions;
    assert (filters + [f])[..|filters|] == filters;
    assert (filters + [f])[..|filters| + 1] == filters + [f];
    OneMore(filters + [f], |filters|, ToSql(f, 1 + |Bound(filters)|));
  }

  /** One more filter adds its own placeholders to the marks and its values to the arguments. */
  lemma MarksStep(filters: seq<Filter>, f: Filter)
    ensures var before, after := |Bound(filters)|, |Bound(filters + [f])|;
            && before <= after
            && Marks(Conditions(filters + [f])) ==
                    Marks(Conditions(filters)) + QuoteMarks(f) + Numbers(1 + before, after - before)
  {
    hide ToSql, IsKept, Placeholders, Bound, Conditions, Marks;
    var argIdx := 1 + |Bound(filters)|;
    Extended(filters, f);
    KeptIff(f, argIdx);
    if IsKept(f) {
      FragmentPlaceholders(f, argIdx);
      MarksMore(Conditions(filters), ToSql(f, argIdx).text);
    } else {
      assert Conditions(filters) + [] == Conditions(filters);
    }
  }

  lemma {:induction false} MarksCountUp(filters: seq<Filter>)
    requires NoQuoteFilter(filters)
    ensures Marks(Conditions(filters)) == Numbers(1, |Bound(filters)|)
    decreases |filters|
  {
    hide Bound, Conditions, AsksForQuotes;
    if filters == [] {
      assert Conditions(filters) == [] && Bound(filters) == [] by {
        NothingCompiled();
      }
    } else {
      var i := |filters| - 1;
      MarksCountUp(filters[..i]);
      MarksStep(filters[..i], filters[i]);
      assert filters == filters[..i] + [filters[i]];
    }
  }

  lemma NothingCompiled()
    ensures Conditions([]) == [] && Bound([]) == []
  {
  }

  lemma {:induction false} MarksExceed(filters: seq<Filter>)
    ensures |Marks(Conditions(filters))| >= |Bound(filters)|
    ensures !NoQuoteFilter(filters) ==> |Marks(Conditions(filters))| > |Bound(filters)|
    decreases |filters|
  {
    hide Bound, Conditions, AsksForQuotes;
    if filters == [] {
      NothingCompiled();
    } else {
      var i := |filters| - 1;
      MarksExceed(filters[..i]);
      MarksStep(filters[..i], filters[i]);
      assert filters == filters[..i] + [filters[i]];
      assert NoQuoteFilter(filters[..i]) && !AsksForQuotes(filters[i]) ==> NoQuoteFilter(filters);
    }
  }

  /**
    The placeholders of the clause, left to right, are $1, $2, ... up to the number of arguments exactly when no
    kept filter asks for quotes.
   */
  lemma PlaceholdersInOrderIff(filters: seq<Filter>)
    ensures Placeholders(WhereText(filters)) == Numbers(1, |Bound(filters)|) <==> NoQuoteFilter(filters)
  {
    hide Marks, NoQuoteFilter;
    var conditions := Conditions(filters);
    if NoQuoteFilter(filters) {
      MarksCountUp(filters);
    }
    MarksExceed(filters);
    JoinPlaceholders(conditions);
    if conditions == [] {
      assert Placeholders([]) == [];
      assert Join(conditions) == [];
    } else {
      PlaceholdersJoin([Where], Join(conditions));
      assert Placeholders([Where]) == [];
    }
  }

  lemma OneDefinedIff(f: Filter, quoted: Option<Value>, row: Row)
    requires IsKept(f)
    ensures Meaning(f, quoted, row).Some? <==> !AsksForQuotes(f) || quoted.Some?
  {
    hide ColumnOf, IsTextField;
    if IsTextField(f.field) {
      TextIsNotQuote(f.field);
    }
  }

  lemma QuoteIsKept(f: Filter)
    ensures AsksForQuotes(f) ==> IsKept(f)
  {
    hide IsKept;
  }

  lemma {:induction false} DefinedIff(filters: seq<Filter>, quoted: Option<Value>, row: Row)
    ensures MeaningOfAll(filters, quoted, row).Some? <==> NoQuoteFilter(filters) || quoted.Some?
    decreases |filters|
  {
    hide IsKept, Meaning, AsksForQuotes;
    if filters != [] {
      var i := |filters| - 1;
      DefinedIff(filters[..i], quoted, row);
      QuoteIsKept(filters[i]);
      if IsKept(filters[i]) {
        OneDefinedIff(filters[i], quoted, row);
      }
      assert NoQuoteFilter(filters) <==> NoQuoteFilter(filters[..i]) && !AsksForQuotes(filters[i]);
    }
  }

  /**
    The clause has a truth, every parameter in it being bound, exactly when no filter asks for quotes or some
    filter binds a value.
   */
  lemma BoundClauseIff(filters: seq<Filter>, row: Row)
    ensures RowTruth(WhereText(filters), Bound(filters), row).Some? <==> NoQuoteFilter(filters) || Bound(filters) != []
  {
    hide RowTruth, WhereText, MeaningOfAll, NoQuoteFilter, Bound;
    WhereMeansFilters(filters, row);
    DefinedIff(filters, First(Bound(filters)), row);
  }

  lemma QuoteColumn()
    ensures ColumnOf("quote") == Some(Quotes)
  {
    assert Lower("quote") == "quote";
  }

  lemma QuoteFilterBindsNothing(value: Value)
    ensures var f := Filter("quote", ":", value, false); AsksForQuotes(f) && Vals(ToSql(f, 1)) == []
  {
    QuoteColumn();
    assert !IsTextField("quote");
    hide ColumnOf, IsTextField;
  }

  /** A quote filter on its own names a parameter that nothing binds, whatever the row. */
  lemma QuoteAloneIsUnbound(value: Value, row: Row)
    ensures var filters := [Filter("quote", ":", value, false)];
            RowTruth(WhereText(filters), Bound(filters), row) == None
  {
    hide AsksForQuotes, IsKept, ToSql, WhereText, RowTruth;
    var f := Filter("quote", ":", value, false);
    QuoteFilterBindsNothing(value);
    QuoteIsKept(f);
    OneFilter(f, row);
    assert AsksForQuotes([f][0]);
    BoundClauseIff([f], row);
  }
}
