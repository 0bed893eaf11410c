/**
  The vector literal "[a,b,c]" of the database: the printer (internal/store/embeddings.go) and the parser
  (internal/store/embeddings_canonical.go). How one number is printed and parsed is a parameter.
 */
module VectorText {

  import opened Options

  // ----- Text

  predicate IsSpace(c: char) {
    c in {' ', '\t', '\n', '\r', '\U{b}', '\U{c}', '\U{85}', '\U{a0}'}
  }

  predicate IsBracket(c: char) {
    c == '[' || c == ']'
  }

  function TrimLeft(s: string, drop: char -> bool): string {
    if s != "" && drop(s[0]) then TrimLeft(s[1..], drop) else s
  }

  function TrimRight(s: string, drop: char -> bool): string {
    if s != "" && drop(s[|s| - 1]) then TrimRight(s[..|s| - 1], drop) else s
  }

  function Trim(s: string, drop: char -> bool): string {
    TrimRight(TrimLeft(s, drop), drop)
  }

  /** The parts of a text between commas, after the unfinished part. */
  function SplitAfter(part: string, s: string): seq<string>
    decreases |s|
  {
    if s == "" then [part]
    else if s[0] == ',' then [part] + SplitAfter("", s[1..])
    else SplitAfter(part + [s[0]], s[1..])
  }

  function Split(s: string): seq<string> {
    SplitAfter("", s)
  }

  function Join(parts: seq<string>): string {
    if parts == [] then ""
    else if |parts| == 1 then parts[0]
    else Join(parts[..|parts| - 1]) + "," + parts[|parts| - 1]
  }

  // ----- Printing and parsing

  function Printed(v: seq<real>, show: real -> string): (parts: seq<string>)
    ensures |parts| == |v| && forall i :: 0 <= i < |v| ==> parts[i] == show(v[i])
  {
    seq(|v|, i requires 0 <= i < |v| => show(v[i]))
  }

  function Formatted(v: seq<real>, show: real -> string): string {
    "[" + Join(Printed(v, show)) + "]"
  }

  method FormatVector(v: seq<real>, show: real -> string) returns (s: string)
    ensures s == Formatted(v, show)
    ensures |s| >= 2 && s[0] == '[' && s[|s| - 1] == ']'
    ensures v == [] ==> s == "[]"
  {
    var b := "[";
    for i := 0 to |v|
      invariant b == "[" + Join(Printed(v[..i], show))
    {
      assert Printed(v[..i + 1], show)[..i] == Printed(v[..i], show);
      if i > 0 {
        b := b + ",";
      }
      b := b + show(v[i]);
    }
    assert v[..|v|] == v;
    s := b + "]";
  }

  /** All parts as numbers, unless one is none. */
  function ParsedParts(parts: seq<string>, parse: string -> Option<real>): Option<seq<real>> {
    if parts == [] then Some([])
    else
      var last := parse(Trim(parts[|parts| - 1], IsSpace));
      var before := ParsedParts(parts[..|parts| - 1], parse);
      if before.Some? && last.Some? then Some(before.value + [last.value]) else None
  }

  function Parsed(s: string, parse: string -> Option<real>): Option<seq<real>> {
    var inner := Trim(s, IsBracket);
    if inner == "" then Some([]) else ParsedParts(Split(inner), parse)
  }

  lemma {:induction false} PrefixFails(parts: seq<string>, parse: string -> Option<real>, i: nat)
    requires i <= |parts| && ParsedParts(parts[..i], parse) == None
    ensures ParsedParts(parts, parse) == None
    decreases |parts|
  {
    if i < |parts| {
      assert parts[..|parts| - 1][..i] == parts[..i];
      PrefixFails(parts[..|parts| - 1], parse, i);
    } else {
      assert parts[..i] == parts;
    }
  }

  method ParseVector(s: string, parse: string -> Option<real>) returns (r: Option<seq<real>>)
    ensures r == Parsed(s, parse)
  {
    var inner := Trim(s, IsBracket);
    if inner == "" {
      return Some([]);
    }
    var parts := Split(inner);
    var out := [];
    for i := 0 to |parts|
      invariant ParsedParts(parts[..i], parse) == Some(out)
    {
      assert parts[..i + 1][..i] == parts[..i];
      var f := parse(Trim(parts[i], IsSpace));
      if f == None {
        PrefixFails(parts, parse, i + 1);
        return None;
      }
      out := out + [f.value];
    }
    assert parts[..|parts|] == parts;
    r := Some(out);
  }

  // ----- The round trip

  predicate Plain(s: string) {
    s != "" && forall k :: 0 <= k < |s| ==> s[k] != ',' && !IsBracket(s[k]) && !IsSpace(s[k])
  }

  lemma {:induction false} SplitPlain(part: string, s: string, rest: string)
    requires forall k :: 0 <= k < |s| ==> s[k] != ','
    requires rest == "" || rest[0] == ','
    ensures SplitAfter(part, s + rest) == [part + s] + (if rest == "" then [] else Split(rest[1..]))
    decreases |s|
  {
    if s == "" {
      assert s + rest == rest && part + s == part;
    } else {
      assert (s + rest)[0] == s[0] && (s + rest)[1..] == s[1..] + rest;
      SplitPlain(part + [s[0]], s[1..], rest);
      assert part + [s[0]] + s[1..] == part + s;
    }
  }

  lemma {:induction false} SplitExtends(part: string, s: string, last: string)
    requires forall k :: 0 <= k < |last| ==> last[k] != ','
    ensures SplitAfter(part, s + "," + last) == SplitAfter(part, s) + [last]
    decreases |s|
  {
    var all := s + "," + last;
    if s == "" {
      assert all[0] == ',' && all[1..] == last;
      SplitPlain("", last, "");
      assert last + "" == last && "" + last == last;
    } else {
      assert all[0] == s[0] && all[1..] == s[1..] + "," + last;
      SplitExtends(if s[0] == ',' then "" else part + [s[0]], s[1..], last);
    }
  }

  ghost predicate EachPlain(parts: seq<string>) {
    forall i :: 0 <= i < |parts| ==> Plain(parts[i])
  }

  /** Splitting undoes joining. */
  lemma {:induction false} SplitJoin(parts: seq<string>)
    requires parts != [] && EachPlain(parts)
    ensures Split(Join(parts)) == parts
    decreases |parts|
  {
    var i := |parts| - 1;
    if i == 0 {
      SplitPlain("", parts[0], "");
      assert parts[0] + "" == parts[0] && "" + parts[0] == parts[0];
    } else {
      SplitJoin(parts[..i]);
      SplitExtends("", Join(parts[..i]), parts[i]);
    }
  }

  /** A joined list begins and ends with a character of one of its parts. */
  lemma {:induction false} JoinEnds(parts: seq<string>)
    requires parts != [] && EachPlain(parts)
    ensures Join(parts) != ""
    ensures !IsBracket(Join(parts)[0]) && !IsBracket(Join(parts)[|Join(parts)| - 1])
    decreases |parts|
  {
    var i := |parts| - 1;
    assert Plain(parts[i]);
    if i > 0 {
      JoinEnds(parts[..i]);
    }
  }

  lemma TrimNothing(s: string, drop: char -> bool)
    requires s != "" && !drop(s[0]) && !drop(s[|s| - 1])
    ensures Trim(s, drop) == s
  {
  }

  /** Trimming brackets takes off the printed ones and no more. */
  lemma TrimBrackets(inner: string)
    requires inner != "" ==> !IsBracket(inner[0]) && !IsBracket(inner[|inner| - 1])
    ensures Trim("[" + inner + "]", IsBracket) == inner
  {
    var s := "[" + inner + "]";
    assert s[0] == '[' && s[1..] == inner + "]";
    if inner == "" {
      assert inner + "]" == "]";
      assert TrimLeft("]", IsBracket) == "";
    } else {
      assert (inner + "]")[0] == inner[0];
      assert TrimLeft(inner + "]", IsBracket) == inner + "]";
      assert TrimLeft(s, IsBracket) == inner + "]";
      assert (inner + "]")[|inner|] == ']' && (inner + "]")[..|inner|] == inner;
      assert TrimRight(inner, IsBracket) == inner;
      assert TrimRight(inner + "]", IsBracket) == inner;
    }
  }

  ghost predicate Faithful(v: seq<real>, show: real -> string, parse: string -> Option<real>) {
    forall i :: 0 <= i < |v| ==> Plain(show(v[i])) && parse(show(v[i])) == Some(v[i])
  }

  lemma {:induction false} PartsParse(v: seq<real>, show: real -> string, parse: string -> Option<real>)
    requires Faithful(v, show, parse)
    ensures ParsedParts(Printed(v, show), parse) == Some(v)
    decreases |v|
  {
    if v != [] {
      var i := |v| - 1;
      PartsParse(v[..i], show, parse);
      assert Printed(v, show)[..i] == Printed(v[..i], show);
      TrimNothing(show(v[i]), IsSpace);
      assert v[..i] + [v[i]] == v;
    }
  }

  /** Parsing what was printed gives the vector back, the empty one included. */
  lemma RoundTrip(v: seq<real>, show: real -> string, parse: string -> Option<real>)
    requires Faithful(v, show, parse)
    ensures Parsed(Formatted(v, show), parse) == Some(v)
  {
    var parts := Printed(v, show);
    if v == [] {
      assert parts == [];
      assert Join(parts) == "";
      TrimBrackets(Join(parts));
      assert Trim(Formatted(v, show), IsBracket) == "";
    } else {
      JoinEnds(parts);
      TrimBrackets(Join(parts));
      SplitJoin(parts);
      PartsParse(v, show, parse);
    }
  }

  // ----- What the parser accepts

  lemma {:induction false} TrimLeftLaw(s: string, drop: char -> bool)
    ensures var t := TrimLeft(s, drop);
            && |t| <= |s| && s[|s| - |t|..] == t && (t == "" || !drop(t[0]))
            && forall k :: 0 <= k < |s| - |t| ==> drop(s[k])
    decreases |s|
  {
    if s != "" && drop(s[0]) {
      TrimLeftLaw(s[1..], drop);
    }
  }

  lemma {:induction false} TrimRightLaw(s: string, drop: char -> bool)
    ensures var t := TrimRight(s, drop);
            && |t| <= |s| && s[..|t|] == t && (t == "" || (!drop(t[|t| - 1]) && t[0] == s[0]))
            && forall k :: |t| <= k < |s| ==> drop(s[k])
    decreases |s|
  {
    if s != "" && drop(s[|s| - 1]) {
      TrimRightLaw(s[..|s| - 1], drop);
    }
  }

  /** Trimming takes off what is to be dropped at both ends, and stops at the first character that is not. */
  lemma TrimLaw(s: string, drop: char -> bool) returns (i: nat)
    ensures var t := Trim(s, drop);
            && (t == "" || (!drop(t[0]) && !drop(t[|t| - 1])))
            && i + |t| <= |s| && s[i..i + |t|] == t
            && (forall k :: 0 <= k < i ==> drop(s[k])) && forall k :: i + |t| <= k < |s| ==> drop(s[k])
  {
    var left := TrimLeft(s, drop);
    TrimLeftLaw(s, drop);
    TrimRightLaw(left, drop);
    hide TrimLeft, TrimRight;
    i := |s| - |left|;
    assert forall k :: i <= k < |s| ==> s[k] == s[i..][k - i];
  }

  /** A list of parts is parsed exactly when each of them, trimmed of spaces, is a number, and then to these numbers. */
  lemma {:induction false} PartsParseIff(parts: seq<string>, parse: string -> Option<real>, v: seq<real>)
    ensures ParsedParts(parts, parse) == Some(v) <==>
            |v| == |parts| && forall i :: 0 <= i < |parts| ==> parse(Trim(parts[i], IsSpace)) == Some(v[i])
    decreases |parts|
  {
    if parts != [] {
      var n := |parts| - 1;
      if |v| == |parts| {
        PartsParseIff(parts[..n], parse, v[..n]);
        assert v == v[..n] + [v[n]];
      }
      var before := ParsedParts(parts[..n], parse);
      if before.Some? {
        PartsParseIff(parts[..n], parse, before.value);
      }
    }
  }

  // ----- The literal's shape

  /** A text without commas is one part, and a comma ends the parts of what comes before it. */
  lemma SplitLaws(s: string, t: string, part: string)
    requires forall k :: 0 <= k < |part| ==> part[k] != ','
    ensures Split(part) == [part]
    ensures Split(s + "," + t) == Split(s) + Split(t)
  {
    SplitPlain("", part, "");
    assert part + "" == part && "" + part == part;
    SplitAtComma("", s, t);
  }

  lemma {:induction false} SplitAtComma(part: string, s: string, t: string)
    ensures SplitAfter(part, s + "," + t) == SplitAfter(part, s) + Split(t)
    decreases |s|
  {
    var all := s + "," + t;
    if s == "" {
      assert all[0] == ',' && all[1..] == t;
    } else {
      assert all[0] == s[0] && all[1..] == s[1..] + "," + t;
      SplitAtComma(if s[0] == ',' then "" else part + [s[0]], s[1..], t);
    }
  }

  lemma {:induction false} JoinedChars(parts: seq<string>)
    requires EachPlain(parts)
    ensures forall k :: 0 <= k < |Join(parts)| ==> !IsBracket(Join(parts)[k]) && !IsSpace(Join(parts)[k])
    decreases |parts|
  {
    if parts != [] {
      JoinedChars(parts[..|parts| - 1]);
      assert Plain(parts[|parts| - 1]);
    }
  }

  /** A printed vector opens and closes with a square bracket, with its numbers between commas and nothing else. */
  lemma LiteralShape(v: seq<real>, show: real -> string)
    requires forall i :: 0 <= i < |v| ==> Plain(show(v[i]))
    ensures var s := Formatted(v, show);
            && |s| >= 2 && s[0] == '[' && s[|s| - 1] == ']'
            && (forall k :: 0 < k < |s| - 1 ==> s[k] !in {'[', ']', ' '})
            && (v == [] ==> s == "[]")
            && (v != [] ==>
                  && |Split(s[1..|s| - 1])| == |v|
                  && forall i :: 0 <= i < |v| ==> Split(s[1..|s| - 1])[i] == show(v[i]))
  {
    var parts, s := Printed(v, show), Formatted(v, show);
    assert s[1..|s| - 1] == Join(parts);
    JoinedChars(parts);
    assert forall k :: 0 < k < |s| - 1 ==> s[k] == Join(parts)[k - 1];
    if v != [] {
      SplitJoin(parts);
    } else {
      assert parts == [];
    }
    hide Split, Join;
  }
}
