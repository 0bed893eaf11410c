/**
  The WordPiece tokenizer of the embedder (internal/embedder/tokenize.go). A text is its sequence of runes;
  vocabulary keys and the tokens cut into pieces are byte strings, with a char for each byte.
 */
module Tokenizer {

  type Rune = int

  /** What the tokenizer asks of the Unicode tables and of UTF-8. */
  datatype Unicode = Unicode(
    isSpace: Rune -> bool,
    isControl: Rune -> bool,
    isPunct: Rune -> bool,
    toLower: Rune -> Rune,
    encode: Rune -> string)

  datatype WordPiece = WordPiece(
    vocab: map<string, int>,
    unkId: int,
    padId: int,
    clsId: int,
    sepId: int,
    maxLen: int,
    doLowerCase: bool)

  // ----- Pre-tokens

  predicate IsCjk(r: Rune) {
    0x4E00 <= r <= 0x9FFF || 0x3400 <= r <= 0x4DBF || 0xAC00 <= r <= 0xD7AF
  }

  predicate Blank(u: Unicode, r: Rune) {
    u.isSpace(r) || u.isControl(r)
  }

  predicate Alone(u: Unicode, r: Rune) {
    !Blank(u, r) && (u.isPunct(r) || IsCjk(r))
  }

  function Flushed(cur: seq<Rune>): seq<seq<Rune>> {
    if cur == [] then [] else [cur]
  }

  /** The tokens of a text after an unfinished one. */
  function TokensAfter(u: Unicode, cur: seq<Rune>, text: seq<Rune>): seq<seq<Rune>>
    decreases |text|
  {
    if text == [] then Flushed(cur)
    else if Blank(u, text[0]) then Flushed(cur) + TokensAfter(u, [], text[1..])
    else if Alone(u, text[0]) then Flushed(cur) + [[text[0]]] + TokensAfter(u, [], text[1..])
    else TokensAfter(u, cur + [text[0]], text[1..])
  }

  function PreTokens(u: Unicode, text: seq<Rune>): seq<seq<Rune>> {
    TokensAfter(u, [], text)
  }

  method PreTokenize(u: Unicode, text: seq<Rune>) returns (tokens: seq<seq<Rune>>)
    ensures tokens == PreTokens(u, text)
  {
    tokens := [];
    var cur := [];
    for i := 0 to |text|
      invariant PreTokens(u, text) == tokens + TokensAfter(u, cur, text[i..])
    {
      var r := text[i];
      assert text[i..][0] == r && text[i..][1..] == text[i + 1..];
      if Blank(u, r) {
        tokens, cur := tokens + Flushed(cur), [];
      } else if Alone(u, r) {
        tokens, cur := tokens + Flushed(cur) + [[r]], [];
      } else {
        cur := cur + [r];
      }
    }
    tokens := tokens + Flushed(cur);
  }

  lemma {:induction false} AfterSplit(u: Unicode, cur: seq<Rune>, s: seq<Rune>, r: Rune, t: seq<Rune>)
    requires Blank(u, r) || Alone(u, r)
    ensures TokensAfter(u, cur, s + [r] + t)
         == TokensAfter(u, cur, s) + (if Blank(u, r) then [] else [[r]]) + PreTokens(u, t)
    decreases |s|
  {
    var all := s + [r] + t;
    if s == [] {
      assert all[0] == r && all[1..] == t;
    } else {
      assert all[0] == s[0] && all[1..] == s[1..] + [r] + t;
      var next := if Blank(u, s[0]) || Alone(u, s[0]) then [] else cur + [s[0]];
      AfterSplit(u, next, s[1..], r, t);
    }
  }

  lemma {:induction false} AfterRun(u: Unicode, cur: seq<Rune>, run: seq<Rune>)
    requires forall k :: 0 <= k < |run| ==> !Blank(u, run[k]) && !Alone(u, run[k])
    ensures TokensAfter(u, cur, run) == Flushed(cur + run)
    decreases |run|
  {
    if run == [] {
      assert cur + run == cur;
    } else {
      AfterRun(u, cur + [run[0]], run[1..]);
      assert cur + [run[0]] + run[1..] == cur + run;
    }
  }

  /**
    A blank separates, a punctuation mark or ideograph separates and stands alone, and a run of anything else
    is one token. These equations fix the tokens of every text.
   */
  lemma PreTokensLaws(u: Unicode, s: seq<Rune>, r: Rune, t: seq<Rune>, run: seq<Rune>)
    requires run != []
    requires forall k :: 0 <= k < |run| ==>
               && !u.isSpace(run[k]) && !u.isControl(run[k]) && !u.isPunct(run[k])
               && !(0x4E00 <= run[k] <= 0x9FFF) && !(0x3400 <= run[k] <= 0x4DBF) && !(0xAC00 <= run[k] <= 0xD7AF)
    ensures u.isSpace(r) || u.isControl(r) ==> PreTokens(u, s + [r] + t) == PreTokens(u, s) + PreTokens(u, t)
    ensures !u.isSpace(r) && !u.isControl(r)
            && (u.isPunct(r) || 0x4E00 <= r <= 0x9FFF || 0x3400 <= r <= 0x4DBF || 0xAC00 <= r <= 0xD7AF) ==>
              PreTokens(u, s + [r] + t) == PreTokens(u, s) + [[r]] + PreTokens(u, t)
    ensures PreTokens(u, run) == [run] && PreTokens(u, []) == []
  {
    if Blank(u, r) || Alone(u, r) {
      AfterSplit(u, [], s, r, t);
    }
    AfterRun(u, [], run);
    assert [] + run == run;
  }

  function Concat<T>(parts: seq<seq<T>>): seq<T> {
    if parts == [] then [] else parts[0] + Concat(parts[1..])
  }

  lemma {:induction false} ConcatJoin<T>(s: seq<seq<T>>, t: seq<seq<T>>)
    ensures Concat(s + t) == Concat(s) + Concat(t)
    decreases |s|
  {
    if s == [] {
      assert s + t == t;
    } else {
      assert (s + t)[0] == s[0] && (s + t)[1..] == s[1..] + t;
      ConcatJoin(s[1..], t);
    }
  }

  function Visible(u: Unicode, text: seq<Rune>): seq<Rune> {
    if text == [] then []
    else (if Blank(u, text[0]) then [] else [text[0]]) + Visible(u, text[1..])
  }

  lemma {:induction false} AfterKeepsRunes(u: Unicode, cur: seq<Rune>, text: seq<Rune>)
    ensures Concat(TokensAfter(u, cur, text)) == cur + Visible(u, text)
    ensures forall token :: token in TokensAfter(u, cur, text) ==> token != []
    decreases |text|
  {
    assert Concat(Flushed(cur)) == cur;
    if text != [] {
      var r := text[0];
      if Blank(u, r) {
        AfterKeepsRunes(u, [], text[1..]);
        ConcatJoin(Flushed(cur), TokensAfter(u, [], text[1..]));
      } else if Alone(u, r) {
        AfterKeepsRunes(u, [], text[1..]);
        ConcatJoin(Flushed(cur) + [[r]], TokensAfter(u, [], text[1..]));
        ConcatJoin(Flushed(cur), [[r]]);
        assert Concat([[r]]) == [r];
      } else {
        AfterKeepsRunes(u, cur + [r], text[1..]);
      }
    }
  }

  /** Pre-tokens lose no visible rune and none is empty. */
  lemma PreTokensKeepRunes(u: Unicode, text: seq<Rune>)
    ensures Concat(PreTokens(u, text)) == Visible(u, text)
    ensures forall token :: token in PreTokens(u, text) ==> token != []
  {
    AfterKeepsRunes(u, [], text);
  }

  function LowerRunes(u: Unicode, token: seq<Rune>): seq<Rune> {
    if token == [] then [] else [u.toLower(token[0])] + LowerRunes(u, token[1..])
  }

  function Bytes(u: Unicode, token: seq<Rune>): string {
    if token == [] then "" else u.encode(token[0]) + Bytes(u, token[1..])
  }

  // ----- Pieces

  datatype Piece = Piece(from: nat, to: nat, known: bool)

  /** Pieces after the first carry the continuation mark. */
  function Key(token: string, from: nat, to: nat): string
    requires from <= to <= |token|
  {
    if from > 0 then "##" + token[from..to] else token[from..to]
  }

  /** The end of the longest match from start that ends by limit, or start when nothing matches. */
  function LongestMatch(vocab: map<string, int>, token: string, start: nat, limit: nat): (end: nat)
    requires start <= limit <= |token|
    ensures start <= end <= limit
    ensures end > start ==> Key(token, start, end) in vocab
    ensures forall e :: end < e <= limit ==> Key(token, start, e) !in vocab
  {
    if limit == start then start
    else if Key(token, start, limit) in vocab then limit
    else LongestMatch(vocab, token, start, limit - 1)
  }

  function PiecesFrom(vocab: map<string, int>, token: string, start: nat): seq<Piece>
    requires start <= |token|
    decreases |token| - start
  {
    if start == |token| then []
    else
      var end := LongestMatch(vocab, token, start, |token|);
      if end > start then [Piece(start, end, true)] + PiecesFrom(vocab, token, end)
      else [Piece(start, start + 1, false)] + PiecesFrom(vocab, token, start + 1)
  }

  function PieceId(vocab: map<string, int>, unkId: int, token: string, p: Piece): int {
    if p.known && p.from <= p.to <= |token| && Key(token, p.from, p.to) in vocab
    then vocab[Key(token, p.from, p.to)] else unkId
  }

  function PieceIds(vocab: map<string, int>, unkId: int, token: string, pieces: seq<Piece>): seq<int> {
    if pieces == [] then []
    else [PieceId(vocab, unkId, token, pieces[0])] + PieceIds(vocab, unkId, token, pieces[1..])
  }

  function IdsFrom(vocab: map<string, int>, unkId: int, token: string, start: nat): seq<int>
    requires start <= |token|
  {
    PieceIds(vocab, unkId, token, PiecesFrom(vocab, token, start))
  }

  /** The ids of a token: its own when the vocabulary has it whole, else those of its pieces. */
  function SubwordIds(vocab: map<string, int>, unkId: int, token: string): seq<int> {
    if token in vocab then [vocab[token]]
    else IdsFrom(vocab, unkId, token, 0)
  }

  /** What the program advances by at an unknown byte: always one byte, whatever rune starts there. */
  function RuneLen(s: string): (n: nat)
    ensures n == 1
  {
    1
  }

  /** The inner loop shortens the candidate until the vocabulary has it. */
  method FindEnd(vocab: map<string, int>, token: string, start: nat) returns (end: nat)
    requires start <= |token|
    ensures end == LongestMatch(vocab, token, start, |token|)
  {
    end := |token|;
    while end > start && Key(token, start, end) !in vocab
      invariant start <= end <= |token|
      invariant LongestMatch(vocab, token, start, |token|) == LongestMatch(vocab, token, start, end)
    {
      end := end - 1;
    }
  }

  lemma Regroup<T>(s: seq<T>, t: seq<T>, rest: seq<T>)
    ensures s + (t + rest) == s + t + rest
  {
  }

  method Subword(wp: WordPiece, token: string) returns (out: seq<int>)
    ensures out == SubwordIds(wp.vocab, wp.unkId, token)
  {
    var vocab, unkId := wp.vocab, wp.unkId;
    if token in vocab {
      return [vocab[token]];
    }
    out := [];
    var start := 0;
    while start < |token|
      invariant start <= |token|
      invariant IdsFrom(vocab, unkId, token, 0) == out + IdsFrom(vocab, unkId, token, start)
    {
      hide IdsFrom, Key;
      var end := FindEnd(vocab, token, start);
      ghost var next := if end > start then end else start + 1;
      ghost var id := if end > start then vocab[Key(token, start, end)] else unkId;
      UnfoldPieces(vocab, unkId, token, start, end, next);
      Regroup(out, [id], IdsFrom(vocab, unkId, token, next));
      if end == start {
        out := out + [unkId];
        start := start + RuneLen(token[start..]);
      } else {
        out := out + [vocab[Key(token, start, end)]];
        start := end;
      }
    }
  }

  lemma UnfoldPieces(vocab: map<string, int>, unkId: int, token: string, start: nat, end: nat, next: nat)
    requires start < |token| && end == LongestMatch(vocab, token, start, |token|)
    requires next == if end > start then end else start + 1
    ensures IdsFrom(vocab, unkId, token, start)
         == [if end > start then vocab[Key(token, start, end)] else unkId]
          + IdsFrom(vocab, unkId, token, next)
  {
    var rest := PiecesFrom(vocab, token, next);
    var piece := Piece(start, next, end > start);
    assert PiecesFrom(vocab, token, start) == [piece] + rest;
    assert ([piece] + rest)[1..] == rest;
  }

  // ----- What the pieces are

  /** No longer piece from here is in the vocabulary; an unknown piece is one byte from which nothing matches. */
  ghost predicate Longest(vocab: map<string, int>, token: string, p: Piece) {
    && p.from < p.to <= |token|
    && (p.known ==> Key(token, p.from, p.to) in vocab
                    && forall e :: p.to < e <= |token| ==> Key(token, p.from, e) !in vocab)
    && (!p.known ==> p.to == p.from + 1 && forall e :: p.from < e <= |token| ==> Key(token, p.from, e) !in vocab)
  }

  /** The pieces follow one another from a position to the end of the token, each the longest match. */
  ghost predicate IsSplit(vocab: map<string, int>, token: string, start: nat, pieces: seq<Piece>)
    decreases |pieces|
  {
    if pieces == [] then start == |token|
    else pieces[0].from == start && Longest(vocab, token, pieces[0]) && IsSplit(vocab, token, pieces[0].to, pieces[1..])
  }

  lemma {:induction false} PiecesAreSplit(vocab: map<string, int>, token: string, start: nat)
    requires start <= |token|
    ensures IsSplit(vocab, token, start, PiecesFrom(vocab, token, start))
    decreases |token| - start
  {
    if start < |token| {
      var end := LongestMatch(vocab, token, start, |token|);
      var next := if end > start then end else start + 1;
      PiecesAreSplit(vocab, token, next);
      var pieces := PiecesFrom(vocab, token, start);
      assert pieces[0] == Piece(start, next, end > start) && pieces[1..] == PiecesFrom(vocab, token, next);
    }
  }

  lemma SameLongest(vocab: map<string, int>, token: string, p: Piece, q: Piece)
    requires Longest(vocab, token, p) && Longest(vocab, token, q) && p.from == q.from
    ensures p == q
  {
    assert p.known ==> Key(token, p.from, p.to) in vocab;
    assert q.known ==> Key(token, q.from, q.to) in vocab;
  }

  /** There is one greedy split of a token. */
  lemma {:induction false} SplitIsUnique(vocab: map<string, int>, token: string, start: nat, s: seq<Piece>,
          t: seq<Piece>)
    requires IsSplit(vocab, token, start, s) && IsSplit(vocab, token, start, t)
    ensures s == t
    decreases |s|
  {
    if s != [] && t != [] {
      SameLongest(vocab, token, s[0], t[0]);
      SplitIsUnique(vocab, token, s[0].to, s[1..], t[1..]);
    }
  }

  function Covered(token: string, pieces: seq<Piece>): string {
    if pieces == [] then ""
    else
      var p := pieces[0];
      (if p.from <= p.to <= |token| then token[p.from..p.to] else "") + Covered(token, pieces[1..])
  }

  /** Put back together in order, the pieces are the token: no byte is lost, repeated or moved. */
  lemma {:induction false} PiecesCoverToken(vocab: map<string, int>, token: string, start: nat, pieces: seq<Piece>)
    requires start <= |token| && IsSplit(vocab, token, start, pieces)
    ensures Covered(token, pieces) == token[start..]
    decreases |pieces|
  {
    if pieces != [] {
      PiecesCoverToken(vocab, token, pieces[0].to, pieces[1..]);
    }
  }

  /** The shortcut for whole words agrees with cutting into pieces, except on an empty token the vocabulary holds. */
  lemma ShortcutAgreesIff(vocab: map<string, int>, unkId: int, token: string)
    ensures (SubwordIds(vocab, unkId, token) == IdsFrom(vocab, unkId, token, 0)
         <==> !(token == "" && "" in vocab))
  {
    if token in vocab && token != "" {
      assert Key(token, 0, |token|) == token;
      UnfoldPieces(vocab, unkId, token, 0, |token|, |token|);
    }
  }

  /** Where nothing matches, every byte becomes an unknown id of its own, also the bytes of a single rune. */
  lemma {:induction false} UnknownBytes(vocab: map<string, int>, unkId: int, token: string, start: nat)
    requires start <= |token|
    requires NothingMatches(vocab, token)
    ensures IdsFrom(vocab, unkId, token, start) == seq(|token| - start, i => unkId)
    decreases |token| - start
  {
    if start < |token| {
      UnknownBytes(vocab, unkId, token, start + 1);
      assert LongestMatch(vocab, token, start, |token|) == start;
      UnfoldPieces(vocab, unkId, token, start, start, start + 1);
    }
  }

  /** No part of the token, with or without the continuation mark, is in the vocabulary. */
  ghost predicate NothingMatches(vocab: map<string, int>, token: string) {
    forall from, to :: 0 <= from < to <= |token| ==> Key(token, from, to) !in vocab
  }

  lemma {:induction false} BytesAtLeastRunes(u: Unicode, token: seq<Rune>)
    requires forall k :: 0 <= k < |token| ==> u.encode(token[k]) != ""
    ensures |Bytes(u, token)| >= |token|
    ensures |Bytes(u, token)| == |token| <==> forall k :: 0 <= k < |token| ==> |u.encode(token[k])| == 1
    decreases |token|
  {
    if token != [] {
      BytesAtLeastRunes(u, token[1..]);
      assert forall k :: 1 <= k < |token| ==> token[k] == token[1..][k - 1];
    }
  }

  /** An unknown token gives one id for each of its runes exactly when each of them is encoded in one byte. */
  lemma OneIdPerRuneIff(u: Unicode, vocab: map<string, int>, unkId: int, token: seq<Rune>)
    requires token != [] && forall k :: 0 <= k < |token| ==> u.encode(token[k]) != ""
    requires NothingMatches(vocab, Bytes(u, token))
    ensures (|SubwordIds(vocab, unkId, Bytes(u, token))| == |token|
         <==> forall k :: 0 <= k < |token| ==> |u.encode(token[k])| == 1)
  {
    hide Bytes;
    var bytes := Bytes(u, token);
    BytesAtLeastRunes(u, token);
    UnknownBytes(vocab, unkId, bytes, 0);
    assert Key(bytes, 0, |bytes|) == bytes;
  }

  // ----- The framed sequence

  function TokenIds(u: Unicode, wp: WordPiece, raw: seq<Rune>): seq<int> {
    SubwordIds(wp.vocab, wp.unkId, Bytes(u, if wp.doLowerCase then LowerRunes(u, raw) else raw))
  }

  /** The ids of all pre-tokens, with no limit on their number. */
  function AllIds(u: Unicode, wp: WordPiece, raws: seq<seq<Rune>>): seq<int> {
    if raws == [] then [] else TokenIds(u, wp, raws[0]) + AllIds(u, wp, raws[1..])
  }

  function Take(s: seq<int>, n: nat): seq<int> {
    if |s| <= n then s else s[..n]
  }

  function Repeat(x: int, n: nat): seq<int> {
    seq(n, i => x)
  }

  /** The ids that fit, between the two frame ids. */
  function Framed(u: Unicode, wp: WordPiece, text: seq<Rune>): seq<int>
    requires wp.maxLen >= 2
  {
    [wp.clsId] + Take(AllIds(u, wp, PreTokens(u, text)), wp.maxLen - 2) + [wp.sepId]
  }

  lemma UnfoldIds(u: Unicode, wp: WordPiece, raws: seq<seq<Rune>>, i: nat)
    requires i < |raws|
    ensures AllIds(u, wp, raws[i..]) == TokenIds(u, wp, raws[i]) + AllIds(u, wp, raws[i + 1..])
  {
    assert raws[i..][0] == raws[i] && raws[i..][1..] == raws[i + 1..];
  }

  /** Leaves as soon as enough ids are there: the rest could only have come after them. */
  method CollectIds(u: Unicode, wp: WordPiece, raws: seq<seq<Rune>>) returns (tokens: seq<int>)
    ensures tokens <= AllIds(u, wp, raws)
    ensures tokens == AllIds(u, wp, raws) || |tokens| >= wp.maxLen - 2
  {
    tokens := [];
    for i := 0 to |raws|
      invariant AllIds(u, wp, raws) == tokens + AllIds(u, wp, raws[i..])
    {
      hide SubwordIds, AllIds;
      var raw := if wp.doLowerCase then LowerRunes(u, raws[i]) else raws[i];
      var pieces := Subword(wp, Bytes(u, raw));
      UnfoldIds(u, wp, raws, i);
      Regroup(tokens, pieces, AllIds(u, wp, raws[i + 1..]));
      tokens := tokens + pieces;
      if |tokens| >= wp.maxLen - 2 {
        break;
      }
    }
  }

  /** Position by position: the start mark, as many ids as fit, the end mark, and padding the mask leaves out. */
  ghost predicate LaidOut(all: seq<int>, cls: int, sep: int, pad: int, maxLen: nat, ids: seq<int>, mask: seq<int>)
    requires maxLen >= 2
  {
    var kept := if |all| <= maxLen - 2 then |all| else maxLen - 2;
    && |ids| == |mask| == maxLen
    && ids[0] == cls && ids[kept + 1] == sep
    && (forall j :: 0 <= j < kept ==> ids[j + 1] == all[j])
    && (forall j :: kept + 2 <= j < maxLen ==> ids[j] == pad)
    && forall j :: 0 <= j < maxLen ==> mask[j] == if j < kept + 2 then 1 else 0
  }

  lemma Layout(all: seq<int>, cls: int, sep: int, pad: int, maxLen: nat, ids: seq<int>, mask: seq<int>)
    requires maxLen >= 2
    requires var framed := [cls] + Take(all, maxLen - 2) + [sep];
             && ids == framed + Repeat(pad, maxLen - |framed|)
             && mask == Repeat(1, |framed|) + Repeat(0, maxLen - |framed|)
    ensures LaidOut(all, cls, sep, pad, maxLen, ids, mask)
  {
    var kept := if |all| <= maxLen - 2 then |all| else maxLen - 2;
    assert ids[kept + 1] == sep;
  }

  lemma TakenFromPrefix(ids: seq<int>, all: seq<int>, n: nat)
    requires ids <= all && (ids == all || |ids| >= n)
    ensures (if |ids| > n then ids[..n] else ids) == Take(all, n)
  {
  }

  lemma TakeFits(all: seq<int>, n: nat)
    ensures |Take(all, n)| <= n
  {
  }

  /** Stops at a limit of less than two, where the program slices with a negative bound and aborts. */
  method Tokenize(u: Unicode, wp: WordPiece, text: seq<Rune>) returns (aborted: bool, ids: seq<int>, mask: seq<int>)
    ensures aborted <==> wp.maxLen < 2
    ensures !aborted ==> |Framed(u, wp, text)| <= wp.maxLen
    ensures !aborted ==> ids == Framed(u, wp, text) + Repeat(wp.padId, wp.maxLen - |Framed(u, wp, text)|)
    ensures !aborted ==> mask == Repeat(1, |Framed(u, wp, text)|) + Repeat(0, wp.maxLen - |Framed(u, wp, text)|)
    ensures !aborted ==>
              LaidOut(AllIds(u, wp, PreTokens(u, text)), wp.clsId, wp.sepId, wp.padId, wp.maxLen, ids, mask)
  {
    aborted, ids, mask := false, [], [];
    hide LaidOut, AllIds, PreTokens, Take, Repeat;
    var raws := PreTokenize(u, text);
    var tokens := CollectIds(u, wp, raws);
    if wp.maxLen < 2 {
      return true, [], [];
    }
    TakenFromPrefix(tokens, AllIds(u, wp, raws), wp.maxLen - 2);
    if |tokens| > wp.maxLen - 2 {
      tokens := tokens[..wp.maxLen - 2];
    }
    ids, mask := Pad([wp.clsId] + tokens + [wp.sepId], wp.padId, wp.maxLen);
    TakeFits(AllIds(u, wp, raws), wp.maxLen - 2);
    Layout(AllIds(u, wp, PreTokens(u, text)), wp.clsId, wp.sepId, wp.padId, wp.maxLen, ids, mask);
  }

  /** Copies into buffers of the full length and fills what is left. */
  method Pad(framed: seq<int>, padId: int, maxLen: nat) returns (ids: seq<int>, mask: seq<int>)
    requires |framed| <= maxLen
    ensures ids == framed + Repeat(padId, maxLen - |framed|)
    ensures mask == Repeat(1, |framed|) + Repeat(0, maxLen - |framed|)
  {
    var idBuffer, maskBuffer := new int[maxLen](_ => 0), new int[maxLen](_ => 0);
    for i := 0 to |framed|
      invariant forall k :: 0 <= k < i ==> idBuffer[k] == framed[k]
      invariant forall k :: 0 <= k < i ==> maskBuffer[k] == 1
      invariant forall k :: i <= k < maxLen ==> maskBuffer[k] == 0
    {
      idBuffer[i] := framed[i];
      maskBuffer[i] := 1;
    }
    for i := |framed| to maxLen
      invariant forall k :: 0 <= k < |framed| ==> idBuffer[k] == framed[k]
      invariant forall k :: |framed| <= k < i ==> idBuffer[k] == padId
      invariant forall k :: 0 <= k < |framed| ==> maskBuffer[k] == 1
      invariant forall k :: |framed| <= k < maxLen ==> maskBuffer[k] == 0
    {
      idBuffer[i] := padId;
    }
    ids, mask := idBuffer[..], maskBuffer[..];
  }
}
