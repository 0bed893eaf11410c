/**
  The tokenizer's ids in terms of the text alone: how runes become bytes, where a token's pieces lie, and what
  each piece is looked up as.
 */
module TokenizerLaws {
  import opened Tokenizer

  /** A rune is encoded by itself, wherever it stands. */
  lemma {:induction false} BytesJoin(u: Unicode, s: seq<Rune>, t: seq<Rune>)
    ensures Bytes(u, s + t) == Bytes(u, s) + Bytes(u, t)
    decreases |s|
  {
    if s == [] {
      assert s + t == t;
    } else {
      assert (s + t)[0] == s[0] && (s + t)[1..] == s[1..] + t;
      BytesJoin(u, s[1..], t);
    }
  }

  lemma BytesOfOne(u: Unicode, r: Rune)
    ensures Bytes(u, [r]) == u.encode(r) && Bytes(u, []) == ""
  {
    assert Bytes(u, [r]) == u.encode(r) + Bytes(u, [r][1..]);
  }

  lemma {:induction false} LoweredEach(u: Unicode, s: seq<Rune>)
    ensures |LowerRunes(u, s)| == |s|
    ensures forall i :: 0 <= i < |s| ==> LowerRunes(u, s)[i] == u.toLower(s[i])
    decreases |s|
  {
    if s != [] {
      LoweredEach(u, s[1..]);
    }
  }

  lemma {:induction false} AllIdsJoin(u: Unicode, wp: WordPiece, s: seq<seq<Rune>>, t: seq<seq<Rune>>)
    ensures AllIds(u, wp, s + t) == AllIds(u, wp, s) + AllIds(u, wp, t)
    decreases |s|
  {
    hide TokenIds;
    if s == [] {
      assert s + t == t;
    } else {
      assert (s + t)[0] == s[0] && (s + t)[1..] == s[1..] + t;
      AllIdsJoin(u, wp, s[1..], t);
    }
  }

  /** The ids of a text are those of its tokens one after another, each lowered first if the model asks for it. */
  lemma AllIdsLaws(u: Unicode, wp: WordPiece, s: seq<seq<Rune>>, t: seq<seq<Rune>>, raw: seq<Rune>, lowered: seq<Rune>)
    requires |lowered| == |raw| && forall i :: 0 <= i < |raw| ==> lowered[i] == u.toLower(raw[i])
    ensures AllIds(u, wp, s + t) == AllIds(u, wp, s) + AllIds(u, wp, t)
    ensures AllIds(u, wp, [raw]) ==
            SubwordIds(wp.vocab, wp.unkId, Bytes(u, if wp.doLowerCase then lowered else raw))
  {
    hide SubwordIds, Bytes, LowerRunes;
    AllIdsJoin(u, wp, s, t);
    LoweredEach(u, raw);
    assert LowerRunes(u, raw) == lowered;
    assert [raw][1..] == [];
    assert AllIds(u, wp, [raw]) == TokenIds(u, wp, raw) + AllIds(u, wp, []);
  }

  // ----- Pieces and their ids, written out

  /** Where the pieces of a token lie: they start at its beginning, each at the end of the one before. */
  ghost predicate Chained(token: string, start: nat, pieces: seq<Piece>) {
    && (forall j :: 0 <= j < |pieces| ==> pieces[j].from < pieces[j].to <= |token|)
    && (forall j :: 0 <= j < |pieces| ==> pieces[j].from == if j == 0 then start else pieces[j - 1].to)
    && (if pieces == [] then start == |token| else pieces[|pieces| - 1].to == |token|)
  }

  lemma {:induction false} SplitChained(vocab: map<string, int>, token: string, start: nat, pieces: seq<Piece>)
    requires IsSplit(vocab, token, start, pieces)
    ensures Chained(token, start, pieces)
    ensures forall j :: 0 <= j < |pieces| ==> Longest(vocab, token, pieces[j])
    decreases |pieces|
  {
    hide Key;
    if pieces != [] {
      SplitChained(vocab, token, pieces[0].to, pieces[1..]);
      assert forall j :: 1 <= j < |pieces| ==> pieces[j] == pieces[1..][j - 1];
    }
  }

  lemma {:induction false} IdEach(vocab: map<string, int>, unkId: int, token: string, pieces: seq<Piece>)
    ensures |PieceIds(vocab, unkId, token, pieces)| == |pieces|
    ensures forall j :: 0 <= j < |pieces| ==>
              PieceIds(vocab, unkId, token, pieces)[j] == PieceId(vocab, unkId, token, pieces[j])
    decreases |pieces|
  {
    hide PieceId;
    if pieces != [] {
      IdEach(vocab, unkId, token, pieces[1..]);
    }
  }

  function Mark(from: nat): string {
    if from == 0 then "" else "##"
  }

  /**
    A known piece is looked up as it stands at the beginning of the token and after "##" further on, and nothing
    longer is known there; an unknown one is a single byte at which nothing at all is known.
   */
  ghost predicate Matches(vocab: map<string, int>, unkId: int, token: string, p: Piece, id: int)
    requires p.from < p.to <= |token|
  {
    if p.known then
      && Mark(p.from) + token[p.from..p.to] in vocab
      && id == vocab[Mark(p.from) + token[p.from..p.to]]
      && forall e :: p.to < e <= |token| ==> Mark(p.from) + token[p.from..e] !in vocab
    else
      && id == unkId && p.to == p.from + 1
      && forall e :: p.from < e <= |token| ==> Mark(p.from) + token[p.from..e] !in vocab
  }

  lemma KeyIsMarked(token: string, from: nat, to: nat)
    requires from <= to <= |token|
    ensures Key(token, from, to) == Mark(from) + token[from..to]
  {
  }

  lemma LongestMatches(vocab: map<string, int>, unkId: int, token: string, p: Piece)
    requires Longest(vocab, token, p)
    ensures Matches(vocab, unkId, token, p, PieceId(vocab, unkId, token, p))
  {
    KeyIsMarked(token, p.from, p.to);
    hide Key;
    forall e | p.from < e <= |token|
      ensures Key(token, p.from, e) == Mark(p.from) + token[p.from..e]
    {
      KeyIsMarked(token, p.from, e);
    }
  }

  /** The ids of a token that is no word of the vocabulary, piece by piece. */
  lemma IdsMatch(vocab: map<string, int>, unkId: int, token: string) returns (pieces: seq<Piece>)
    requires token !in vocab
    ensures Chained(token, 0, pieces) && |SubwordIds(vocab, unkId, token)| == |pieces|
    ensures forall j :: 0 <= j < |pieces| ==>
              Matches(vocab, unkId, token, pieces[j], SubwordIds(vocab, unkId, token)[j])
  {
    hide Key, Matches, Longest, PieceId;
    pieces := PiecesFrom(vocab, token, 0);
    PiecesAreSplit(vocab, token, 0);
    SplitChained(vocab, token, 0, pieces);
    IdEach(vocab, unkId, token, pieces);
    forall j | 0 <= j < |pieces|
      ensures Matches(vocab, unkId, token, pieces[j], SubwordIds(vocab, unkId, token)[j])
    {
      LongestMatches(vocab, unkId, token, pieces[j]);
    }
  }
}
