// Which texts the canonicalizer accepts and what it answers, from the spellings of the
// grammar alone (RFC 8259).
module CanonicalText {
  import opened Collections
  import opened Utf8
  import opened JsonLex
  import opened JsonDoc
  import opened JsonSpelling
  import opened CanonicalJson
  import opened CanonicalLaws

  predicate Closer(t: Token) {
    t == Comma || t == RBracket || t == RBrace
  }

  /** A number is last, or a comma or closing bracket comes next. */
  ghost predicate NumbersApart(ts: seq<Token>) {
    forall i {:trigger ts[i]} :: 0 <= i < |ts| - 1 && ts[i].Num? ==> Closer(ts[i + 1])
  }

  lemma {:induction false} ApartCons(t: Token, ts: seq<Token>)
    requires NumbersApart(ts) && (t.Num? && ts != [] ==> Closer(ts[0]))
    ensures NumbersApart([t] + ts)
  {
    var all := [t] + ts;
    forall i {:trigger all[i]} | 0 <= i < |all| - 1 && all[i].Num?
      ensures Closer(all[i + 1])
    {
      assert all[i + 1] == ts[i];
      if i > 0 {
        assert all[i] == ts[i - 1] && ts[i - 1 + 1] == ts[i];
      }
    }
  }

  lemma {:induction false} DocApart(doc: Doc, rest: seq<Token>)
    requires NumbersApart(rest) && (rest != [] ==> Closer(rest[0]))
    ensures NumbersApart(Flatten(doc) + rest)
    decreases doc, 1
  {
    match doc {
      case Leaf(t) => ApartCons(t, rest);
      case Array(items) =>
        ItemsApart(items, true, rest);
        ApartCons(LBracket, FlattenItems(items, true) + rest);
        assert Flatten(doc) + rest == [LBracket] + (FlattenItems(items, true) + rest);
      case Object(members) =>
        MembersApart(members, true, rest);
        ApartCons(LBrace, FlattenMembers(members, true) + rest);
        assert Flatten(doc) + rest == [LBrace] + (FlattenMembers(members, true) + rest);
    }
  }

  lemma {:induction false} ItemsApart(items: Docs, first: bool, rest: seq<Token>)
    requires NumbersApart(rest)
    ensures NumbersApart(FlattenItems(items, first) + rest)
    ensures !first || items.NoDocs? ==> Closer((FlattenItems(items, first) + rest)[0])
    decreases items, 0
  {
    match items {
      case NoDocs => ApartCons(RBracket, rest);
      case Item(head, tail) =>
        ItemsApart(tail, false, rest);
        var after := FlattenItems(tail, false) + rest;
        DocApart(head, after);
        if !first {
          ApartCons(Comma, Flatten(head) + after);
        }
        assert FlattenItems(items, first) + rest == Separator(first) + (Flatten(head) + after);
    }
  }

  lemma {:induction false} MembersApart(members: Members, first: bool, rest: seq<Token>)
    requires NumbersApart(rest)
    ensures NumbersApart(FlattenMembers(members, first) + rest)
    ensures !first || members.NoMembers? ==> Closer((FlattenMembers(members, first) + rest)[0])
    decreases members, 0
  {
    match members {
      case NoMembers => ApartCons(RBrace, rest);
      case Member(key, value, tail) =>
        MembersApart(tail, false, rest);
        var after := FlattenMembers(tail, false) + rest;
        DocApart(value, after);
        ApartCons(Colon, Flatten(value) + after);
        ApartCons(Str(key), [Colon] + (Flatten(value) + after));
        var keyed := [Str(key)] + ([Colon] + (Flatten(value) + after));
        if !first {
          ApartCons(Comma, keyed);
        }
        MemberSplits(key, value, tail, first, rest);
    }
  }

  lemma {:induction false} MemberSplits(key: string, value: Doc, tail: Members, first: bool, rest: seq<Token>)
    ensures FlattenMembers(Member(key, value, tail), first) + rest
         == Separator(first) + ([Str(key)] + ([Colon] + (Flatten(value) + (FlattenMembers(tail, false) + rest))))
  {
    hide Flatten, Separator;
    var lead, text, after := Separator(first), Flatten(value), FlattenMembers(tail, false);
    assert FlattenMembers(Member(key, value, tail), first) == lead + [Str(key), Colon] + text + after;
    Glue(lead, Str(key), Colon, text, after, rest);
  }

  lemma {:induction false} Glue<T>(lead: seq<T>, a: T, b: T, text: seq<T>, after: seq<T>, rest: seq<T>)
    ensures lead + [a, b] + text + after + rest == lead + ([a] + ([b] + (text + (after + rest))))
  {
  }

  lemma {:induction false} PiecesApart(pieces: seq<Piece>, tail: string)
    requires Spelled(pieces, tail) && NumbersApart(TokensOf(pieces))
    ensures Apart(pieces, tail)
  {
    forall i {:trigger pieces[i]} | 0 <= i < |pieces| && pieces[i].token.Num?
      ensures EndsNumber(TextOf(pieces[i + 1..], tail))
    {
      var rest := pieces[i + 1..];
      assert TokensOf(pieces)[i].Num?;
      if rest != [] {
        assert rest[0] == pieces[i + 1] && Closer(TokensOf(pieces)[i + 1]);
        CloserEnds(rest[0].space, rest[0].token, rest[0].text, TextOf(rest[1..], tail));
      }
    }
  }

  lemma {:induction false} CloserEnds(space: string, token: Token, text: string, rest: string)
    requires Blank(space) && Closer(token) && TokenText(token, text)
    ensures EndsNumber(space + (text + rest))
  {
    var all := space + (text + rest);
    assert all[0] == if space == "" then text[0] else space[0];
  }

  /** A duplicate-free document whose numbers are canonical integers. */
  ghost predicate ProfileDoc(doc: Doc) {
    WellFormed(doc) && NoRepeats(doc) && IntegersOnly(doc)
  }

  /** However the tokens of such a document are spelled and spaced, the answer is the
      canonical text of its value. */
  lemma {:induction false} SpellingsCanonicalize(pieces: seq<Piece>, tail: string, doc: Doc)
    requires Spelled(pieces, tail) && TokensOf(pieces) == Flatten(doc) && ProfileDoc(doc)
    ensures Canonical(Encode(TextOf(pieces, tail))) == Some(Encode(Print(ValueOf(doc))))
  {
    var text := TextOf(pieces, tail);
    DocApart(doc, []);
    assert Flatten(doc) + [] == Flatten(doc);
    PiecesApart(pieces, tail);
    TextReads(pieces, tail);
    DecodeEncode(text);
    ReadIff(Lex(text), 0, None, doc, []);
    ProfileOfDoc(doc);
  }

  /** And nothing else has an answer. */
  lemma {:induction false} AcceptedIsSpelled(raw: seq<byte>) returns (pieces: seq<Piece>, tail: string, doc: Doc)
    requires Canonical(raw).Some?
    ensures raw == Encode(TextOf(pieces, tail)) && Spelled(pieces, tail)
    ensures TokensOf(pieces) == Flatten(doc) && ProfileDoc(doc)
  {
    AcceptedIff(raw);
    var text := Decode(raw).value;
    doc :| Lex(text) == Flatten(doc) && WellFormed(doc) && NoRepeats(doc) && IntegersOnly(doc);
    NoBad(doc);
    pieces, tail := TextIs(text);
    EncodeDecode(raw);
  }

  lemma {:induction false} NoBad(doc: Doc)
    requires WellFormed(doc)
    ensures Bad !in Flatten(doc)
    decreases doc, 1
  {
    match doc {
      case Leaf(_) =>
      case Array(items) => NoBadItems(items, true);
      case Object(members) => NoBadMembers(members, true);
    }
  }

  lemma {:induction false} NoBadItems(items: Docs, first: bool)
    requires ItemsWellFormed(items)
    ensures Bad !in FlattenItems(items, first)
    decreases items, 0
  {
    if items.Item? {
      NoBad(items.head);
      NoBadItems(items.tail, false);
    }
  }

  lemma {:induction false} NoBadMembers(members: Members, first: bool)
    requires MembersWellFormed(members)
    ensures Bad !in FlattenMembers(members, first)
    decreases members, 0
  {
    if members.Member? {
      NoBad(members.value);
      NoBadMembers(members.rest, false);
    }
  }
}
