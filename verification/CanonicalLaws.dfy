// What the canonical profile is for: one text per value, and a digest preimage
// that determines domain and value.
module CanonicalLaws {
  import opened Collections
  import opened Text
  import opened Utf8
  import opened KeyOrder
  import opened JsonLex
  import opened JsonDoc
  import opened CanonicalJson

  // ----- reading what was rendered -----

  /** Every number leaf is a canonical integer. */
  predicate IntegersOnly(doc: Doc) {
    match doc
    case Leaf(t) => t.Num? ==> Integer(t.text)
    case Array(items) => ItemsIntegersOnly(items)
    case Object(members) => MembersIntegersOnly(members)
  }

  predicate ItemsIntegersOnly(items: Docs) {
    items.Item? ==> IntegersOnly(items.head) && ItemsIntegersOnly(items.tail)
  }

  predicate MembersIntegersOnly(members: Members) {
    members.Member? ==> IntegersOnly(members.value) && MembersIntegersOnly(members.rest)
  }

  lemma {:induction false} LexRender(doc: Doc, rest: string)
    requires WellFormed(doc) && IntegersOnly(doc) && Separable(rest)
    ensures Lex(Render(doc) + rest) == Flatten(doc) + Lex(rest)
    decreases doc
  {
    match doc {
      case Leaf(t) => LexLeaf(t, rest);
      case Array(items) =>
        LexRenderItems(items, rest, true);
        Regroup("[", RenderItems(items, true), rest);
        LexMark('[', LBracket, RenderItems(items, true) + rest);
        Regroup([LBracket], FlattenItems(items, true), Lex(rest));
      case Object(members) =>
        LexRenderMembers(members, rest, true);
        Regroup("{", RenderMembers(members, true), rest);
        LexMark('{', LBrace, RenderMembers(members, true) + rest);
        Regroup([LBrace], FlattenMembers(members, true), Lex(rest));
    }
  }

  lemma {:induction false} LexLeaf(t: Token, rest: string)
    requires LeafToken(t) && (t.Num? ==> Integer(t.text)) && Separable(rest)
    ensures Lex(Spell(t) + rest) == [t] + Lex(rest)
  {
    match t {
      case Null => LexWord("null", Null, rest);
      case True => LexWord("true", True, rest);
      case False => LexWord("false", False, rest);
      case Str(s) => LexString(s, rest);
      case Num(text) => LexInteger(text, rest);
    }
  }

  /** The comma in front of all but the first part. */
  lemma {:induction false} LexSeparator(first: bool, rest: string)
    ensures Lex(CommaText(first) + rest) == Separator(first) + Lex(rest)
  {
    if first {
      assert "" + rest == rest && [] + Lex(rest) == Lex(rest);
    } else {
      LexMark(',', Comma, rest);
    }
  }

  lemma {:induction false} LexRenderItems(items: Docs, rest: string, first: bool)
    requires ItemsWellFormed(items) && ItemsIntegersOnly(items) && Separable(rest)
    ensures Lex(RenderItems(items, first) + rest) == FlattenItems(items, first) + Lex(rest)
    decreases items
  {
    match items {
      case NoDocs => LexMark(']', RBracket, rest);
      case Item(head, tail) =>
        var following := RenderItems(tail, false) + rest;
        LexRenderItems(tail, rest, false);
        ItemsFollow(tail, rest);
        LexRender(head, following);
        LexSeparator(first, Render(head) + following);
        RenderItemsSplit(head, tail, first, rest);
        ItemsSplit(head, tail, first, Lex(rest));
    }
  }

  lemma {:induction false} RenderItemsSplit(head: Doc, tail: Docs, first: bool, rest: string)
    ensures RenderItems(Item(head, tail), first) + rest
         == CommaText(first) + (Render(head) + (RenderItems(tail, false) + rest))
  {
    var a, b, c := CommaText(first), Render(head), RenderItems(tail, false);
    Regroup(a + b, c, rest);
    Regroup(a, b, c + rest);
  }

  lemma {:induction false} ItemsFollow(tail: Docs, rest: string)
    ensures Separable(RenderItems(tail, false) + rest)
  {
    var text := RenderItems(tail, false) + rest;
    assert text[0] == if tail.NoDocs? then ']' else ',';
  }

  lemma {:induction false} LexRenderMembers(members: Members, rest: string, first: bool)
    requires MembersWellFormed(members) && MembersIntegersOnly(members) && Separable(rest)
    ensures Lex(RenderMembers(members, first) + rest) == FlattenMembers(members, first) + Lex(rest)
    decreases members
  {
    match members {
      case NoMembers => LexMark('}', RBrace, rest);
      case Member(key, value, others) =>
        var following := RenderMembers(others, false) + rest;
        LexRenderMembers(others, rest, false);
        MembersFollow(others, rest);
        LexRender(value, following);
        LexKey(key, Render(value) + following);
        LexSeparator(first, Quote(key) + (":" + (Render(value) + following)));
        RenderMembersSplit(key, value, others, first, rest);
        MembersSplit(key, value, others, first, Lex(rest));
    }
  }

  lemma {:induction false} LexKey(key: string, rest: string)
    ensures Lex(Quote(key) + (":" + rest)) == [Str(key), Colon] + Lex(rest)
  {
    LexString(key, ":" + rest);
    LexMark(':', Colon, rest);
    Regroup([Str(key)], [Colon], Lex(rest));
  }

  lemma {:induction false} RenderMembersSplit(key: string, value: Doc, others: Members, first: bool, rest: string)
    ensures RenderMembers(Member(key, value, others), first) + rest
         == CommaText(first) + (Quote(key) + (":" + (Render(value) + (RenderMembers(others, false) + rest))))
  {
    var a, b, c, d := CommaText(first), Quote(key), Render(value), RenderMembers(others, false);
    Regroup(a + b + ":" + c, d, rest);
    Regroup(a + b + ":", c, d + rest);
    Regroup(a + b, ":", c + (d + rest));
    Regroup(a, b, ":" + (c + (d + rest)));
  }

  lemma {:induction false} MembersFollow(others: Members, rest: string)
    ensures Separable(RenderMembers(others, false) + rest)
  {
    var text := RenderMembers(others, false) + rest;
    assert text[0] == if others.NoMembers? then '}' else ',';
  }

  // ----- the canonical document of a value -----

  lemma {:induction false} CanonicalDocOf(v: Json)
    requires InProfile(v)
    ensures var doc := CanonicalDoc(v);
      WellFormed(doc) && IntegersOnly(doc) && NoRepeats(doc) && ValueOf(doc) == v
    decreases v, 1
  {
    match v {
      case JArray(items) =>
        ItemDocsOf(v, 0);
        assert items[0..] == items;
      case JObject(members) =>
        MemberDocsOf(v, SortedKeys(members.Keys));
        assert MembersOf(MemberDocs(v, SortedKeys(members.Keys))) == members;
      case _ =>
    }
  }

  lemma {:induction false} ItemDocsOf(v: Json, i: nat)
    requires v.JArray? && InProfile(v) && i <= |v.items|
    ensures var items := ItemDocs(v, i);
      ItemsWellFormed(items) && ItemsIntegersOnly(items) && ItemsNoRepeats(items) && ItemsOf(items) == v.items[i..]
    decreases v, 0, |v.items| - i
  {
    if i < |v.items| {
      CanonicalDocOf(v.items[i]);
      ItemDocsOf(v, i + 1);
    }
  }

  /** One more member in front, with a key that the others lack. */
  lemma {:induction false} MemberDocsNext(key: string, value: Doc, rest: Members)
    requires MembersWellFormed(rest) && MembersIntegersOnly(rest) && MembersNoRepeats(rest) && key !in KeysOf(rest)
    requires WellFormed(value) && IntegersOnly(value) && NoRepeats(value) && MembersOf(rest).Keys == KeysOf(rest)
    ensures var ms := Member(key, value, rest);
      && MembersWellFormed(ms) && MembersIntegersOnly(ms) && MembersNoRepeats(ms) && KeysOf(ms) == {key} + KeysOf(rest)
      && MembersOf(ms) == MembersOf(rest)[key := ValueOf(value)]
  {
  }

  lemma {:induction false} MemberDocsOf(v: Json, keys: seq<string>)
    requires v.JObject? && InProfile(v) && Elements(keys) <= v.members.Keys && Ascending(keys)
    ensures var ms := MemberDocs(v, keys);
      && MembersWellFormed(ms) && MembersIntegersOnly(ms) && MembersNoRepeats(ms) && KeysOf(ms) == Elements(keys)
      && MembersOf(ms).Keys == Elements(keys)
      && (forall k :: k in Elements(keys) ==> MembersOf(ms)[k] == v.members[k])
    decreases v, 0, |keys|
  {
    if keys != [] {
      assert keys[0] in Elements(keys);
      TailElements(keys);
      CanonicalDocOf(v.members[keys[0]]);
      MemberDocsOf(v, keys[1..]);
      MemberDocsNext(keys[0], CanonicalDoc(v.members[keys[0]]), MemberDocs(v, keys[1..]));
    }
  }

  // ----- round trip, idempotence, injectivity -----

  /** Parsing the printed text of a profile value gives the value back. */
  lemma {:induction false} RoundTrip(v: Json)
    requires InProfile(v)
    ensures ParseText(Print(v)) == Some(v)
  {
    var doc := CanonicalDoc(v);
    CanonicalDocOf(v);
    LexRender(doc, "");
    assert Render(doc) + "" == Render(doc) && Flatten(doc) + [] == Flatten(doc);
    ReadIff(Lex(Print(v)), 0, None, doc, []);
  }

  lemma {:induction false} PrintInjective(v: Json, w: Json)
    requires InProfile(v) && InProfile(w) && Print(v) == Print(w)
    ensures v == w
  {
    RoundTrip(v);
    RoundTrip(w);
  }

  /** JSON is idempotent: its output is its own canonical form. */
  lemma {:induction false} CanonicalIdempotent(raw: seq<byte>)
    requires Canonical(raw).Some?
    ensures Canonical(Canonical(raw).value) == Canonical(raw)
  {
    var v := ParseText(Decode(raw).value).value;
    DecodeEncode(Print(v));
    RoundTrip(v);
  }

  /** Two texts have the same canonical bytes exactly when they have the same value. */
  lemma {:induction false} CanonicalIffSameValue(raw: seq<byte>, raw': seq<byte>)
    requires Canonical(raw).Some? && Canonical(raw').Some?
    ensures Canonical(raw) == Canonical(raw')
       <==> ParseText(Decode(raw).value) == ParseText(Decode(raw').value)
  {
    var v, w := ParseText(Decode(raw).value).value, ParseText(Decode(raw').value).value;
    if Canonical(raw) == Canonical(raw') {
      EncodeInjective(Print(v), Print(w));
      PrintInjective(v, w);
    }
  }

  // ----- which texts are accepted -----

  lemma {:induction false} ProfileOfDoc(doc: Doc)
    requires NoRepeats(doc)
    ensures InProfile(ValueOf(doc)) <==> IntegersOnly(doc)
    decreases doc
  {
    match doc {
      case Leaf(_) =>
      case Array(items) =>
        ProfileOfItems(items);
        var vs := ItemsOf(items);
        assert (forall v :: v in vs ==> InProfile(v)) <==> forall i :: 0 <= i < |vs| ==> InProfile(vs[i]);
      case Object(members) => ProfileOfMembers(members);
    }
  }

  lemma {:induction false} ProfileOfItems(items: Docs)
    requires ItemsNoRepeats(items)
    ensures (forall v :: v in ItemsOf(items) ==> InProfile(v)) <==> ItemsIntegersOnly(items)
    decreases items
  {
    if items.Item? {
      ProfileOfDoc(items.head);
      ProfileOfItems(items.tail);
      assert ValueOf(items.head) in ItemsOf(items);
    }
  }

  lemma {:induction false} ProfileOfMembers(members: Members)
    requires MembersNoRepeats(members)
    ensures MembersOf(members).Keys == KeysOf(members)
    ensures (forall k :: k in MembersOf(members) ==> InProfile(MembersOf(members)[k])) <==> MembersIntegersOnly(members)
    decreases members
  {
    if members.Member? {
      ProfileOfDoc(members.value);
      ProfileOfMembers(members.rest);
      var all, rest := MembersOf(members), MembersOf(members.rest);
      assert all[members.key] == ValueOf(members.value);
      assert forall k :: k in rest ==> k in all && all[k] == rest[k];
    }
  }

  /** The documents of the profile. */
  ghost predicate ProfileText(text: string) {
    exists doc :: Lex(text) == Flatten(doc) && WellFormed(doc) && NoRepeats(doc) && IntegersOnly(doc)
  }

  /** Exactly the UTF-8 texts of one duplicate-free document with canonical integers
      are accepted. */
  lemma {:induction false} AcceptedIff(raw: seq<byte>)
    ensures Canonical(raw).Some? <==> Decode(raw).Some? && ProfileText(Decode(raw).value)
  {
    if Decode(raw).Some? {
      var text := Decode(raw).value;
      var o := ReadDoc(Lex(text), 0, None);
      if o.Read? && o.rest == [] {
        ReadIff(Lex(text), 0, None, o.value, []);
        assert Lex(text) == Flatten(o.value);
        ProfileOfDoc(o.value);
      }
      if ProfileText(text) {
        var doc :| Lex(text) == Flatten(doc) && WellFormed(doc) && NoRepeats(doc) && IntegersOnly(doc);
        assert Flatten(doc) == Flatten(doc) + [];
        ReadIff(Lex(text), 0, None, doc, []);
        ProfileOfDoc(doc);
      }
    }
  }

  // ----- the digest preimage -----

  const PROFILE := "alpheus-c14n-v1"
  const NEWLINE: byte := 10

  predicate DomainCharacter(c: char) {
    'a' <= c <= 'z' || '0' <= c <= '9' || c == '.' || c == '_' || c == '-'
  }

  /** ^[a-z][a-z0-9._-]{0,127}$ */
  predicate ValidDomain(domain: string) {
    && 1 <= |domain| <= 128 && 'a' <= domain[0] <= 'z'
    && forall i :: 0 <= i < |domain| ==> DomainCharacter(domain[i])
  }

  /** The bytes DigestJSON hashes. */
  function Preimage(domain: string, canonical: seq<byte>): seq<byte> {
    Encode(PROFILE) + [NEWLINE] + (Encode(domain) + [NEWLINE] + canonical)
  }

  ghost function DigestPreimage(domain: string, raw: seq<byte>): Option<seq<byte>> {
    if ValidDomain(domain) && Canonical(raw).Some? then Some(Preimage(domain, Canonical(raw).value)) else None
  }

  lemma {:induction false} NoNewline(s: string)
    requires forall i :: 0 <= i < |s| ==> DomainCharacter(s[i])
    ensures NEWLINE !in Encode(s)
  {
    if s != "" {
      NoNewline(s[1..]);
    }
  }

  /** The preimage determines the domain and the value. */
  lemma {:induction false} PreimageInjective(domain: string, raw: seq<byte>, domain': string, raw': seq<byte>)
    requires DigestPreimage(domain, raw).Some? && DigestPreimage(domain', raw').Some?
    ensures DigestPreimage(domain, raw) == DigestPreimage(domain', raw')
       <==> domain == domain' && ParseText(Decode(raw).value) == ParseText(Decode(raw').value)
  {
    CanonicalIffSameValue(raw, raw');
    if DigestPreimage(domain, raw) == DigestPreimage(domain', raw') {
      PreimageSplits(domain, Canonical(raw).value, domain', Canonical(raw').value);
    }
  }

  lemma {:induction false} PreimageSplits(domain: string, c: seq<byte>, domain': string, c': seq<byte>)
    requires ValidDomain(domain) && ValidDomain(domain') && Preimage(domain, c) == Preimage(domain', c')
    ensures domain == domain' && c == c'
  {
    NoNewline(domain);
    NoNewline(domain');
    TwoSeparators(Encode(PROFILE), Encode(domain), c, Encode(domain'), c');
    EncodeInjective(domain, domain');
  }

  lemma {:induction false} TwoSeparators(p: seq<byte>, a: seq<byte>, b: seq<byte>, c: seq<byte>, d: seq<byte>)
    requires NEWLINE !in a && NEWLINE !in c
    requires p + [NEWLINE] + (a + [NEWLINE] + b) == p + [NEWLINE] + (c + [NEWLINE] + d)
    ensures a == c && b == d
  {
    var left, right := a + [NEWLINE] + b, c + [NEWLINE] + d;
    assert left == (p + [NEWLINE] + left)[|p| + 1..] && right == (p + [NEWLINE] + right)[|p| + 1..];
    SeparatedInjective(a, b, c, d, NEWLINE);
  }
}
