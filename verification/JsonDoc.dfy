// Documents and the one-pass reader both JSON consumers share: it stops at the
// first malformed, repeated or too deeply nested part (RFC 8259, sections 2 to 5).
module JsonDoc {
  import opened Collections
  import opened JsonLex

  /** A value with its members in the order they are written. */
  datatype Doc = Leaf(token: Token) | Array(items: Docs) | Object(members: Members)
  datatype Docs = NoDocs | Item(head: Doc, tail: Docs)
  datatype Members = NoMembers | Member(key: string, value: Doc, rest: Members)

  predicate LeafToken(t: Token) {
    t.Null? || t.True? || t.False? || t.Str? || t.Num?
  }

  predicate WellFormed(doc: Doc) {
    match doc
    case Leaf(t) => LeafToken(t)
    case Array(items) => ItemsWellFormed(items)
    case Object(members) => MembersWellFormed(members)
  }

  predicate ItemsWellFormed(items: Docs) {
    items.Item? ==> WellFormed(items.head) && ItemsWellFormed(items.tail)
  }

  predicate MembersWellFormed(members: Members) {
    members.Member? ==> WellFormed(members.value) && MembersWellFormed(members.rest)
  }

  // ----- the tokens of a document -----

  function Flatten(doc: Doc): seq<Token> {
    match doc
    case Leaf(t) => [t]
    case Array(items) => [LBracket] + FlattenItems(items, true)
    case Object(members) => [LBrace] + FlattenMembers(members, true)
  }

  /** The rest of an array, with its closing bracket. */
  function FlattenItems(items: Docs, first: bool): seq<Token> {
    match items
    case NoDocs => [RBracket]
    case Item(head, tail) => Separator(first) + Flatten(head) + FlattenItems(tail, false)
  }

  function FlattenMembers(members: Members, first: bool): seq<Token> {
    match members
    case NoMembers => [RBrace]
    case Member(key, value, rest) =>
      Separator(first) + [Str(key), Colon] + Flatten(value) + FlattenMembers(rest, false)
  }

  function Separator(first: bool): seq<Token> {
    if first then [] else [Comma]
  }

  // ----- the two side conditions -----

  function KeysOf(members: Members): set<string> {
    match members
    case NoMembers => {}
    case Member(key, _, rest) => {key} + KeysOf(rest)
  }

  /** No object of the document names a key twice. */
  predicate NoRepeats(doc: Doc) {
    match doc
    case Leaf(_) => true
    case Array(items) => ItemsNoRepeats(items)
    case Object(members) => MembersNoRepeats(members)
  }

  predicate ItemsNoRepeats(items: Docs) {
    items.Item? ==> NoRepeats(items.head) && ItemsNoRepeats(items.tail)
  }

  predicate MembersNoRepeats(members: Members) {
    members.Member? ==>
      members.key !in KeysOf(members.rest) && NoRepeats(members.value) && MembersNoRepeats(members.rest)
  }

  function Max(a: nat, b: nat): nat {
    if a < b then b else a
  }

  /** How many containers are open at the deepest place. */
  function Nesting(doc: Doc): nat {
    match doc
    case Leaf(_) => 0
    case Array(items) => 1 + ItemsNesting(items)
    case Object(members) => 1 + MembersNesting(members)
  }

  function ItemsNesting(items: Docs): nat {
    if items.NoDocs? then 0 else Max(Nesting(items.head), ItemsNesting(items.tail))
  }

  function MembersNesting(members: Members): nat {
    if members.NoMembers? then 0 else Max(Nesting(members.value), MembersNesting(members.rest))
  }

  // ----- the reader -----

  datatype Reason = Invalid | Duplicate | TooDeep
  datatype Outcome<T> = Read(value: T, rest: seq<Token>) | Failed(reason: Reason)

  predicate Exceeds(depth: nat, limit: Option<nat>) {
    limit.Some? && depth > limit.value
  }

  /** More, of the decoder: neither the end nor a closing bracket comes next. */
  predicate MoreIn(ts: seq<Token>) {
    ts != [] && ts[0] != RBracket && ts[0] != RBrace
  }

  /** ts without the separator that must come first, or an unreadable sequence. */
  function After(ts: seq<Token>, separator: Token): (r: seq<Token>)
    ensures |r| <= Max(1, |ts|)
    ensures ts != [] ==> |r| <= |ts|
    ensures r != [Bad] ==> |r| < |ts|
  {
    if ts != [] && ts[0] == separator then ts[1..] else [Bad]
  }

  function ReadDoc(ts: seq<Token>, depth: nat, limit: Option<nat>): (o: Outcome<Doc>)
    ensures o.Read? ==> |o.rest| < |ts|
    decreases |ts|, 0
  {
    if ts == [] then Failed(Invalid)
    else if LeafToken(ts[0]) then Read(Leaf(ts[0]), ts[1..])
    else if ts[0] != LBracket && ts[0] != LBrace then Failed(Invalid)
    else if Exceeds(depth + 1, limit) then Failed(TooDeep)
    else if ts[0] == LBracket then
      (match ReadItems(ts[1..], depth + 1, limit, true)
       case Failed(reason) => Failed(reason)
       case Read(items, rest) => Read(Array(items), rest))
    else
      (match ReadMembers(ts[1..], depth + 1, limit, {}, true)
       case Failed(reason) => Failed(reason)
       case Read(members, rest) => Read(Object(members), rest))
  }

  function ReadItems(ts: seq<Token>, depth: nat, limit: Option<nat>, first: bool): (o: Outcome<Docs>)
    ensures o.Read? ==> |o.rest| < |ts|
    decreases |ts|, 1
  {
    if !MoreIn(ts) then
      if ts != [] && ts[0] == RBracket then Read(NoDocs, ts[1..]) else Failed(Invalid)
    else
      match ReadDoc(if first then ts else After(ts, Comma), depth, limit)
      case Failed(reason) => Failed(reason)
      case Read(head, rest) =>
        match ReadItems(rest, depth, limit, false)
        case Failed(reason) => Failed(reason)
        case Read(tail, end) => Read(Item(head, tail), end)
  }

  function ReadMembers(ts: seq<Token>, depth: nat, limit: Option<nat>, seen: set<string>, first: bool)
      : (o: Outcome<Members>)
    ensures o.Read? ==> |o.rest| < |ts|
    decreases |ts|, 1
  {
    if !MoreIn(ts) then
      if ts != [] && ts[0] == RBrace then Read(NoMembers, ts[1..]) else Failed(Invalid)
    else
      var keyed := if first then ts else After(ts, Comma);
      if keyed == [] || !keyed[0].Str? then Failed(Invalid)
      else if keyed[0].value in seen then Failed(Duplicate)
      else
        match ReadDoc(After(keyed[1..], Colon), depth, limit)
        case Failed(reason) => Failed(reason)
        case Read(value, rest) =>
          match ReadMembers(rest, depth, limit, seen + {keyed[0].value}, false)
          case Failed(reason) => Failed(reason)
          case Read(members, end) => Read(Member(keyed[0].value, value, members), end)
  }

  // ----- the reader accepts exactly the grammar -----

  /** The document is one the reader takes at this depth. */
  predicate Takes(doc: Doc, depth: nat, limit: Option<nat>) {
    WellFormed(doc) && NoRepeats(doc) && (Nesting(doc) == 0 || !Exceeds(depth + Nesting(doc), limit))
  }

  predicate TakesItems(items: Docs, depth: nat, limit: Option<nat>) {
    ItemsWellFormed(items) && ItemsNoRepeats(items)
    && (ItemsNesting(items) == 0 || !Exceeds(depth + ItemsNesting(items), limit))
  }

  predicate TakesMembers(members: Members, depth: nat, limit: Option<nat>, seen: set<string>) {
    MembersWellFormed(members) && MembersNoRepeats(members) && KeysOf(members) !! seen
    && (MembersNesting(members) == 0 || !Exceeds(depth + MembersNesting(members), limit))
  }

  lemma {:induction false} TakesItem(head: Doc, tail: Docs, depth: nat, limit: Option<nat>)
    ensures TakesItems(Item(head, tail), depth, limit) <==> Takes(head, depth, limit) && TakesItems(tail, depth, limit)
  {
  }

  lemma {:induction false} TakesMember(key: string, value: Doc, rest: Members, depth: nat, limit: Option<nat>,
                                       seen: set<string>)
    ensures TakesMembers(Member(key, value, rest), depth, limit, seen)
       <==> key !in seen && Takes(value, depth, limit) && TakesMembers(rest, depth, limit, seen + {key})
  {
  }

  lemma {:induction false} ItemsSplit(head: Doc, tail: Docs, first: bool, rest: seq<Token>)
    ensures FlattenItems(Item(head, tail), first) + rest
         == Separator(first) + (Flatten(head) + (FlattenItems(tail, false) + rest))
  {
    var a, b, c := Separator(first), Flatten(head), FlattenItems(tail, false);
    Regroup(a + b, c, rest);
    Regroup(a, b, c + rest);
  }

  lemma {:induction false} MembersSplit(key: string, value: Doc, others: Members, first: bool, rest: seq<Token>)
    ensures FlattenMembers(Member(key, value, others), first) + rest
         == Separator(first) + ([Str(key), Colon] + (Flatten(value) + (FlattenMembers(others, false) + rest)))
  {
    var a, b, c, d := Separator(first), [Str(key), Colon], Flatten(value), FlattenMembers(others, false);
    Regroup(a + b + c, d, rest);
    Regroup(a + b, c, d + rest);
    Regroup(a, b, c + (d + rest));
  }

  lemma {:induction false} ReadDocSound(ts: seq<Token>, depth: nat, limit: Option<nat>)
    ensures var o := ReadDoc(ts, depth, limit);
      o.Read? ==> ts == Flatten(o.value) + o.rest && Takes(o.value, depth, limit)
    decreases |ts|, 0
  {
    var o := ReadDoc(ts, depth, limit);
    if o.Read? {
      assert ts == [ts[0]] + ts[1..];
      if ts[0] == LBracket {
        ReadItemsSound(ts[1..], depth + 1, limit, true);
        Regroup([LBracket], FlattenItems(o.value.items, true), o.rest);
      } else if ts[0] == LBrace {
        ReadMembersSound(ts[1..], depth + 1, limit, {}, true);
        Regroup([LBrace], FlattenMembers(o.value.members, true), o.rest);
      }
    }
  }

  lemma {:induction false} ReadItemsSound(ts: seq<Token>, depth: nat, limit: Option<nat>, first: bool)
    ensures var o := ReadItems(ts, depth, limit, first);
      o.Read? ==> ts == FlattenItems(o.value, first) + o.rest && TakesItems(o.value, depth, limit)
    decreases |ts|, 1
  {
    var o := ReadItems(ts, depth, limit, first);
    if o.Read? && MoreIn(ts) {
      var lead := if first then ts else After(ts, Comma);
      ReadDocSound(lead, depth, limit);
      ReadItemsSound(ReadDoc(lead, depth, limit).rest, depth, limit, false);
      TakesItem(o.value.head, o.value.tail, depth, limit);
      ItemsSplit(o.value.head, o.value.tail, first, o.rest);
      assert ts == Separator(first) + lead;
    }
  }

  lemma {:induction false} ReadMembersSound(ts: seq<Token>, depth: nat, limit: Option<nat>, seen: set<string>,
                                            first: bool)
    ensures var o := ReadMembers(ts, depth, limit, seen, first);
      o.Read? ==> ts == FlattenMembers(o.value, first) + o.rest && TakesMembers(o.value, depth, limit, seen)
    decreases |ts|, 1
  {
    var o := ReadMembers(ts, depth, limit, seen, first);
    if o.Read? && MoreIn(ts) {
      var keyed := if first then ts else After(ts, Comma);
      var key, lead := keyed[0].value, After(keyed[1..], Colon);
      ReadDocSound(lead, depth, limit);
      ReadMembersSound(ReadDoc(lead, depth, limit).rest, depth, limit, seen + {key}, false);
      TakesMember(key, o.value.value, o.value.rest, depth, limit, seen);
      MembersSplit(key, o.value.value, o.value.rest, first, o.rest);
      KeyedSplit(ts, first, key, lead);
    }
  }

  /** The tokens in front of the value of a member. */
  lemma {:induction false} KeyedSplit(ts: seq<Token>, first: bool, key: string, lead: seq<Token>)
    requires MoreIn(ts) && lead != [Bad]
    requires var keyed := if first then ts else After(ts, Comma);
      keyed != [] && keyed[0] == Str(key) && lead == After(keyed[1..], Colon)
    ensures ts == Separator(first) + ([Str(key), Colon] + lead)
  {
    var keyed := if first then ts else After(ts, Comma);
    assert keyed[1..] == [Colon] + lead && keyed == [Str(key), Colon] + lead;
    assert ts == Separator(first) + keyed;
  }

  lemma {:induction false} ReadDocComplete(doc: Doc, rest: seq<Token>, depth: nat, limit: Option<nat>)
    requires Takes(doc, depth, limit)
    ensures ReadDoc(Flatten(doc) + rest, depth, limit) == Read(doc, rest)
    decreases doc
  {
    var ts := Flatten(doc) + rest;
    match doc {
      case Leaf(t) => assert ts[1..] == rest;
      case Array(items) =>
        ReadItemsComplete(items, rest, depth + 1, limit, true);
        Regroup([LBracket], FlattenItems(items, true), rest);
        ReadArrayStep(FlattenItems(items, true) + rest, items, rest, depth, limit);
      case Object(members) =>
        ReadMembersComplete(members, rest, depth + 1, limit, {}, true);
        Regroup([LBrace], FlattenMembers(members, true), rest);
        ReadObjectStep(FlattenMembers(members, true) + rest, members, rest, depth, limit);
    }
  }

  lemma {:induction false} ReadArrayStep(tail: seq<Token>, items: Docs, rest: seq<Token>, depth: nat,
                                         limit: Option<nat>)
    requires !Exceeds(depth + 1, limit) && ReadItems(tail, depth + 1, limit, true) == Read(items, rest)
    ensures ReadDoc([LBracket] + tail, depth, limit) == Read(Array(items), rest)
  {
    assert ([LBracket] + tail)[1..] == tail;
  }

  lemma {:induction false} ReadObjectStep(tail: seq<Token>, members: Members, rest: seq<Token>, depth: nat,
                                          limit: Option<nat>)
    requires !Exceeds(depth + 1, limit) && ReadMembers(tail, depth + 1, limit, {}, true) == Read(members, rest)
    ensures ReadDoc([LBrace] + tail, depth, limit) == Read(Object(members), rest)
  {
    assert ([LBrace] + tail)[1..] == tail;
  }

  lemma {:induction false} ReadItemsComplete(items: Docs, rest: seq<Token>, depth: nat, limit: Option<nat>, first: bool)
    requires TakesItems(items, depth, limit)
    ensures ReadItems(FlattenItems(items, first) + rest, depth, limit, first) == Read(items, rest)
    decreases items
  {
    var ts := FlattenItems(items, first) + rest;
    match items {
      case NoDocs => assert ts[1..] == rest;
      case Item(head, tail) =>
        var following := FlattenItems(tail, false) + rest;
        TakesItem(head, tail, depth, limit);
        ReadDocComplete(head, following, depth, limit);
        ReadItemsComplete(tail, rest, depth, limit, false);
        FlattenStarts(head);
        ItemsSplit(head, tail, first, rest);
        ReadItemStep(ts, first, Flatten(head) + following, head, following, depth, limit);
    }
  }

  /** Reading one item and going on. */
  lemma {:induction false} ReadItemStep(ts: seq<Token>, first: bool, lead: seq<Token>, head: Doc, following: seq<Token>,
                     depth: nat, limit: Option<nat>)
    requires ts == Separator(first) + lead && MoreIn(lead) && ReadDoc(lead, depth, limit) == Read(head, following)
    ensures var o := ReadItems(following, depth, limit, false);
      ReadItems(ts, depth, limit, first) == if o.Failed? then o else Read(Item(head, o.value), o.rest)
  {
    assert first ==> ts == lead;
    assert !first ==> ts[1..] == lead;
  }

  lemma {:induction false} ReadMembersComplete(members: Members, rest: seq<Token>, depth: nat, limit: Option<nat>,
                                               seen: set<string>, first: bool)
    requires TakesMembers(members, depth, limit, seen)
    ensures ReadMembers(FlattenMembers(members, first) + rest, depth, limit, seen, first) == Read(members, rest)
    decreases members
  {
    var ts := FlattenMembers(members, first) + rest;
    match members {
      case NoMembers => assert ts[1..] == rest;
      case Member(key, value, others) =>
        var following := FlattenMembers(others, false) + rest;
        TakesMember(key, value, others, depth, limit, seen);
        ReadDocComplete(value, following, depth, limit);
        ReadMembersComplete(others, rest, depth, limit, seen + {key}, false);
        MembersSplit(key, value, others, first, rest);
        ReadMemberStep(ts, first, key, Flatten(value) + following, value, following, depth, limit, seen);
    }
  }

  /** Reading one member and going on. */
  lemma {:induction false} ReadMemberStep(ts: seq<Token>, first: bool, key: string, lead: seq<Token>, value: Doc,
                                          following: seq<Token>, depth: nat, limit: Option<nat>, seen: set<string>)
    requires ts == Separator(first) + ([Str(key), Colon] + lead) && key !in seen
    requires ReadDoc(lead, depth, limit) == Read(value, following)
    ensures var o := ReadMembers(following, depth, limit, seen + {key}, false);
      ReadMembers(ts, depth, limit, seen, first) == if o.Failed? then o else Read(Member(key, value, o.value), o.rest)
  {
    var keyed := [Str(key), Colon] + lead;
    assert keyed[1..] == [Colon] + lead && keyed[1..][1..] == lead;
    assert first ==> ts == keyed;
    assert !first ==> ts[1..] == keyed;
  }

  lemma {:induction false} FlattenStarts(doc: Doc)
    requires WellFormed(doc)
    ensures Flatten(doc) != [] && Flatten(doc)[0] != RBracket && Flatten(doc)[0] != RBrace
  {
  }

  /** The reader returns a document exactly when the tokens start with it, no object
      repeats a key and the nesting is allowed; it consumes exactly its tokens. */
  lemma {:induction false} ReadIff(ts: seq<Token>, depth: nat, limit: Option<nat>, doc: Doc, rest: seq<Token>)
    ensures ReadDoc(ts, depth, limit) == Read(doc, rest)
       <==> ts == Flatten(doc) + rest && Takes(doc, depth, limit)
  {
    ReadDocSound(ts, depth, limit);
    if ts == Flatten(doc) + rest && Takes(doc, depth, limit) {
      ReadDocComplete(doc, rest, depth, limit);
    }
  }
}
