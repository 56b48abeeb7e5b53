// The token scan of the output contract
// (agent-platform/outputcontract/validate.go, inspectJSON and scanValue).
module OutputScan {
  import opened Collections
  import opened Utf8
  import opened JsonLex
  import opened JsonDoc
  import opened JsonDecoder

  const MAX_JSON_DEPTH := 64
  const LIMIT: Option<nat> := Some(MAX_JSON_DEPTH)

  datatype ScanResult = ScanOk | ScanFailed(reason: Reason)

  /** The two readings fail alike, or stop at the same place. */
  predicate Agree<T>(a: Outcome<T>, b: Outcome<T>) {
    match (a, b)
    case (Read(_, rest), Read(_, rest')) => rest == rest'
    case (Failed(reason), Failed(reason')) => reason == reason'
    case _ => false
  }

  /** Reads one value off the decoder: exactly its tokens, or the first reason why not. */
  method ScanValue(d: Decoder, containerDepth: nat) returns (result: ScanResult)
    requires ValuePlace(d.state)
    modifies d
    ensures match ReadDoc(Ready(old(d.state), old(d.rest)), containerDepth, LIMIT)
      case Failed(reason) => result == ScanFailed(reason)
      case Read(_, rest) =>
        result == ScanOk && d.Here() == Place(rest, ValueEnd(Inner(old(d.state))), old(d.stack))
    decreases |d.rest|, 0
  {
    ghost var ready := Ready(d.state, d.rest);
    var first := ReadFirst(d);
    if first.None? {
      return ScanFailed(Invalid);
    }
    if LeafToken(first.value) {
      return ScanOk;
    }
    if containerDepth + 1 > MAX_JSON_DEPTH {
      return ScanFailed(TooDeep);
    }
    DocOpens(ready, containerDepth);
    result := ScanOpened(d, first.value, containerDepth + 1);
  }

  /** What reading a container means behind its opening token. */
  function ReadOpened(open: Token, ts: seq<Token>, depth: nat): Outcome<Doc> {
    if open == LBracket then
      (match ReadItems(ts, depth, LIMIT, true)
       case Failed(reason) => Failed(reason)
       case Read(items, rest) => Read(Array(items), rest))
    else
      match ReadMembers(ts, depth, LIMIT, {}, true)
      case Failed(reason) => Failed(reason)
      case Read(members, rest) => Read(Object(members), rest)
  }

  lemma {:induction false} DocOpens(ts: seq<Token>, depth: nat)
    requires ts != [] && (ts[0] == LBracket || ts[0] == LBrace) && depth + 1 <= MAX_JSON_DEPTH
    ensures ReadDoc(ts, depth, LIMIT) == ReadOpened(ts[0], ts[1..], depth + 1)
  {
  }

  method ScanOpened(d: Decoder, open: Token, depth: nat) returns (result: ScanResult)
    requires open == LBracket || open == LBrace
    requires d.state == (if open == LBracket then ArrayStart else ObjectStart) && d.stack != []
    modifies d
    ensures match ReadOpened(open, old(d.rest), depth)
      case Failed(reason) => result == ScanFailed(reason)
      case Read(_, rest) =>
        result == ScanOk
        && d.Here() == Place(rest, ValueEnd(old(d.stack)[|old(d.stack)| - 1]), old(d.stack)[..|old(d.stack)| - 1])
    decreases |d.rest|, 2
  {
    if open == LBrace {
      result := ScanMembers(d, depth);
    } else {
      result := ScanItems(d, depth);
    }
  }

  /** Reads one member: its key, and what is behind its value. */
  function ReadMember(ts: seq<Token>, depth: nat, seen: set<string>, first: bool): Outcome<string> {
    var keyed := if first then ts else After(ts, Comma);
    if keyed == [] || !keyed[0].Str? then Failed(Invalid)
    else if keyed[0].value in seen then Failed(Duplicate)
    else
      match ReadDoc(After(keyed[1..], Colon), depth, LIMIT)
      case Failed(reason) => Failed(reason)
      case Read(_, rest) => Read(keyed[0].value, rest)
  }

  lemma {:induction false} MemberStep(ts: seq<Token>, depth: nat, seen: set<string>, first: bool)
    requires MoreIn(ts)
    ensures var all, one := ReadMembers(ts, depth, LIMIT, seen, first), ReadMember(ts, depth, seen, first);
      && (one.Failed? ==> all == Failed(one.reason))
      && (one.Read? ==> |one.rest| < |ts|
                        && Agree(all, ReadMembers(one.rest, depth, LIMIT, seen + {one.value}, false)))
  {
  }

  method ScanMember(d: Decoder, depth: nat, seen: set<string>, ghost first: bool)
      returns (key: string, result: ScanResult)
    requires d.state == (if first then ObjectStart else ObjectComma) && MoreIn(d.rest)
    modifies d
    ensures match ReadMember(old(d.rest), depth, seen, first)
      case Failed(reason) => result == ScanFailed(reason)
      case Read(read, rest) => result == ScanOk && key == read && d.Here() == Place(rest, ObjectComma, old(d.stack))
    decreases |d.rest|, 0
  {
    key := "";
    var read := ReadKey(d);
    if read.None? {
      return key, ScanFailed(Invalid);
    }
    key := read.value;
    if key in seen {
      return key, ScanFailed(Duplicate);
    }
    result := ScanValue(d, depth);
  }

  /** The object branch, behind its opening brace. */
  method ScanMembers(d: Decoder, depth: nat) returns (result: ScanResult)
    requires d.state == ObjectStart && d.stack != []
    modifies d
    ensures match ReadMembers(old(d.rest), depth, LIMIT, {}, true)
      case Failed(reason) => result == ScanFailed(reason)
      case Read(_, rest) =>
        result == ScanOk && d.Here() == Leave(Place([RBrace] + rest, ObjectComma, old(d.stack)))
    decreases |d.rest|, 1
  {
    ghost var all := ReadMembers(d.rest, depth, LIMIT, {}, true);
    var seen: set<string> := {};
    ghost var first := true;
    var more := d.More();
    while more
      invariant more <==> MoreIn(d.rest)
      invariant d.stack == old(d.stack) && d.state == (if first then ObjectStart else ObjectComma)
      invariant Agree(all, ReadMembers(d.rest, depth, LIMIT, seen, first)) && |d.rest| <= |old(d.rest)|
      decreases |d.rest|
    {
      MemberStep(d.rest, depth, seen, first);
      var key;
      key, result := ScanMember(d, depth, seen, first);
      if result != ScanOk {
        return;
      }
      seen := seen + {key};
      first := false;
      more := d.More();
    }
    var closed := ReadClose(d, RBrace);
    result := if closed then ScanOk else ScanFailed(Invalid);
  }

  /** The array branch, behind its opening bracket. */
  method ScanItems(d: Decoder, depth: nat) returns (result: ScanResult)
    requires d.state == ArrayStart && d.stack != []
    modifies d
    ensures match ReadItems(old(d.rest), depth, LIMIT, true)
      case Failed(reason) => result == ScanFailed(reason)
      case Read(_, rest) =>
        result == ScanOk && d.Here() == Leave(Place([RBracket] + rest, ArrayComma, old(d.stack)))
    decreases |d.rest|, 1
  {
    ghost var all := ReadItems(d.rest, depth, LIMIT, true);
    ghost var first := true;
    var more := d.More();
    while more
      invariant more <==> MoreIn(d.rest)
      invariant d.stack == old(d.stack) && d.state == (if first then ArrayStart else ArrayComma)
      invariant Agree(all, ReadItems(d.rest, depth, LIMIT, first)) && |d.rest| <= |old(d.rest)|
      decreases |d.rest|
    {
      result := ScanValue(d, depth);
      if result != ScanOk {
        return;
      }
      first := false;
      more := d.More();
    }
    var closed := ReadClose(d, RBracket);
    result := if closed then ScanOk else ScanFailed(Invalid);
  }

  datatype Inspection = Passed | NotUtf8 | Refused(reason: Reason)

  /** The documents the contract admits. */
  ghost predicate Admissible(text: string) {
    exists doc :: Lex(text) == Flatten(doc) && AdmissibleDoc(doc)
  }

  ghost predicate AdmissibleDoc(doc: Doc) {
    WellFormed(doc) && NoRepeats(doc) && Nesting(doc) <= 64
  }

  lemma {:induction false} EndOfText(rest: seq<Token>)
    ensures Next(Place(rest, Top, [])).0 == Eof <==> rest == []
  {
  }

  /** inspectJSON: passes exactly the UTF-8 texts that are one well-formed value
      without repeated keys and with at most 64 open containers. */
  method Inspect(raw: seq<byte>) returns (r: Inspection)
    ensures r == NotUtf8 <==> Decode(raw).None?
    ensures r == Passed <==> Decode(raw).Some? && Admissible(Decode(raw).value)
    ensures Decode(raw).Some? ==>
      r == match ReadDoc(Lex(Decode(raw).value), 0, Some(64))
           case Failed(reason) => Refused(reason)
           case Read(_, rest) => if rest == [] then Passed else Refused(Invalid)
  {
    var text := Decode(raw);
    if text.None? {
      return NotUtf8;
    }
    var tokens := Lex(text.value);
    var d := new Decoder(tokens);
    var result := ScanValue(d, 0);
    ghost var o := ReadDoc(tokens, 0, LIMIT);
    assert if o.Read? then result == ScanOk && d.Here() == Place(o.rest, Top, []) else result == ScanFailed(o.reason);
    AdmissibleIffRead(text.value);
    if result != ScanOk {
      return Refused(result.reason);
    }
    EndOfText(o.rest);
    var got := d.Token();
    r := if got == Eof then Passed else Refused(Invalid);
  }

  lemma {:induction false} AdmissibleIffRead(text: string)
    ensures var o := ReadDoc(Lex(text), 0, LIMIT); Admissible(text) <==> o.Read? && o.rest == []
  {
    var o := ReadDoc(Lex(text), 0, LIMIT);
    if o.Read? && o.rest == [] {
      ReadIff(Lex(text), 0, LIMIT, o.value, []);
      assert Lex(text) == Flatten(o.value);
    }
    if Admissible(text) {
      var doc :| Lex(text) == Flatten(doc) && AdmissibleDoc(doc);
      assert Flatten(doc) == Flatten(doc) + [];
      ReadIff(Lex(text), 0, LIMIT, doc, []);
    }
  }
}
