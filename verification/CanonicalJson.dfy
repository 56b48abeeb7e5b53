// The canonical JSON profile (agent-platform/canonical/canonical.go).
module CanonicalJson {
  import opened Collections
  import opened Utf8
  import opened JsonLex
  import opened JsonDoc
  import opened JsonDecoder
  import opened KeyOrder

  /** A parsed value; a number keeps its text, as json.Number does. */
  datatype Json =
    | JNull | JBool(b: bool) | JNumber(text: string) | JString(s: string)
    | JArray(items: seq<Json>) | JObject(members: map<string, Json>)

  // ----- values and documents -----

  function ValueOf(doc: Doc): Json {
    match doc
    case Leaf(Null) => JNull
    case Leaf(True) => JBool(true)
    case Leaf(False) => JBool(false)
    case Leaf(Str(s)) => JString(s)
    case Leaf(Num(t)) => JNumber(t)
    case Leaf(_) => JNull
    case Array(items) => JArray(ItemsOf(items))
    case Object(members) => JObject(MembersOf(members))
  }

  function ItemsOf(items: Docs): seq<Json> {
    match items
    case NoDocs => []
    case Item(head, tail) => [ValueOf(head)] + ItemsOf(tail)
  }

  function MembersOf(members: Members): map<string, Json> {
    match members
    case NoMembers => map[]
    case Member(key, value, rest) => map[key := ValueOf(value)] + MembersOf(rest)
  }

  /** The document the printer writes: members in ascending key order. */
  ghost function CanonicalDoc(v: Json): Doc
    decreases v, 1
  {
    match v
    case JNull => Leaf(Null)
    case JBool(b) => Leaf(if b then True else False)
    case JNumber(t) => Leaf(Num(t))
    case JString(s) => Leaf(Str(s))
    case JArray(items) => Array(ItemDocs(v, 0))
    case JObject(members) => Object(MemberDocs(v, SortedKeys(members.Keys)))
  }

  ghost function ItemDocs(v: Json, i: nat): Docs
    requires v.JArray? && i <= |v.items|
    decreases v, 0, |v.items| - i
  {
    if i == |v.items| then NoDocs else Item(CanonicalDoc(v.items[i]), ItemDocs(v, i + 1))
  }

  ghost function MemberDocs(v: Json, keys: seq<string>): Members
    requires v.JObject? && Elements(keys) <= v.members.Keys
    decreases v, 0, |keys|
  {
    if keys == [] then NoMembers
    else
      assert keys[0] in Elements(keys);
      Member(keys[0], CanonicalDoc(v.members[keys[0]]), MemberDocs(v, keys[1..]))
  }

  /** Every number is a base-10 integer in its only spelling. */
  predicate InProfile(v: Json) {
    match v
    case JNumber(t) => Integer(t)
    case JArray(items) => forall i :: 0 <= i < |items| ==> InProfile(items[i])
    case JObject(members) => forall k :: k in members ==> InProfile(members[k])
    case _ => true
  }

  // ----- the printed text -----

  function Spell(t: Token): string {
    match t
    case Null => "null"
    case True => "true"
    case False => "false"
    case Str(s) => Quote(s)
    case Num(text) => text
    case _ => ""
  }

  function Render(doc: Doc): string {
    match doc
    case Leaf(t) => Spell(t)
    case Array(items) => "[" + RenderItems(items, true)
    case Object(members) => "{" + RenderMembers(members, true)
  }

  function RenderItems(items: Docs, first: bool): string {
    match items
    case NoDocs => "]"
    case Item(head, tail) => CommaText(first) + Render(head) + RenderItems(tail, false)
  }

  function RenderMembers(members: Members, first: bool): string {
    match members
    case NoMembers => "}"
    case Member(key, value, rest) => CommaText(first) + Quote(key) + ":" + Render(value) + RenderMembers(rest, false)
  }

  function CommaText(first: bool): string {
    if first then "" else ","
  }

  /** The canonical text of a value. */
  ghost function Print(v: Json): string {
    Render(CanonicalDoc(v))
  }

  // ----- the parser -----

  ghost function ParseText(text: string): Option<Json> {
    match ReadDoc(Lex(text), 0, None)
    case Read(doc, rest) => if rest == [] then Some(ValueOf(doc)) else None
    case Failed(_) => None
  }

  /** parseValue: one value off the decoder. */
  method ParseValue(d: Decoder, ghost depth: nat) returns (r: Option<Json>)
    requires ValuePlace(d.state)
    modifies d
    ensures match ReadDoc(Ready(old(d.state), old(d.rest)), depth, None)
      case Failed(_) => r == None
      case Read(doc, rest) =>
        r == Some(ValueOf(doc)) && d.Here() == Place(rest, ValueEnd(Inner(old(d.state))), old(d.stack))
    decreases |d.rest|, 0
  {
    var first := ReadFirst(d);
    if first.None? {
      return None;
    }
    match first.value {
      case Null => r := Some(JNull);
      case True => r := Some(JBool(true));
      case False => r := Some(JBool(false));
      case Str(s) => r := Some(JString(s));
      case Num(t) => r := Some(JNumber(t));
      case LBrace =>
        ghost var all := ReadMembers(d.rest, depth + 1, None, {}, true);
        var built := ParseMembers(d, depth + 1);
        r := if built.Some? then Some(JObject(built.value)) else None;
        if all.Read? {
          LeaveEntered(all.rest, RBrace, ObjectComma, old(d.stack), Inner(old(d.state)));
        }
      case LBracket =>
        ghost var all := ReadItems(d.rest, depth + 1, None, true);
        var built := ParseItems(d, depth + 1);
        r := if built.Some? then Some(JArray(built.value)) else None;
        if all.Read? {
          LeaveEntered(all.rest, RBracket, ArrayComma, old(d.stack), Inner(old(d.state)));
        }
      case _ => r := None;
    }
  }

  /** What is left to read continues the object read so far. */
  ghost predicate ObjectSoFar(all: Outcome<Members>, left: Outcome<Members>, built: map<string, Json>) {
    if all.Failed? then left.Failed?
    else left.Read? && all.rest == left.rest && MembersOf(all.value) == built + MembersOf(left.value)
  }

  lemma {:induction false} MemberRead(all: Outcome<Members>, ts: seq<Token>, depth: nat, built: map<string, Json>,
                                      first: bool)
    requires ObjectSoFar(all, ReadMembers(ts, depth, None, built.Keys, first), built) && MoreIn(ts)
    ensures var keyed := if first then ts else After(ts, Comma);
      if keyed == [] || !keyed[0].Str? || keyed[0].value in built then all.Failed?
      else
        match ReadDoc(After(keyed[1..], Colon), depth, None)
        case Failed(_) => all.Failed?
        case Read(doc, rest) =>
          var grown := built[keyed[0].value := ValueOf(doc)];
          ObjectSoFar(all, ReadMembers(rest, depth, None, grown.Keys, false), grown)
  {
    var keyed := if first then ts else After(ts, Comma);
    if all.Read? {
      var key, o := keyed[0].value, ReadDoc(After(keyed[1..], Colon), depth, None);
      var left := ReadMembers(o.rest, depth, None, built.Keys + {key}, false);
      assert left.Read?;
      MoveMember(built, key, ValueOf(o.value), MembersOf(left.value));
    } else if keyed != [] && keyed[0].Str? && keyed[0].value !in built {
      MoveMember(built, keyed[0].value, JNull, map[]);
      var o := ReadDoc(After(keyed[1..], Colon), depth, None);
      if o.Read? {
        assert built[keyed[0].value := ValueOf(o.value)].Keys == built.Keys + {keyed[0].value};
      }
    }
  }

  lemma {:induction false} MembersRead(all: Outcome<Members>, ts: seq<Token>, depth: nat, built: map<string, Json>,
                                       first: bool)
    requires ObjectSoFar(all, ReadMembers(ts, depth, None, built.Keys, first), built) && !MoreIn(ts)
    ensures if ts != [] && ts[0] == RBrace
            then all.Read? && all.rest == ts[1..] && MembersOf(all.value) == built
            else all.Failed?
  {
    assert built + map[] == built;
  }

  /** One key, its value, and the object that has them. */
  method ParseMember(d: Decoder, built: map<string, Json>, ghost all: Outcome<Members>, ghost depth: nat,
                     ghost first: bool) returns (grown: Option<map<string, Json>>)
    requires d.state == (if first then ObjectStart else ObjectComma) && MoreIn(d.rest)
    requires ObjectSoFar(all, ReadMembers(d.rest, depth, None, built.Keys, first), built)
    modifies d
    ensures grown.None? ==> all.Failed?
    ensures grown.Some? ==>
      && d.stack == old(d.stack) && d.state == ObjectComma && |d.rest| < |old(d.rest)|
      && ObjectSoFar(all, ReadMembers(d.rest, depth, None, grown.value.Keys, false), grown.value)
    decreases |d.rest|, 0
  {
    hide ReadMembers, ReadDoc, After;
    MemberRead(all, d.rest, depth, built, first);
    ghost var keyed := if first then d.rest else After(d.rest, Comma);
    var key := ReadKey(d);
    if key.None? || key.value in built {
      return None;
    }
    assert key.value == keyed[0].value && Ready(d.state, d.rest) == After(keyed[1..], Colon);
    var child := ParseValue(d, depth);
    grown := if child.None? then None else Some(built[key.value := child.value]);
  }

  method ParseMembers(d: Decoder, ghost depth: nat) returns (r: Option<map<string, Json>>)
    requires d.state == ObjectStart && d.stack != []
    modifies d
    ensures match ReadMembers(old(d.rest), depth, None, {}, true)
      case Failed(_) => r == None
      case Read(ms, rest) =>
        r == Some(MembersOf(ms)) && d.Here() == Leave(Place([RBrace] + rest, ObjectComma, old(d.stack)))
    decreases |d.rest|, 1
  {
    ghost var all := ReadMembers(d.rest, depth, None, {}, true);
    var built: map<string, Json> := map[];
    ghost var first := true;
    StartMembers(all, d.rest, depth, built);
    var more := d.More();
    while more
      invariant more <==> MoreIn(d.rest)
      invariant d.stack == old(d.stack) && d.state == (if first then ObjectStart else ObjectComma)
      invariant ObjectSoFar(all, ReadMembers(d.rest, depth, None, built.Keys, first), built)
      invariant |d.rest| <= |old(d.rest)|
      decreases |d.rest|
    {
      var grown := ParseMember(d, built, all, depth, first);
      if grown.None? {
        return None;
      }
      built := grown.value;
      first := false;
      more := d.More();
    }
    MembersRead(all, d.rest, depth, built, first);
    var closed := ReadClose(d, RBrace);
    r := if closed then Some(built) else None;
  }

  lemma {:induction false} StartMembers(all: Outcome<Members>, ts: seq<Token>, depth: nat, empty: map<string, Json>)
    requires all == ReadMembers(ts, depth, None, {}, true) && empty == map[]
    ensures ObjectSoFar(all, ReadMembers(ts, depth, None, empty.Keys, true), empty)
  {
    assert empty.Keys == {};
    if all.Read? {
      assert empty + MembersOf(all.value) == MembersOf(all.value);
    }
  }

  lemma {:induction false} MoveMember(built: map<string, Json>, key: string, value: Json, rest: map<string, Json>)
    ensures built + (map[key := value] + rest) == built[key := value] + rest
    ensures built[key := value].Keys == built.Keys + {key}
  {
  }

  ghost predicate ArraySoFar(all: Outcome<Docs>, left: Outcome<Docs>, built: seq<Json>) {
    if all.Failed? then left.Failed?
    else left.Read? && all.rest == left.rest && ItemsOf(all.value) == built + ItemsOf(left.value)
  }

  lemma {:induction false} ItemRead(all: Outcome<Docs>, ts: seq<Token>, depth: nat, built: seq<Json>, first: bool)
    requires ArraySoFar(all, ReadItems(ts, depth, None, first), built) && MoreIn(ts)
    ensures match ReadDoc(if first then ts else After(ts, Comma), depth, None)
      case Failed(_) => all.Failed?
      case Read(doc, rest) => ArraySoFar(all, ReadItems(rest, depth, None, false), built + [ValueOf(doc)])
  {
  }

  lemma {:induction false} ItemsRead(all: Outcome<Docs>, ts: seq<Token>, depth: nat, built: seq<Json>, first: bool)
    requires ArraySoFar(all, ReadItems(ts, depth, None, first), built) && !MoreIn(ts)
    ensures if ts != [] && ts[0] == RBracket
            then all.Read? && all.rest == ts[1..] && ItemsOf(all.value) == built
            else all.Failed?
  {
    assert built + [] == built;
  }

  method ParseItems(d: Decoder, ghost depth: nat) returns (r: Option<seq<Json>>)
    requires d.state == ArrayStart && d.stack != []
    modifies d
    ensures match ReadItems(old(d.rest), depth, None, true)
      case Failed(_) => r == None
      case Read(items, rest) =>
        r == Some(ItemsOf(items)) && d.Here() == Leave(Place([RBracket] + rest, ArrayComma, old(d.stack)))
    decreases |d.rest|, 1
  {
    ghost var all := ReadItems(d.rest, depth, None, true);
    var built: seq<Json> := [];
    ghost var first := true;
    var more := d.More();
    while more
      invariant more <==> MoreIn(d.rest)
      invariant d.stack == old(d.stack) && d.state == (if first then ArrayStart else ArrayComma)
      invariant ArraySoFar(all, ReadItems(d.rest, depth, None, first), built)
      invariant |d.rest| <= |old(d.rest)|
      decreases |d.rest|
    {
      ItemRead(all, d.rest, depth, built, first);
      var child := ParseValue(d, depth);
      if child.None? {
        return None;
      }
      built := built + [child.value];
      first := false;
      more := d.More();
    }
    ItemsRead(all, d.rest, depth, built, first);
    var closed := ReadClose(d, RBracket);
    r := if closed then Some(built) else None;
  }

  // ----- the printer -----

  class Buffer {
    var text: string

    constructor ()
      ensures text == ""
    {
      text := "";
    }

    method Write(s: string)
      modifies this
      ensures text == old(text) + s
    {
      text := text + s;
    }
  }

  /** appendString: the quoted string, character by character. */
  method AppendString(output: Buffer, value: string)
    modifies output
    ensures output.text == old(output.text) + Quote(value)
  {
    ghost var start := output.text;
    output.Write("\"");
    var i := 0;
    while i < |value|
      invariant 0 <= i <= |value| && output.text == start + ("\"" + EscapeAll(value[..i]))
    {
      EscapeSnoc(value, i);
      Regroup(start, "\"" + EscapeAll(value[..i]), Escape(value[i]));
      Regroup("\"", EscapeAll(value[..i]), Escape(value[i]));
      output.Write(Escape(value[i]));
      i := i + 1;
    }
    assert value[..i] == value;
    Regroup(start, "\"" + EscapeAll(value), "\"");
    output.Write("\"");
  }

  lemma {:induction false} EscapeSnoc(value: string, i: nat)
    requires i < |value|
    ensures EscapeAll(value[..i + 1]) == EscapeAll(value[..i]) + Escape(value[i])
  {
    if i > 0 {
      EscapeSnoc(value[1..], i - 1);
      assert value[1..][..i] == value[..i + 1][1..] && value[1..][..i - 1] == value[..i][1..];
      Regroup(Escape(value[0]), EscapeAll(value[..i][1..]), Escape(value[i]));
    } else {
      assert value[..1][1..] == "";
    }
  }

  /** appendValue: refuses a number outside the profile, otherwise writes the
      canonical text behind what the buffer holds. */
  method AppendValue(output: Buffer, v: Json) returns (ok: bool)
    modifies output
    ensures ok <==> InProfile(v)
    ensures ok ==> output.text == old(output.text) + Print(v)
    decreases v, 1
  {
    ok := true;
    match v {
      case JNull => output.Write("null");
      case JBool(b) => output.Write(if b then "true" else "false");
      case JString(s) => AppendString(output, s);
      case JNumber(t) =>
        if !Integer(t) {
          return false;
        }
        output.Write(t);
      case JArray(items) => ok := AppendItems(output, v);
      case JObject(members) => ok := AppendMembers(output, v);
    }
  }

  method AppendItems(output: Buffer, v: Json) returns (ok: bool)
    requires v.JArray?
    modifies output
    ensures ok <==> InProfile(v)
    ensures ok ==> output.text == old(output.text) + Print(v)
    decreases v, 0
  {
    ghost var start := output.text;
    output.Write("[");
    Regroup(start, "[", RenderItems(ItemDocs(v, 0), true));
    var index := 0;
    while index < |v.items|
      invariant 0 <= index <= |v.items|
      invariant forall i :: 0 <= i < index ==> InProfile(v.items[i])
      invariant output.text + RenderItems(ItemDocs(v, index), index == 0) == start + Print(v)
    {
      ghost var before := output.text;
      if index > 0 {
        output.Write(",");
      }
      assert output.text == before + CommaText(index == 0);
      ok := AppendValue(output, v.items[index]);
      if !ok {
        return;
      }
      ItemWritten(before, output.text, v, index);
      index := index + 1;
    }
    output.Write("]");
    ok := true;
  }

  lemma {:induction false} ItemWritten(before: string, text: string, v: Json, index: nat)
    requires v.JArray? && index < |v.items|
    requires text == before + CommaText(index == 0) + Print(v.items[index])
    ensures text + RenderItems(ItemDocs(v, index + 1), false) == before + RenderItems(ItemDocs(v, index), index == 0)
  {
    var comma, part, tail := CommaText(index == 0), Print(v.items[index]), RenderItems(ItemDocs(v, index + 1), false);
    Regroup(before + comma, part, tail);
    Regroup(before, comma, part + tail);
    Regroup(comma, part, tail);
    assert RenderItems(ItemDocs(v, index), index == 0) == comma + part + tail;
  }

  /** The state of the member loop: keys[..index] are written. */
  ghost predicate MembersWritten(start: string, text: string, v: Json, keys: seq<string>, index: nat)
    requires v.JObject? && index <= |keys|
  {
    && Elements(keys[index..]) <= v.members.Keys
    && text + RenderMembers(MemberDocs(v, keys[index..]), index == 0) == start + Print(v)
  }

  method AppendMembers(output: Buffer, v: Json) returns (ok: bool)
    requires v.JObject?
    modifies output
    ensures ok <==> InProfile(v)
    ensures ok ==> output.text == old(output.text) + Print(v)
    decreases v, 0
  {
    hide MembersWritten, InProfile, Print, Ascending, Elements;
    var keys := SortStrings(v.members.Keys);
    ghost var start := output.text;
    output.Write("{");
    MembersStart(start, v, keys);
    var index := 0;
    while index < |keys|
      invariant 0 <= index <= |keys| && MembersWritten(start, output.text, v, keys, index)
      invariant forall i {:trigger keys[i]} :: 0 <= i < index ==> keys[i] in v.members && InProfile(v.members[keys[i]])
    {
      var key := keys[index];
      NextKey(start, output.text, v, keys, index);
      ok := AppendMember(output, v, keys, index, start);
      if !ok {
        BadMember(v, key);
        return;
      }
      index := index + 1;
    }
    MembersEnd(start, output.text, v, keys);
    output.Write("}");
    AllMembers(v, keys);
    ok := true;
  }

  lemma {:induction false} NextKey(start: string, text: string, v: Json, keys: seq<string>, index: nat)
    requires v.JObject? && index < |keys| && MembersWritten(start, text, v, keys, index)
    ensures keys[index] in v.members
  {
    assert keys[index] in Elements(keys[index..]);
  }

  lemma {:induction false} MembersEnd(start: string, text: string, v: Json, keys: seq<string>)
    requires v.JObject? && MembersWritten(start, text, v, keys, |keys|)
    ensures text + "}" == start + Print(v)
  {
    hide Print;
    assert keys[|keys|..] == [];
  }

  lemma {:induction false} BadMember(v: Json, key: string)
    requires v.JObject? && key in v.members && !InProfile(v.members[key])
    ensures !InProfile(v)
  {
  }

  lemma {:induction false} AllMembers(v: Json, keys: seq<string>)
    requires v.JObject? && v.members.Keys <= Elements(keys)
    requires forall i {:trigger keys[i]} :: 0 <= i < |keys| ==> keys[i] in v.members && InProfile(v.members[keys[i]])
    ensures InProfile(v)
  {
    forall k | k in v.members
      ensures InProfile(v.members[k])
    {
      assert k in Elements(keys);
      var i :| 0 <= i < |keys| && keys[i] == k;
    }
  }

  method AppendMember(output: Buffer, v: Json, keys: seq<string>, index: nat, ghost start: string) returns (ok: bool)
    requires v.JObject? && index < |keys| && keys[index] in v.members
    requires MembersWritten(start, output.text, v, keys, index)
    modifies output
    ensures ok <==> InProfile(v.members[keys[index]])
    ensures ok ==> MembersWritten(start, output.text, v, keys, index + 1)
    decreases v, 0, 0
  {
    ghost var before := output.text;
    if index > 0 {
      output.Write(",");
    }
    ghost var lead := output.text;
    assert lead == before + CommaText(index == 0);
    AppendString(output, keys[index]);
    output.Write(":");
    ghost var keyed := output.text;
    assert keyed == lead + Quote(keys[index]) + ":";
    ok := AppendValue(output, v.members[keys[index]]);
    if ok {
      assert output.text == keyed + Print(v.members[keys[index]]);
      MemberAppended(start, before, output.text, v, keys, index);
    }
  }

  lemma {:induction false} MemberAppended(start: string, before: string, text: string, v: Json, keys: seq<string>,
                                          index: nat)
    requires v.JObject? && index < |keys| && keys[index] in v.members
    requires MembersWritten(start, before, v, keys, index)
    requires text == before + CommaText(index == 0) + Quote(keys[index]) + ":" + Print(v.members[keys[index]])
    ensures MembersWritten(start, text, v, keys, index + 1)
  {
    MemberWritten(before, text, v, keys[index..], index == 0);
    assert keys[index..][1..] == keys[index + 1..];
  }

  lemma {:induction false} MembersStart(start: string, v: Json, keys: seq<string>)
    requires v.JObject? && keys == SortedKeys(v.members.Keys)
    ensures MembersWritten(start, start + "{", v, keys, 0)
  {
    assert keys[0..] == keys;
    Regroup(start, "{", RenderMembers(MemberDocs(v, keys), true));
  }

  lemma {:induction false} MemberWritten(before: string, text: string, v: Json, keys: seq<string>, first: bool)
    requires v.JObject? && keys != [] && Elements(keys) <= v.members.Keys && keys[0] in v.members
    requires text == before + CommaText(first) + Quote(keys[0]) + ":" + Print(v.members[keys[0]])
    ensures Elements(keys[1..]) <= v.members.Keys
    ensures text + RenderMembers(MemberDocs(v, keys[1..]), false) == before + RenderMembers(MemberDocs(v, keys), first)
  {
    assert keys == [keys[0]] + keys[1..];
    var tail := RenderMembers(MemberDocs(v, keys[1..]), false);
    GlueFive(before, CommaText(first), Quote(keys[0]), ":", Print(v.members[keys[0]]), tail);
  }

  lemma {:induction false} GlueFive(before: string, a: string, b: string, c: string, d: string, e: string)
    ensures before + a + b + c + d + e == before + (a + b + c + d + e)
  {
  }

  // ----- JSON -----

  ghost function Canonical(raw: seq<byte>): Option<seq<byte>> {
    match Decode(raw)
    case None => None
    case Some(text) =>
      match ParseText(text)
      case None => None
      case Some(v) => if InProfile(v) then Some(Encode(Print(v))) else None
  }

  /** Parsing a whole text: one value, then the end. */
  method Parse(text: string) returns (r: Option<Json>)
    ensures r == ParseText(text)
  {
    var d := new Decoder(Lex(text));
    r := ParseValue(d, 0);
    if r.None? {
      return;
    }
    var got := d.Token();
    if got != Eof {
      return None;
    }
  }

  method JSON(raw: seq<byte>) returns (r: Option<seq<byte>>)
    ensures r == Canonical(raw)
  {
    var text := Decode(raw);
    if text.None? {
      return None;
    }
    var value := Parse(text.value);
    if value.None? {
      return None;
    }
    var output := new Buffer();
    var ok := AppendValue(output, value.value);
    if !ok {
      return None;
    }
    assert output.text == Print(value.value);
    r := Some(Encode(output.text));
  }
}
