// The second canonicalizer: json.loads, then json.dumps with sorted keys and compact
// separators, encoded as UTF-8 (scripts/validate_agent_contracts.py, canonical_json).
module CanonicalPython {
  import opened Collections
  import opened Utf8
  import opened KeyOrder
  import opened JsonLex
  import opened JsonDoc
  import opened CanonicalJson
  import opened CanonicalLaws
  import opened PythonInt
  import opened PythonReader

  // ----- json.dumps -----

  function FourHex(n: nat): string
    requires n < 0x10000
  {
    [HexDigit(n / 4096), HexDigit(n / 256 % 16), HexDigit(n / 16 % 16), HexDigit(n % 16)]
  }

  const ESCAPES: map<char, string> := map[
    '\\' := "\\\\", '"' := "\\\"", '\U{8}' := "\\b", '\U{C}' := "\\f", '\n' := "\\n", '\r' := "\\r", '\t' := "\\t"]

  /** The escape table of the encoder, with its default for the other controls. */
  function PyEscape(c: char): string {
    if c in ESCAPES then ESCAPES[c] else if c < ' ' then "\\u" + FourHex(c as int) else [c]
  }

  /** Lone surrogates are not ASCII, and so are left as they are. */
  function PyEscapeAll(t: PyText): PyText {
    if t == [] then [] else (if t[0].Scalar? then Plain(PyEscape(t[0].c)) else [t[0]]) + PyEscapeAll(t[1..])
  }

  function PyQuote(t: PyText): PyText {
    Plain("\"") + PyEscapeAll(t) + Plain("\"")
  }

  function Join(parts: seq<PyText>): PyText {
    if parts == [] then [] else if |parts| == 1 then parts[0] else parts[0] + Plain(",") + Join(parts[1..])
  }

  /** s lists the keys in ascending order of their code points. Where a key holds a lone
      surrogate the order is left open: nothing depends on it. */
  ghost predicate PySorts(s: seq<PyText>, keys: set<PyText>) {
    && Elements(s) == keys
    && ((forall k :: k in keys ==> !HasLone(k)) ==> AscendingByCodePoint(AllReplaced(s)))
  }

  function AllReplaced(s: seq<PyText>): (r: seq<string>)
    ensures |r| == |s| && forall i :: 0 <= i < |s| ==> r[i] == Replaced(s[i])
  {
    seq(|s|, i requires 0 <= i < |s| => Replaced(s[i]))
  }

  function AllPlain(keys: seq<string>): (r: seq<PyText>)
    ensures |r| == |keys| && forall i :: 0 <= i < |keys| ==> r[i] == Plain(keys[i])
  {
    seq(|keys|, i requires 0 <= i < |keys| => Plain(keys[i]))
  }

  ghost function PySorted(keys: set<PyText>): (s: seq<PyText>)
    ensures PySorts(s, keys)
  {
    SortExists(keys);
    var s :| PySorts(s, keys);
    s
  }

  lemma {:induction false} SortExists(keys: set<PyText>)
    ensures exists s :: PySorts(s, keys)
  {
    var s := SortListing(keys);
  }

  lemma {:induction false} SortListing(keys: set<PyText>) returns (s: seq<PyText>)
    ensures PySorts(s, keys)
  {
    if forall k :: k in keys ==> !HasLone(k) {
      var names := set k | k in keys :: Replaced(k);
      var sorted := SortedKeys(names);
      s := AllPlain(sorted);
      PlainListing(keys, sorted);
      SortOrdersAgree(sorted);
      assert AscendingByCodePoint(AllReplaced(s));
    } else {
      s := SomeListing(keys);
    }
  }

  lemma {:induction false} PlainListing(keys: set<PyText>, sorted: seq<string>)
    requires forall k :: k in keys ==> !HasLone(k)
    requires Elements(sorted) == set k | k in keys :: Replaced(k)
    ensures Elements(AllPlain(sorted)) == keys && AllReplaced(AllPlain(sorted)) == sorted
  {
    var s := AllPlain(sorted);
    forall i | 0 <= i < |s|
      ensures s[i] in keys && AllReplaced(s)[i] == sorted[i]
    {
      assert sorted[i] in Elements(sorted);
      var k :| k in keys && Replaced(k) == sorted[i];
      ReplacedPlain(k);
      PlainReplaced(sorted[i]);
    }
    forall k | k in keys
      ensures k in s
    {
      assert Replaced(k) in Elements(sorted);
      var i :| 0 <= i < |sorted| && sorted[i] == Replaced(k);
      ReplacedPlain(k);
      assert s[i] == k;
    }
  }

  lemma {:induction false} SomeListing<T>(keys: set<T>) returns (s: seq<T>)
    ensures Elements(s) == keys
    decreases keys
  {
    if keys == {} {
      s := [];
    } else {
      var k :| k in keys;
      var rest := SomeListing(keys - {k});
      s := [k] + rest;
      assert Elements(s) == {k} + Elements(rest);
    }
  }

  /** str() has the same limit as int(), so it refuses no integer that was read. */
  lemma {:induction false} NumberFits(t: string, limit: nat)
    requires PyNumber(t, limit).Some?
    ensures !TooLong(Decimal(PyNumber(t, limit).value), limit)
  {
    if t == "-0" {
      assert Decimal(0) == "0";
    } else {
      DecimalIntOf(t);
    }
  }

  ghost function Dumps(p: Py): PyText
    decreases p, 1
  {
    match p
    case PyNone => Plain("null")
    case PyBool(b) => Plain(if b then "true" else "false")
    case PyInt(n) => Plain(Decimal(n))
    case PyStr(s) => PyQuote(s)
    case PyList(items) => Plain("[") + Join(DumpItems(p, 0)) + Plain("]")
    case PyDict(members) => Plain("{") + Join(DumpMembers(p, PySorted(members.Keys))) + Plain("}")
  }

  ghost function DumpItems(p: Py, i: nat): (parts: seq<PyText>)
    requires p.PyList? && i <= |p.items|
    ensures |parts| == |p.items| - i
    decreases p, 0, |p.items| - i
  {
    if i == |p.items| then [] else [Dumps(p.items[i])] + DumpItems(p, i + 1)
  }

  ghost function DumpMembers(p: Py, keys: seq<PyText>): (parts: seq<PyText>)
    requires p.PyDict? && Elements(keys) <= p.members.Keys
    ensures |parts| == |keys|
    decreases p, 0, |keys|
  {
    if keys == [] then []
    else
      assert keys[0] in Elements(keys);
      [PyQuote(keys[0]) + Plain(":") + Dumps(p.members[keys[0]])] + DumpMembers(p, keys[1..])
  }

  /** str.encode("utf-8") refuses lone surrogates. */
  ghost function Encoded(t: PyText): Option<seq<byte>> {
    if HasLone(t) then None else Some(Encode(Replaced(t)))
  }

  /** canonical_json of what load_json reads; limit is the interpreter's on the digits of
      an integer. */
  ghost function PyCanonical(raw: seq<byte>, limit: nat): Option<seq<byte>> {
    match Decode(raw)
    case None => None
    case Some(text) =>
      match Loads(text, limit)
      case None => None
      case Some(p) => Encoded(Dumps(p))
  }

  // ----- without lone surrogates: the same bytes -----

  lemma {:induction false} PlainConcat(a: string, b: string)
    ensures Plain(a + b) == Plain(a) + Plain(b)
  {
  }

  lemma {:induction false} EscapesAgree(c: char)
    ensures PyEscape(c) == Escape(c)
  {
    if c < ' ' && c !in ESCAPES {
      var v := c as int;
      assert v / 4096 == 0 && v / 256 % 16 == 0 && v / 16 % 16 == v / 16;
      assert "\\u" + FourHex(v) == "\\u00" + [HexDigit(v / 16), HexDigit(v % 16)];
    }
  }

  lemma {:induction false} EscapeAllAgree(s: string)
    ensures PyEscapeAll(Plain(s)) == Plain(EscapeAll(s))
  {
    if s != "" {
      EscapesAgree(s[0]);
      EscapeAllAgree(s[1..]);
      assert Plain(s)[1..] == Plain(s[1..]);
      PlainConcat(Escape(s[0]), EscapeAll(s[1..]));
    }
  }

  lemma {:induction false} QuotesAgree(s: string)
    ensures PyQuote(Plain(s)) == Plain(Quote(s))
  {
    EscapeAllAgree(s);
    PlainConcat("\"", EscapeAll(s));
    PlainConcat("\"" + EscapeAll(s), "\"");
  }

  /** Both programs sort the keys of an object alike. */
  lemma {:induction false} KeysAgree(keys: set<string>)
    ensures PySorted(PlainSet(keys)) == AllPlain(SortedKeys(keys))
  {
    var s := PySorted(PlainSet(keys));
    forall i | 0 <= i < |s|
      ensures !HasLone(s[i]) && Plain(AllReplaced(s)[i]) == s[i] && AllReplaced(s)[i] in keys
    {
      assert s[i] in Elements(s);
      PlainReplaced(Replaced(s[i]));
    }
    forall k | k in PlainSet(keys)
      ensures !HasLone(k)
    {
      PlainReplaced(Replaced(k));
    }
    SortOrdersAgree(AllReplaced(s));
    forall k
      ensures k in AllReplaced(s) <==> k in keys
    {
      if k in keys {
        assert Plain(k) in Elements(s);
        var i :| 0 <= i < |s| && s[i] == Plain(k);
        PlainReplaced(k);
        assert AllReplaced(s)[i] == k;
      }
    }
    assert Elements(AllReplaced(s)) == keys;
    AscendingUnique(AllReplaced(s), SortedKeys(keys));
    assert s == AllPlain(SortedKeys(keys));
  }

  lemma {:induction false} DumpsIsPrint(v: Json)
    requires InProfile(v)
    ensures Dumps(PyOf(v)) == Plain(Print(v))
    decreases v, 1
  {
    match v {
      case JNumber(t) => DecimalIntOf(t);
      case JString(s) => QuotesAgree(s);
      case JArray(_) => ListAgrees(v);
      case JObject(_) => DictAgrees(v);
      case _ =>
    }
  }

  lemma {:induction false} ListAgrees(v: Json)
    requires v.JArray? && InProfile(v)
    ensures Dumps(PyOf(v)) == Plain(Print(v))
    decreases v, 0, |v.items| + 1
  {
    var p, tail := PyOf(v), RenderItems(ItemDocs(v, 0), true);
    ItemsPrinted(v, p, 0, true);
    assert Print(v) == "[" + tail;
    Enclosed("[", Join(DumpItems(p, 0)), tail, Plain("]"));
  }

  lemma {:induction false} Enclosed(open: string, joined: PyText, tail: string, close: PyText)
    requires Plain(tail) == [] + joined + close
    ensures Plain(open + tail) == Plain(open) + joined + close
  {
    PlainConcat(open, tail);
    Regroup(Plain(open), joined, close);
    assert [] + joined + close == joined + close;
  }

  /** p is the list of the array v. */
  ghost predicate ListFor(v: Json, p: Py)
    requires v.JArray?
  {
    p.PyList? && |p.items| == |v.items| && forall i :: 0 <= i < |v.items| ==> p.items[i] == PyOf(v.items[i])
  }

  lemma {:induction false} DictAgrees(v: Json)
    requires v.JObject? && InProfile(v)
    ensures Dumps(PyOf(v)) == Plain(Print(v))
    decreases v, 0, |SortedKeys(v.members.Keys)| + 1
  {
    DictOf(v);
    KeysAgree(v.members.Keys);
    var p, keys := PyOf(v), SortedKeys(v.members.Keys);
    var tail := RenderMembers(MemberDocs(v, keys), true);
    MembersPrinted(v, p, keys, true);
    DictText(p, AllPlain(keys));
    ObjectText(v);
    Enclosed("{", Join(DumpMembers(p, AllPlain(keys))), tail, Plain("}"));
  }

  lemma {:induction false} DictText(p: Py, keys: seq<PyText>)
    requires p.PyDict? && keys == PySorted(p.members.Keys)
    ensures Dumps(p) == Plain("{") + Join(DumpMembers(p, keys)) + Plain("}")
  {
  }

  lemma {:induction false} ObjectText(v: Json)
    requires v.JObject?
    ensures Print(v) == "{" + RenderMembers(MemberDocs(v, SortedKeys(v.members.Keys)), true)
  {
  }

  /** p is the dictionary of the object v. */
  ghost predicate DictFor(v: Json, p: Py)
    requires v.JObject?
  {
    && p.PyDict? && p.members.Keys == PlainSet(v.members.Keys)
    && forall k :: k in v.members ==> Plain(k) in p.members && p.members[Plain(k)] == PyOf(v.members[k])
  }

  lemma {:induction false} DictOf(v: Json)
    requires v.JObject?
    ensures DictFor(v, PyOf(v))
  {
    forall k | k in v.members
      ensures Plain(k) in PyOf(v).members && PyOf(v).members[Plain(k)] == PyOf(v.members[k])
    {
      PlainReplaced(k);
    }
  }

  /** Joined parts are parts with a comma in front of all but the first. */
  lemma {:induction false} JoinLeads(head: PyText, tail: seq<PyText>)
    ensures Join([head] + tail) == head + if tail == [] then [] else Plain(",") + Join(tail)
  {
    assert ([head] + tail)[1..] == tail;
  }

  lemma {:induction false} ItemsPrinted(v: Json, p: Py, i: nat, first: bool)
    requires v.JArray? && InProfile(v) && ListFor(v, p) && i <= |v.items|
    ensures var parts := DumpItems(p, i);
      Plain(RenderItems(ItemDocs(v, i), first))
        == (if first || parts == [] then [] else Plain(",")) + Join(parts) + Plain("]")
    decreases v, 0, |v.items| - i
  {
    ItemStep(v, p, i, first);
    if i == |v.items| {
      NoParts(Plain("]"));
    } else {
      DumpsIsPrint(v.items[i]);
      ItemsPrinted(v, p, i + 1, false);
      var part, parts := Print(v.items[i]), DumpItems(p, i + 1);
      OnePart(CommaText(first), part, Plain(part), parts, RenderItems(ItemDocs(v, i + 1), false), Plain("]"));
    }
  }

  lemma {:induction false} NoParts(close: PyText)
    ensures [] + Join([]) + close == close
  {
  }

  /** The first item, on both sides. */
  lemma {:induction false} ItemStep(v: Json, p: Py, i: nat, first: bool)
    requires v.JArray? && ListFor(v, p) && i <= |v.items|
    ensures i == |v.items| ==> RenderItems(ItemDocs(v, i), first) == "]" && DumpItems(p, i) == []
    ensures i < |v.items| ==>
      && RenderItems(ItemDocs(v, i), first)
        == CommaText(first) + Print(v.items[i]) + RenderItems(ItemDocs(v, i + 1), false)
      && DumpItems(p, i) == [Dumps(PyOf(v.items[i]))] + DumpItems(p, i + 1)
  {
  }

  /** The text of one part in front of the others. */
  lemma {:induction false} OnePart(lead: string, part: string, plain: PyText, parts: seq<PyText>, tail: string,
                                   close: PyText)
    requires Plain(tail) == (if parts == [] then [] else Plain(",")) + Join(parts) + close && plain == Plain(part)
    ensures Plain(lead + part + tail) == Plain(lead) + Join([plain] + parts) + close
  {
    var comma := if parts == [] then [] else Plain(",");
    JoinLeads(plain, parts);
    PlainConcat(lead + part, tail);
    PlainConcat(lead, part);
    GlueTail(Plain(lead), plain, comma, Join(parts), close);
  }

  lemma {:induction false} GlueTail<T>(lead: seq<T>, part: seq<T>, comma: seq<T>, tail: seq<T>, end: seq<T>)
    ensures lead + part + (comma + tail + end) == lead + (part + (comma + tail)) + end
  {
  }

  lemma {:induction false} MembersPrinted(v: Json, p: Py, keys: seq<string>, first: bool)
    requires v.JObject? && InProfile(v) && DictFor(v, p) && Elements(keys) <= v.members.Keys
    ensures Elements(AllPlain(keys)) <= p.members.Keys
    ensures var parts := DumpMembers(p, AllPlain(keys));
      Plain(RenderMembers(MemberDocs(v, keys), first))
      == (if first || parts == [] then [] else Plain(",")) + Join(parts) + Plain("}")
    decreases v, 0, |keys|
  {
    PlainKeys(v, p, keys);
    MemberStep(v, p, keys, first);
    if keys == [] {
      NoParts(Plain("}"));
    } else {
      assert keys[0] in Elements(keys);
      DumpsIsPrint(v.members[keys[0]]);
      MembersPrinted(v, p, keys[1..], false);
      var key, value := Quote(keys[0]), Print(v.members[keys[0]]);
      QuotesAgree(keys[0]);
      MemberText(CommaText(first), key, value);
      OnePart(CommaText(first), key + ":" + value, Plain(key) + Plain(":") + Plain(value),
              DumpMembers(p, AllPlain(keys[1..])), RenderMembers(MemberDocs(v, keys[1..]), false), Plain("}"));
    }
  }

  /** The first member, on both sides. */
  lemma {:induction false} MemberStep(v: Json, p: Py, keys: seq<string>, first: bool)
    requires v.JObject? && DictFor(v, p) && Elements(keys) <= v.members.Keys
      && Elements(AllPlain(keys)) <= p.members.Keys
    ensures keys == [] ==> RenderMembers(MemberDocs(v, keys), first) == "}" && DumpMembers(p, AllPlain(keys)) == []
    ensures keys != [] ==> keys[0] in v.members && Elements(keys[1..]) <= v.members.Keys
                           && Elements(AllPlain(keys[1..])) <= p.members.Keys
    ensures keys != [] ==>
      && RenderMembers(MemberDocs(v, keys), first)
         == CommaText(first) + Quote(keys[0]) + ":" + Print(v.members[keys[0]])
           + RenderMembers(MemberDocs(v, keys[1..]), false)
      && DumpMembers(p, AllPlain(keys))
         == [PyQuote(Plain(keys[0])) + Plain(":") + Dumps(PyOf(v.members[keys[0]]))]
           + DumpMembers(p, AllPlain(keys[1..]))
  {
    if keys != [] {
      assert keys[0] in Elements(keys);
      assert AllPlain(keys)[1..] == AllPlain(keys[1..]);
      assert Plain(keys[0]) in Elements(AllPlain(keys));
    }
  }

  lemma {:induction false} PlainKeys(v: Json, p: Py, keys: seq<string>)
    requires v.JObject? && DictFor(v, p) && Elements(keys) <= v.members.Keys
    ensures Elements(AllPlain(keys)) <= p.members.Keys
  {
    forall t | t in AllPlain(keys)
      ensures t in p.members
    {
      var i :| 0 <= i < |keys| && AllPlain(keys)[i] == t;
      assert keys[i] in Elements(keys);
    }
  }

  lemma {:induction false} MemberText(lead: string, key: string, value: string)
    ensures lead + key + ":" + value == lead + (key + ":" + value)
    ensures Plain(key + ":" + value) == Plain(key) + Plain(":") + Plain(value)
  {
    Regroup(lead, key + ":", value);
    Regroup(lead, key, ":");
    PlainConcat(key + ":", value);
    PlainConcat(key, ":");
  }

  // ----- with a lone surrogate: no bytes -----

  lemma {:induction false} EscapeKeepsLone(t: PyText)
    requires HasLone(t)
    ensures HasLone(PyEscapeAll(t))
  {
    var head := if t[0].Scalar? then Plain(PyEscape(t[0].c)) else [t[0]];
    LoneInConcat(head, PyEscapeAll(t[1..]));
    if t[0].Lone? {
      assert head[0].Lone?;
    } else {
      LoneInConcat([t[0]], t[1..]);
      assert t == [t[0]] + t[1..];
      EscapeKeepsLone(t[1..]);
    }
  }

  lemma {:induction false} QuoteKeepsLone(t: PyText)
    requires HasLone(t)
    ensures HasLone(PyQuote(t))
  {
    EscapeKeepsLone(t);
    LoneInConcat(Plain("\""), PyEscapeAll(t));
    LoneInConcat(Plain("\"") + PyEscapeAll(t), Plain("\""));
  }

  lemma {:induction false} JoinKeepsLone(parts: seq<PyText>, i: nat)
    requires i < |parts| && HasLone(parts[i])
    ensures HasLone(Join(parts))
    decreases |parts|
  {
    if |parts| > 1 {
      LoneInConcat(parts[0] + Plain(","), Join(parts[1..]));
      LoneInConcat(parts[0], Plain(","));
      if i > 0 {
        JoinKeepsLone(parts[1..], i - 1);
      }
    }
  }

  lemma {:induction false} BetweenKeepsLone(open: PyText, t: PyText, close: PyText)
    requires HasLone(t)
    ensures HasLone(open + t + close)
  {
    LoneInConcat(open, t);
    LoneInConcat(open + t, close);
  }

  /** A lone surrogate in a value is one in its text. */
  lemma {:induction false} DumpsKeepsLone(p: Py)
    requires Broken(p)
    ensures HasLone(Dumps(p))
    decreases p, 1
  {
    match p {
      case PyStr(s) => QuoteKeepsLone(s);
      case PyList(items) =>
        var i :| 0 <= i < |items| && Broken(items[i]);
        ItemKeepsLone(p, 0, i);
        JoinKeepsLone(DumpItems(p, 0), i);
        BetweenKeepsLone(Plain("["), Join(DumpItems(p, 0)), Plain("]"));
      case PyDict(members) =>
        var k :| k in members && (HasLone(k) || Broken(members[k]));
        var keys := PySorted(members.Keys);
        assert k in Elements(keys);
        var i :| 0 <= i < |keys| && keys[i] == k;
        MemberKeepsLone(p, keys, i);
        JoinKeepsLone(DumpMembers(p, keys), i);
        BetweenKeepsLone(Plain("{"), Join(DumpMembers(p, keys)), Plain("}"));
    }
  }

  lemma {:induction false} ItemKeepsLone(p: Py, from: nat, i: nat)
    requires p.PyList? && from <= i < |p.items| && Broken(p.items[i])
    ensures HasLone(DumpItems(p, from)[i - from])
    decreases p, 0, |p.items| - from
  {
    var head, rest := Dumps(p.items[from]), DumpItems(p, from + 1);
    assert DumpItems(p, from) == [head] + rest;
    if i == from {
      DumpsKeepsLone(p.items[i]);
    } else {
      ItemKeepsLone(p, from + 1, i);
      assert ([head] + rest)[i - from] == rest[i - (from + 1)];
    }
  }

  lemma {:induction false} MemberKeepsLone(p: Py, keys: seq<PyText>, i: nat)
    requires p.PyDict? && Elements(keys) <= p.members.Keys && i < |keys|
    requires keys[i] in p.members && (HasLone(keys[i]) || Broken(p.members[keys[i]]))
    ensures HasLone(DumpMembers(p, keys)[i])
    decreases p, 0, |keys|
  {
    assert keys[0] in Elements(keys);
    if i == 0 {
      var key, value := PyQuote(keys[0]), Dumps(p.members[keys[0]]);
      LoneInConcat(key, Plain(":"));
      LoneInConcat(key + Plain(":"), value);
      if HasLone(keys[0]) {
        QuoteKeepsLone(keys[0]);
      } else {
        DumpsKeepsLone(p.members[keys[0]]);
      }
    } else {
      MemberKeepsLone(p, keys[1..], i - 1);
      assert DumpMembers(p, keys)[1..] == DumpMembers(p, keys[1..]);
    }
  }

  // ----- the main result -----

  /** On every text the Go canonicalizer accepts, the Python one emits the same bytes
      exactly when no string of the text holds a lone surrogate escape and no integer of
      it has more digits than the limit; otherwise it emits nothing. */
  lemma {:induction false} SameBytesIff(raw: seq<byte>, limit: nat)
    requires Canonical(raw).Some?
    ensures var ts := PyLex(Decode(raw).value);
      PyCanonical(raw, limit) == if LoneIn(ts) || LongIn(ts, limit) then None else Canonical(raw)
  {
    var text := Decode(raw).value;
    var v := ParseText(text).value;
    LoadsAgrees(text, limit);
    if Loads(text, limit).Some? {
      if LoneIn(PyLex(text)) {
        DumpsKeepsLone(Loads(text, limit).value);
      } else {
        DumpsIsPrint(v);
        PlainReplaced(Print(v));
      }
    }
  }

  /** A text with a lone surrogate: a string that is one escaped surrogate. */
  lemma {:induction false} LoneSurrogateDiffers(text: string, limit: nat)
    requires text == "\"\\ud800\""
    ensures Canonical(Encode(text)) == Some(Encode("\"" + ['\U{FFFD}'] + "\""))
    ensures PyCanonical(Encode(text), limit) == None
  {
    hide Lex, PyLex, Canonical, PyCanonical, Encode;
    LoneText(text);
    StringDiffers(text, '\U{FFFD}', limit);
  }

  lemma {:induction false} StringDiffers(text: string, c: char, limit: nat)
    requires Lex(text) == [Str([c])] && Escape(c) == [c] && LoneIn(PyLex(text))
    ensures Canonical(Encode(text)) == Some(Encode("\"" + [c] + "\"")) && PyCanonical(Encode(text), limit) == None
  {
    DecodeEncode(text);
    OneString(text, c);
    SameBytesIff(Encode(text), limit);
  }

  /** A text that is one integer: the Go canonicalizer keeps it, and the Python one does
      so unless it is too long. */
  lemma {:induction false} IntegerBytes(t: string, limit: nat)
    requires Integer(t)
    ensures Canonical(Encode(t)) == Some(Encode(t))
    ensures PyCanonical(Encode(t), limit) == if TooLong(t, limit) then None else Some(Encode(t))
  {
    DecodeEncode(t);
    assert Print(JNumber(t)) == t;
    RoundTrip(JNumber(t));
    IntegerTokens(t, limit);
    SameBytesIff(Encode(t), limit);
  }

  lemma {:induction false} IntegerTokens(t: string, limit: nat)
    requires Integer(t)
    ensures !LoneIn(PyLex(t)) && (LongIn(PyLex(t), limit) <==> TooLong(t, limit))
  {
    LexAgrees(t);
    LexInteger(t, "");
    assert t + "" == t;
    assert Lex(t) == [Num(t)];
    var ts := PyLex(t);
    assert |ts| == 1 && GoToken(ts[0]) == Num(t);
  }

  function Ones(n: nat): string {
    seq(n, i => '1')
  }

  /** Under any limit there is such a text: one digit more than the limit. */
  lemma {:induction false} LongIntegerDiffers(limit: nat)
    requires limit > 0
    ensures var raw := Encode(Ones(limit + 1)); Canonical(raw) == Some(raw) && PyCanonical(raw, limit) == None
  {
    DigitRunAll(Ones(limit + 1));
    IntegerBytes(Ones(limit + 1), limit);
  }

  lemma {:induction false} LoneText(text: string)
    requires text == "\"\\ud800\""
    ensures Lex(text) == [Str(['\U{FFFD}'])] && LoneIn(PyLex(text))
  {
    var body := text[1..];
    LoneBody(body);
    assert text[8..] == "";
    LexQuoted(text);
    assert Replaced([Lone(0xD800)]) == ['\U{FFFD}'];
    assert PyLex(text)[0] == Text([Lone(0xD800)]) && [Lone(0xD800)][0].Lone?;
  }

  lemma {:induction false} OneString(text: string, c: char)
    requires Lex(text) == [Str([c])] && Escape(c) == [c]
    ensures ParseText(text) == Some(JString([c])) && Print(JString([c])) == "\"" + [c] + "\""
  {
    assert Lex(text)[1..] == [];
    assert EscapeAll([c]) == Escape(c) + EscapeAll("");
  }

  lemma {:induction false} LoneBody(body: string)
    requires body == "\\ud800\""
    ensures PyReadString(body) == Some(([Lone(0xD800)], 7))
  {
    assert body[6..] == "\"";
    assert CodeUnit(body) == Some(0xD800) && CodeUnit(body[6..]) == None;
    assert PyReadString(body[6..]) == Some(([], 1));
    assert PyReadChar(body) == Some((Lone(0xD800), 6));
    assert [Lone(0xD800)] + [] == [Lone(0xD800)];
  }
}
