// How json.loads reads a text (scripts/validate_agent_contracts.py, load_json): the same
// grammar, but a lone surrogate escape stays a lone surrogate in its string.
module PythonReader {
  import opened Collections
  import opened JsonLex
  import opened JsonDoc
  import opened CanonicalJson
  import opened CanonicalLaws
  import opened PythonInt

  type Surrogate = u: int | 0xD800 <= u < 0xE000 witness 0xD800

  /** A character of a Python string. */
  datatype Point = Scalar(c: char) | Lone(unit: Surrogate)

  type PyText = seq<Point>

  function Plain(s: string): (t: PyText)
    ensures |t| == |s| && forall i :: 0 <= i < |s| ==> t[i] == Scalar(s[i])
  {
    seq(|s|, i requires 0 <= i < |s| => Scalar(s[i]))
  }

  /** What the Go decoder makes of a character. */
  function Shown(p: Point): char {
    match p
    case Scalar(c) => c
    case Lone(_) => '\U{FFFD}'
  }

  function Replaced(t: PyText): (s: string)
    ensures |s| == |t| && forall i :: 0 <= i < |t| ==> s[i] == Shown(t[i])
  {
    seq(|t|, i requires 0 <= i < |t| => Shown(t[i]))
  }

  ghost predicate HasLone(t: PyText) {
    exists i :: 0 <= i < |t| && t[i].Lone?
  }

  lemma {:induction false} PlainReplaced(s: string)
    ensures Replaced(Plain(s)) == s && !HasLone(Plain(s))
  {
  }

  lemma {:induction false} ReplacedPlain(t: PyText)
    requires !HasLone(t)
    ensures Plain(Replaced(t)) == t
  {
    forall i | 0 <= i < |t|
      ensures Plain(Replaced(t))[i] == t[i]
    {
      assert t[i].Scalar?;
    }
  }

  lemma {:induction false} LoneInConcat(a: PyText, b: PyText)
    ensures HasLone(a + b) <==> HasLone(a) || HasLone(b)
  {
    forall i | 0 <= i < |a|
      ensures (a + b)[i] == a[i]
    {
    }
    forall i | 0 <= i < |b|
      ensures (a + b)[|a| + i] == b[i]
    {
    }
  }

  // ----- strings -----

  function PyReadUnicode(s: string): (r: Option<(Point, nat)>)
    ensures r.Some? ==> 1 <= r.value.1 <= |s|
  {
    match CodeUnit(s)
    case None => None
    case Some(v) =>
      if v < 0xD800 || 0xE000 <= v then Some((Scalar(v as char), 6))
      else
        var next := CodeUnit(s[6..]);
        if next.Some? && v < 0xDC00 && 0xDC00 <= next.value < 0xE000
        then Some((Scalar((0x10000 + (v - 0xD800) * 0x400 + (next.value - 0xDC00)) as char), 12))
        else Some((Lone(v), 6))
  }

  function PyReadChar(s: string): (r: Option<(Point, nat)>)
    requires s != ""
    ensures r.Some? ==> 1 <= r.value.1 <= |s|
  {
    if |s| >= 2 && s[0] == '\\' && s[1] == 'u' then PyReadUnicode(s)
    else
      match ReadChar(s)
      case None => None
      case Some(first) => Some((Scalar(first.0), first.1))
  }

  function PyReadString(s: string): (r: Option<(PyText, nat)>)
    ensures r.Some? ==> 1 <= r.value.1 <= |s|
    decreases |s|
  {
    if s == "" then None
    else if s[0] == '"' then Some(([], 1))
    else
      match PyReadChar(s)
      case None => None
      case Some(first) =>
        match PyReadString(s[first.1..])
        case None => None
        case Some(rest) => Some(([first.0] + rest.0, first.1 + rest.1))
  }

  lemma {:induction false} CharsAgree(s: string)
    requires s != ""
    ensures match PyReadChar(s)
      case None => ReadChar(s) == None
      case Some(first) => ReadChar(s) == Some((Shown(first.0), first.1))
  {
  }

  lemma {:induction false} ReplacedCons(p: Point, t: PyText)
    ensures Replaced([p] + t) == [Shown(p)] + Replaced(t)
  {
  }

  /** The same string, up to the lone surrogates, and the same length read. */
  ghost predicate Alike(go: Option<(string, nat)>, py: Option<(PyText, nat)>) {
    match py
    case None => go == None
    case Some(read) => go == Some((Replaced(read.0), read.1))
  }

  lemma {:induction false} StringEnds(s: string)
    requires s == "" || s[0] == '"' || PyReadChar(s) == None
    ensures Alike(ReadString(s), PyReadString(s))
  {
    if s != "" {
      CharsAgree(s);
      assert Replaced([]) == "";
    }
  }

  function Longer<T>(first: T, n: nat, rest: Option<(seq<T>, nat)>): Option<(seq<T>, nat)> {
    if rest.None? then None else Some(([first] + rest.value.0, n + rest.value.1))
  }

  lemma {:induction false} GoGoesOn(s: string, c: char, n: nat)
    requires s != "" && s[0] != '"' && ReadChar(s) == Some((c, n))
    ensures 1 <= n <= |s| && ReadString(s) == Longer(c, n, ReadString(s[n..]))
  {
    hide ReadChar;
  }

  lemma {:induction false} PyGoesOn(s: string, p: Point, n: nat)
    requires s != "" && s[0] != '"' && PyReadChar(s) == Some((p, n))
    ensures 1 <= n <= |s| && PyReadString(s) == Longer(p, n, PyReadString(s[n..]))
  {
    hide PyReadChar;
  }

  lemma {:induction false} LongerAlike(p: Point, n: nat, go: Option<(string, nat)>, py: Option<(PyText, nat)>)
    requires Alike(go, py)
    ensures Alike(Longer(Shown(p), n, go), Longer(p, n, py))
  {
    if py.Some? {
      ReplacedCons(p, py.value.0);
    }
  }

  /** Both programs read the same strings, up to the lone surrogates. */
  lemma {:induction false} StringsAgree(s: string)
    ensures Alike(ReadString(s), PyReadString(s))
    decreases |s|
  {
    hide ReadChar, PyReadChar, ReadString, PyReadString;
    if s == "" || s[0] == '"' || PyReadChar(s) == None {
      StringEnds(s);
    } else {
      var first := PyReadChar(s).value;
      CharsAgree(s);
      GoGoesOn(s, Shown(first.0), first.1);
      PyGoesOn(s, first.0, first.1);
      StringsAgree(s[first.1..]);
      LongerAlike(first.0, first.1, ReadString(s[first.1..]), PyReadString(s[first.1..]));
    }
  }

  // ----- tokens -----

  datatype PyToken = Mark(token: Token) | Text(text: PyText)

  function GoToken(t: PyToken): Token {
    match t
    case Mark(token) => token
    case Text(text) => Str(Replaced(text))
  }

  function GoTokens(ts: seq<PyToken>): (r: seq<Token>)
    ensures |r| == |ts| && forall i :: 0 <= i < |ts| ==> r[i] == GoToken(ts[i])
  {
    seq(|ts|, i requires 0 <= i < |ts| => GoToken(ts[i]))
  }

  function PyLex(text: string): seq<PyToken>
    decreases |text|
  {
    if text == "" then []
    else if Space(text[0]) then PyLex(text[1..])
    else if text[0] == '"' then
      (match PyReadString(text[1..])
       case None => [Mark(Bad)]
       case Some(s) => [Text(s.0)] + PyLex(text[s.1 + 1..]))
    else
      match ReadToken(text)
      case None => [Mark(Bad)]
      case Some(first) => [Mark(first.0)] + PyLex(text[first.1..])
  }

  /** A string is never read as anything else. */
  ghost predicate Lexed(ts: seq<PyToken>) {
    forall i :: 0 <= i < |ts| && ts[i].Mark? ==> !ts[i].token.Str?
  }

  /** Some string of the text holds a lone surrogate. */
  ghost predicate LoneIn(ts: seq<PyToken>) {
    exists i :: 0 <= i < |ts| && ts[i].Text? && HasLone(ts[i].text)
  }

  lemma {:induction false} LexQuoted(text: string)
    requires text != "" && text[0] == '"'
    ensures match PyReadString(text[1..])
      case None => PyLex(text) == [Mark(Bad)] && Lex(text) == [Bad]
      case Some(s) =>
        var rest := text[s.1 + 1..];
        PyLex(text) == [Text(s.0)] + PyLex(rest) && Lex(text) == [Str(Replaced(s.0))] + Lex(rest)
  {
    hide ReadString, PyReadString;
    StringsAgree(text[1..]);
  }

  lemma {:induction false} LexOther(text: string)
    requires text != "" && text[0] != '"' && !Space(text[0])
    ensures match ReadToken(text)
      case None => PyLex(text) == [Mark(Bad)] && Lex(text) == [Bad]
      case Some(first) =>
        var rest := text[first.1..];
        && !first.0.Str?
        && PyLex(text) == [Mark(first.0)] + PyLex(rest) && Lex(text) == [first.0] + Lex(rest)
  {
  }

  lemma {:induction false} LexAgrees(text: string)
    ensures GoTokens(PyLex(text)) == Lex(text) && Lexed(PyLex(text))
    decreases |text|
  {
    hide ReadToken, ReadString, PyReadString, Replaced;
    if text != "" {
      if Space(text[0]) {
        LexAgrees(text[1..]);
      } else if text[0] == '"' {
        LexQuoted(text);
        var s := PyReadString(text[1..]);
        if s.Some? {
          var rest := text[s.value.1 + 1..];
          LexAgrees(rest);
          GoTokensCons(Text(s.value.0), PyLex(rest));
        }
      } else {
        LexOther(text);
        var first := ReadToken(text);
        if first.Some? {
          var rest := text[first.value.1..];
          LexAgrees(rest);
          GoTokensCons(Mark(first.value.0), PyLex(rest));
        }
      }
    }
  }

  lemma {:induction false} GoTokensCons(t: PyToken, ts: seq<PyToken>)
    ensures GoTokens([t] + ts) == [GoToken(t)] + GoTokens(ts)
  {
  }

  lemma {:induction false} GoTokensTail(ts: seq<PyToken>)
    requires ts != []
    ensures GoTokens(ts[1..]) == GoTokens(ts)[1..]
    ensures Lexed(ts) ==> Lexed(ts[1..])
    ensures LoneIn(ts) <==> (ts[0].Text? && HasLone(ts[0].text)) || LoneIn(ts[1..])
  {
    LoneCons(ts[0], ts[1..]);
    assert ts == [ts[0]] + ts[1..];
  }

  lemma {:induction false} LoneCons(t: PyToken, ts: seq<PyToken>)
    ensures LoneIn([t] + ts) <==> (t.Text? && HasLone(t.text)) || LoneIn(ts)
  {
    var all := [t] + ts;
    if LoneIn(ts) {
      var i :| 0 <= i < |ts| && ts[i].Text? && HasLone(ts[i].text);
      assert all[i + 1] == ts[i];
    }
    assert all[0] == t;
  }

  // ----- values -----

  /** A Python value: numbers are integers, not texts. */
  datatype Py =
    | PyNone | PyBool(b: bool) | PyInt(n: int) | PyStr(s: PyText)
    | PyList(items: seq<Py>) | PyDict(members: map<PyText, Py>)

  /** Some string or key of the value holds a lone surrogate. */
  ghost predicate Broken(p: Py) {
    match p
    case PyStr(s) => HasLone(s)
    case PyList(items) => exists i :: 0 <= i < |items| && Broken(items[i])
    case PyDict(members) => exists k :: k in members && (HasLone(k) || Broken(members[k]))
    case _ => false
  }

  /** int() refuses a text with more digits than the limit of the interpreter
      (sys.set_int_max_str_digits); a limit of zero is none. */
  predicate TooLong(t: string, limit: nat) {
    limit > 0 && (if t != "" && t[0] == '-' then |t| - 1 else |t|) > limit
  }

  /** int(text), for the numbers that are not floats. */
  function PyNumber(t: string, limit: nat): Option<int> {
    if TooLong(t, limit) then None
    else if t == "-0" then Some(0)
    else if Integer(t) then Some(IntOf(t)) else None
  }

  /** Some number of the text is longer than the limit. */
  ghost predicate LongIn(ts: seq<PyToken>, limit: nat) {
    exists i :: 0 <= i < |ts| && LongToken(ts[i], limit)
  }

  predicate LongToken(t: PyToken, limit: nat) {
    t.Mark? && t.token.Num? && TooLong(t.token.text, limit)
  }

  // ----- the reader -----

  function PyAfter(ts: seq<PyToken>, separator: Token): (r: Option<seq<PyToken>>)
    ensures r.Some? ==> |r.value| < |ts|
  {
    if ts != [] && ts[0] == Mark(separator) then Some(ts[1..]) else None
  }

  function Lead(ts: seq<PyToken>, first: bool): (r: Option<seq<PyToken>>)
    ensures r.Some? ==> |r.value| <= |ts|
  {
    if first then Some(ts) else PyAfter(ts, Comma)
  }

  function PyRead(ts: seq<PyToken>, limit: nat): (r: Option<(Py, seq<PyToken>)>)
    ensures r.Some? ==> |r.value.1| < |ts|
    decreases |ts|, 0
  {
    if ts == [] then None
    else
      match ts[0]
      case Text(s) => Some((PyStr(s), ts[1..]))
      case Mark(Null) => Some((PyNone, ts[1..]))
      case Mark(True) => Some((PyBool(true), ts[1..]))
      case Mark(False) => Some((PyBool(false), ts[1..]))
      case Mark(Num(t)) =>
        (match PyNumber(t, limit)
         case None => None
         case Some(n) => Some((PyInt(n), ts[1..])))
      case Mark(LBracket) =>
        (match PyReadItems(ts[1..], limit, true)
         case None => None
         case Some(items) => Some((PyList(items.0), items.1)))
      case Mark(LBrace) =>
        (match PyReadMembers(ts[1..], limit, {}, true)
         case None => None
         case Some(members) => Some((PyDict(members.0), members.1)))
      case Mark(_) => None
  }

  function PyReadItems(ts: seq<PyToken>, limit: nat, first: bool): (r: Option<(seq<Py>, seq<PyToken>)>)
    ensures r.Some? ==> |r.value.1| < |ts|
    decreases |ts|, 1
  {
    if ts != [] && ts[0] == Mark(RBracket) then Some(([], ts[1..]))
    else
      match Lead(ts, first)
      case None => None
      case Some(lead) =>
        match PyRead(lead, limit)
        case None => None
        case Some(head) =>
          match PyReadItems(head.1, limit, false)
          case None => None
          case Some(tail) => Some(([head.0] + tail.0, tail.1))
  }

  /** reject_duplicate_pairs refuses a repeated key. */
  function PyReadMembers(ts: seq<PyToken>, limit: nat, seen: set<PyText>, first: bool)
    : (r: Option<(map<PyText, Py>, seq<PyToken>)>)
    ensures r.Some? ==> |r.value.1| < |ts| && r.value.0.Keys !! seen
    decreases |ts|, 1
  {
    if ts != [] && ts[0] == Mark(RBrace) then Some((map[], ts[1..]))
    else
      match Lead(ts, first)
      case None => None
      case Some(keyed) =>
        if keyed == [] || !keyed[0].Text? || keyed[0].text in seen then None
        else
          match PyAfter(keyed[1..], Colon)
          case None => None
          case Some(lead) =>
            match PyRead(lead, limit)
            case None => None
            case Some(value) =>
              match PyReadMembers(value.1, limit, seen + {keyed[0].text}, false)
              case None => None
              case Some(rest) => Some((rest.0[keyed[0].text := value.0], rest.1))
  }

  /** load_json */
  function Loads(text: string, limit: nat): Option<Py> {
    match PyRead(PyLex(text), limit)
    case None => None
    case Some(read) => if read.1 == [] then Some(read.0) else None
  }

  // ----- the limit on digits only makes it refuse -----

  /** r is what is read under the limit where all is read without one. */
  ghost predicate Cut<T>(ts: seq<PyToken>, limit: nat, r: Option<(T, seq<PyToken>)>, all: (T, seq<PyToken>)) {
    match r
    case None => LongIn(ts, limit)
    case Some(read) => read == all && (LongIn(ts, limit) <==> LongIn(all.1, limit))
  }

  lemma {:induction false} LongTail(ts: seq<PyToken>, limit: nat)
    requires ts != []
    ensures LongIn(ts, limit) <==> LongToken(ts[0], limit) || LongIn(ts[1..], limit)
  {
    assert ts == [ts[0]] + ts[1..];
    if LongIn(ts[1..], limit) {
      var i :| 0 <= i < |ts[1..]| && LongToken(ts[1..][i], limit);
      assert ts[i + 1] == ts[1..][i];
    }
  }

  lemma {:induction false} LongLead(ts: seq<PyToken>, limit: nat, first: bool)
    requires Lead(ts, first).Some?
    ensures LongIn(ts, limit) <==> LongIn(Lead(ts, first).value, limit)
  {
    if !first {
      LongTail(ts, limit);
    }
  }

  lemma {:induction false} ReadCut(ts: seq<PyToken>, limit: nat)
    requires PyRead(ts, 0).Some?
    ensures Cut(ts, limit, PyRead(ts, limit), PyRead(ts, 0).value)
    decreases |ts|, 0
  {
    LongTail(ts, limit);
    if ts[0] == Mark(LBracket) {
      ItemsCut(ts[1..], limit, true);
    } else if ts[0] == Mark(LBrace) {
      MembersCut(ts[1..], limit, {}, true);
    }
  }

  lemma {:induction false} ItemsCut(ts: seq<PyToken>, limit: nat, first: bool)
    requires PyReadItems(ts, 0, first).Some?
    ensures Cut(ts, limit, PyReadItems(ts, limit, first), PyReadItems(ts, 0, first).value)
    decreases |ts|, 1
  {
    if ts != [] && ts[0] == Mark(RBracket) {
      LongTail(ts, limit);
    } else {
      var lead := Lead(ts, first).value;
      LongLead(ts, limit, first);
      ReadCut(lead, limit);
      ItemsCut(PyRead(lead, 0).value.1, limit, false);
    }
  }

  lemma {:induction false} MembersCut(ts: seq<PyToken>, limit: nat, seen: set<PyText>, first: bool)
    requires PyReadMembers(ts, 0, seen, first).Some?
    ensures Cut(ts, limit, PyReadMembers(ts, limit, seen, first), PyReadMembers(ts, 0, seen, first).value)
    decreases |ts|, 1
  {
    if ts != [] && ts[0] == Mark(RBrace) {
      LongTail(ts, limit);
    } else {
      var keyed := Lead(ts, first).value;
      var lead := PyAfter(keyed[1..], Colon).value;
      LongLead(ts, limit, first);
      LongTail(keyed, limit);
      LongTail(keyed[1..], limit);
      ReadCut(lead, limit);
      MembersCut(PyRead(lead, 0).value.1, limit, seen + {keyed[0].text}, false);
    }
  }

  // ----- what it reads where the Go parser reads a value -----

  ghost function PlainSet(keys: set<string>): (r: set<PyText>)
    ensures forall k :: k in keys ==> Plain(k) in r
    ensures forall t :: t in r ==> Replaced(t) in keys && Plain(Replaced(t)) == t
  {
    forall k
      ensures Replaced(Plain(k)) == k
    {
      PlainReplaced(k);
    }
    set k | k in keys :: Plain(k)
  }

  /** The Python value of a value; outside the profile a number has none. */
  ghost function PyOf(v: Json): Py
    decreases v, 1
  {
    match v
    case JNull => PyNone
    case JBool(b) => PyBool(b)
    case JNumber(t) => if Integer(t) then PyInt(IntOf(t)) else PyNone
    case JString(s) => PyStr(Plain(s))
    case JArray(items) => PyList(seq(|items|, i requires 0 <= i < |items| => PyOf(items[i])))
    case JObject(members) => PyDict(map t | t in PlainSet(members.Keys) :: PyOf(members[Replaced(t)]))
  }

  ghost function PyMembersOf(members: map<string, Json>): map<PyText, Py> {
    map t | t in PlainSet(members.Keys) :: PyOf(members[Replaced(t)])
  }

  ghost function PyItemsOf(items: seq<Json>): seq<Py> {
    seq(|items|, i requires 0 <= i < |items| => PyOf(items[i]))
  }

  /** After reading the tokens ts up to rest: every lone surrogate read is in what was
      read, and without any the values correspond. */
  ghost predicate Follows(ts: seq<PyToken>, rest: seq<PyToken>, goRest: seq<Token>, broken: bool, same: bool) {
    && Lexed(rest) && GoTokens(rest) == goRest
    && (LoneIn(ts) ==> broken || LoneIn(rest))
    && (!LoneIn(ts) ==> same && !LoneIn(rest))
  }

  ghost predicate BrokenItems(items: seq<Py>) {
    exists i :: 0 <= i < |items| && Broken(items[i])
  }

  ghost predicate BrokenMembers(members: map<PyText, Py>) {
    exists k :: k in members && (HasLone(k) || Broken(members[k]))
  }

  lemma {:induction false} AfterAgrees(ts: seq<PyToken>, separator: Token)
    requires Lexed(ts) && !separator.Str?
    ensures match PyAfter(ts, separator)
      case None => After(GoTokens(ts), separator) == [Bad]
      case Some(rest) =>
        && Lexed(rest) && GoTokens(rest) == After(GoTokens(ts), separator) && (LoneIn(ts) <==> LoneIn(rest))
  {
    if ts != [] {
      GoTokensTail(ts);
      assert GoTokens(ts)[0] == GoToken(ts[0]);
    }
  }

  lemma {:induction false} LeadAgrees(ts: seq<PyToken>, first: bool)
    requires Lexed(ts)
    ensures var go := if first then GoTokens(ts) else After(GoTokens(ts), Comma);
      match Lead(ts, first)
      case None => go == [Bad]
      case Some(lead) => Lexed(lead) && GoTokens(lead) == go && (LoneIn(ts) <==> LoneIn(lead))
  {
    AfterAgrees(ts, Comma);
  }

  lemma {:induction false} LeafAgrees(ts: seq<PyToken>, depth: nat)
    requires Lexed(ts) && ts != [] && LeafToken(GoToken(ts[0])) && IntegersOnly(Leaf(GoToken(ts[0])))
    ensures var doc, r := Leaf(GoToken(ts[0])), PyRead(ts, 0);
      r.Some? && Follows(ts, r.value.1, GoTokens(ts)[1..], Broken(r.value.0), r.value.0 == PyOf(ValueOf(doc)))
  {
    GoTokensTail(ts);
    if ts[0].Text? && !HasLone(ts[0].text) {
      ReplacedPlain(ts[0].text);
    }
  }

  /** What the readers of single values must do on ts. */
  ghost predicate ReadsAlike(ts: seq<PyToken>, depth: nat) {
    var o, r := ReadDoc(GoTokens(ts), depth, None), PyRead(ts, 0);
    o.Read? && r.Some?
    && Follows(ts, r.value.1, o.rest, Broken(r.value.0), r.value.0 == PyOf(ValueOf(o.value)))
  }

  lemma {:induction false} ReadAgrees(ts: seq<PyToken>, depth: nat)
    requires Lexed(ts) && ReadDoc(GoTokens(ts), depth, None).Read?
    requires IntegersOnly(ReadDoc(GoTokens(ts), depth, None).value)
    ensures ReadsAlike(ts, depth)
    decreases |ts|, 1
  {
    GoTokensTail(ts);
    assert GoTokens(ts)[0] == GoToken(ts[0]);
    if ts[0] == Mark(LBracket) {
      ArrayAgrees(ts, depth);
    } else if ts[0] == Mark(LBrace) {
      ObjectAgrees(ts, depth);
    } else {
      LeafAgrees(ts, depth);
    }
  }

  /** A bracket in front changes nothing. */
  lemma {:induction false} FollowsOn(ts: seq<PyToken>, rest: seq<PyToken>, goRest: seq<Token>,
                                     broken: bool, sameParts: bool, same: bool)
    requires ts != [] && LoneIn(ts) == LoneIn(ts[1..]) && (sameParts ==> same)
    requires Follows(ts[1..], rest, goRest, broken, sameParts)
    ensures Follows(ts, rest, goRest, broken, same)
  {
  }

  lemma {:induction false} ArrayAgrees(ts: seq<PyToken>, depth: nat)
    requires Lexed(ts) && ts != [] && ts[0] == Mark(LBracket) && ReadDoc(GoTokens(ts), depth, None).Read?
    requires IntegersOnly(ReadDoc(GoTokens(ts), depth, None).value)
    ensures ReadsAlike(ts, depth)
    decreases |ts|, 0
  {
    GoTokensTail(ts);
    OpensArray(ts, depth);
    ItemsAgree(ts[1..], depth + 1, true);
    var o, r := ReadItems(GoTokens(ts[1..]), depth + 1, None, true), PyReadItems(ts[1..], 0, true);
    BrokenList(r.value.0);
    var same := r.value.0 == PyItemsOf(ItemsOf(o.value));
    if same {
      SameList(r.value.0, o.value);
    }
    FollowsOn(ts, r.value.1, o.rest, BrokenItems(r.value.0), same, PyList(r.value.0) == PyOf(ValueOf(Array(o.value))));
  }

  lemma {:induction false} BrokenList(items: seq<Py>)
    ensures Broken(PyList(items)) <==> BrokenItems(items)
  {
  }

  lemma {:induction false} SameList(items: seq<Py>, docs: Docs)
    requires items == PyItemsOf(ItemsOf(docs))
    ensures PyList(items) == PyOf(ValueOf(Array(docs)))
  {
    ArrayValue(docs);
    PyOfArray(ItemsOf(docs));
  }

  lemma {:induction false} ArrayValue(docs: Docs)
    ensures ValueOf(Array(docs)) == JArray(ItemsOf(docs))
  {
  }

  lemma {:induction false} PyOfArray(items: seq<Json>)
    ensures PyOf(JArray(items)) == PyList(PyItemsOf(items))
  {
  }

  lemma {:induction false} ObjectAgrees(ts: seq<PyToken>, depth: nat)
    requires Lexed(ts) && ts != [] && ts[0] == Mark(LBrace) && ReadDoc(GoTokens(ts), depth, None).Read?
    requires IntegersOnly(ReadDoc(GoTokens(ts), depth, None).value)
    ensures ReadsAlike(ts, depth)
    decreases |ts|, 0
  {
    GoTokensTail(ts);
    OpensObject(ts, depth);
    MembersAgree(ts[1..], depth + 1, {}, {}, true);
    var o, r := ReadMembers(GoTokens(ts[1..]), depth + 1, None, {}, true), PyReadMembers(ts[1..], 0, {}, true);
    BrokenDict(r.value.0);
    var same := r.value.0 == PyMembersOf(MembersOf(o.value));
    if same {
      SameDict(r.value.0, o.value);
    }
    FollowsOn(ts, r.value.1, o.rest, BrokenMembers(r.value.0), same,
              PyDict(r.value.0) == PyOf(ValueOf(Object(o.value))));
  }

  lemma {:induction false} BrokenDict(members: map<PyText, Py>)
    ensures Broken(PyDict(members)) <==> BrokenMembers(members)
  {
  }

  lemma {:induction false} SameDict(members: map<PyText, Py>, docs: Members)
    requires members == PyMembersOf(MembersOf(docs))
    ensures PyDict(members) == PyOf(ValueOf(Object(docs)))
  {
    ObjectValue(docs);
    PyOfObject(MembersOf(docs));
  }

  lemma {:induction false} ObjectValue(docs: Members)
    ensures ValueOf(Object(docs)) == JObject(MembersOf(docs))
  {
  }

  lemma {:induction false} PyOfObject(members: map<string, Json>)
    ensures PyOf(JObject(members)) == PyDict(PyMembersOf(members))
  {
  }

  lemma {:induction false} OpensArray(ts: seq<PyToken>, depth: nat)
    requires ts != [] && ts[0] == Mark(LBracket) && GoTokens(ts[1..]) == GoTokens(ts)[1..]
    ensures var o := ReadItems(GoTokens(ts[1..]), depth + 1, None, true);
      ReadDoc(GoTokens(ts), depth, None) == if o.Read? then Read(Array(o.value), o.rest) else Failed(o.reason)
    ensures var r := PyReadItems(ts[1..], 0, true);
      PyRead(ts, 0) == if r.Some? then Some((PyList(r.value.0), r.value.1)) else None
  {
  }

  lemma {:induction false} OpensObject(ts: seq<PyToken>, depth: nat)
    requires ts != [] && ts[0] == Mark(LBrace) && GoTokens(ts)[1..] == GoTokens(ts[1..])
    ensures var o := ReadMembers(GoTokens(ts[1..]), depth + 1, None, {}, true);
      ReadDoc(GoTokens(ts), depth, None) == if o.Read? then Read(Object(o.value), o.rest) else Failed(o.reason)
    ensures var r := PyReadMembers(ts[1..], 0, {}, true);
      PyRead(ts, 0) == if r.Some? then Some((PyDict(r.value.0), r.value.1)) else None
  {
  }

  lemma {:induction false} ItemsAgree(ts: seq<PyToken>, depth: nat, first: bool)
    requires Lexed(ts) && ReadItems(GoTokens(ts), depth, None, first).Read?
    requires ItemsIntegersOnly(ReadItems(GoTokens(ts), depth, None, first).value)
    ensures var o, r := ReadItems(GoTokens(ts), depth, None, first), PyReadItems(ts, 0, first);
      r.Some? && Follows(ts, r.value.1, o.rest, BrokenItems(r.value.0), r.value.0 == PyItemsOf(ItemsOf(o.value)))
    decreases |ts|, 2
  {
    if ts != [] {
      GoTokensTail(ts);
      assert GoTokens(ts)[0] == GoToken(ts[0]);
    }
    if MoreIn(GoTokens(ts)) {
      LeadAgrees(ts, first);
      var lead := Lead(ts, first).value;
      ReadAgrees(lead, depth);
      var head := PyRead(lead, 0).value;
      ItemsAgree(head.1, depth, false);
      var tail := PyReadItems(head.1, 0, false).value;
      ItemsGrow(head.0, tail.0);
      ItemsStep(ts, lead, depth, first);
      PyItemsCons(ReadDoc(GoTokens(lead), depth, None).value, ReadItems(GoTokens(head.1), depth, None, false).value);
    }
  }

  /** Both readers take an item off the front alike. */
  lemma {:induction false} ItemsStep(ts: seq<PyToken>, lead: seq<PyToken>, depth: nat, first: bool)
    requires MoreIn(GoTokens(ts)) && GoTokens(ts)[0] == GoToken(ts[0]) && Lead(ts, first) == Some(lead)
    requires GoTokens(lead) == if first then GoTokens(ts) else After(GoTokens(ts), Comma)
    requires ReadItems(GoTokens(ts), depth, None, first).Read?
    ensures ReadDoc(GoTokens(lead), depth, None).Read?
    ensures var go := ReadDoc(GoTokens(lead), depth, None);
      ReadItems(go.rest, depth, None, false).Read?
    ensures var go := ReadDoc(GoTokens(lead), depth, None);
      var goTail := ReadItems(go.rest, depth, None, false);
      ReadItems(GoTokens(ts), depth, None, first) == Read(Item(go.value, goTail.value), goTail.rest)
    ensures var head := PyRead(lead, 0); head.Some? ==>
      var tail := PyReadItems(head.value.1, 0, false); tail.Some? ==>
        PyReadItems(ts, 0, first) == Some(([head.value.0] + tail.value.0, tail.value.1))
  {
  }

  lemma {:induction false} PyItemsCons(head: Doc, tail: Docs)
    ensures PyItemsOf(ItemsOf(Item(head, tail))) == [PyOf(ValueOf(head))] + PyItemsOf(ItemsOf(tail))
  {
    var all := [ValueOf(head)] + ItemsOf(tail);
    assert PyItemsOf(all) == [PyOf(all[0])] + PyItemsOf(all[1..]);
    assert all[1..] == ItemsOf(tail);
  }

  lemma {:induction false} ItemsGrow(head: Py, tail: seq<Py>)
    ensures BrokenItems([head] + tail) <==> Broken(head) || BrokenItems(tail)
  {
    var all := [head] + tail;
    if BrokenItems(tail) {
      var i :| 0 <= i < |tail| && Broken(tail[i]);
      assert all[i + 1] == tail[i];
    }
    if Broken(head) {
      assert all[0] == head;
    }
  }

  lemma {:induction false} MembersAgree(ts: seq<PyToken>, depth: nat, seen: set<string>, pySeen: set<PyText>,
                                        first: bool)
    requires Lexed(ts) && ReadMembers(GoTokens(ts), depth, None, seen, first).Read?
    requires MembersIntegersOnly(ReadMembers(GoTokens(ts), depth, None, seen, first).value)
    requires forall t :: t in pySeen ==> Replaced(t) in seen
    ensures var o, r := ReadMembers(GoTokens(ts), depth, None, seen, first), PyReadMembers(ts, 0, pySeen, first);
      r.Some? && Follows(ts, r.value.1, o.rest, BrokenMembers(r.value.0), r.value.0 == PyMembersOf(MembersOf(o.value)))
    decreases |ts|, 2
  {
    if ts != [] {
      GoTokensTail(ts);
      assert GoTokens(ts)[0] == GoToken(ts[0]);
    }
    if MoreIn(GoTokens(ts)) {
      LeadAgrees(ts, first);
      var keyed := Lead(ts, first).value;
      GoTokensTail(keyed);
      assert GoTokens(keyed)[0] == GoToken(keyed[0]);
      var key := keyed[0].text;
      AfterAgrees(keyed[1..], Colon);
      var lead := PyAfter(keyed[1..], Colon).value;
      ReadAgrees(lead, depth);
      var value := PyRead(lead, 0).value;
      MembersAgree(value.1, depth, seen + {Replaced(key)}, pySeen + {key}, false);
      var rest := PyReadMembers(value.1, 0, pySeen + {key}, false).value;
      MembersGrow(rest.0, key, value.0);
      MembersStep(ts, keyed, lead, depth, seen, pySeen, first);
      PyMembersCons(GoTokens(value.1), depth, seen, key, ReadDoc(GoTokens(lead), depth, None).value);
    }
  }

  /** Both readers take a member off the front alike. */
  lemma {:induction false} MembersStep(ts: seq<PyToken>, keyed: seq<PyToken>, lead: seq<PyToken>, depth: nat,
                                       seen: set<string>, pySeen: set<PyText>, first: bool)
    requires MoreIn(GoTokens(ts)) && GoTokens(ts)[0] == GoToken(ts[0]) && Lead(ts, first) == Some(keyed)
    requires GoTokens(keyed) == if first then GoTokens(ts) else After(GoTokens(ts), Comma)
    requires keyed != [] && keyed[0].Text? && GoTokens(keyed)[0] == GoToken(keyed[0]) && keyed[0].text !in pySeen
    requires PyAfter(keyed[1..], Colon) == Some(lead) && GoTokens(lead) == After(GoTokens(keyed)[1..], Colon)
    requires ReadMembers(GoTokens(ts), depth, None, seen, first).Read?
    ensures ReadDoc(GoTokens(lead), depth, None).Read?
    ensures var key, go := keyed[0].text, ReadDoc(GoTokens(lead), depth, None);
      ReadMembers(go.rest, depth, None, seen + {Replaced(key)}, false).Read?
    ensures var key, go := keyed[0].text, ReadDoc(GoTokens(lead), depth, None);
      var goRest := ReadMembers(go.rest, depth, None, seen + {Replaced(key)}, false);
      ReadMembers(GoTokens(ts), depth, None, seen, first)
        == Read(Member(Replaced(key), go.value, goRest.value), goRest.rest)
    ensures var key, value := keyed[0].text, PyRead(lead, 0); value.Some? ==>
      var rest := PyReadMembers(value.value.1, 0, pySeen + {key}, false); rest.Some? ==>
        PyReadMembers(ts, 0, pySeen, first) == Some((rest.value.0[key := value.value.0], rest.value.1))
  {
  }

  lemma {:induction false} PyMembersCons(ts: seq<Token>, depth: nat, seen: set<string>, key: PyText, value: Doc)
    requires ReadMembers(ts, depth, None, seen + {Replaced(key)}, false).Read?
    ensures var rest := ReadMembers(ts, depth, None, seen + {Replaced(key)}, false).value;
      !HasLone(key) ==>
        PyMembersOf(MembersOf(Member(Replaced(key), value, rest)))
          == PyMembersOf(MembersOf(rest))[key := PyOf(ValueOf(value))]
  {
    var rest := ReadMembers(ts, depth, None, seen + {Replaced(key)}, false).value;
    ReadMembersSound(ts, depth, None, seen + {Replaced(key)}, false);
    ProfileOfMembers(rest);
    if !HasLone(key) {
      PlainMember(MembersOf(rest), key, ValueOf(value));
    }
  }

  lemma {:induction false} MembersGrow(members: map<PyText, Py>, key: PyText, value: Py)
    requires key !in members
    ensures BrokenMembers(members[key := value]) <==> HasLone(key) || Broken(value) || BrokenMembers(members)
  {
    var all := members[key := value];
    if BrokenMembers(members) {
      var k :| k in members && (HasLone(k) || Broken(members[k]));
      assert k in all && all[k] == members[k];
    }
    assert key in all && all[key] == value;
  }

  lemma {:induction false} PlainMember(members: map<string, Json>, key: PyText, value: Json)
    requires !HasLone(key) && Replaced(key) !in members
    ensures PyMembersOf(map[Replaced(key) := value] + members) == PyMembersOf(members)[key := PyOf(value)]
  {
    hide PyOf, PyMembersOf, PlainSet;
    var all := map[Replaced(key) := value] + members;
    assert all.Keys == members.Keys + {Replaced(key)};
    PlainSetGrows(members.Keys, key);
    PyKeys(all);
    PyKeys(members);
    forall t | t in PlainSet(all.Keys)
      ensures PyMembersOf(all)[t] == PyMembersOf(members)[key := PyOf(value)][t]
    {
      PyEntry(all, t);
      if t != key {
        PyEntry(members, t);
        Unchanged(members, key, value, t);
      }
    }
    SameMaps(PyMembersOf(all), PyMembersOf(members)[key := PyOf(value)]);
  }

  lemma {:induction false} SameMaps<K, V>(a: map<K, V>, b: map<K, V>)
    requires a.Keys == b.Keys && forall k :: k in a ==> a[k] == b[k]
    ensures a == b
  {
  }

  lemma {:induction false} PyKeys(members: map<string, Json>)
    ensures PyMembersOf(members).Keys == PlainSet(members.Keys)
  {
  }

  lemma {:induction false} PyEntry(members: map<string, Json>, t: PyText)
    requires t in PlainSet(members.Keys)
    ensures t in PyMembersOf(members) && PyMembersOf(members)[t] == PyOf(members[Replaced(t)])
  {
  }

  lemma {:induction false} Unchanged(members: map<string, Json>, key: PyText, value: Json, t: PyText)
    requires t in PlainSet(members.Keys) && Replaced(key) !in members
    ensures (map[Replaced(key) := value] + members)[Replaced(t)] == members[Replaced(t)]
  {
  }

  lemma {:induction false} PlainSetGrows(keys: set<string>, key: PyText)
    requires !HasLone(key)
    ensures PlainSet(keys + {Replaced(key)}) == PlainSet(keys) + {key}
  {
    ReplacedPlain(key);
    forall t
      ensures t in PlainSet(keys + {Replaced(key)}) <==> t in PlainSet(keys) || t == key
    {
      if t in PlainSet(keys + {Replaced(key)}) {
        assert Plain(Replaced(t)) == t;
      }
    }
  }

  /** Where the Go parser reads a profile value, Python reads a value too unless a number
      is longer than the limit: without lone surrogates the same value, and otherwise one
      that holds a lone surrogate. */
  lemma {:induction false} LoadsAgrees(text: string, limit: nat)
    requires ParseText(text).Some? && InProfile(ParseText(text).value)
    ensures Loads(text, limit).Some? <==> !LongIn(PyLex(text), limit)
    ensures Loads(text, limit).Some? ==>
      if LoneIn(PyLex(text)) then Broken(Loads(text, limit).value)
      else Loads(text, limit).value == PyOf(ParseText(text).value)
  {
    var ts := PyLex(text);
    LexAgrees(text);
    var o := ReadDoc(Lex(text), 0, None);
    ReadDocSound(Lex(text), 0, None);
    ProfileOfDoc(o.value);
    ReadAgrees(ts, 0);
    ReadCut(ts, limit);
  }
}
