// The tokens of a JSON text (RFC 8259, sections 2, 3, 6 and 7), as the Go decoder
// reads them, and the spellings the canonical printer writes.
module JsonLex {
  import opened Collections
  import opened Text

  /** Bad marks the place where the text stops being a token sequence. */
  datatype Token =
    | LBrace | RBrace | LBracket | RBracket | Colon | Comma
    | Null | True | False | Str(value: string) | Num(text: string) | Bad

  predicate Space(c: char) {
    c == ' ' || c == '\t' || c == '\n' || c == '\r'
  }

  function Lex(text: string): seq<Token>
    decreases |text|
  {
    if text == "" then []
    else if Space(text[0]) then Lex(text[1..])
    else
      match ReadToken(text)
      case None => [Bad]
      case Some(first) => [first.0] + Lex(text[first.1..])
  }

  /** The first token of the text and its length. */
  function ReadToken(text: string): (r: Option<(Token, nat)>)
    requires text != ""
    ensures r.Some? ==> 1 <= r.value.1 <= |text|
  {
    match text[0]
    case '{' => Some((LBrace, 1))
    case '}' => Some((RBrace, 1))
    case '[' => Some((LBracket, 1))
    case ']' => Some((RBracket, 1))
    case ':' => Some((Colon, 1))
    case ',' => Some((Comma, 1))
    case 'n' => ReadWord(text, "null", Null)
    case 't' => ReadWord(text, "true", True)
    case 'f' => ReadWord(text, "false", False)
    case '"' =>
      (match ReadString(text[1..])
       case None => None
       case Some(s) => Some((Str(s.0), s.1 + 1)))
    case _ =>
      (match NumberLength(text)
       case None => None
       case Some(n) => Some((Num(text[..n]), n)))
  }

  function ReadWord(text: string, word: string, token: Token): (r: Option<(Token, nat)>)
    requires word != ""
    ensures r.Some? ==> 1 <= r.value.1 <= |text|
  {
    if word <= text then Some((token, |word|)) else None
  }

  // ----- numbers -----

  function DigitRun(s: string): (n: nat)
    ensures n <= |s|
    decreases |s|
  {
    if s != "" && Digit(s[0]) then 1 + DigitRun(s[1..]) else 0
  }

  function IntLength(s: string): (r: Option<nat>)
    ensures r.Some? ==> 1 <= r.value <= |s|
  {
    if s == "" then None
    else if s[0] == '-' then
      (match UnsignedLength(s[1..])
       case None => None
       case Some(n) => Some(n + 1))
    else UnsignedLength(s)
  }

  function UnsignedLength(s: string): (r: Option<nat>)
    ensures r.Some? ==> 1 <= r.value <= |s|
  {
    if s == "" || !Digit(s[0]) then None else if s[0] == '0' then Some(1) else Some(DigitRun(s))
  }

  function FractionLength(s: string): (r: Option<nat>)
    ensures r.Some? ==> r.value <= |s|
  {
    if s == "" || s[0] != '.' then Some(0)
    else if DigitRun(s[1..]) == 0 then None else Some(1 + DigitRun(s[1..]))
  }

  function ExponentLength(s: string): (r: Option<nat>)
    ensures r.Some? ==> r.value <= |s|
  {
    if s == "" || (s[0] != 'e' && s[0] != 'E') then Some(0)
    else
      var sign := if |s| >= 2 && (s[1] == '+' || s[1] == '-') then 1 else 0;
      if DigitRun(s[1 + sign..]) == 0 then None else Some(1 + sign + DigitRun(s[1 + sign..]))
  }

  function NumberLength(s: string): (r: Option<nat>)
    ensures r.Some? ==> 1 <= r.value <= |s|
  {
    match IntLength(s)
    case None => None
    case Some(i) =>
      match FractionLength(s[i..])
      case None => None
      case Some(f) =>
        match ExponentLength(s[i + f..])
        case None => None
        case Some(e) => Some(i + f + e)
  }

  // ----- strings -----

  /** The text up to and including the closing quote. */
  function ReadString(s: string): (r: Option<(string, nat)>)
    ensures r.Some? ==> 1 <= r.value.1 <= |s|
    decreases |s|
  {
    if s == "" then None
    else if s[0] == '"' then Some(("", 1))
    else
      match ReadChar(s)
      case None => None
      case Some(first) =>
        match ReadString(s[first.1..])
        case None => None
        case Some(rest) => Some(([first.0] + rest.0, first.1 + rest.1))
  }

  function ReadChar(s: string): (r: Option<(char, nat)>)
    requires s != ""
    ensures r.Some? ==> 1 <= r.value.1 <= |s|
  {
    if s[0] < ' ' then None
    else if s[0] != '\\' then Some((s[0], 1))
    else if |s| < 2 then None
    else
      match s[1]
      case '"' => Some(('"', 2))
      case '\\' => Some(('\\', 2))
      case '/' => Some(('/', 2))
      case 'b' => Some(('\U{8}', 2))
      case 'f' => Some(('\U{C}', 2))
      case 'n' => Some(('\n', 2))
      case 'r' => Some(('\r', 2))
      case 't' => Some(('\t', 2))
      case 'u' => ReadUnicode(s)
      case _ => None
  }

  function HexValue(c: char): Option<nat> {
    if '0' <= c <= '9' then Some(c as int - '0' as int)
    else if 'a' <= c <= 'f' then Some(c as int - 'a' as int + 10)
    else if 'A' <= c <= 'F' then Some(c as int - 'A' as int + 10)
    else None
  }

  /** The code unit of an escape \\uXXXX at the start of s. */
  function CodeUnit(s: string): (r: Option<nat>)
    ensures r.Some? ==> |s| >= 6 && r.value < 0x10000
  {
    if |s| < 6 || s[0] != '\\' || s[1] != 'u' then None
    else
      var a, b, c, d := HexValue(s[2]), HexValue(s[3]), HexValue(s[4]), HexValue(s[5]);
      if a.Some? && b.Some? && c.Some? && d.Some?
      then Some(((a.value * 16 + b.value) * 16 + c.value) * 16 + d.value)
      else None
  }

  /** A surrogate pair is one character; a lone surrogate reads as U+FFFD. */
  function ReadUnicode(s: string): (r: Option<(char, nat)>)
    ensures r.Some? ==> 1 <= r.value.1 <= |s|
  {
    match CodeUnit(s)
    case None => None
    case Some(v) =>
      if v < 0xD800 || 0xE000 <= v then Some((v as char, 6))
      else
        match CodeUnit(s[6..])
        case Some(w) =>
          if v < 0xDC00 && 0xDC00 <= w < 0xE000
          then Some(((0x10000 + (v - 0xD800) * 0x400 + (w - 0xDC00)) as char, 12))
          else Some(('\U{FFFD}', 6))
        case None => Some(('\U{FFFD}', 6))
  }

  // ----- the canonical spellings -----

  function HexDigit(n: nat): char
    requires n < 16
  {
    if n < 10 then ('0' as int + n) as char else ('a' as int + n - 10) as char
  }

  function Escape(c: char): string {
    match c
    case '"' => "\\\""
    case '\\' => "\\\\"
    case '\U{8}' => "\\b"
    case '\U{C}' => "\\f"
    case '\n' => "\\n"
    case '\r' => "\\r"
    case '\t' => "\\t"
    case _ => if c < ' ' then "\\u00" + [HexDigit(c as int / 16), HexDigit(c as int % 16)] else [c]
  }

  function EscapeAll(s: string): string {
    if s == "" then "" else Escape(s[0]) + EscapeAll(s[1..])
  }

  function Quote(s: string): string {
    "\"" + EscapeAll(s) + "\""
  }

  /** -?(0|[1-9][0-9]*), and not -0 */
  predicate Integer(t: string) {
    t != "-0" && t != "" && if t[0] == '-' then Unsigned(t[1..]) else Unsigned(t)
  }

  predicate Unsigned(t: string) {
    t != "" && DigitRun(t) == |t| && (t[0] == '0' ==> |t| == 1)
  }

  // ----- reading back what was spelled -----

  lemma {:induction false} EscapeReads(c: char, rest: string)
    ensures ReadChar(Escape(c) + rest) == Some((c, |Escape(c)|)) && Escape(c)[0] != '"'
  {
    var s := Escape(c) + rest;
    if c < ' ' && s[1] == 'u' {
      var v := c as int;
      assert s[4] == HexDigit(v / 16) && s[5] == HexDigit(v % 16);
      assert HexValue(s[4]) == Some(v / 16) && HexValue(s[5]) == Some(v % 16);
      assert CodeUnit(s) == Some(v);
    }
  }

  lemma {:induction false} QuoteReads(v: string, rest: string)
    ensures ReadString(EscapeAll(v) + "\"" + rest) == Some((v, |EscapeAll(v)| + 1))
  {
    hide ReadChar, Escape;
    if v != "" {
      var tail := EscapeAll(v[1..]) + "\"" + rest;
      QuoteSplits(v, rest);
      EscapeReads(v[0], tail);
      QuoteReads(v[1..], rest);
      ReadOneMore(v[0], tail, v[1..], |EscapeAll(v[1..])| + 1);
      assert v == [v[0]] + v[1..];
    }
  }

  lemma {:induction false} QuoteSplits(v: string, rest: string)
    requires v != ""
    ensures EscapeAll(v) + "\"" + rest == Escape(v[0]) + (EscapeAll(v[1..]) + "\"" + rest)
  {
    Regroup(Escape(v[0]), EscapeAll(v[1..]), "\"");
    Regroup(Escape(v[0]), EscapeAll(v[1..]) + "\"", rest);
  }

  lemma {:induction false} ReadOneMore(c: char, tail: string, value: string, n: nat)
    requires ReadChar(Escape(c) + tail) == Some((c, |Escape(c)|)) && Escape(c)[0] != '"'
    requires ReadString(tail) == Some((value, n))
    ensures ReadString(Escape(c) + tail) == Some(([c] + value, |Escape(c)| + n))
  {
    assert (Escape(c) + tail)[|Escape(c)|..] == tail;
  }

  lemma {:induction false} LexString(v: string, rest: string)
    ensures Lex(Quote(v) + rest) == [Str(v)] + Lex(rest)
  {
    var s := Quote(v) + rest;
    assert s[1..] == EscapeAll(v) + "\"" + rest;
    QuoteReads(v, rest);
    assert s[|EscapeAll(v)| + 2..] == rest;
  }

  /** What may follow a number without becoming part of it. */
  predicate Separable(rest: string) {
    rest == "" || !(Digit(rest[0]) || rest[0] == '.' || rest[0] == 'e' || rest[0] == 'E')
  }

  lemma {:induction false} DigitRunStops(t: string, rest: string)
    requires DigitRun(t) == |t| && Separable(rest)
    ensures DigitRun(t + rest) == |t|
  {
    if t == "" {
      assert t + rest == rest;
    } else {
      DigitRunStops(t[1..], rest);
      assert (t + rest)[1..] == t[1..] + rest;
    }
  }

  lemma {:induction false} UnsignedReads(t: string, rest: string)
    requires Unsigned(t) && Separable(rest)
    ensures UnsignedLength(t + rest) == Some(|t|)
  {
    DigitRunStops(t, rest);
  }

  lemma {:induction false} LexInteger(t: string, rest: string)
    requires Integer(t) && Separable(rest)
    ensures Lex(t + rest) == [Num(t)] + Lex(rest)
  {
    var s := t + rest;
    if t[0] == '-' {
      UnsignedReads(t[1..], rest);
      assert s[1..] == t[1..] + rest;
    } else {
      UnsignedReads(t, rest);
    }
    assert IntLength(s) == Some(|t|);
    assert s[|t|..] == rest && s[..|t|] == t && s[|t| + 0..] == rest;
    assert NumberLength(s) == Some(|t|);
  }

  lemma {:induction false} LexMark(c: char, token: Token, rest: string)
    requires ReadToken([c] + rest) == Some((token, 1)) && !Space(c)
    ensures Lex([c] + rest) == [token] + Lex(rest)
  {
    assert ([c] + rest)[1..] == rest;
  }

  lemma {:induction false} LexWord(word: string, token: Token, rest: string)
    requires (word, token) in {("null", Null), ("true", True), ("false", False)}
    ensures Lex(word + rest) == [token] + Lex(rest)
  {
    var s := word + rest;
    assert s[|word|..] == rest;
    assert ReadToken(s) == Some((token, |word|));
  }

  /** Space between tokens means nothing. */
  lemma {:induction false} LexSkips(ws: string, rest: string)
    requires forall i :: 0 <= i < |ws| ==> Space(ws[i])
    ensures Lex(ws + rest) == Lex(rest)
  {
    if ws == "" {
      assert ws + rest == rest;
    } else {
      LexSkips(ws[1..], rest);
      assert (ws + rest)[1..] == ws[1..] + rest;
    }
  }
}
