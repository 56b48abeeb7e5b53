// All spellings of the tokens (RFC 8259, sections 2, 3, 6 and 7), by tables and positions,
// and that the lexer reads exactly these.
module JsonSpelling {
  import opened Collections
  import opened JsonLex

  // ----- characters -----

  const LOWER_HEX := "0123456789abcdef"
  const UPPER_HEX := "0123456789ABCDEF"

  /** The digit c stands for v, in either case. */
  ghost predicate HexDigitOf(c: char, v: int) {
    0 <= v < 16 && (c == LOWER_HEX[v] || c == UPPER_HEX[v])
  }

  ghost predicate FourDigits(s: string, a: int, b: int, c: int, d: int)
    requires |s| >= 6
  {
    HexDigitOf(s[2], a) && HexDigitOf(s[3], b) && HexDigitOf(s[4], c) && HexDigitOf(s[5], d)
  }

  /** s begins with the escape of the code unit u. */
  ghost predicate UnitAt(s: string, u: int) {
    && |s| >= 6 && s[0] == '\\' && s[1] == 'u'
    && exists a, b, c, d :: FourDigits(s, a, b, c, d) && u == a * 4096 + b * 256 + c * 16 + d
  }

  const SHORT_ESCAPES: map<char, char> := map[
    '"' := '"', '\\' := '\\', '/' := '/',
    'b' := '\U{8}', 'f' := '\U{C}', 'n' := '\U{A}', 'r' := '\U{D}', 't' := '\U{9}']

  predicate HighUnit(u: int) {
    0xD800 <= u <= 0xDBFF
  }

  predicate LowUnit(u: int) {
    0xDC00 <= u <= 0xDFFF
  }

  ghost predicate PairAt(s: string, u: int, l: int) {
    HighUnit(u) && LowUnit(l) && UnitAt(s, u) && UnitAt(s[6..], l)
  }

  /** s begins with a spelling of c of n characters: the character itself, a short escape, a
      code unit, a surrogate pair; and a surrogate that is no part of a pair spells U+FFFD. */
  ghost predicate CharAt(s: string, c: char, n: nat) {
    || (n == 1 && s != "" && s[0] == c && c >= '\U{20}' && c != '"' && c != '\\')
    || (n == 2 && |s| >= 2 && s[0] == '\\' && s[1] in SHORT_ESCAPES && SHORT_ESCAPES[s[1]] == c)
    || (n == 6 && UnitAt(s, c as int))
    || (n == 12 && |s| >= 12
        && exists u, l :: PairAt(s, u, l) && c as int == 0x10000 + (u - 0xD800) * 0x400 + (l - 0xDC00))
    || (n == 6 && c == '\U{FFFD}' && exists u :: UnitAt(s, u) && LoneAt(s, u))
  }

  ghost predicate LoneAt(s: string, u: int) {
    LowUnit(u) || (HighUnit(u) && |s| >= 6 && forall l :: LowUnit(l) ==> !UnitAt(s[6..], l))
  }

  /** The text between two quotes spells v. */
  ghost predicate Spells(body: string, v: string)
    decreases |v|
  {
    if v == "" then body == ""
    else exists n :: 1 <= n <= |body| && CharAt(body, v[0], n) && Spells(body[n..], v[1..])
  }

  lemma {:induction false} HexIff(c: char, v: nat)
    ensures HexValue(c) == Some(v) <==> HexDigitOf(c, v)
  {
    if HexValue(c) == Some(v) {
      assert v < 10 ==> LOWER_HEX[v] as int == '0' as int + v;
      assert 10 <= v ==> LOWER_HEX[v] as int == 'a' as int + v - 10 && UPPER_HEX[v] as int == 'A' as int + v - 10;
    }
    if v < 16 {
      assert v < 10 ==> LOWER_HEX[v] as int == '0' as int + v && UPPER_HEX[v] == LOWER_HEX[v];
      assert 10 <= v ==> LOWER_HEX[v] as int == 'a' as int + v - 10 && UPPER_HEX[v] as int == 'A' as int + v - 10;
    }
  }

  lemma {:induction false} UnitIff(s: string, u: nat)
    ensures CodeUnit(s) == Some(u) <==> UnitAt(s, u)
  {
    hide HexDigitOf, HexValue;
    if |s| >= 6 && s[0] == '\\' && s[1] == 'u' {
      DigitsKnown(s);
      if a, b, c, d :| FourDigits(s, a, b, c, d) && u == a * 4096 + b * 256 + c * 16 + d {
        DigitsRead(s, a, b, c, d);
      }
      if CodeUnit(s) == Some(u) {
        var a, b, c, d := HexValue(s[2]).value, HexValue(s[3]).value, HexValue(s[4]).value, HexValue(s[5]).value;
        assert FourDigits(s, a, b, c, d);
      }
    }
  }

  lemma {:induction false} DigitsKnown(s: string)
    requires |s| >= 6
    ensures forall i :: 2 <= i < 6 && HexValue(s[i]).Some? ==> HexDigitOf(s[i], HexValue(s[i]).value)
  {
    forall i | 2 <= i < 6 && HexValue(s[i]).Some?
      ensures HexDigitOf(s[i], HexValue(s[i]).value)
    {
      HexIff(s[i], HexValue(s[i]).value);
    }
  }

  lemma {:induction false} DigitsRead(s: string, a: int, b: int, c: int, d: int)
    requires |s| >= 6 && FourDigits(s, a, b, c, d)
    ensures HexValue(s[2]) == Some(a) && HexValue(s[3]) == Some(b) && HexValue(s[4]) == Some(c)
    ensures HexValue(s[5]) == Some(d)
  {
    HexIff(s[2], a);
    HexIff(s[3], b);
    HexIff(s[4], c);
    HexIff(s[5], d);
  }

  lemma {:induction false} UnitOnce(s: string, u: int, l: int)
    requires UnitAt(s, u) && UnitAt(s, l)
    ensures u == l && 0 <= u < 0x10000
  {
    UnitNat(s, u);
    UnitNat(s, l);
    UnitIff(s, u);
    UnitIff(s, l);
  }

  lemma {:induction false} UnitNat(s: string, u: int)
    requires UnitAt(s, u)
    ensures 0 <= u < 0x10000
  {
  }

  lemma {:induction false} UnicodeIff(s: string, c: char, n: nat)
    requires |s| >= 2 && s[0] == '\\' && s[1] == 'u'
    ensures ReadUnicode(s) == Some((c, n)) <==> CharAt(s, c, n)
  {
    hide CodeUnit, UnitAt;
    UnitShape(s);
    LowIff(s);
    var unit := CodeUnit(s);
    if unit.Some? {
      var u := unit.value;
      if HighUnit(u) {
        LowIff(s[6..]);
        UnitShape(s[6..]);
        var low := CodeUnit(s[6..]);
        if low.Some? && LowUnit(low.value) {
          assert PairAt(s, u, low.value);
        } else {
          assert LoneAt(s, u);
        }
      } else if LowUnit(u) {
        assert LoneAt(s, u);
      }
    }
  }

  lemma {:induction false} UnitShape(s: string)
    ensures CodeUnit(s).Some? ==> |s| >= 6
    ensures forall u :: UnitAt(s, u) ==> |s| >= 6
    ensures 'u' !in SHORT_ESCAPES
  {
  }

  /** Whether a low surrogate follows. */
  lemma {:induction false} LowIff(s: string)
    ensures CodeUnit(s).Some? ==> UnitAt(s, CodeUnit(s).value) && forall l :: UnitAt(s, l) ==> l == CodeUnit(s).value
    ensures CodeUnit(s).None? ==> forall l :: !UnitAt(s, l)
  {
    hide CodeUnit, UnitAt;
    if CodeUnit(s).Some? {
      UnitIff(s, CodeUnit(s).value);
    }
    forall l | UnitAt(s, l)
      ensures CodeUnit(s) == Some(l)
    {
      UnitNat(s, l);
      UnitIff(s, l);
    }
  }

  lemma {:induction false} CharIff(s: string, c: char, n: nat)
    requires s != "" && s[0] != '"'
    ensures ReadChar(s) == Some((c, n)) <==> CharAt(s, c, n)
  {
    hide ReadUnicode, UnitAt, PairAt;
    if |s| >= 2 && s[0] == '\\' && s[1] == 'u' {
      UnicodeIff(s, c, n);
    } else {
      NoUnit(s);
    }
  }

  lemma {:induction false} NoUnit(s: string)
    requires |s| < 2 || s[0] != '\\' || s[1] != 'u'
    ensures forall u :: !UnitAt(s, u)
    ensures forall u, l :: !PairAt(s, u, l)
  {
  }

  // ----- strings -----

  /** What comes behind the closing quote has no part in the characters. */
  lemma {:induction false} UnitInside(t: string, rest: string, u: int)
    ensures UnitAt(t + "\"" + rest, u) <==> UnitAt(t, u)
  {
    var s := t + "\"" + rest;
    if |t| < 6 {
      assert s[|t|] == '"';
      QuoteNoDigit();
    } else {
      forall a, b, c, d
        ensures FourDigits(s, a, b, c, d) <==> FourDigits(t, a, b, c, d)
      {
        assert s[2] == t[2] && s[3] == t[3] && s[4] == t[4] && s[5] == t[5];
      }
    }
  }

  lemma {:induction false} QuoteNoDigit()
    ensures forall v :: !HexDigitOf('"', v)
  {
    forall v | HexDigitOf('"', v)
      ensures false
    {
      HexIff('"', v);
    }
  }

  lemma {:induction false} CharInside(t: string, rest: string, c: char, n: nat)
    requires t != "" && n <= |t|
    ensures CharAt(t + "\"" + rest, c, n) <==> CharAt(t, c, n)
  {
    hide UnitAt;
    var s := t + "\"" + rest;
    forall u
      ensures UnitAt(s, u) <==> UnitAt(t, u)
    {
      UnitInside(t, rest, u);
    }
    UnitShape(t);
    if |t| >= 6 {
      assert s[6..] == t[6..] + "\"" + rest;
      forall u
        ensures UnitAt(s[6..], u) <==> UnitAt(t[6..], u)
      {
        UnitInside(t[6..], rest, u);
      }
      UnitShape(t[6..]);
      forall u, l
        ensures PairAt(s, u, l) <==> PairAt(t, u, l)
        ensures LoneAt(s, u) <==> LoneAt(t, u)
      {
      }
    }
  }

  /** A closing quote ends the string v exactly when the text before it spells v. */
  lemma {:induction false} StringIff(body: string, rest: string, v: string)
    ensures ReadString(body + "\"" + rest) == Some((v, |body| + 1)) <==> Spells(body, v)
    decreases |body|
  {
    hide CharAt, ReadChar;
    var s := body + "\"" + rest;
    if body == "" || body[0] == '"' {
      QuoteEnds(s, body, v);
    } else {
      if ReadString(s) == Some((v, |body| + 1)) {
        var first := ReadChar(s).value;
        var n := first.1;
        var tail := ReadString(s[n..]).value;
        assert s[n..] == body[n..] + "\"" + rest;
        CharIff(s, first.0, n);
        CharInside(body, rest, first.0, n);
        assert v[0] == first.0 && v[1..] == tail.0;
        StringIff(body[n..], rest, v[1..]);
      }
      if Spells(body, v) {
        var n :| 1 <= n <= |body| && CharAt(body, v[0], n) && Spells(body[n..], v[1..]);
        CharInside(body, rest, v[0], n);
        CharIff(s, v[0], n);
        assert s[n..] == body[n..] + "\"" + rest;
        StringIff(body[n..], rest, v[1..]);
        assert [v[0]] + v[1..] == v;
      }
    }
  }

  lemma {:induction false} QuoteEnds(s: string, body: string, v: string)
    requires s != "" && s[0] == '"' && (body == "" || body[0] == '"')
    ensures ReadString(s) == Some((v, |body| + 1)) <==> Spells(body, v)
  {
    if v != "" && body != "" {
      forall n
        ensures !CharAt(body, v[0], n)
      {
        NoUnit(body);
      }
    }
  }

  // ----- numbers -----

  ghost predicate Digits(t: string) {
    t != "" && forall i :: 0 <= i < |t| ==> '0' <= t[i] <= '9'
  }

  ghost predicate WholePart(t: string) {
    t == "0" || (Digits(t) && t[0] != '0')
  }

  ghost predicate FractionPart(t: string) {
    t == "" || (t[0] == '.' && Digits(t[1..]))
  }

  ghost predicate ExponentPart(t: string) {
    t == "" || ((t[0] == 'e' || t[0] == 'E')
                && (Digits(t[1..]) || (|t| > 1 && (t[1] == '+' || t[1] == '-') && Digits(t[2..]))))
  }

  ghost predicate NumberParts(t: string, i: nat, j: nat, k: nat) {
    && i <= j <= k <= |t| && (i == 0 || (i == 1 && t[0] == '-'))
    && WholePart(t[i..j]) && FractionPart(t[j..k]) && ExponentPart(t[k..])
  }

  /** An optional minus sign, a whole part without leading zeros, and an optional fraction
      and exponent. */
  ghost predicate NumberText(t: string) {
    exists i: nat, j: nat, k: nat :: NumberParts(t, i, j, k)
  }

  lemma {:induction false} RunShape(s: string)
    ensures forall i :: 0 <= i < DigitRun(s) ==> '0' <= s[i] <= '9'
    ensures DigitRun(s) < |s| ==> !('0' <= s[DigitRun(s)] <= '9')
    decreases |s|
  {
    if s != "" && DigitRun(s) > 0 {
      RunShape(s[1..]);
      forall i | 1 <= i < |s|
        ensures s[i] == s[1..][i - 1]
      {
      }
    }
  }

  lemma {:induction false} RunOf(s: string, n: nat)
    requires n <= |s| && (forall i :: 0 <= i < n ==> '0' <= s[i] <= '9')
    requires n < |s| ==> !('0' <= s[n] <= '9')
    ensures DigitRun(s) == n
  {
    RunShape(s);
    var stop := DigitRun(s);
    var atStop, atEnd := if stop < |s| then s[stop] else '.', if n < |s| then s[n] else '.';
  }

  lemma {:induction false} WholeReads(s: string, n: nat)
    requires n <= |s| && WholePart(s[..n]) && (n < |s| ==> !('0' <= s[n] <= '9'))
    ensures UnsignedLength(s) == Some(n)
  {
    var t := s[..n];
    assert t[0] == s[0];
    if t != "0" {
      forall i | 0 <= i < n
        ensures '0' <= s[i] <= '9'
      {
        assert t[i] == s[i];
      }
      RunOf(s, n);
    }
  }

  lemma {:induction false} DigitsReach(s: string, from: nat, to: nat)
    requires from <= to <= |s| && Digits(s[from..to]) && (to < |s| ==> !('0' <= s[to] <= '9'))
    ensures DigitRun(s[from..]) == to - from
  {
    forall i | 0 <= i < to - from
      ensures '0' <= s[from..][i] <= '9'
    {
      assert s[from..to][i] == s[from..][i];
    }
    RunOf(s[from..], to - from);
  }

  lemma {:induction false} FractionReads(s: string, n: nat)
    requires n <= |s| && FractionPart(s[..n])
    requires n < |s| ==> !('0' <= s[n] <= '9') && s[n] != '.'
    ensures FractionLength(s) == Some(n)
  {
    if n > 0 {
      assert s[..n][0] == s[0] && s[..n][1..] == s[1..n];
      DigitsReach(s, 1, n);
    }
  }

  lemma {:induction false} ExponentReads(s: string, n: nat)
    requires n <= |s| && ExponentPart(s[..n])
    requires n < |s| ==> !('0' <= s[n] <= '9') && s[n] != 'e' && s[n] != 'E'
    ensures ExponentLength(s) == Some(n)
  {
    if n > 0 {
      var t := s[..n];
      assert t[0] == s[0] && t[1..] == s[1..n];
      if Digits(t[1..]) {
        assert t[1] == t[1..][0] && t[1] == s[1];
        DigitsReach(s, 1, n);
      } else {
        assert t[1] == s[1] && t[2..] == s[2..n];
        DigitsReach(s, 2, n);
      }
    }
  }

  /** What may follow a number: nothing that could continue it. */
  ghost predicate EndsNumber(rest: string) {
    rest == "" || !('0' <= rest[0] <= '9' || rest[0] == '.' || rest[0] == 'e' || rest[0] == 'E')
  }

  lemma {:induction false} NumberReads(t: string, rest: string)
    requires NumberText(t) && EndsNumber(rest)
    ensures NumberLength(t + rest) == Some(|t|)
  {
    hide UnsignedLength, FractionLength, ExponentLength, WholePart, FractionPart, ExponentPart, NumberLength, IntLength;
    var i: nat, j: nat, k: nat :| NumberParts(t, i, j, k);
    var s := t + rest;
    WholeStart(t, i, j, k);
    PartsEnd(t, rest, i, j, k);
    WholeThere(t, rest, i, j);
    FractionThere(t, rest, j, k);
    ExponentThere(t, rest, k);
    LengthsAdd(s, i, j, k, |t|);
  }

  lemma {:induction false} WholeThere(t: string, rest: string, i: nat, j: nat)
    requires i <= j <= |t| && WholePart(t[i..j]) && (j < |t + rest| ==> !('0' <= (t + rest)[j] <= '9'))
    ensures UnsignedLength((t + rest)[i..]) == Some(j - i)
  {
    hide UnsignedLength, WholePart;
    Slices(t, rest, i, j);
    WholeReads((t + rest)[i..], j - i);
  }

  lemma {:induction false} FractionThere(t: string, rest: string, j: nat, k: nat)
    requires j <= k <= |t| && FractionPart(t[j..k])
    requires k < |t + rest| ==> !('0' <= (t + rest)[k] <= '9') && (t + rest)[k] != '.'
    ensures FractionLength((t + rest)[j..]) == Some(k - j)
  {
    hide FractionLength, FractionPart;
    Slices(t, rest, j, k);
    FractionReads((t + rest)[j..], k - j);
  }

  lemma {:induction false} ExponentThere(t: string, rest: string, k: nat)
    requires k <= |t| && ExponentPart(t[k..]) && EndsNumber(rest)
    ensures ExponentLength((t + rest)[k..]) == Some(|t| - k)
  {
    hide ExponentLength, ExponentPart;
    Slices(t, rest, k, |t|);
    assert t[k..|t|] == t[k..];
    EndsAt(t, rest);
    ExponentReads((t + rest)[k..], |t| - k);
  }

  lemma {:induction false} EndsAt(t: string, rest: string)
    requires EndsNumber(rest)
    ensures |t| < |t + rest| ==> var c := (t + rest)[|t|]; !('0' <= c <= '9' || c == 'e' || c == 'E')
  {
  }

  lemma {:induction false} LengthsAdd(s: string, i: nat, j: nat, k: nat, n: nat)
    requires i <= j <= k <= n <= |s| && s != "" && (if i == 0 then s[0] != '-' else i == 1 && s[0] == '-')
    requires UnsignedLength(s[i..]) == Some(j - i) && FractionLength(s[j..]) == Some(k - j)
    requires ExponentLength(s[k..]) == Some(n - k)
    ensures NumberLength(s) == Some(n)
  {
    hide UnsignedLength, FractionLength, ExponentLength;
    assert s[0..] == s;
  }

  lemma {:induction false} Slices(t: string, rest: string, i: nat, j: nat)
    requires i <= j <= |t|
    ensures (t + rest)[i..][..j - i] == t[i..j] && (t + rest)[i..][j - i..] == (t + rest)[j..]
    ensures j < |t + rest| ==> (t + rest)[i..][j - i] == (t + rest)[j]
  {
  }

  lemma {:induction false} WholeStart(t: string, i: nat, j: nat, k: nat)
    requires NumberParts(t, i, j, k)
    ensures i < j && '0' <= t[i] <= '9'
  {
    assert t[i..j][0] == t[i];
  }

  /** The character behind each part does not continue it. */
  lemma {:induction false} PartsEnd(t: string, rest: string, i: nat, j: nat, k: nat)
    requires NumberParts(t, i, j, k) && EndsNumber(rest)
    ensures var s := t + rest;
      && (j < |s| ==> !('0' <= s[j] <= '9'))
      && (k < |s| ==> !('0' <= s[k] <= '9') && s[k] != '.')
  {
    var s := t + rest;
    if j < k {
      assert t[j..k][0] == s[j];
    }
    if k < |t| {
      assert t[k..][0] == s[k];
    }
  }

  lemma {:induction false} NumberIs(s: string, n: nat)
    requires NumberLength(s) == Some(n)
    ensures n <= |s| && NumberText(s[..n])
  {
    hide UnsignedLength, FractionLength, ExponentLength, WholePart, FractionPart, ExponentPart;
    var sign := if s[0] == '-' then 1 else 0;
    var j := IntLength(s).value;
    var k := j + FractionLength(s[j..]).value;
    var t := s[..n];
    WholeIs(s[sign..], j - sign);
    FractionIs(s[j..], k - j);
    ExponentIs(s[k..], n - k);
    Slice(s, sign, j, n);
    Slice(s, j, k, n);
    Slice(s, k, n, n);
    assert t[k..] == t[k..n];
    assert NumberParts(t, sign, j, k);
  }

  lemma {:induction false} Slice(s: string, a: nat, b: nat, n: nat)
    requires a <= b <= n <= |s|
    ensures s[..n][a..b] == s[a..][..b - a]
  {
  }

  lemma {:induction false} WholeIs(s: string, n: nat)
    requires UnsignedLength(s) == Some(n)
    ensures n <= |s| && WholePart(s[..n])
  {
    RunShape(s);
  }

  lemma {:induction false} FractionIs(s: string, n: nat)
    requires FractionLength(s) == Some(n)
    ensures n <= |s| && FractionPart(s[..n])
  {
    if n > 0 {
      RunShape(s[1..]);
      assert s[..n][1..] == s[1..][..n - 1];
    }
  }

  lemma {:induction false} ExponentIs(s: string, n: nat)
    requires ExponentLength(s) == Some(n)
    ensures n <= |s| && ExponentPart(s[..n])
  {
    if n > 0 {
      var sign := if |s| >= 2 && (s[1] == '+' || s[1] == '-') then 1 else 0;
      RunShape(s[1 + sign..]);
      assert s[..n][1 + sign..] == s[1 + sign..][..n - 1 - sign];
    }
  }

  // ----- tokens -----

  ghost predicate TokenText(token: Token, t: string) {
    match token
    case LBrace => t == "{"
    case RBrace => t == "}"
    case LBracket => t == "["
    case RBracket => t == "]"
    case Colon => t == ":"
    case Comma => t == ","
    case Null => t == "null"
    case True => t == "true"
    case False => t == "false"
    case Num(number) => t == number && NumberText(t)
    case Str(v) => |t| >= 2 && t[0] == '"' && t[|t| - 1] == '"' && Spells(t[1..|t| - 1], v)
    case Bad => false
  }

  lemma {:induction false} TokenReads(token: Token, t: string, rest: string)
    requires TokenText(token, t) && (token.Num? ==> EndsNumber(rest))
    ensures Lex(t + rest) == [token] + Lex(rest)
  {
    hide Spells, NumberText;
    var s := t + rest;
    match token {
      case Str(v) => StringToken(t, rest, v);
      case Num(_) => NumberToken(t, rest);
      case Null => LexWord("null", Null, rest);
      case True => LexWord("true", True, rest);
      case False => LexWord("false", False, rest);
      case Bad =>
      case _ =>
        assert s[0] == t[0] && ReadToken(s) == Some((token, 1));
        assert s[1..] == rest;
    }
  }

  lemma {:induction false} StringToken(t: string, rest: string, v: string)
    requires TokenText(Str(v), t)
    ensures Lex(t + rest) == [Str(v)] + Lex(rest)
  {
    hide Spells, ReadString;
    var s, body := t + rest, t[1..|t| - 1];
    assert s[1..] == body + "\"" + rest;
    StringIff(body, rest, v);
    assert s[|body| + 2..] == rest;
  }

  lemma {:induction false} NumberStart(t: string)
    requires NumberText(t)
    ensures t != "" && (t[0] == '-' || '0' <= t[0] <= '9')
  {
    hide WholePart, FractionPart, ExponentPart;
    var i: nat, j: nat, k: nat :| NumberParts(t, i, j, k);
    WholeStart(t, i, j, k);
  }

  lemma {:induction false} NumberToken(t: string, rest: string)
    requires NumberText(t) && EndsNumber(rest)
    ensures Lex(t + rest) == [Num(t)] + Lex(rest)
  {
    hide NumberLength, NumberText;
    NumberStart(t);
    NumberReads(t, rest);
    assert (t + rest)[..|t|] == t && (t + rest)[|t|..] == rest;
  }

  lemma {:induction false} TokenIs(s: string, token: Token, n: nat)
    requires s != "" && ReadToken(s) == Some((token, n)) && !Space(s[0])
    ensures 1 <= n <= |s| && TokenText(token, s[..n])
  {
    hide Spells, NumberText;
    match token {
      case Num(_) => NumberIs(s, n);
      case Str(v) => StringIs(s, v, n);
      case _ =>
    }
  }

  lemma {:induction false} StringIs(s: string, v: string, n: nat)
    requires s != "" && ReadToken(s) == Some((Str(v), n)) && !Space(s[0])
    ensures 1 <= n <= |s| && TokenText(Str(v), s[..n])
  {
    hide Spells, ReadChar, NumberLength;
    var inner := s[1..];
    hide ReadString;
    assert s[0] == '"' && ReadString(inner) == Some((v, n - 1));
    ClosingQuote(inner, n - 1, v);
    var body := inner[..n - 2];
    assert inner == body + "\"" + inner[n - 1..];
    StringIff(body, inner[n - 1..], v);
    assert s[..n][1..n - 1] == body;
  }

  lemma {:induction false} ClosingQuote(s: string, n: nat, v: string)
    requires ReadString(s) == Some((v, n))
    ensures 1 <= n <= |s| && s[n - 1] == '"'
    decreases |s|
  {
    hide ReadChar;
    if s[0] != '"' {
      var first := ReadChar(s).value;
      var rest := ReadString(s[first.1..]).value;
      ClosingQuote(s[first.1..], rest.1, rest.0);
    }
  }

  // ----- texts -----

  /** A token with the space in front of it. */
  datatype Piece = Piece(space: string, token: Token, text: string)

  ghost predicate Blank(s: string) {
    forall i :: 0 <= i < |s| ==> s[i] == '\U{20}' || s[i] == '\U{9}' || s[i] == '\U{A}' || s[i] == '\U{D}'
  }

  function TextOf(pieces: seq<Piece>, tail: string): string {
    if pieces == [] then tail else pieces[0].space + (pieces[0].text + TextOf(pieces[1..], tail))
  }

  function TokensOf(pieces: seq<Piece>): (ts: seq<Token>)
    ensures |ts| == |pieces| && forall i :: 0 <= i < |ts| ==> ts[i] == pieces[i].token
  {
    seq(|pieces|, i requires 0 <= i < |pieces| => pieces[i].token)
  }

  ghost predicate Spelled(pieces: seq<Piece>, tail: string) {
    && Blank(tail)
    && forall i :: 0 <= i < |pieces| ==> Blank(pieces[i].space) && TokenText(pieces[i].token, pieces[i].text)
  }

  /** No number runs into what follows it. */
  ghost predicate Apart(pieces: seq<Piece>, tail: string) {
    forall i {:trigger pieces[i]} :: 0 <= i < |pieces| && pieces[i].token.Num? ==>
      EndsNumber(TextOf(pieces[i + 1..], tail))
  }

  lemma {:induction false} BlankSkips(ws: string, rest: string)
    requires Blank(ws)
    ensures Lex(ws + rest) == Lex(rest)
  {
    LexSkips(ws, rest);
  }

  /** Every text made of spelled tokens is read as these tokens. */
  lemma {:induction false} TextReads(pieces: seq<Piece>, tail: string)
    requires Spelled(pieces, tail) && Apart(pieces, tail)
    ensures Lex(TextOf(pieces, tail)) == TokensOf(pieces)
  {
    if pieces == [] {
      BlankSkips(tail, "");
      assert tail + "" == tail;
    } else {
      var rest := pieces[1..];
      forall i {:trigger rest[i]} | 0 <= i < |rest| && rest[i].token.Num?
        ensures EndsNumber(TextOf(rest[i + 1..], tail))
      {
        assert rest[i] == pieces[i + 1] && rest[i + 1..] == pieces[i + 2..];
      }
      assert pieces[0].token.Num? ==> EndsNumber(TextOf(rest, tail));
      TextReads(rest, tail);
      BlankSkips(pieces[0].space, pieces[0].text + TextOf(rest, tail));
      TokenReads(pieces[0].token, pieces[0].text, TextOf(rest, tail));
      assert TokensOf(pieces) == [pieces[0].token] + TokensOf(rest);
    }
  }

  lemma {:induction false} BadFirst(text: string)
    requires text != "" && !Space(text[0])
    ensures ReadToken(text) == None ==> Bad in Lex(text)
  {
    hide ReadToken;
  }

  lemma {:induction false} LexFirst(text: string)
    requires text != "" && !Space(text[0]) && Bad !in Lex(text)
    ensures ReadToken(text).Some?
    ensures var first := ReadToken(text).value;
      Lex(text) == [first.0] + Lex(text[first.1..]) && Bad !in Lex(text[first.1..])
  {
    hide ReadToken;
    BadFirst(text);
    var first := ReadToken(text).value;
    forall t | t in Lex(text[first.1..])
      ensures t in [first.0] + Lex(text[first.1..])
    {
    }
  }

  /** And every text that is read without a bad token is made of spelled tokens. */
  lemma {:induction false} TextIs(text: string) returns (pieces: seq<Piece>, tail: string)
    requires Bad !in Lex(text)
    ensures text == TextOf(pieces, tail) && Spelled(pieces, tail) && TokensOf(pieces) == Lex(text)
    decreases |text|
  {
    if text == "" {
      pieces, tail := [], "";
    } else if Space(text[0]) {
      var inner;
      inner, tail := TextIs(text[1..]);
      pieces, tail := MoreSpace(text[0], inner, tail);
      assert text == [text[0]] + text[1..];
    } else {
      hide TokenText, ReadToken;
      LexFirst(text);
      var first := ReadToken(text).value;
      var rest;
      rest, tail := TextIs(text[first.1..]);
      TokenIs(text, first.0, first.1);
      var head := Piece("", first.0, text[..first.1]);
      pieces := [head] + rest;
      OnePiece(head, rest, tail);
      assert text == text[..first.1] + text[first.1..];
    }
  }

  lemma {:induction false} OnePiece(head: Piece, rest: seq<Piece>, tail: string)
    requires Spelled(rest, tail) && Blank(head.space) && TokenText(head.token, head.text)
    ensures Spelled([head] + rest, tail) && TokensOf([head] + rest) == [head.token] + TokensOf(rest)
    ensures TextOf([head] + rest, tail) == head.space + (head.text + TextOf(rest, tail))
  {
    assert ([head] + rest)[1..] == rest;
  }

  lemma {:induction false} MoreSpace(c: char, inner: seq<Piece>, end: string)
      returns (pieces: seq<Piece>, tail: string)
    requires Spelled(inner, end) && Space(c)
    ensures Spelled(pieces, tail) && TokensOf(pieces) == TokensOf(inner)
    ensures TextOf(pieces, tail) == [c] + TextOf(inner, end)
  {
    hide TokenText;
    if inner == [] {
      pieces, tail := [], [c] + end;
    } else {
      var head, rest := inner[0].(space := [c] + inner[0].space), inner[1..];
      pieces, tail := [head] + rest, end;
      OnePiece(head, rest, end);
      assert inner == [inner[0]] + rest;
      Regroup([c], inner[0].space, head.text + TextOf(rest, end));
    }
  }
}
