// Text rules shared by the contract packages: trimming, byte length, and the
// identifier formats (validID, namePattern, validSHA256).
//
// A Go string that reached these checks through JSON is valid UTF-8, so text is
// a sequence of Unicode scalar values and len() is the UTF-8 length.
module Text {

  /** unicode.IsSpace */
  predicate IsSpace(c: char) {
    || '\t' <= c <= '\r' || c == ' ' || c == '\U{85}' || c == '\U{A0}' || c == '\U{1680}'
    || '\U{2000}' <= c <= '\U{200A}' || c == '\U{2028}' || c == '\U{2029}'
    || c == '\U{202F}' || c == '\U{205F}' || c == '\U{3000}'
  }

  /** unicode.IsControl */
  predicate IsControl(c: char) {
    c < ' ' || '\U{7F}' <= c <= '\U{9F}'
  }

  /** The number of bytes of c in UTF-8. */
  function Width(c: char): nat {
    if c < '\U{80}' then 1 else if c < '\U{800}' then 2 else if c < '\U{10000}' then 3 else 4
  }

  function ByteLength(s: string): nat {
    if s == "" then 0 else Width(s[0]) + ByteLength(s[1..])
  }

  lemma {:induction false} ByteLengthConcat(a: string, b: string)
    ensures ByteLength(a + b) == ByteLength(a) + ByteLength(b)
  {
    if a == "" {
      assert a + b == b;
    } else {
      ByteLengthConcat(a[1..], b);
      assert (a + b)[1..] == a[1..] + b;
    }
  }

  lemma {:induction false} AsciiLength(s: string)
    requires forall i :: 0 <= i < |s| ==> s[i] < '\U{80}'
    ensures ByteLength(s) == |s|
  {
    if s != "" {
      AsciiLength(s[1..]);
    }
  }

  function TrimLeft(s: string): string {
    if s != "" && IsSpace(s[0]) then TrimLeft(s[1..]) else s
  }

  function TrimRight(s: string): string {
    if s != "" && IsSpace(s[|s| - 1]) then TrimRight(s[..|s| - 1]) else s
  }

  function TrimSpace(s: string): string {
    TrimRight(TrimLeft(s))
  }

  ghost predicate Blank(s: string) {
    forall i :: 0 <= i < |s| ==> IsSpace(s[i])
  }

  /** Neither end of s is a space. */
  ghost predicate Trimmed(s: string) {
    s == "" || (!IsSpace(s[0]) && !IsSpace(s[|s| - 1]))
  }

  lemma {:induction false} TrimLeftSplits(s: string) returns (cut: string)
    ensures s == cut + TrimLeft(s) && Blank(cut)
    ensures TrimLeft(s) == "" || !IsSpace(TrimLeft(s)[0])
  {
    if s != "" && IsSpace(s[0]) {
      var rest := TrimLeftSplits(s[1..]);
      cut := [s[0]] + rest;
    } else {
      cut := "";
    }
  }

  lemma {:induction false} TrimRightSplits(s: string) returns (cut: string)
    ensures s == TrimRight(s) + cut && Blank(cut)
    ensures TrimRight(s) == "" || !IsSpace(TrimRight(s)[|TrimRight(s)| - 1])
  {
    if s != "" && IsSpace(s[|s| - 1]) {
      var rest := TrimRightSplits(s[..|s| - 1]);
      cut := rest + [s[|s| - 1]];
    } else {
      cut := "";
    }
  }

  /** Trimming cuts spaces off both ends and nothing else. */
  lemma {:induction false} TrimSpaceSplits(s: string) returns (front: string, back: string)
    ensures s == front + TrimSpace(s) + back && Blank(front) && Blank(back) && Trimmed(TrimSpace(s))
  {
    front := TrimLeftSplits(s);
    back := TrimRightSplits(TrimLeft(s));
    if TrimSpace(s) != "" {
      assert TrimLeft(s)[0] == TrimSpace(s)[0];
    }
  }

  lemma {:induction false} TrimmedFixed(s: string)
    requires Trimmed(s)
    ensures TrimSpace(s) == s
  {
  }

  lemma {:induction false} TrimSpaceIdempotent(s: string)
    ensures TrimSpace(TrimSpace(s)) == TrimSpace(s)
  {
    var _, _ := TrimSpaceSplits(s);
    TrimmedFixed(TrimSpace(s));
  }

  predicate NoSpaceOrControl(s: string) {
    forall i :: 0 <= i < |s| ==> !IsSpace(s[i]) && !IsControl(s[i])
  }

  predicate ValidID(s: string) {
    s != "" && s == TrimSpace(s) && ByteLength(s) <= 200 && NoSpaceOrControl(s)
  }

  /** An ID joined to a short suffix of the same kind is an ID when it fits. */
  lemma {:induction false} JoinedID(prefix: string, suffix: string)
    requires prefix != "" && NoSpaceOrControl(prefix) && NoSpaceOrControl(suffix)
    ensures ValidID(prefix + suffix) <==> ByteLength(prefix) + ByteLength(suffix) <= 200
  {
    ByteLengthConcat(prefix, suffix);
    TrimmedFixed(prefix + suffix);
  }

  predicate LowerAlpha(c: char) {
    'a' <= c <= 'z'
  }

  predicate Digit(c: char) {
    '0' <= c <= '9'
  }

  /** ^[a-z][a-z0-9_]{0,63}$ */
  predicate ValidName(s: string) {
    && 1 <= |s| <= 64 && LowerAlpha(s[0])
    && forall i :: 1 <= i < |s| ==> LowerAlpha(s[i]) || Digit(s[i]) || s[i] == '_'
  }

  /** 64 lower-case hexadecimal digits. */
  predicate ValidDigest(s: string) {
    |s| == 64 && forall i :: 0 <= i < |s| ==> Digit(s[i]) || 'a' <= s[i] <= 'f'
  }

  /** A composite key splits in one way when its first part lacks the separator. */
  lemma {:induction false} SeparatedInjective<T(!new)>(a: seq<T>, b: seq<T>, c: seq<T>, d: seq<T>, sep: T)
    requires sep !in a && sep !in c && a + [sep] + b == c + [sep] + d
    ensures a == c && b == d
  {
    var left, right := a + [sep] + b, c + [sep] + d;
    FirstSeparator(a, b, sep);
    FirstSeparator(c, d, sep);
    assert |a| == |c|;
    assert left[..|a|] == a && right[..|c|] == c;
    assert left[|a| + 1..] == b && right[|c| + 1..] == d;
  }

  lemma {:induction false} FirstSeparator<T(!new)>(a: seq<T>, b: seq<T>, sep: T)
    requires sep !in a
    ensures (a + [sep] + b)[|a|] == sep
    ensures forall i :: 0 <= i < |a| ==> (a + [sep] + b)[i] != sep
  {
  }
}
