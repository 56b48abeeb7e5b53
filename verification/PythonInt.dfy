// Python integers: int(text) and str(n).
module PythonInt {
  import opened Collections
  import opened Text
  import opened JsonLex

  function DigitChar(n: int): char
    requires 0 <= n < 10
  {
    ('0' as int + n) as char
  }

  function DecimalNat(n: nat): string {
    if n < 10 then [DigitChar(n)] else DecimalNat(n / 10) + [DigitChar(n % 10)]
  }

  /** str(n) */
  function Decimal(n: int): string {
    if n < 0 then "-" + DecimalNat(-n) else DecimalNat(n)
  }

  function NatOf(t: string): (n: int)
    requires forall i :: 0 <= i < |t| ==> Digit(t[i])
    ensures n >= 0
  {
    if t == "" then 0
    else
      var last := t[|t| - 1];
      assert Digit(last);
      NatOf(t[..|t| - 1]) * 10 + (last as int - '0' as int)
  }

  /** int(text) */
  function IntOf(t: string): int
    requires Integer(t)
  {
    if t[0] == '-' then
      AllDigits(t[1..]);
      -NatOf(t[1..])
    else
      AllDigits(t);
      NatOf(t)
  }

  lemma {:induction false} AllDigits(t: string)
    requires DigitRun(t) == |t|
    ensures forall i :: 0 <= i < |t| ==> Digit(t[i])
  {
    if t != "" {
      AllDigits(t[1..]);
      assert forall i :: 1 <= i < |t| ==> t[i] == t[1..][i - 1];
    }
  }

  lemma {:induction false} DecimalNatOf(t: string)
    requires t != "" && (forall i :: 0 <= i < |t| ==> Digit(t[i])) && (t[0] == '0' ==> |t| == 1)
    ensures DecimalNat(NatOf(t)) == t && (NatOf(t) == 0 ==> t == "0")
  {
    var init, last := t[..|t| - 1], t[|t| - 1];
    assert t == init + [last];
    if init == "" {
      assert NatOf(init) == 0;
    } else {
      DecimalNatOf(init);
      assert t[0] == init[0];
    }
  }

  /** A canonical integer text is the decimal text of its value. */
  lemma {:induction false} DecimalIntOf(t: string)
    requires Integer(t)
    ensures Decimal(IntOf(t)) == t
  {
    if t[0] == '-' {
      AllDigits(t[1..]);
      DecimalNatOf(t[1..]);
      assert t == "-" + t[1..];
    } else {
      AllDigits(t);
      DecimalNatOf(t);
    }
  }

  lemma {:induction false} DigitRunAll(t: string)
    requires forall i :: 0 <= i < |t| ==> Digit(t[i])
    ensures DigitRun(t) == |t|
  {
    if t != "" {
      DigitRunAll(t[1..]);
    }
  }

  lemma {:induction false} NatOfDecimal(n: nat)
    ensures var t := DecimalNat(n);
      && t != "" && (forall i :: 0 <= i < |t| ==> Digit(t[i])) && (t[0] == '0' ==> n == 0 && |t| == 1)
      && NatOf(t) == n
  {
    if n >= 10 {
      NatOfDecimal(n / 10);
    } else {
      assert NatOf("") == 0 && DecimalNat(n)[..0] == "";
    }
  }

  /** And every integer has such a text: texts of the profile and integers are the same. */
  lemma {:induction false} IntOfDecimal(n: int)
    ensures Integer(Decimal(n)) && IntOf(Decimal(n)) == n
  {
    var m: nat := if n < 0 then -n else n;
    NatOfDecimal(m);
    DigitRunAll(DecimalNat(m));
    if n < 0 {
      assert Decimal(n)[1..] == DecimalNat(m);
    }
  }
}
