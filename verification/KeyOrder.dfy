// Sorting object keys: sort.Strings in Go, sort_keys in Python.
module KeyOrder {
  import opened Collections
  import opened Utf8

  /** Go compares strings by their bytes. */
  predicate Before(s: string, t: string) {
    BytesLess(Encode(s), Encode(t))
  }

  lemma {:induction false} CharsTotal(s: string, t: string)
    ensures CharsLess(s, t) || CharsLess(t, s) || s == t
    ensures !(CharsLess(s, t) && CharsLess(t, s)) && !CharsLess(s, s)
  {
    if s != "" && t != "" && s[0] == t[0] {
      CharsTotal(s[1..], t[1..]);
      assert s == [s[0]] + s[1..] && t == [t[0]] + t[1..];
    }
    if s != "" {
      CharsTotal(s[1..], s[1..]);
    }
  }

  lemma {:induction false} CharsTransitive(s: string, t: string, u: string)
    requires CharsLess(s, t) && CharsLess(t, u)
    ensures CharsLess(s, u)
  {
    if s != "" && s[0] == t[0] && t[0] == u[0] {
      CharsTransitive(s[1..], t[1..], u[1..]);
    }
  }

  /** The byte order is a strict total order on strings. */
  lemma {:induction false} BeforeIsOrder(s: string, t: string, u: string)
    ensures Before(s, t) || Before(t, s) || s == t
    ensures !(Before(s, t) && Before(t, s)) && !Before(s, s)
    ensures Before(s, t) && Before(t, u) ==> Before(s, u)
  {
    OrdersAgree(s, t);
    OrdersAgree(t, s);
    OrdersAgree(s, s);
    OrdersAgree(t, u);
    OrdersAgree(s, u);
    CharsTotal(s, t);
    CharsTotal(s, s);
    if CharsLess(s, t) && CharsLess(t, u) {
      CharsTransitive(s, t, u);
    }
  }

  ghost predicate Ascending(keys: seq<string>) {
    forall i, j :: 0 <= i < j < |keys| ==> Before(keys[i], keys[j])
  }

  /** The same, by code points: what Python sorts by. */
  ghost predicate AscendingByCodePoint(keys: seq<string>) {
    forall i, j :: 0 <= i < j < |keys| ==> CharsLess(keys[i], keys[j])
  }

  lemma {:induction false} SortOrdersAgree(keys: seq<string>)
    ensures Ascending(keys) <==> AscendingByCodePoint(keys)
  {
    forall i, j | 0 <= i < j < |keys|
      ensures Before(keys[i], keys[j]) <==> CharsLess(keys[i], keys[j])
    {
      OrdersAgree(keys[i], keys[j]);
    }
  }

  function Insert(keys: seq<string>, k: string): seq<string> {
    if keys == [] then [k]
    else if Before(k, keys[0]) then [k] + keys
    else [keys[0]] + Insert(keys[1..], k)
  }

  lemma {:induction false} ConsAscends(k: string, rest: seq<string>)
    requires Ascending(rest) && forall x :: x in Elements(rest) ==> Before(k, x)
    ensures Ascending([k] + rest) && Elements([k] + rest) == {k} + Elements(rest)
  {
    forall j | 0 <= j < |rest|
      ensures Before(k, rest[j])
    {
      assert rest[j] in Elements(rest);
    }
  }

  lemma {:induction false} InsertSorts(keys: seq<string>, k: string)
    requires Ascending(keys) && k !in keys
    ensures Ascending(Insert(keys, k)) && Elements(Insert(keys, k)) == Elements(keys) + {k}
  {
    if keys != [] {
      BeforeIsOrder(k, keys[0], k);
      if Before(k, keys[0]) {
        forall x | x in Elements(keys)
          ensures Before(k, x)
        {
          FirstIsLeast(keys, x);
          BeforeIsOrder(k, keys[0], x);
        }
        ConsAscends(k, keys);
      } else {
        TailElements(keys);
        InsertSorts(keys[1..], k);
        forall x | x in Elements(Insert(keys[1..], k))
          ensures Before(keys[0], x)
        {
          if x != k {
            FirstIsLeast(keys, x);
          }
        }
        ConsAscends(keys[0], Insert(keys[1..], k));
      }
    }
  }

  ghost function SortedKeys(keys: set<string>): (s: seq<string>)
    ensures Ascending(s) && Elements(s) == keys
  {
    if keys == {} then []
    else
      var k :| k in keys;
      var rest := SortedKeys(keys - {k});
      assert k !in Elements(rest);
      InsertSorts(rest, k);
      Insert(rest, k)
  }

  /** A set of keys has one ascending listing, so any sort gives the same result. */
  lemma {:induction false} AscendingUnique(a: seq<string>, b: seq<string>)
    requires Ascending(a) && Ascending(b) && Elements(a) == Elements(b)
    ensures a == b
  {
    if a != [] {
      assert a[0] in Elements(b);
      assert b != [] && b[0] in Elements(a);
      FirstIsLeast(a, b[0]);
      FirstIsLeast(b, a[0]);
      BeforeIsOrder(a[0], b[0], a[0]);
      TailElements(a);
      TailElements(b);
      AscendingUnique(a[1..], b[1..]);
      assert a == [a[0]] + a[1..] && b == [b[0]] + b[1..];
    } else {
      NoElements(b);
    }
  }

  lemma {:induction false} NoElements(b: seq<string>)
    ensures Elements(b) == {} ==> b == []
  {
    if b != [] {
      assert b[0] in Elements(b);
    }
  }

  lemma {:induction false} FirstIsLeast(a: seq<string>, x: string)
    requires Ascending(a) && x in Elements(a)
    ensures a[0] == x || Before(a[0], x)
  {
    var i :| 0 <= i < |a| && a[i] == x;
  }

  lemma {:induction false} TailElements(a: seq<string>)
    requires Ascending(a) && a != []
    ensures Ascending(a[1..]) && Elements(a[1..]) == Elements(a) - {a[0]}
  {
    BeforeIsOrder(a[0], a[0], a[0]);
    assert a == [a[0]] + a[1..];
    forall i | 0 <= i < |a[1..]|
      ensures a[1..][i] != a[0]
    {
      assert Before(a[0], a[i + 1]);
    }
  }

  method SortStrings(keys: set<string>) returns (sorted: seq<string>)
    ensures sorted == SortedKeys(keys)
  {
    sorted := [];
    var todo := keys;
    while todo != {}
      invariant todo <= keys && Ascending(sorted) && Elements(sorted) == keys - todo
      decreases todo
    {
      var k :| k in todo;
      assert k !in Elements(sorted);
      InsertSorts(sorted, k);
      sorted := Insert(sorted, k);
      todo := todo - {k};
    }
    AscendingUnique(sorted, SortedKeys(keys));
  }
}
