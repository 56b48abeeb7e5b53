// Facts about sets and sequences that several components share.
module Collections {

  datatype Option<+T> = None | Some(value: T)

  ghost function Elements<T>(s: seq<T>): set<T> {
    set x | x in s
  }

  /** No value occurs twice. */
  ghost predicate Distinct<T>(s: seq<T>) {
    s == [] || (s[|s| - 1] !in s[..|s| - 1] && Distinct(s[..|s| - 1]))
  }

  lemma {:induction false} DistinctAt<T(!new)>(s: seq<T>, i: nat)
    requires Distinct(s) && i < |s|
    ensures s[i] !in s[..i]
  {
    if i < |s| - 1 {
      DistinctAt(s[..|s| - 1], i);
      assert s[..|s| - 1][..i] == s[..i];
    }
  }

  lemma {:induction false} DistinctPositions<T(!new)>(s: seq<T>, i: nat, j: nat)
    requires Distinct(s) && i < |s| && j < |s|
    ensures s[i] == s[j] ==> i == j
  {
    if i < j {
      DistinctAt(s, j);
      assert s[i] == s[..j][i];
    } else if j < i {
      DistinctAt(s, i);
      assert s[j] == s[..i][j];
    }
  }

  lemma {:induction false} DistinctIfApart<T(!new)>(s: seq<T>)
    requires forall i, j :: 0 <= i < j < |s| ==> s[i] != s[j]
    ensures Distinct(s)
  {
    if s != [] {
      DistinctIfApart(s[..|s| - 1]);
    }
  }

  /** A value seen before makes the whole list repeat it. */
  lemma {:induction false} RepeatedPrefix<T(!new)>(s: seq<T>, i: nat)
    requires i < |s| && s[i] in s[..i]
    ensures !Distinct(s)
  {
    if Distinct(s) {
      DistinctAt(s, i);
    }
  }

  lemma {:induction false} DistinctTail<T(!new)>(s: seq<T>)
    requires Distinct(s) && s != []
    ensures Distinct(s[1..]) && s[0] !in s[1..]
  {
    if |s| > 1 {
      var init := s[..|s| - 1];
      DistinctTail(init);
      assert s[1..][..|s| - 2] == init[1..];
      assert s[1..] == init[1..] + [s[|s| - 1]];
    }
  }

  lemma {:induction false} DistinctSnoc<T(!new)>(s: seq<T>, x: T)
    requires Distinct(s) && x !in s
    ensures Distinct(s + [x])
  {
    assert (s + [x])[..|s|] == s;
  }

  lemma {:induction false} ElementsSnoc<T(!new)>(s: seq<T>, x: T)
    ensures Elements(s + [x]) == Elements(s) + {x}
  {
  }

  lemma {:induction false} DistinctLength<T(!new)>(s: seq<T>)
    requires Distinct(s)
    ensures |Elements(s)| == |s|
  {
    if s != [] {
      var init, last := s[..|s| - 1], s[|s| - 1];
      DistinctLength(init);
      ElementsSnoc(init, last);
      assert s == init + [last];
    }
  }

  lemma {:induction false} SubsetSize<T(!new)>(a: set<T>, b: set<T>)
    requires a <= b
    ensures |a| <= |b|
    ensures |a| == |b| ==> a == b
  {
    assert b == a + (b - a);
    assert |b| == |a| + |b - a|;
  }

  /** A sequence over a finite set that is longer than the set repeats a value. */
  lemma {:induction false} Pigeonhole<T(!new)>(s: seq<T>, universe: set<T>) returns (i: nat, j: nat)
    requires forall x :: x in s ==> x in universe
    requires |s| > |universe|
    ensures i < j < |s| && s[i] == s[j]
  {
    var init, last := s[..|s| - 1], s[|s| - 1];
    if last in init {
      i, j :| 0 <= i < |init| && j == |s| - 1 && init[i] == last;
    } else {
      i, j := Pigeonhole(init, universe - {last});
    }
  }

  // ----- rearranging -----

  function MapAll<A, B>(f: A -> B, s: seq<A>): seq<B> {
    if s == [] then [] else [f(s[0])] + MapAll(f, s[1..])
  }

  lemma {:induction false} MapAllConcat<A(!new), B(!new)>(f: A -> B, a: seq<A>, b: seq<A>)
    ensures MapAll(f, a + b) == MapAll(f, a) + MapAll(f, b)
  {
    if a == [] {
      assert a + b == b;
    } else {
      MapAllConcat(f, a[1..], b);
      assert (a + b)[1..] == a[1..] + b;
    }
  }

  lemma {:induction false} SameElements<T(!new)>(a: seq<T>, b: seq<T>)
    requires multiset(a) == multiset(b)
    ensures |a| == |b| && forall x :: x in a <==> x in b
  {
    assert |a| == |multiset(a)| && |b| == |multiset(b)|;
    forall x
      ensures x in a <==> x in b
    {
      assert x in a <==> x in multiset(a);
    }
  }

  /** Dropping the last value of a from both. */
  lemma {:induction false} WithoutLast<T(!new)>(a: seq<T>, b: seq<T>, i: nat)
    requires multiset(a) == multiset(b) && a != [] && i < |b| && b[i] == a[|a| - 1]
    ensures multiset(a[..|a| - 1]) == multiset(b[..i] + b[i + 1..])
  {
    assert a == a[..|a| - 1] + [a[|a| - 1]];
    assert b == b[..i] + [b[i]] + b[i + 1..];
    var last, rest := multiset{b[i]}, multiset(b[..i] + b[i + 1..]);
    assert multiset(a) == multiset(a[..|a| - 1]) + last;
    assert multiset(b) == multiset(b[..i]) + last + multiset(b[i + 1..]) == rest + last;
    forall x
      ensures multiset(a[..|a| - 1])[x] == rest[x]
    {
      assert multiset(a)[x] == multiset(b)[x];
    }
  }

  lemma {:induction false} MoveToEnd<T(!new)>(a: seq<T>, b: seq<T>, c: seq<T>)
    ensures multiset(a + b + c) == multiset(a + c) + multiset(b)
  {
  }

  /** Rearranging a sequence rearranges the values of a function along it. */
  lemma {:induction false} MapAllPermuted<A(!new), B(!new)>(f: A -> B, a: seq<A>, b: seq<A>)
    requires multiset(a) == multiset(b)
    ensures multiset(MapAll(f, a)) == multiset(MapAll(f, b))
  {
    SameElements(a, b);
    if a != [] {
      var init, last := a[..|a| - 1], a[|a| - 1];
      assert last in a;
      var i :| 0 <= i < |b| && b[i] == last;
      var front, back := b[..i], b[i + 1..];
      WithoutLast(a, b, i);
      MapAllPermuted(f, init, front + back);
      assert a == init + [last] && b == front + [last] + back;
      MapAllConcat(f, init, [last]);
      MapAllConcat(f, front, back);
      MapAllConcat(f, front, [last]);
      MapAllConcat(f, front + [last], back);
      MoveToEnd(MapAll(f, front), MapAll(f, [last]), MapAll(f, back));
    }
  }

  // ----- concatenation -----

  lemma {:induction false} Regroup<T>(a: seq<T>, b: seq<T>, c: seq<T>)
    ensures a + b + c == a + (b + c)
  {
  }
}
