// The bounded wake ledger (agent-runtime/cmd/runtime/wake.go, wakeDeduper.accept).
// The mutex makes each call one step, and the clock is taken to move between calls.
module WakeDeduper {
  import opened Collections
  import opened Text

  const MAX_ENTRIES := 4096

  datatype Acceptance = Acceptance(key: string, at: int)

  /** role and occurrence, joined as the map key. It is never empty. */
  function Key(role: string, occurrence: string): string {
    role + ['\0'] + occurrence
  }

  /** The acceptances still remembered: the last 4096. */
  function Recent(history: seq<Acceptance>): seq<Acceptance> {
    if |history| <= MAX_ENTRIES then history else history[|history| - MAX_ENTRIES..]
  }

  ghost predicate Holds(recent: seq<Acceptance>, key: string) {
    exists i :: 0 <= i < |recent| && recent[i].key == key
  }

  /** Acceptances in time order. */
  ghost predicate Ordered(history: seq<Acceptance>) {
    forall i, j :: 0 <= i < j < |history| ==> history[i].at < history[j].at
  }

  /** A key comes back only behind 4096 other acceptances. */
  ghost predicate Spaced(history: seq<Acceptance>) {
    forall i, j :: 0 <= i < j < |history| && history[i].key == history[j].key ==> j - i > MAX_ENTRIES
  }

  /** The map holds exactly the remembered acceptances. */
  ghost predicate Remembers(seen: map<string, int>, recent: seq<Acceptance>) {
    && |seen| == |recent|
    && (forall i {:trigger recent[i]} :: 0 <= i < |recent| ==>
      recent[i].key in seen && seen[recent[i].key] == recent[i].at)
    && (forall k :: k in seen ==> Holds(recent, k) && k != "")
  }

  class Deduper {
    var seen: map<string, int>
    /** Every acceptance so far. */
    ghost var history: seq<Acceptance>

    ghost predicate Valid()
      reads this
    {
      Ordered(history) && Spaced(history) && Remembers(seen, Recent(history))
    }

    constructor ()
      ensures Valid() && history == []
    {
      seen, history := map[], [];
    }

    /** Accepts a pair unless it is among the last 4096 accepted. */
    method Accept(role: string, occurrence: string, now: int) returns (accepted: bool)
      requires Valid() && (history != [] ==> history[|history| - 1].at < now)
      modifies this
      ensures Valid()
      ensures accepted <==> forall i :: 0 <= i < |old(history)| && |old(history)| - 4096 <= i ==>
                              old(history)[i].key != role + ['\0'] + occurrence
      ensures history == if accepted then old(history) + [Acceptance(Key(role, occurrence), now)] else old(history)
      ensures !accepted ==> seen == old(seen)
      ensures |seen| <= 4096
    {
      HeldIff(history, Key(role, occurrence));
      var key := Key(role, occurrence);
      if key in seen {
        return false;
      }
      NotHeld(seen, Recent(history), key);
      ghost var before := seen;
      if |seen| >= MAX_ENTRIES {
        var oldest := Oldest(seen);
        OldestIsFirst(seen, history, oldest);
        seen := seen - {oldest};
      }
      seen := seen[key := now];
      Accepted(before, seen, history, Acceptance(key, now));
      history := history + [Acceptance(key, now)];
      accepted := true;
    }
  }

  lemma {:induction false} HeldIff(history: seq<Acceptance>, key: string)
    ensures Holds(Recent(history), key)
       <==> exists i :: 0 <= i < |history| && |history| - 4096 <= i && history[i].key == key
  {
    var recent := Recent(history);
    var base := |history| - |recent|;
    forall i: nat | base <= i < |history|
      ensures history[i] == recent[i - base]
    {
    }
    if Holds(recent, key) {
      var i :| 0 <= i < |recent| && recent[i].key == key;
      assert history[base + i].key == key;
    }
  }

  lemma {:induction false} NotHeld(seen: map<string, int>, recent: seq<Acceptance>, key: string)
    requires Remembers(seen, recent) && key !in seen
    ensures !Holds(recent, key)
  {
  }

  /** The loop that looks for the oldest entry. */
  method Oldest(seen: map<string, int>) returns (oldestKey: string)
    requires seen != map[] && "" !in seen
    ensures oldestKey in seen && forall k :: k in seen ==> seen[oldestKey] <= seen[k]
  {
    oldestKey := "";
    var oldest := 0;
    var todo := seen.Keys;
    while todo != {}
      invariant todo <= seen.Keys && (oldestKey == "" <==> todo == seen.Keys)
      invariant oldestKey != "" ==> oldestKey in seen && oldest == seen[oldestKey]
      invariant oldestKey != "" ==> forall k :: k in seen.Keys - todo ==> oldest <= seen[k]
      decreases todo
    {
      var candidate :| candidate in todo;
      if oldestKey == "" || seen[candidate] < oldest {
        oldestKey, oldest := candidate, seen[candidate];
      }
      todo := todo - {candidate};
    }
  }

  /** With a full map the oldest entry is the first remembered acceptance. */
  lemma {:induction false} OldestIsFirst(seen: map<string, int>, history: seq<Acceptance>, oldest: string)
    requires Ordered(history) && Remembers(seen, Recent(history)) && |seen| >= MAX_ENTRIES
    requires oldest in seen && forall k :: k in seen ==> seen[oldest] <= seen[k]
    ensures |Recent(history)| == MAX_ENTRIES && oldest == Recent(history)[0].key
  {
    var recent := Recent(history);
    assert Holds(recent, oldest);
    var i :| 0 <= i < |recent| && recent[i].key == oldest;
    RecentOrdered(history, i);
    assert recent[0].key in seen;
  }

  lemma {:induction false} RecentOrdered(history: seq<Acceptance>, i: nat)
    requires Ordered(history) && i < |Recent(history)|
    ensures i > 0 ==> Recent(history)[0].at < Recent(history)[i].at
  {
  }

  lemma {:induction false} Accepted(before: map<string, int>, after: map<string, int>, history: seq<Acceptance>,
                                    a: Acceptance)
    requires Ordered(history) && Spaced(history) && Remembers(before, Recent(history)) && a.key !in before
      && a.key != ""
    requires history != [] ==> history[|history| - 1].at < a.at
    requires after == (if |before| >= MAX_ENTRIES then before - {Recent(history)[0].key} else before)[a.key := a.at]
    requires |before| >= MAX_ENTRIES ==> |Recent(history)| == MAX_ENTRIES && Recent(history)[0].key in before
    ensures var next := history + [a]; Ordered(next) && Spaced(next) && Remembers(after, Recent(next))
    ensures |after| <= MAX_ENTRIES
  {
    StaysSpaced(before, history, a);
    RecentMoves(history, a);
    if |before| < MAX_ENTRIES {
      Grows(before, Recent(history), a);
    } else {
      DistinctRecent(history);
      Forgets(before, Recent(history));
      Grows(before - {Recent(history)[0].key}, Recent(history)[1..], a);
    }
  }

  lemma {:induction false} RecentMoves(history: seq<Acceptance>, a: Acceptance)
    ensures Recent(history + [a])
         == (if |Recent(history)| < MAX_ENTRIES then Recent(history) else Recent(history)[1..]) + [a]
  {
  }

  lemma {:induction false} StaysSpaced(before: map<string, int>, history: seq<Acceptance>, a: Acceptance)
    requires Ordered(history) && Spaced(history) && Remembers(before, Recent(history)) && a.key !in before
    requires history != [] ==> history[|history| - 1].at < a.at
    ensures Ordered(history + [a]) && Spaced(history + [a])
  {
    NotHeld(before, Recent(history), a.key);
    forall i: nat | i < |history| && history[i].key == a.key
      ensures |history| - i > MAX_ENTRIES
    {
      RecentHolds(history, i);
    }
  }

  lemma {:induction false} RecentHolds(history: seq<Acceptance>, i: nat)
    requires i < |history|
    ensures |history| - i <= MAX_ENTRIES ==> Holds(Recent(history), history[i].key)
  {
    if |history| - i <= MAX_ENTRIES {
      var recent := Recent(history);
      assert recent[i - (|history| - |recent|)] == history[i];
    }
  }

  lemma {:induction false} DistinctRecent(history: seq<Acceptance>)
    requires Spaced(history)
    ensures forall i, j :: 0 <= i < j < |Recent(history)| ==> Recent(history)[i].key != Recent(history)[j].key
  {
    var recent := Recent(history);
    var base := |history| - |recent|;
    forall i, j | 0 <= i < j < |recent|
      ensures recent[i].key != recent[j].key
    {
      assert recent[i] == history[base + i] && recent[j] == history[base + j];
    }
  }

  lemma {:induction false} Grows(seen: map<string, int>, recent: seq<Acceptance>, a: Acceptance)
    requires Remembers(seen, recent) && a.key !in seen && a.key != ""
    ensures Remembers(seen[a.key := a.at], recent + [a])
  {
    var after, next := seen[a.key := a.at], recent + [a];
    assert after.Keys == seen.Keys + {a.key} && |after.Keys| == |seen.Keys| + 1;
    forall k | k in after
      ensures Holds(next, k) && k != ""
    {
      HoldsMore(recent, a, k);
    }
    forall i {:trigger next[i]} | 0 <= i < |next|
      ensures next[i].key in after && after[next[i].key] == next[i].at
    {
      if i < |recent| {
        assert next[i] == recent[i];
      }
    }
  }

  lemma {:induction false} HoldsMore(recent: seq<Acceptance>, a: Acceptance, k: string)
    requires k == a.key || Holds(recent, k)
    ensures Holds(recent + [a], k)
  {
    var next := recent + [a];
    if k == a.key {
      assert next[|recent|].key == k;
    } else {
      var i :| 0 <= i < |recent| && recent[i].key == k;
      assert next[i].key == k;
    }
  }

  lemma {:induction false} Forgets(seen: map<string, int>, recent: seq<Acceptance>)
    requires Remembers(seen, recent) && recent != []
    requires forall i, j :: 0 <= i < j < |recent| ==> recent[i].key != recent[j].key
    ensures Remembers(seen - {recent[0].key}, recent[1..])
  {
    var after, next := seen - {recent[0].key}, recent[1..];
    assert after.Keys + {recent[0].key} == seen.Keys;
    assert |after.Keys| == |seen.Keys| - 1;
    forall i {:trigger next[i]} | 0 <= i < |next|
      ensures next[i].key in after && after[next[i].key] == next[i].at
    {
      assert next[i] == recent[i + 1];
    }
    forall k | k in after
      ensures Holds(next, k) && k != ""
    {
      var i :| 0 <= i < |recent| && recent[i].key == k;
      assert i > 0 && next[i - 1].key == k;
    }
  }

  /** Two pairs share a key only if they are equal, when roles hold no NUL. */
  lemma {:induction false} KeysTellPairs(role: string, occurrence: string, role': string, occurrence': string)
    requires '\0' !in role && '\0' !in role' && Key(role, occurrence) == Key(role', occurrence')
    ensures role == role' && occurrence == occurrence'
  {
    SeparatedInjective(role, occurrence, role', occurrence', '\0');
  }
}
