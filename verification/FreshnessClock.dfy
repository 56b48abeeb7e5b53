// The market-session clock and the freshness of collected series
// (agent-platform/cmd/cortex-input/operations.go). Times are nanoseconds of New York
// local time since a Monday midnight; daylight-saving shifts fall outside sessions.
module FreshnessClock {
  import opened Collections

  const SECOND := 1_000_000_000
  const HOUR := 3600 * SECOND
  const DAY := 24 * HOUR
  const OPEN := 9 * HOUR
  const CLOSE := 16 * HOUR
  const DELAY := 120 * SECOND

  function Date(t: int): int {
    t / DAY
  }

  predicate Weekend(date: int) {
    date % 7 >= 5
  }

  /** The last weekday up to a date: Saturday is day 5, Sunday day 6. */
  function SessionDate(date: int): int {
    if date % 7 == 6 then date - 2 else if date % 7 == 5 then date - 1 else date
  }

  /** When the latest observation should be available: during a session two minutes
      ago, otherwise at the last close. */
  function Expected(now: int): int {
    var date := SessionDate(Date(now));
    if now < date * DAY + OPEN then SessionDate(date - 1) * DAY + CLOSE
    else if now < date * DAY + CLOSE then now - DELAY
    else date * DAY + CLOSE
  }

  /** The loop that steps back over a weekend. */
  method BackToWeekday(date: int) returns (weekday: int)
    ensures weekday == SessionDate(date)
  {
    weekday := date;
    while Weekend(weekday)
      invariant SessionDate(weekday) == SessionDate(date)
      decreases weekday % 7
    {
      weekday := weekday - 1;
    }
  }

  /** expectedMoodyBluesAvailableAt */
  method ExpectedAvailableAt(now: int) returns (at: int)
    ensures at == Expected(now)
    ensures at <= now
  {
    var date := BackToWeekday(Date(now));
    var open, closeAt := date * DAY + OPEN, date * DAY + CLOSE;
    ExpectedNotAhead(now);
    if now < open {
      date := BackToWeekday(date - 1);
      closeAt := date * DAY + CLOSE;
    } else if now < closeAt {
      closeAt := now - DELAY;
    }
    at := closeAt;
  }

  lemma {:induction false} SessionDateFacts(date: int)
    ensures date - 2 <= SessionDate(date) <= date && !Weekend(SessionDate(date))
    ensures forall d :: SessionDate(date) < d <= date ==> Weekend(d)
  {
  }

  lemma {:induction false} SessionDateMonotone(a: int, b: int)
    requires a <= b
    ensures SessionDate(a) <= SessionDate(b)
  {
    if a < b {
      SessionDateFacts(a);
      SessionDateFacts(b);
      if SessionDate(b) < a {
        assert SessionDate(a) == SessionDate(b);
      }
    }
  }

  /** The expectation never lies ahead of the clock. */
  lemma {:induction false} ExpectedNotAhead(now: int)
    ensures Expected(now) <= now
  {
    var date := SessionDate(Date(now));
    SessionDateFacts(Date(now));
    SessionDateFacts(date - 1);
    assert Date(now) * DAY <= now;
  }

  /** 16:00 of a day. */
  function ClosingTime(d: int): int {
    d * 86_400_000_000_000 + 57_600_000_000_000
  }

  /** The day is a weekday, and its close has come. */
  predicate ClosedBy(d: int, now: int) {
    d % 7 < 5 && ClosingTime(d) <= now
  }

  /** From 9:00 to 16:00 on a weekday the expectation is the clock less two minutes;
      otherwise it is a close, and no weekday close lies between it and the clock. */
  lemma {:induction false} ExpectedMeaning(now: int)
    ensures var date := now / 86_400_000_000_000;
      if date % 7 < 5 && 32_400_000_000_000 <= now - date * 86_400_000_000_000 < 57_600_000_000_000
      then Expected(now) == now - 120_000_000_000
      else exists d :: ClosedBy(d, now) && Expected(now) == ClosingTime(d)
                       && forall e :: ClosedBy(e, now) ==> e <= d
  {
    var today := Date(now);
    var date := SessionDate(today);
    SessionDateFacts(today);
    SessionDateFacts(date - 1);
    ExpectedNotAhead(now);
    assert today * DAY <= now < (today + 1) * DAY;
    if Weekend(today) || now < today * DAY + OPEN || today * DAY + CLOSE <= now {
      var d := if now < date * DAY + OPEN then SessionDate(date - 1) else date;
      assert ClosedBy(d, now) && Expected(now) == ClosingTime(d);
      forall e | ClosedBy(e, now)
        ensures e <= d
      {
        LatestClose(now, e);
      }
    }
  }

  lemma {:induction false} LatestClose(now: int, e: int)
    requires !Weekend(e) && e * DAY + CLOSE <= now
    ensures var date := SessionDate(Date(now)); e <= if now < date * DAY + OPEN then SessionDate(date - 1) else date
  {
    var today := Date(now);
    var date := SessionDate(today);
    SessionDateFacts(today);
    SessionDateFacts(date - 1);
    assert today * DAY <= now < (today + 1) * DAY;
    assert e <= today;
    assert e <= date;
  }

  /** As the clock advances the expectation never goes back. */
  lemma {:induction false} ExpectedMonotone(a: int, b: int)
    requires a <= b
    ensures Expected(a) <= Expected(b)
  {
    SessionDateMonotone(Date(a), Date(b));
    SessionDateMonotone(SessionDate(Date(a)) - 1, SessionDate(Date(b)) - 1);
    if SessionDate(Date(a)) < SessionDate(Date(b)) {
      EarlierDay(a, SessionDate(Date(a)), b, SessionDate(Date(b)));
    }
  }

  /** On an earlier session day the expectation is at most that day's close, which
      every later session day's expectation has reached. */
  lemma {:induction false} EarlierDay(a: int, dateA: int, b: int, dateB: int)
    requires dateA == SessionDate(Date(a)) && dateB == SessionDate(Date(b)) && dateA < dateB
    ensures Expected(a) <= dateA * DAY + CLOSE <= Expected(b)
  {
    SessionDateFacts(Date(a));
    SessionDateFacts(dateA - 1);
    SessionDateMonotone(dateA, dateB - 1);
    assert SessionDate(dateA) == dateA;
  }

  // ----- freshness of the series -----

  datatype Category = GexFull | GexOne | GexZero | OtherCategory(name: string)

  datatype Series = Series(symbol: string, category: Category, available: bool, observations: int,
                           latestObservedAt: Option<int>, latestAvailableAt: Option<int>)

  /** What the collector declares about itself, besides its series. */
  datatype Declaration = Declaration(ok: bool, provider: string, configured: bool, schemaRevision: int,
                                     collectionProvider: string, resolution: string, policy: string)

  predicate DeclarationValid(d: Declaration) {
    && d.ok && d.provider == "gexbot_classic" && d.schemaRevision == 1 && d.collectionProvider == d.provider
    && d.resolution == "30s" && d.policy != ""
  }

  datatype Item = Item(category: Category, available: bool, observations: int, observedAt: Option<int>,
                       availableAt: Option<int>, current: bool, lagSeconds: int)

  datatype Health = Health(healthy: bool, policy: string, expectedAt: int, items: seq<Item>)

  predicate SeriesValid(s: Series, now: int) {
    && s.symbol == "SPX" && s.observations >= 0 && !s.category.OtherCategory?
    && (s.available ==>
          && s.latestObservedAt.Some? && s.latestAvailableAt.Some?
          && s.latestObservedAt.value <= s.latestAvailableAt.value <= now)
  }

  function ItemOf(s: Series, expected: int): (item: Item)
    requires s.available ==> s.latestAvailableAt.Some?
    ensures item.category == s.category
  {
    if !s.available then Item(s.category, false, s.observations, None, None, false, 0)
    else
      var at := s.latestAvailableAt.value;
      Item(s.category, true, s.observations, s.latestObservedAt, s.latestAvailableAt, expected <= at,
           if at >= expected then 0 else (expected - at) / SECOND)
  }

  ghost predicate AllValid(series: seq<Series>, now: int) {
    && (forall i :: 0 <= i < |series| ==> SeriesValid(series[i], now))
    && (forall i, j :: 0 <= i < j < |series| ==> series[i].category != series[j].category)
  }

  ghost predicate Present(series: seq<Series>, c: Category) {
    exists i :: 0 <= i < |series| && series[i].category == c
  }

  ghost function SeriesOf(series: seq<Series>, c: Category): Series
    requires Present(series, c)
  {
    var i :| 0 <= i < |series| && series[i].category == c;
    series[i]
  }

  ghost predicate Complete(series: seq<Series>) {
    Present(series, GexFull) && Present(series, GexOne) && Present(series, GexZero)
  }

  ghost predicate AllFresh(series: seq<Series>, expected: int) {
    forall i :: 0 <= i < |series| ==>
      series[i].available && series[i].latestAvailableAt.Some? && expected <= series[i].latestAvailableAt.value
  }

  /** A series of SPX in one of the three categories; the times of an available one are
      given and in order. */
  ghost predicate Readable(s: Series, now: int) {
    && s.symbol == "SPX" && 0 <= s.observations && s.category in {GexFull, GexOne, GexZero}
    && (s.available ==>
          exists observed, at :: s.latestObservedAt == Some(observed) && s.latestAvailableAt == Some(at)
                                 && observed <= at && at <= now)
  }

  /** The item says what the series says, whether it is fresh, and by how many whole seconds it lags. */
  ghost predicate Reports(item: Item, s: Series, expected: int) {
    && item.category == s.category && item.available == s.available && item.observations == s.observations
    && if s.available then
         && item.observedAt == s.latestObservedAt && item.availableAt == s.latestAvailableAt && item.availableAt.Some?
         && (item.current <==> expected <= item.availableAt.value)
         && (item.current ==> item.lagSeconds == 0)
         && (!item.current ==>
               0 <= expected - item.availableAt.value - item.lagSeconds * 1_000_000_000 < 1_000_000_000)
       else
         item.observedAt == None && item.availableAt == None && !item.current && item.lagSeconds == 0
  }

  lemma {:induction false} ReadableIff(s: Series, now: int)
    ensures SeriesValid(s, now) <==> Readable(s, now)
  {
  }

  lemma {:induction false} AllReadable(series: seq<Series>, now: int)
    ensures AllValid(series, now) <==>
      (forall i :: 0 <= i < |series| ==> Readable(series[i], now))
      && forall i, j :: 0 <= i < j < |series| ==> series[i].category != series[j].category
  {
    hide SeriesValid, Readable;
    forall i | 0 <= i < |series|
      ensures SeriesValid(series[i], now) <==> Readable(series[i], now)
    {
      ReadableIff(series[i], now);
    }
  }

  lemma {:induction false} ItemReports(s: Series, now: int)
    requires SeriesValid(s, now)
    ensures Reports(ItemOf(s, Expected(now)), s, Expected(now))
  {
  }

  /** The answer's items report the series of their categories. */
  lemma {:induction false} ListedReports(series: seq<Series>, now: int)
    requires AllValid(series, now) && Complete(series)
    ensures var items := Listed(series, now);
      forall i, j :: 0 <= i < 3 && 0 <= j < |series| && series[j].category == items[i].category ==>
        Reports(items[i], series[j], Expected(now))
  {
    hide Reports, SeriesValid;
    var items := Listed(series, now);
    forall i, j | 0 <= i < 3 && 0 <= j < |series| && series[j].category == items[i].category
      ensures Reports(items[i], series[j], Expected(now))
    {
      ItemReports(series[j], now);
      assert items[i] == ItemOf(SeriesOf(series, items[i].category), Expected(now));
    }
  }

  /** normalizeMoodyBluesResearchHealth: the answer lists the three series by category,
      in whatever order they were declared. */
  method NormalizeHealth(d: Declaration, series: seq<Series>, now: int) returns (r: Option<Health>)
    ensures r.Some? <==>
      && d.ok && d.provider == "gexbot_classic" && d.schemaRevision == 1 && d.collectionProvider == "gexbot_classic"
      && d.resolution == "30s" && d.policy != "" && |series| == 3
      && (forall i :: 0 <= i < 3 ==> Readable(series[i], now))
      && (forall i, j :: 0 <= i < j < 3 ==> series[i].category != series[j].category)
    ensures r.Some? ==>
      && r.value.policy == d.policy && r.value.expectedAt == Expected(now)
      && (r.value.healthy <==>
            d.configured && forall i :: 0 <= i < 3 ==>
              series[i].available && series[i].latestAvailableAt.Some?
              && Expected(now) <= series[i].latestAvailableAt.value)
    ensures r.Some? ==>
      && |r.value.items| == 3 && r.value.items[0].category == GexFull && r.value.items[1].category == GexOne
      && r.value.items[2].category == GexZero
      && forall i, j :: 0 <= i < 3 && 0 <= j < 3 && series[j].category == r.value.items[i].category ==>
           Reports(r.value.items[i], series[j], Expected(now))
  {
    AllReadable(series, now);
    if !DeclarationValid(d) || |series| != 3 {
      return None;
    }
    var expected := ExpectedAvailableAt(now);
    var read := ReadSeries(series, expected, now);
    if read.None? {
      return None;
    }
    EveryCategory(series, now);
    var sorted := SortItems(read.value.0);
    SortedIsListed(series, now, read.value.0, sorted);
    ListedReports(series, now);
    r := Some(Health(read.value.1 && d.configured, d.policy, expected, sorted));
  }

  /** The loop over the series, each category once. */
  method ReadSeries(series: seq<Series>, expected: int, now: int) returns (r: Option<(seq<Item>, bool)>)
    ensures r.Some? <==> AllValid(series, now)
    ensures r.Some? ==>
      && |r.value.0| == |series| && (r.value.1 <==> AllFresh(series, expected))
      && forall i :: 0 <= i < |series| ==> SeriesValid(series[i], now) && r.value.0[i] == ItemOf(series[i], expected)
  {
    var allowed: set<Category> := {};
    var items: seq<Item> := [];
    var healthy := true;
    for i := 0 to |series|
      invariant AllValid(series[..i], now) && |items| == i
      invariant forall c :: c in allowed <==> exists j :: 0 <= j < i && series[j].category == c
      invariant forall j :: 0 <= j < i ==> SeriesValid(series[j], now) && items[j] == ItemOf(series[j], expected)
      invariant healthy <==> forall j :: 0 <= j < i ==> items[j].available && items[j].current
    {
      if series[i].category in allowed || !SeriesValid(series[i], now) {
        return None;
      }
      allowed := allowed + {series[i].category};
      var item := ItemOf(series[i], expected);
      if !item.available || !item.current {
        healthy := false;
      }
      items := items + [item];
      assert series[..i + 1] == series[..i] + [series[i]];
    }
    assert series[..|series|] == series;
    r := Some((items, healthy));
  }

  /** The answer's items, said without order. */
  ghost function Listed(series: seq<Series>, now: int): seq<Item>
    requires AllValid(series, now) && Complete(series)
  {
    [ItemOf(SeriesOf(series, GexFull), Expected(now)), ItemOf(SeriesOf(series, GexOne), Expected(now)),
     ItemOf(SeriesOf(series, GexZero), Expected(now))]
  }

  lemma {:induction false} EveryCategory(series: seq<Series>, now: int)
    requires |series| == 3 && AllValid(series, now)
    ensures Complete(series)
  {
    assert SeriesValid(series[0], now) && SeriesValid(series[1], now) && SeriesValid(series[2], now);
    assert series[0].category != series[1].category && series[0].category != series[2].category;
    assert series[1].category != series[2].category;
    forall c | c == GexFull || c == GexOne || c == GexZero
      ensures Present(series, c)
    {
      assert series[0].category == c || series[1].category == c || series[2].category == c;
    }
  }

  // ----- the order of the items -----

  /** The category names in ascending order; no other category is ever sorted. */
  function Rank(c: Category): int {
    match c
    case GexFull => 0
    case GexOne => 1
    case GexZero => 2
    case OtherCategory(_) => 3
  }

  ghost predicate ItemsAscend(items: seq<Item>) {
    forall i, j :: 0 <= i < j < |items| ==> Rank(items[i].category) <= Rank(items[j].category)
  }

  function InsertItem(items: seq<Item>, x: Item): (r: seq<Item>)
    ensures multiset(r) == multiset(items) + multiset{x}
  {
    if items == [] then [x]
    else if Rank(x.category) < Rank(items[0].category) then [x] + items
    else
      assert items == [items[0]] + items[1..];
      [items[0]] + InsertItem(items[1..], x)
  }

  lemma {:induction false} InsertAscends(items: seq<Item>, x: Item)
    requires ItemsAscend(items)
    ensures ItemsAscend(InsertItem(items, x))
  {
    if items != [] && Rank(x.category) >= Rank(items[0].category) {
      var rest := InsertItem(items[1..], x);
      InsertAscends(items[1..], x);
      forall y | y in rest
        ensures Rank(items[0].category) <= Rank(y.category)
      {
        assert y in multiset(rest);
        assert y == x || y in multiset(items[1..]);
      }
    }
  }

  method SortItems(items: seq<Item>) returns (sorted: seq<Item>)
    ensures ItemsAscend(sorted) && multiset(sorted) == multiset(items)
  {
    sorted := [];
    for i := 0 to |items|
      invariant ItemsAscend(sorted) && multiset(sorted) == multiset(items[..i])
    {
      assert items[..i + 1] == items[..i] + [items[i]];
      InsertAscends(sorted, items[i]);
      sorted := InsertItem(sorted, items[i]);
    }
    assert items[..|items|] == items;
  }

  lemma {:induction false} Positions(sorted: seq<Item>, x: Item, y: Item, z: Item)
    requires |sorted| == 3 && ItemsAscend(sorted) && x in sorted && y in sorted && z in sorted
    requires x.category == GexFull && y.category == GexOne && z.category == GexZero
    ensures sorted == [x, y, z]
  {
    var i :| 0 <= i < 3 && sorted[i] == x;
    var j :| 0 <= j < 3 && sorted[j] == y;
    var k :| 0 <= k < 3 && sorted[k] == z;
    assert i < j < k;
  }

  lemma {:induction false} SortedIsListed(series: seq<Series>, now: int, items: seq<Item>, sorted: seq<Item>)
    requires |series| == 3 && AllValid(series, now) && Complete(series) && |items| == 3
    requires forall i :: 0 <= i < 3 ==> SeriesValid(series[i], now) && items[i] == ItemOf(series[i], Expected(now))
    requires ItemsAscend(sorted) && multiset(sorted) == multiset(items)
    ensures sorted == Listed(series, now)
  {
    assert |multiset(sorted)| == |sorted| && |multiset(items)| == |items|;
    forall c | c == GexFull || c == GexOne || c == GexZero
      ensures SeriesValid(SeriesOf(series, c), now) && ItemOf(SeriesOf(series, c), Expected(now)) in sorted
    {
      var i :| 0 <= i < |series| && series[i] == SeriesOf(series, c);
      assert items[i] in multiset(items);
      assert items[i] in multiset(sorted);
    }
    var listed := Listed(series, now);
    Positions(sorted, listed[0], listed[1], listed[2]);
  }

  /** What is fresh at a later time was fresh before, once it was available. */
  lemma {:induction false} FreshEarlier(s: Series, early: int, late: int)
    requires early <= late && SeriesValid(s, early) && s.available
    ensures ItemOf(s, Expected(late)).current ==> ItemOf(s, Expected(early)).current
    ensures ItemOf(s, Expected(early)).lagSeconds <= ItemOf(s, Expected(late)).lagSeconds
  {
    ExpectedMonotone(early, late);
  }
}
