/**
  The rate-limit history and forecast in terms of what was observed: which observations are
  recorded and what their lists then hold, and what a forecast's rate is the mean of.
  Times are milliseconds.
 */
module RateReadings {
  import opened Options
  import opened RateLimits

  // ------------------------------------------------------------------ what is observed

  /** A window of a limit of a ready account that has been observed. */
  ghost predicate Reported(accounts: seq<Account>, o: Observation) {
    exists a, l, w :: && a in accounts && a.ready && a.observedAt.Some? && a.observedAt.value != 0 && l in a.limits && w in l.windows
                      && o == Observation(Key(a.id, l.id, w.kind, if w.minutes.Some? then w.minutes.value else 0), a.observedAt.value, w)
  }

  ghost predicate ReportedBy(a: Account, ls: seq<Limit>, o: Observation)
    requires a.observedAt.Some?
  {
    exists l, w :: && l in ls && w in l.windows
                   && o == Observation(Key(a.id, l.id, w.kind, if w.minutes.Some? then w.minutes.value else 0), a.observedAt.value, w)
  }

  lemma WindowsReported(a: Account, l: Limit, o: Observation)
    requires a.observedAt.Some?
    ensures o in OfWindows(a, l, l.windows) <==> ReportedBy(a, [l], o)
  {
    var os := OfWindows(a, l, l.windows);
    if o in os {
      var i :| 0 <= i < |os| && os[i] == o;
      assert l in [l] && l.windows[i] in l.windows;
    }
    if ReportedBy(a, [l], o) {
      var x, w :| && x in [l] && w in x.windows
                  && o == Observation(Key(a.id, x.id, w.kind, if w.minutes.Some? then w.minutes.value else 0), a.observedAt.value, w);
      var i :| 0 <= i < |l.windows| && l.windows[i] == w;
      assert os[i] == o;
    }
  }

  lemma {:induction false} LimitsReported(a: Account, ls: seq<Limit>, o: Observation)
    requires a.observedAt.Some?
    ensures o in OfLimits(a, ls) <==> ReportedBy(a, ls, o)
  {
    hide OfWindows;
    if ls != [] {
      var init, last := ls[..|ls| - 1], ls[|ls| - 1];
      assert ls == init + [last];
      LimitsReported(a, init, o);
      WindowsReported(a, last, o);
    }
  }

  /** Exactly the windows of ready, observed accounts are observations. */
  lemma {:induction false} ObservationsExact(accounts: seq<Account>, o: Observation)
    ensures o in OfAccounts(accounts) <==> Reported(accounts, o)
  {
    hide OfLimits;
    if accounts != [] {
      var init, last := accounts[..|accounts| - 1], accounts[|accounts| - 1];
      assert accounts == init + [last];
      ObservationsExact(init, o);
      if Observed(last) { LimitsReported(last, last.limits, o); }
    }
  }

  // ------------------------------------------------------------------- what is recorded

  /** The newest sample of a list, if it is not older than two days. */
  function Latest(list: seq<Sample>, now: int): Option<Sample> {
    if list != [] && list[|list| - 1].observedAt >= now - 172_800_000 then Some(list[|list| - 1]) else None
  }

  /** A later cycle: another reset time, or more remaining than before. */
  predicate Restarts(last: Sample, o: Observation) { last.resetsAt != o.window.resetsAt || o.window.remaining > last.remaining }

  /** An observation is recorded unless it is no news: not newer than the last one or, within its cycle, less than five minutes newer. */
  predicate Recorded(list: seq<Sample>, o: Observation, now: int) {
    match Latest(list, now)
    case None => true
    case Some(last) => o.at > last.observedAt && (Restarts(last, o) || o.at - last.observedAt >= 300_000)
  }

  /** From k on, the samples of a list are those of the last two days, or the newest 639. */
  predicate KeepsFrom(list: seq<Sample>, now: int, k: int) {
    && 0 <= k <= |list| && |list| - k <= 639
    && (forall i :: k <= i < |list| ==> list[i].observedAt >= now - 172_800_000)
    && (k > 0 ==> list[k - 1].observedAt < now - 172_800_000 || |list| - k == 639)
  }

  lemma OrderlyFront(list: seq<Sample>)
    requires Orderly(list) && list != []
    ensures Orderly(list[..|list| - 1])
    ensures forall i :: 0 <= i < |list| - 1 ==> list[i].observedAt < list[|list| - 1].observedAt
  {}

  /** The recent samples of an orderly list are its last ones. */
  lemma {:induction false} RecentSuffix(list: seq<Sample>, cutoff: int) returns (k: nat)
    requires Orderly(list)
    ensures k <= |list| && Filter(list, Since(cutoff)) == list[k..]
    ensures forall i :: k <= i < |list| ==> list[i].observedAt >= cutoff
    ensures k > 0 ==> list[k - 1].observedAt < cutoff
  {
    k := 0;
    if list != [] {
      var front, last := list[..|list| - 1], list[|list| - 1];
      OrderlyFront(list);
      hide Orderly;
      if last.observedAt < cutoff {
        k := |list|;
        NoneRecent(list, cutoff);
      } else {
        k := RecentSuffix(front, cutoff);
        assert list[k..] == front[k..] + [last];
      }
    }
  }

  lemma {:induction false} NoneRecent(list: seq<Sample>, cutoff: int)
    requires Orderly(list) && (list != [] ==> list[|list| - 1].observedAt < cutoff)
    ensures Filter(list, Since(cutoff)) == []
  {
    if list != [] {
      OrderlyFront(list);
      hide Orderly;
      NoneRecent(list[..|list| - 1], cutoff);
    }
  }

  /**
    What recording does to a well-kept history: nothing to any other list; a list gains the
    observation exactly when it is news, after the samples of its cycle that are kept, or
    alone when a new cycle begins.
   */
  lemma RecordedExactly(h: History, next: History, o: Observation, now: int)
    requires Kept(h)
    ensures var was, r := Lookup(h, o.key), Apply(h, next, o, now);
            var news, last := Sample(o.at, o.window.remaining, o.window.resetsAt), Latest(was, now);
            && (!Recorded(was, o, now) ==> r == next)
            && (Recorded(was, o, now) && (last.None? || Restarts(last.value, o)) ==> r == next[o.key := [news]])
            && (Recorded(was, o, now) && last.Some? && !Restarts(last.value, o) ==>
                  exists k :: KeepsFrom(was, now, k) && r == next[o.key := was[k..] + [news]])
  {
    var was := Lookup(h, o.key);
    assert WellKept(was);
    var k := RecentSuffix(was, now - 48 * HOUR);
    hide Filter, Orderly, Newest, KeepsFrom, Apply, Lookup, Kept, Restarts;
    var retained := was[k..];
    assert |retained| == |was| - k && (retained != [] ==> retained[|retained| - 1] == was[|was| - 1]);
    ApplyBy(h, next, o, now, retained);
    NewestOne(SampleOf(o));
    NewestKept(was, now, k, SampleOf(o));
  }

  lemma ApplyBy(h: History, next: History, o: Observation, now: int, retained: seq<Sample>)
    requires Filter(Lookup(h, o.key), Since(now - 48 * HOUR)) == retained
    ensures Apply(h, next, o, now)
         == if retained == [] || (o.at > retained[|retained| - 1].observedAt && Restarts(retained[|retained| - 1], o))
            then next[o.key := Newest([] + [SampleOf(o)])]
            else if o.at > retained[|retained| - 1].observedAt && o.at - retained[|retained| - 1].observedAt >= 300_000
            then next[o.key := Newest(retained + [SampleOf(o)])]
            else next
  {
    hide Filter, Newest, Lookup;
  }

  lemma NewestOne(x: Sample)
    ensures Newest([] + [x]) == [x]
  {}

  lemma NewestKept(was: seq<Sample>, now: int, k: nat, x: Sample)
    requires k <= |was| <= LIMIT
    requires forall i :: k <= i < |was| ==> was[i].observedAt >= now - 172_800_000
    requires k > 0 ==> was[k - 1].observedAt < now - 172_800_000
    ensures exists j :: KeepsFrom(was, now, j) && Newest(was[k..] + [x]) == was[j..] + [x]
  {
    var all := was[k..] + [x];
    var j := if |all| > LIMIT then k + (|all| - LIMIT) else k;
    assert Newest(all) == was[j..] + [x];
    assert KeepsFrom(was, now, j);
  }

  // ----------------------------------------------------------------------- the forecast

  /** A sample of the window's cycle, not from the future and at most so old. */
  predicate Seen(s: Sample, w: Window, now: int, span: int) { now - span <= s.observedAt <= now && s.resetsAt == w.resetsAt }

  ghost predicate NoneSeen(samples: seq<Sample>, w: Window, now: int, span: int) { forall s :: s in samples ==> !Seen(s, w, now, span) }

  /** The earliest and the latest such sample. */
  ghost predicate Ends(samples: seq<Sample>, w: Window, now: int, span: int, first: Sample, last: Sample) {
    && first in samples && last in samples && Seen(first, w, now, span) && Seen(last, w, now, span)
    && forall s :: s in samples && Seen(s, w, now, span) ==> first.observedAt <= s.observedAt <= last.observedAt
  }

  /** What was drained between two samples, per hour, if that is at least one percent over at least so many milliseconds. */
  function Drain(first: Sample, last: Sample, minimum: int): Option<Trend>
    requires minimum > 0
  {
    var ms, drained := last.observedAt - first.observedAt, first.remaining - last.remaining;
    if ms >= minimum && drained >= 1.0 then Some(Trend(drained / (ms as real / 3_600_000.0), ms as real / 3_600_000.0)) else None
  }

  lemma EndsOfList(m: seq<Sample>, samples: seq<Sample>, w: Window, now: int, span: int, first: Sample, last: Sample)
    requires WellKept(m) && (forall s :: s in m <==> s in samples && Seen(s, w, now, span)) && Ends(samples, w, now, span, first, last)
    ensures m != [] && m[0] == first && m[|m| - 1] == last
  {
    assert first in m && last in m;
    var i :| 0 <= i < |m| && m[i] == first;
    var j :| 0 <= j < |m| && m[j] == last;
    assert m[0] in m && m[|m| - 1] in m;
    assert forall a, b :: 0 <= a < b < |m| ==> m[a].observedAt < m[b].observedAt;
  }

  /** The lists the two trends are taken over. */
  lemma TrendLists(samples: seq<Sample>, w: Window, now: int)
    requires WellKept(samples)
    ensures var matching := SortSamples(RateLimits.Matching(samples, w, now));
            && WellKept(matching) && WellKept(Recent(matching, now))
            && (forall s :: s in matching <==> s in samples && Seen(s, w, now, 86_400_000))
            && (forall s :: s in Recent(matching, now) <==> s in samples && Seen(s, w, now, 14_400_000))
  {
    hide WellKept;
    var matching := RateLimits.Matching(samples, w, now);
    FilterWellKept(samples, OfCycle(w, now));
    SortIsIdentity(matching);
    FilterWellKept(matching, Since(now - 4 * HOUR));
    forall s ensures s in matching <==> s in samples && Seen(s, w, now, 86_400_000) { FilterMembers(samples, OfCycle(w, now), s); }
    forall s ensures s in Recent(matching, now) <==> s in samples && Seen(s, w, now, 14_400_000) {
      FilterMembers(matching, Since(now - 4 * HOUR), s);
    }
  }

  lemma TrendIsDrain(m: seq<Sample>, minimum: int)
    requires m != [] && minimum > 0
    ensures TrendOf(m, minimum as real / 3_600_000.0) == Drain(m[0], m[|m| - 1], minimum)
  {
    var ms := m[|m| - 1].observedAt - m[0].observedAt;
    assert Hours(ms) >= minimum as real / 3_600_000.0 <==> ms >= minimum;
  }

  /** The day's trend and the last four hours' trend, from the first and the last sample of each. */
  lemma TrendsExact(samples: seq<Sample>, w: Window, now: int)
    requires WellKept(samples)
    ensures var matching := SortSamples(RateLimits.Matching(samples, w, now));
            var long, recent := TrendOf(matching, 2.0), TrendOf(Recent(matching, now), 1.0);
            && (forall a, b :: Ends(samples, w, now, 86_400_000, a, b) ==> long == Drain(a, b, 7_200_000))
            && (NoneSeen(samples, w, now, 86_400_000) ==> long == None)
            && (forall a, b :: Ends(samples, w, now, 14_400_000, a, b) ==> recent == Drain(a, b, 3_600_000))
            && (NoneSeen(samples, w, now, 14_400_000) ==> recent == None)
  {
    hide WellKept, TrendOf, Drain;
    TrendLists(samples, w, now);
    var matching := SortSamples(RateLimits.Matching(samples, w, now));
    var recent := Recent(matching, now);
    hide SortSamples, RateLimits.Matching, Recent;
    assert 7_200_000 as real / 3_600_000.0 == 2.0 && 3_600_000 as real / 3_600_000.0 == 1.0;
    forall a, b | Ends(samples, w, now, 86_400_000, a, b) ensures TrendOf(matching, 2.0) == Drain(a, b, 7_200_000) {
      EndsOfList(matching, samples, w, now, 86_400_000, a, b);
      TrendIsDrain(matching, 7_200_000);
    }
    forall a, b | Ends(samples, w, now, 14_400_000, a, b) ensures TrendOf(recent, 1.0) == Drain(a, b, 3_600_000) {
      EndsOfList(recent, samples, w, now, 14_400_000, a, b);
      TrendIsDrain(recent, 3_600_000);
    }
    NoTrend(matching);
    NoTrend(recent);
    assert matching != [] ==> matching[0] in matching;
    assert recent != [] ==> recent[0] in recent;
  }

  lemma NoTrend(m: seq<Sample>)
    ensures m == [] ==> TrendOf(m, 2.0) == None && TrendOf(m, 1.0) == None
  {}

  /** The window's own average: used so far over the time since it began, from a quarter of an hour on and until its reset. */
  lemma AverageExact(w: Window, now: int)
    ensures var a := WindowAverage(w, now);
            && (a.Some? <==>
                  && w.resetsAt.Some? && w.resetsAt.value != 0 && w.minutes.Some? && w.minutes.value != 0 && w.used > 0.0
                  && now < w.resetsAt.value * 1_000 && now - (w.resetsAt.value * 1_000 - w.minutes.value * 60_000) >= 900_000)
            && (a.Some? ==>
                  var ms := now - (w.resetsAt.value * 1_000 - w.minutes.value * 60_000);
                  a.value.rate == w.used / (ms as real / 3_600_000.0) && a.value.hours == ms as real / 3_600_000.0)
  {
    if w.resetsAt.Some? && w.minutes.Some? {
      var ms := now - (w.resetsAt.value * 1_000 - w.minutes.value * 60_000);
      assert ms as real / 3_600_000.0 >= 0.25 <==> ms >= 900_000;
    }
  }

  /** One part of a blend: its rate as often as it weighs. */
  function Part(t: Option<Trend>, weight: real): real { if t.Some? then t.value.rate * weight else 0.0 }

  function WeightOf(t: Option<Trend>, weight: real): real { if t.Some? then weight else 0.0 }

  /** The recent trend counts when it covers clearly less time than the long one. */
  function Counting(long: Option<Trend>, recent: Option<Trend>): Option<Trend> {
    if recent.Some? && (long.None? || recent.value.hours + 0.25 < long.value.hours) then recent else None
  }

  function AverageWeight(long: Option<Trend>, recent: Option<Trend>): real {
    if long.None? && recent.None? then 1.0 else if long.Some? && long.value.hours >= 6.0 then 2.0 else 4.0
  }

  lemma BlendExact(long: Option<Trend>, recent: Option<Trend>, average: Option<Trend>)
    ensures var cs, v := Parts(long, recent, average), AverageWeight(long, recent);
            && Weight(cs) == WeightOf(long, 4.0) + WeightOf(Counting(long, recent), 2.0) + WeightOf(average, v)
            && Total(cs) == Part(long, 4.0) + Part(Counting(long, recent), 2.0) + Part(average, v)
  {
    hide Weight, Total, Parts, AverageWeight, Counting, Part, WeightOf;
    var v, counting := AverageWeight(long, recent), Counting(long, recent);
    var a, b, c := OnePart(long, 4.0), OnePart(counting, 2.0), OnePart(average, v);
    PartsAre(long, recent, average);
    SumsAdd(a, b);
    SumsAdd(a + b, c);
    PartSums(long, 4.0);
    PartSums(counting, 2.0);
    PartSums(average, v);
  }

  function OnePart(t: Option<Trend>, weight: real): seq<Component> { if t.Some? then [Component(t.value.rate, weight)] else [] }

  lemma PartsAre(long: Option<Trend>, recent: Option<Trend>, average: Option<Trend>)
    ensures Parts(long, recent, average)
         == OnePart(long, 4.0) + OnePart(Counting(long, recent), 2.0) + OnePart(average, AverageWeight(long, recent))
  {}

  lemma PartSums(t: Option<Trend>, weight: real)
    ensures Weight(OnePart(t, weight)) == WeightOf(t, weight) && Total(OnePart(t, weight)) == Part(t, weight)
  {
    SumNone();
    if t.Some? { SumOne(Component(t.value.rate, weight)); }
    hide Weight, Total;
  }

  lemma SumNone()
    ensures Weight([]) == 0.0 && Total([]) == 0.0
  {}

  lemma SumOne(c: Component)
    ensures Weight([c]) == c.weight && Total([c]) == c.rate * c.weight
  {
    assert [c][1..] == [];
  }

  lemma {:induction false} SumsAdd(a: seq<Component>, b: seq<Component>)
    ensures Weight(a + b) == Weight(a) + Weight(b) && Total(a + b) == Total(a) + Total(b)
  {
    hide Weighted;
    if a == [] {
      assert a + b == b;
    } else {
      assert (a + b)[0] == a[0] && (a + b)[1..] == a[1..] + b;
      SumsAdd(a[1..], b);
    }
  }

  /**
    The forecast's rate: the mean of the day's trend (weight 4), the recent trend where it counts
    (weight 2) and the window's average (weight 1, 2 or 4); exhaustion is when the
    remainder would be used up at that rate.
   */
  lemma ForecastExact(samples: seq<Sample>, w: Window, now: int)
    requires WellKept(samples)
    ensures var f, matching := ForecastOf(samples, w, now), SortSamples(RateLimits.Matching(samples, w, now));
            var long, recent, average := TrendOf(matching, 2.0), TrendOf(Recent(matching, now), 1.0), WindowAverage(w, now);
            && (f.Depleted? <==> w.remaining <= 0.0)
            && (f.Learning? <==> w.remaining > 0.0 && long.None? && recent.None? && average.None?)
            && (f.Burning? ==>
                  var v := AverageWeight(long, recent);
                  var weight := WeightOf(long, 4.0) + WeightOf(Counting(long, recent), 2.0) + WeightOf(average, v);
                  && weight > 0.0 && f.rate > 0.0
                  && f.rate == (Part(long, 4.0) + Part(Counting(long, recent), 2.0) + Part(average, v)) / weight
                  && f.exhaustionAt == now as real + w.remaining / f.rate * 3_600_000.0
                  && (f.lasts <==> w.resetsAt.Some? && w.resetsAt.value != 0 && f.exhaustionAt >= (w.resetsAt.value * 1_000) as real))
  {
    var matching := SortSamples(RateLimits.Matching(samples, w, now));
    var long, recent, average := TrendOf(matching, 2.0), TrendOf(Recent(matching, now), 1.0), WindowAverage(w, now);
    var cs := Components(samples, w, now);
    assert cs == Parts(long, recent, average);
    ForecastIsBlended(samples, w, now);
    BlendExact(long, recent, average);
    PartsEmpty(long, recent, average);
    ComponentsPositive(samples, w, now);
    if cs != [] { BlendBounded(cs); }
    hide *;
    MeanForecast(samples, w, now);
  }

  lemma MeanForecast(samples: seq<Sample>, w: Window, now: int)
    requires var cs := Components(samples, w, now); cs != [] ==> Weight(cs) > 0.0 && Total(cs) / Weight(cs) > 0.0
    ensures var f, cs := ForecastOf(samples, w, now), Components(samples, w, now);
            && (f.Depleted? <==> w.remaining <= 0.0)
            && (f.Burning? ==>
                  && cs != [] && f.rate > 0.0 && Weight(cs) > 0.0 && f.rate == Total(cs) / Weight(cs)
                  && f.exhaustionAt == now as real + w.remaining / f.rate * 3_600_000.0
                  && (f.lasts <==> w.resetsAt.Some? && w.resetsAt.value != 0 && f.exhaustionAt >= (w.resetsAt.value * 1_000) as real))
  {
    var cs := Components(samples, w, now);
    assert cs == [] ==> Weight(cs) == 0.0;
    hide Components, Total, Weight;
  }

  lemma PartsEmpty(long: Option<Trend>, recent: Option<Trend>, average: Option<Trend>)
    ensures Parts(long, recent, average) == [] <==> long.None? && recent.None? && average.None?
  {}
}
