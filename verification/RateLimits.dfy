/**
  Rate-limit history: what is kept of the observed allowances, and the burn-rate forecast
  that relies on it.  Times are milliseconds, percentages are real numbers.
 */
module RateLimits {
  import opened Options

  datatype Sample = Sample(observedAt: int, remaining: real, resetsAt: Option<int>)

  datatype Window = Window(kind: string, used: real, remaining: real, minutes: Option<int>, resetsAt: Option<int>)

  datatype Limit = Limit(id: string, windows: seq<Window>)

  datatype Account = Account(id: string, ready: bool, observedAt: Option<int>, limits: seq<Limit>)

  datatype Key = Key(account: string, limit: string, kind: string, minutes: int)

  type History = map<Key, seq<Sample>>

  const SECOND: int := 1_000
  const MINUTE: int := 60 * SECOND
  const HOUR: int := 60 * MINUTE
  const LIMIT: nat := 640

  // ------------------------------------------------------------------ sample lists

  /** A list the history may hold: bounded, spaced, of one reset time, never refilling. */
  predicate WellKept(s: seq<Sample>) { |s| <= LIMIT && Orderly(s) }

  predicate Orderly(s: seq<Sample>) {
    forall i, j :: 0 <= i < j < |s| ==>
         && s[i].observedAt + 5 * MINUTE <= s[j].observedAt
         && s[i].resetsAt == s[j].resetsAt
         && s[i].remaining >= s[j].remaining
  }

  function Since(cutoff: int): Sample -> bool { (s: Sample) => s.observedAt >= cutoff }

  function OfCycle(w: Window, now: int): Sample -> bool {
    (s: Sample) => s.observedAt <= now && s.observedAt >= now - 24 * HOUR && s.resetsAt == w.resetsAt
  }

  function Filter(s: seq<Sample>, keep: Sample -> bool): seq<Sample> {
    if s == [] then []
    else
      var front, last := Filter(s[..|s| - 1], keep), s[|s| - 1];
      if keep(last) then front + [last] else front
  }

  lemma {:induction false} FilterMembers(s: seq<Sample>, keep: Sample -> bool, x: Sample)
    ensures x in Filter(s, keep) <==> x in s && keep(x)
    ensures |Filter(s, keep)| <= |s|
  {
    if s != [] {
      assert s == s[..|s| - 1] + [s[|s| - 1]];
      FilterMembers(s[..|s| - 1], keep, x);
    }
  }

  lemma {:induction false} FilterWellKept(s: seq<Sample>, keep: Sample -> bool)
    requires WellKept(s)
    ensures WellKept(Filter(s, keep))
  {
    if s != [] {
      var front, last := s[..|s| - 1], s[|s| - 1];
      FilterWellKept(front, keep);
      FilterMembers(front, keep, last);
      var r := Filter(front, keep);
      forall i | 0 <= i < |r|
        ensures r[i].observedAt + 5 * MINUTE <= last.observedAt && r[i].resetsAt == last.resetsAt && r[i].remaining >= last.remaining
      {
        FilterMembers(front, keep, r[i]);
        assert r[i] in r;
        var j :| 0 <= j < |front| && front[j] == r[i];
        assert s[j] == front[j];
      }
    }
  }

  // --------------------------------------------------------------------- recording

  /** One window of a snapshot, as observed. */
  datatype Observation = Observation(key: Key, at: int, window: Window)

  function SampleOf(o: Observation): Sample { Sample(o.at, o.window.remaining, o.window.resetsAt) }

  function KeyOf(account: Account, limit: Limit, w: Window): Key {
    Key(account.id, limit.id, w.kind, if w.minutes.Some? then w.minutes.value else 0)
  }

  function Lookup(h: History, key: Key): seq<Sample> { if key in h then h[key] else [] }

  function Newest(s: seq<Sample>): seq<Sample> { if |s| > LIMIT then s[|s| - LIMIT..] else s }

  /** What an observation may be added to: recent samples of the same cycle. */
  function Base(h: History, o: Observation, now: int): seq<Sample> {
    var retained := Filter(Lookup(h, o.key), Since(now - 48 * HOUR));
    if retained == [] then []
    else
      var last := retained[|retained| - 1];
      if last.resetsAt != o.window.resetsAt || o.window.remaining > last.remaining then [] else retained
  }

  predicate Repeats(h: History, o: Observation, now: int) {
    var retained := Filter(Lookup(h, o.key), Since(now - 48 * HOUR));
    retained != [] && o.at <= retained[|retained| - 1].observedAt
  }

  predicate TooSoon(base: seq<Sample>, o: Observation) {
    base != [] && o.at - base[|base| - 1].observedAt < 5 * MINUTE
  }

  /** One observation; lists are always read from the history the call began with. */
  function Apply(h: History, next: History, o: Observation, now: int): History {
    var base := Base(h, o, now);
    if Repeats(h, o, now) || TooSoon(base, o) then next
    else next[o.key := Newest(base + [SampleOf(o)])]
  }

  function Fold(h: History, now: int, os: seq<Observation>): History {
    if os == [] then h else Apply(h, Fold(h, now, os[..|os| - 1]), os[|os| - 1], now)
  }

  predicate Observed(a: Account) { a.ready && a.observedAt.Some? && a.observedAt.value != 0 }

  function OfWindows(a: Account, l: Limit, ws: seq<Window>): seq<Observation>
    requires a.observedAt.Some?
  {
    seq(|ws|, i requires 0 <= i < |ws| => Observation(KeyOf(a, l, ws[i]), a.observedAt.value, ws[i]))
  }

  function OfLimits(a: Account, ls: seq<Limit>): seq<Observation>
    requires a.observedAt.Some?
  {
    if ls == [] then [] else OfLimits(a, ls[..|ls| - 1]) + OfWindows(a, ls[|ls| - 1], ls[|ls| - 1].windows)
  }

  function OfAccounts(accounts: seq<Account>): seq<Observation> {
    if accounts == [] then []
    else
      var last := accounts[|accounts| - 1];
      OfAccounts(accounts[..|accounts| - 1]) + if Observed(last) then OfLimits(last, last.limits) else []
  }

  method RecordWindow(history: History, next: History, o: Observation, now: int) returns (r: History)
    ensures r == Apply(history, next, o, now)
  {
    var retained := Filter(Lookup(history, o.key), Since(now - 48 * HOUR));
    if retained != [] && o.at <= retained[|retained| - 1].observedAt { return next; }
    var newCycle := retained != [] && (retained[|retained| - 1].resetsAt != o.window.resetsAt
                                       || o.window.remaining > retained[|retained| - 1].remaining);
    var samples := if newCycle then [] else retained;
    if samples != [] && o.at - samples[|samples| - 1].observedAt < 5 * MINUTE { return next; }
    return next[o.key := Newest(samples + [SampleOf(o)])];
  }

  method RecordLimit(history: History, start: History, ghost before: seq<Observation>, a: Account, l: Limit, now: int)
    returns (next: History)
    requires a.observedAt.Some? && start == Fold(history, now, before)
    ensures next == Fold(history, now, before + OfWindows(a, l, l.windows))
  {
    hide Fold, Apply;
    next := start;
    assert before + OfWindows(a, l, []) == before;
    for w := 0 to |l.windows|
      invariant next == Fold(history, now, before + OfWindows(a, l, l.windows[..w]))
    {
      ghost var done := before + OfWindows(a, l, l.windows[..w]);
      var o := Observation(KeyOf(a, l, l.windows[w]), a.observedAt.value, l.windows[w]);
      next := RecordWindow(history, next, o, now);
      FoldMore(history, now, done, o);
      assert before + OfWindows(a, l, l.windows[..w + 1]) == done + [o];
    }
    assert l.windows[..|l.windows|] == l.windows;
  }

  method RecordAccount(history: History, start: History, ghost before: seq<Observation>, a: Account, now: int)
    returns (next: History)
    requires a.observedAt.Some? && start == Fold(history, now, before)
    ensures next == Fold(history, now, before + OfLimits(a, a.limits))
  {
    hide Fold, OfWindows;
    next := start;
    assert before + [] == before;
    for l := 0 to |a.limits|
      invariant next == Fold(history, now, before + OfLimits(a, a.limits[..l]))
    {
      ghost var done := before + OfLimits(a, a.limits[..l]);
      assert a.limits[..l + 1][..l] == a.limits[..l];
      next := RecordLimit(history, next, done, a, a.limits[l], now);
      assert before + OfLimits(a, a.limits[..l + 1]) == done + OfWindows(a, a.limits[l], a.limits[l].windows);
    }
    assert a.limits[..|a.limits|] == a.limits;
  }

  method RecordRateLimitHistory(history: History, accounts: seq<Account>, now: int) returns (next: History)
    ensures next == Fold(history, now, OfAccounts(accounts))
  {
    hide OfLimits;
    next := history;
    for a := 0 to |accounts|
      invariant next == Fold(history, now, OfAccounts(accounts[..a]))
    {
      assert accounts[..a + 1][..a] == accounts[..a];
      if Observed(accounts[a]) {
        next := RecordAccount(history, next, OfAccounts(accounts[..a]), accounts[a], now);
      } else {
        assert OfAccounts(accounts[..a + 1]) == OfAccounts(accounts[..a]);
      }
    }
    assert accounts[..|accounts|] == accounts;
  }

  lemma FoldMore(h: History, now: int, os: seq<Observation>, o: Observation)
    ensures Fold(h, now, os + [o]) == Apply(h, Fold(h, now, os), o, now)
  {
    assert (os + [o])[..|os|] == os;
  }

  // --------------------------------------------------------------- what is kept

  ghost predicate Kept(h: History) { forall key :: key in h ==> WellKept(h[key]) }

  /** A list after an observation was taken: the newest of its base, then the observation. */
  ghost predicate Extends(list: seq<Sample>, base: seq<Sample>, o: Observation) {
    && list != [] && list[|list| - 1] == SampleOf(o)
    && |list| - 1 <= |base| && list[..|list| - 1] == base[|base| - (|list| - 1)..]
    && (|list| - 1 == |base| || |list| == LIMIT)
  }

  lemma ApplyKeeps(h: History, next: History, o: Observation, now: int)
    requires Kept(h) && Kept(next)
    ensures Kept(Apply(h, next, o, now))
    ensures forall key :: key != o.key ==> Lookup(Apply(h, next, o, now), key) == Lookup(next, key)
    ensures Apply(h, next, o, now) == next || Extends(Lookup(Apply(h, next, o, now), o.key), Base(h, o, now), o)
  {
    hide Filter, WellKept, Newest, Extends;
    var base := Base(h, o, now);
    FilterWellKept(Lookup(h, o.key), Since(now - 48 * HOUR));
    BaseFits(h, o, now);
    if !Repeats(h, o, now) && !TooSoon(base, o) {
      AddedWellKept(base, o);
      var list := Newest(base + [SampleOf(o)]);
      assert Lookup(Apply(h, next, o, now), o.key) == list;
    }
  }

  lemma BaseFits(h: History, o: Observation, now: int)
    requires WellKept(Filter(Lookup(h, o.key), Since(now - 48 * HOUR)))
    ensures var base := Base(h, o, now);
            && WellKept(base)
            && (base != [] ==> base[|base| - 1].resetsAt == o.window.resetsAt && base[|base| - 1].remaining >= o.window.remaining)
  {
  }

  lemma AddedOrderly(base: seq<Sample>, x: Sample)
    requires Orderly(base)
    requires base != [] ==>
               var last := base[|base| - 1];
               last.observedAt + 5 * MINUTE <= x.observedAt && last.resetsAt == x.resetsAt && last.remaining >= x.remaining
    ensures Orderly(base + [x])
  {
    forall i | 0 <= i < |base|
      ensures base[i].observedAt + 5 * MINUTE <= x.observedAt && base[i].resetsAt == x.resetsAt && base[i].remaining >= x.remaining
    {
      var last := base[|base| - 1];
      assert i < |base| - 1 ==> base[i].observedAt + 5 * MINUTE <= last.observedAt && base[i].resetsAt == last.resetsAt;
    }
  }

  lemma AddedWellKept(base: seq<Sample>, o: Observation)
    requires WellKept(base) && !TooSoon(base, o)
    requires base != [] ==> base[|base| - 1].resetsAt == o.window.resetsAt && base[|base| - 1].remaining >= o.window.remaining
    ensures WellKept(Newest(base + [SampleOf(o)])) && Extends(Newest(base + [SampleOf(o)]), base, o)
  {
    hide Orderly, Newest;
    var all := base + [SampleOf(o)];
    AddedOrderly(base, SampleOf(o));
    NewestOf(all);
    assert all[..|all| - 1] == base;
  }

  lemma NewestOf(all: seq<Sample>)
    requires all != []
    ensures var list, k := Newest(all), if |all| > LIMIT then |all| - LIMIT else 0;
            && list == all[k..] && list != [] && |list| <= LIMIT && list[..|list| - 1] == all[..|all| - 1][k..]
            && (Orderly(all) ==> Orderly(list))
  {
  }

  lemma {:induction false} FoldKeeps(h: History, now: int, os: seq<Observation>)
    requires Kept(h)
    ensures Kept(Fold(h, now, os))
  {
    if os != [] {
      FoldKeeps(h, now, os[..|os| - 1]);
      ApplyKeeps(h, Fold(h, now, os[..|os| - 1]), os[|os| - 1], now);
    }
  }

  datatype Update = Update(accounts: seq<Account>, now: int)

  function Updates(us: seq<Update>): History {
    if us == [] then map[]
    else Fold(Updates(us[..|us| - 1]), us[|us| - 1].now, OfAccounts(us[|us| - 1].accounts))
  }

  /** Whatever is observed, and whenever, every list the history holds is well kept. */
  lemma {:induction false} AlwaysKept(us: seq<Update>)
    ensures Kept(Updates(us))
  {
    if us != [] {
      AlwaysKept(us[..|us| - 1]);
      FoldKeeps(Updates(us[..|us| - 1]), us[|us| - 1].now, OfAccounts(us[|us| - 1].accounts));
    }
  }

  // --------------------------------------------------------------------- forecasting

  /** `sort` by time: stable insertion. */
  function InsertSample(x: Sample, s: seq<Sample>): seq<Sample> {
    if s == [] || x.observedAt <= s[0].observedAt then [x] + s else [s[0]] + InsertSample(x, s[1..])
  }

  function SortSamples(s: seq<Sample>): seq<Sample> {
    if s == [] then [] else InsertSample(s[0], SortSamples(s[1..]))
  }

  datatype Trend = Trend(rate: real, hours: real)

  function Hours(ms: int): real { ms as real / HOUR as real }

  function TrendOf(s: seq<Sample>, minimum: real): Option<Trend>
    requires minimum > 0.0
  {
    if s == [] then None
    else
      var hours := Hours(s[|s| - 1].observedAt - s[0].observedAt);
      var drain := s[0].remaining - s[|s| - 1].remaining;
      if hours >= minimum && drain >= 1.0 then Some(Trend(drain / hours, hours)) else None
  }

  datatype Component = Component(rate: real, weight: real)

  /** The reset time in milliseconds, when one is known and not zero. */
  function ResetAt(w: Window): Option<int> {
    if w.resetsAt.Some? && w.resetsAt.value != 0 then Some(w.resetsAt.value * SECOND) else None
  }

  function WindowAverage(w: Window, now: int): Option<Trend> {
    if ResetAt(w).Some? && w.minutes.Some? && w.minutes.value != 0 && w.used > 0.0 then
      var elapsed := Hours(now - (ResetAt(w).value - w.minutes.value * MINUTE));
      if elapsed >= 0.25 && now < ResetAt(w).value then Some(Trend(w.used / elapsed, elapsed)) else None
    else None
  }

  function Matching(samples: seq<Sample>, w: Window, now: int): seq<Sample> {
    Filter(samples, OfCycle(w, now))
  }

  function Recent(samples: seq<Sample>, now: int): seq<Sample> { Filter(samples, Since(now - 4 * HOUR)) }

  function Parts(long: Option<Trend>, recent: Option<Trend>, average: Option<Trend>): seq<Component> {
    (if long.Some? then [Component(long.value.rate, 4.0)] else [])
    + (if recent.Some? && (long.None? || recent.value.hours + 0.25 < long.value.hours)
       then [Component(recent.value.rate, 2.0)] else [])
    + (if average.Some? then
         [Component(average.value.rate,
                    if long.None? && recent.None? then 1.0 else if long.Some? && long.value.hours >= 6.0 then 2.0 else 4.0)]
       else [])
  }

  function Components(samples: seq<Sample>, w: Window, now: int): seq<Component> {
    var matching := SortSamples(Matching(samples, w, now));
    Parts(TrendOf(matching, 2.0), TrendOf(Recent(matching, now), 1.0), WindowAverage(w, now))
  }

  function Weight(cs: seq<Component>): real { if cs == [] then 0.0 else cs[0].weight + Weight(cs[1..]) }

  function Weighted(c: Component): real { c.rate * c.weight }

  function Total(cs: seq<Component>): real { if cs == [] then 0.0 else Weighted(cs[0]) + Total(cs[1..]) }

  datatype Forecast = Depleted | Learning | Burning(rate: real, exhaustionAt: real, lasts: bool)

  function ForecastOf(samples: seq<Sample>, w: Window, now: int): Forecast {
    if w.remaining <= 0.0 then Depleted
    else
      var cs := Components(samples, w, now);
      var weight := Weight(cs);
      if weight == 0.0 || Total(cs) / weight <= 0.0 then Learning
      else
        var rate := Total(cs) / weight;
        var exhaustionAt := now as real + w.remaining / rate * HOUR as real;
        Burning(rate, exhaustionAt, ResetAt(w).Some? && exhaustionAt >= ResetAt(w).value as real)
  }

  /** A list in time order is already sorted. */
  lemma {:induction false} SortIsIdentity(s: seq<Sample>)
    requires WellKept(s)
    ensures SortSamples(s) == s
  {
    if s != [] {
      SortIsIdentity(s[1..]);
      assert s == [s[0]] + s[1..];
    }
  }

  /** Which lists a forecast for kept samples looks at: no trend is over zero hours or a refill. */
  lemma KeptTrend(s: seq<Sample>, minimum: real)
    requires WellKept(s) && minimum > 0.0
    ensures s != [] ==> s[0].remaining >= s[|s| - 1].remaining && s[|s| - 1].observedAt >= s[0].observedAt
    ensures |s| >= 2 ==> Hours(s[|s| - 1].observedAt - s[0].observedAt) > 0.0
    ensures TrendOf(s, minimum).Some? ==> TrendOf(s, minimum).value.rate > 0.0 && TrendOf(s, minimum).value.hours >= minimum
  {
    if |s| >= 2 { assert s[0].observedAt + 5 * MINUTE <= s[|s| - 1].observedAt; }
  }

  predicate Within(lo: real, hi: real, weight: real, total: real) { lo * weight <= total <= hi * weight }

  predicate Drains(t: Option<Trend>) { t.Some? ==> t.value.rate > 0.0 }

  lemma AverageDrains(w: Window, now: int)
    ensures Drains(WindowAverage(w, now))
  {
  }

  lemma PartsPositive(long: Option<Trend>, recent: Option<Trend>, average: Option<Trend>, c: Component)
    requires Drains(long) && Drains(recent) && Drains(average) && c in Parts(long, recent, average)
    ensures c.rate > 0.0 && c.weight >= 1.0
  {
  }

  lemma ComponentsPositive(samples: seq<Sample>, w: Window, now: int)
    requires WellKept(samples)
    ensures SortSamples(Matching(samples, w, now)) == Matching(samples, w, now)
    ensures forall c :: c in Components(samples, w, now) ==> c.rate > 0.0 && c.weight >= 1.0
  {
    hide TrendOf, Hours, WindowAverage, WellKept, Parts;
    FilterWellKept(samples, OfCycle(w, now));
    var matching := Matching(samples, w, now);
    SortIsIdentity(matching);
    FilterWellKept(matching, Since(now - 4 * HOUR));
    KeptTrend(matching, 2.0);
    KeptTrend(Recent(matching, now), 1.0);
    AverageDrains(w, now);
    var long, recent := TrendOf(matching, 2.0), TrendOf(Recent(matching, now), 1.0);
    forall c | c in Components(samples, w, now) ensures c.rate > 0.0 && c.weight >= 1.0 {
      PartsPositive(long, recent, WindowAverage(w, now), c);
    }
  }

  lemma MeanStep(c: Component, lo: real, hi: real, weight: real, total: real)
    requires lo <= c.rate <= hi && c.weight >= 1.0 && Within(lo, hi, weight, total)
    ensures Within(lo, hi, c.weight + weight, Weighted(c) + total)
  {
    assert (c.rate - lo) * c.weight >= 0.0 && (hi - c.rate) * c.weight >= 0.0;
  }

  /** A weighted mean lies between any bounds of what it weighs. */
  lemma {:induction false} MeanBetween(cs: seq<Component>, lo: real, hi: real)
    requires forall c :: c in cs ==> lo <= c.rate <= hi && c.weight >= 1.0
    ensures Weight(cs) >= if cs == [] then 0.0 else 1.0
    ensures Within(lo, hi, Weight(cs), Total(cs))
  {
    assert Within(lo, hi, 0.0, 0.0);
    hide Within, Weighted;
    if cs != [] {
      MeanBetween(cs[1..], lo, hi);
      MeanStep(cs[0], lo, hi, Weight(cs[1..]), Total(cs[1..]));
    }
  }

  lemma Divided(total: real, weight: real, lo: real, hi: real)
    requires weight > 0.0 && Within(lo, hi, weight, total)
    ensures lo <= total / weight <= hi
  {
    var q := total / weight;
    assert q * weight == total;
    assert q < lo ==> q * weight < lo * weight;
    assert q > hi ==> q * weight > hi * weight;
  }

  predicate Bounds(cs: seq<Component>, lo: real, hi: real) { forall c :: c in cs ==> lo <= c.rate <= hi }

  /** The blended rate of positive components. */
  lemma BlendBounded(cs: seq<Component>)
    requires cs != [] && forall c :: c in cs ==> c.rate > 0.0 && c.weight >= 1.0
    ensures Weight(cs) > 0.0 && Total(cs) / Weight(cs) > 0.0
    ensures forall lo, hi :: Bounds(cs, lo, hi) ==> lo <= Total(cs) / Weight(cs) <= hi
  {
    hide Weight, Total;
    var least, most := Extremes(cs);
    MeanBetween(cs, least, most);
    Divided(Total(cs), Weight(cs), least, most);
    forall lo, hi | Bounds(cs, lo, hi) ensures lo <= Total(cs) / Weight(cs) <= hi {
      MeanBetween(cs, lo, hi);
      Divided(Total(cs), Weight(cs), lo, hi);
    }
  }

  /**
    From well-kept samples, a forecast is made exactly when something remains and some component
    was measured; its rate is positive and lies within every bounds of the component rates.
   */
  lemma ForecastIsBlended(samples: seq<Sample>, w: Window, now: int)
    requires WellKept(samples)
    ensures var f, cs := ForecastOf(samples, w, now), Components(samples, w, now);
            && (f.Burning? <==> w.remaining > 0.0 && cs != [])
            && (f.Burning? ==> f.rate > 0.0 && f.exhaustionAt > now as real)
            && (f.Burning? ==> forall lo, hi :: Bounds(cs, lo, hi) ==> lo <= f.rate <= hi)
  {
    hide Components, Total, WellKept, Bounds, ResetAt;
    var cs := Components(samples, w, now);
    ComponentsPositive(samples, w, now);
    if cs != [] {
      BlendBounded(cs);
      if w.remaining > 0.0 { QuotientPositive(w.remaining, Total(cs) / Weight(cs)); }
    }
  }

  lemma QuotientPositive(a: real, b: real)
    requires a > 0.0 && b > 0.0
    ensures a / b > 0.0 && a / b * HOUR as real > 0.0
  {
  }

  lemma {:induction false} Extremes(cs: seq<Component>) returns (least: real, most: real)
    requires cs != [] && forall c :: c in cs ==> c.rate > 0.0
    ensures Bounds(cs, least, most) && least > 0.0
  {
    least, most := cs[0].rate, cs[0].rate;
    if |cs| > 1 {
      var l, m := Extremes(cs[1..]);
      least := if l < least then l else least;
      most := if m > most then m else most;
      forall c | c in cs ensures least <= c.rate <= most {
        assert c == cs[0] || c in cs[1..];
      }
    }
  }

  /** "Lasts past reset" means that burning at the blended rate until the reset uses no more than remains. */
  lemma {:induction false} LastsMeansEnough(samples: seq<Sample>, w: Window, now: int)
    requires WellKept(samples) && ForecastOf(samples, w, now).Burning?
    ensures var f := ForecastOf(samples, w, now);
            f.lasts <==> ResetAt(w).Some? && f.rate * Hours(ResetAt(w).value - now) <= w.remaining
  {
    ForecastIsBlended(samples, w, now);
    var rate := ForecastOf(samples, w, now).rate;
    if ResetAt(w).Some? {
      EnoughTime(w.remaining, rate, ResetAt(w).value - now);
    }
  }

  lemma EnoughTime(remaining: real, rate: real, ms: int)
    requires rate > 0.0
    ensures remaining / rate * HOUR as real >= ms as real <==> rate * Hours(ms) <= remaining
  {
    var h := HOUR as real;
    var q, t := remaining / rate, Hours(ms);
    assert q * rate == remaining && t * h == ms as real;
    assert q * h >= t * h <==> q >= t;
    assert q >= t <==> q * rate >= t * rate;
  }
}
