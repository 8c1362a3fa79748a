/**
 The recovery margin (rotation_pool.go): a greedy event simulation of constant demand
 over accounts whose five-hour reservoir refills at its reset, capped by what is left
 of the week. Times are integers (nanoseconds, 0 for Go's zero time), quota is exact.
 */
module RecoveryMargin {

  const HOUR: int := 3600 * 1000000000

  datatype Option<T> = None | Some(value: T)

  datatype State = Healthy | Unhealthy | AuthFailed

  datatype Account = Account(
    state: State, overloaded: bool, retryAt: int,
    fiveHour: real, week: real, capacity: real, reset: int, weeklyOnly: bool)

  datatype Reservoir = Reservoir(remaining: real, weekly: real, capacity: real, reset: int, weeklyOnly: bool)

  // The margin before the first interval is +Inf.
  datatype Ratio = Infinite | Finite(value: real)

  predicate AtMost(a: Ratio, b: Ratio) {
    b.Infinite? || (a.Finite? && a.value <= b.value)
  }

  function MinR(a: real, b: real): real { if a <= b then a else b }

  function MaxR(a: real, b: real): real { if a >= b then a else b }

  function Least(a: Ratio, b: real): Ratio {
    if a.Infinite? || b < a.value then Finite(b) else a
  }

  predicate Usable(a: Account, now: int) {
    a.state == Healthy && !(a.overloaded && now < a.retryAt)
  }

  function Start(a: Account): Reservoir {
    Reservoir(if a.weeklyOnly then a.week else MinR(a.fiveHour, a.week), a.week, a.capacity, a.reset, a.weeklyOnly)
  }

  function Reservoirs(accounts: seq<Account>, now: int): seq<Reservoir>
    decreases |accounts|
  {
    if accounts == [] then []
    else
      var n := |accounts| - 1;
      var rest := Reservoirs(accounts[..n], now);
      if Usable(accounts[n], now) then rest + [Start(accounts[n])] else rest
  }

  function Resets(accounts: seq<Account>, now: int, end: int): (r: seq<int>)
    ensures forall i | 0 <= i < |r| :: now < r[i] < end
    decreases |accounts|
  {
    if accounts == [] then []
    else
      var n := |accounts| - 1;
      var rest := Resets(accounts[..n], now, end);
      var a := accounts[n];
      if Usable(a, now) && !a.weeklyOnly && now < a.reset < end then rest + [a.reset] else rest
  }

  // ------------------------------------------------------------------- sorting

  function InsertTime(s: seq<int>, t: int): (r: seq<int>)
    ensures |r| == |s| + 1
    decreases |s|
  {
    if s == [] || s[|s| - 1] <= t then s + [t] else InsertTime(s[..|s| - 1], t) + [s[|s| - 1]]
  }

  function SortTimes(s: seq<int>): (r: seq<int>)
    ensures |r| == |s|
    decreases |s|
  {
    if s == [] then [] else InsertTime(SortTimes(s[..|s| - 1]), s[|s| - 1])
  }

  // When a reservoir is due to reset after `previous`, else the end of the horizon.
  function Due(r: Reservoir, previous: int, end: int): int {
    if r.reset == 0 || r.reset <= previous then end else r.reset
  }

  // Stable: equal due times keep their order.
  function InsertDue(s: seq<Reservoir>, r: Reservoir, previous: int, end: int): (q: seq<Reservoir>)
    ensures |q| == |s| + 1
    decreases |s|
  {
    if s == [] || Due(s[|s| - 1], previous, end) <= Due(r, previous, end) then s + [r]
    else InsertDue(s[..|s| - 1], r, previous, end) + [s[|s| - 1]]
  }

  function SortDue(s: seq<Reservoir>, previous: int, end: int): (q: seq<Reservoir>)
    ensures |q| == |s|
    decreases |s|
  {
    if s == [] then [] else InsertDue(SortDue(s[..|s| - 1], previous, end), s[|s| - 1], previous, end)
  }

  // --------------------------------------------------------------- the simulation

  function Available(items: seq<Reservoir>): real
    decreases |items|
  {
    if items == [] then 0.0 else Available(items[..|items| - 1]) + items[|items| - 1].remaining
  }

  function Debited(r: Reservoir, need: real): Reservoir {
    var debit := MinR(need, r.remaining);
    r.(remaining := r.remaining - debit, weekly := MaxR(0.0, r.weekly - debit))
  }

  // Greedy: drain in order until the need is met. Also what is left of the need.
  function Drain(items: seq<Reservoir>, need: real): (r: (seq<Reservoir>, real))
    ensures |r.0| == |items|
    decreases |items|
  {
    if items == [] then ([], need)
    else
      var n := |items| - 1;
      var (rest, left) := Drain(items[..n], need);
      (rest + [Debited(items[n], left)], left - MinR(left, items[n].remaining))
  }

  function Refilled(r: Reservoir, at: int): Reservoir {
    if !r.weeklyOnly && r.reset == at then r.(remaining := MinR(r.capacity, r.weekly)) else r
  }

  function Refill(items: seq<Reservoir>, at: int): (r: seq<Reservoir>)
    ensures |r| == |items|
  {
    seq(|items|, i requires 0 <= i < |items| => Refilled(items[i], at))
  }

  function Hours(from: int, to: int): real {
    (to - from) as real / HOUR as real
  }

  function Need(demand: real, from: int, to: int): real {
    demand * Hours(from, to)
  }

  // `drained` and `met` are history: what was drained so far, and whether every
  // interval found enough.
  datatype Sim = Sim(items: seq<Reservoir>, previous: int, margin: Ratio, drained: real, met: bool)

  function Interval(s: Sim, demand: real, end: int, at: int): Sim {
    var need := Need(demand, s.previous, at);
    if need > 0.0 then
      var available := Available(s.items);
      var (items, left) := Drain(SortDue(s.items, s.previous, end), need);
      s.(margin := Least(s.margin, available / need), items := items,
         drained := s.drained + (need - left), met := s.met && available >= need)
    else s
  }

  function Event(s: Sim, demand: real, end: int, at: int): Sim {
    var n := Interval(s, demand, end, at);
    (if at > s.previous then n.(items := Refill(n.items, at)) else n).(previous := at)
  }

  function Simulate(s: Sim, demand: real, end: int, events: seq<int>): Sim
    decreases |events|
  {
    if events == [] then s
    else Event(Simulate(s, demand, end, events[..|events| - 1]), demand, end, events[|events| - 1])
  }

  function Initial(accounts: seq<Account>, now: int): Sim {
    Sim(Reservoirs(accounts, now), now, Infinite, 0.0, true)
  }

  function Events(accounts: seq<Account>, now: int, end: int): seq<int> {
    SortTimes([end] + Resets(accounts, now, end))
  }

  function Whole(accounts: seq<Account>, demand: real, horizon: int, now: int): Sim {
    Simulate(Initial(accounts, now), demand, now + horizon, Events(accounts, now, now + horizon))
  }

  // Not a number for a demand or horizon that is not positive.
  function Margin(accounts: seq<Account>, demand: real, horizon: int, now: int): Option<Ratio> {
    if demand <= 0.0 || horizon <= 0 then None else Some(Whole(accounts, demand, horizon, now).margin)
  }

  // ------------------------------------------------------------------- adequacy

  ghost predicate Sane(r: Reservoir) {
    0.0 <= r.remaining <= r.weekly && r.capacity >= 0.0
  }

  ghost predicate AllSane(items: seq<Reservoir>) {
    forall i | 0 <= i < |items| :: Sane(items[i])
  }

  // Quotas as assessed: never negative.
  ghost predicate Quotas(accounts: seq<Account>) {
    forall i | 0 <= i < |accounts| :: accounts[i].fiveHour >= 0.0 && accounts[i].week >= 0.0 && accounts[i].capacity >= 0.0
  }

  lemma {:induction false} ReservoirsAreSane(accounts: seq<Account>, now: int)
    requires Quotas(accounts)
    ensures AllSane(Reservoirs(accounts, now))
    decreases |accounts|
  {
    if accounts != [] { ReservoirsAreSane(accounts[..|accounts| - 1], now); }
  }

  lemma {:induction false} InsertDueIsMultiset(s: seq<Reservoir>, r: Reservoir, previous: int, end: int)
    ensures multiset(InsertDue(s, r, previous, end)) == multiset(s) + multiset{r}
    decreases |s|
  {
    if s != [] && Due(s[|s| - 1], previous, end) > Due(r, previous, end) {
      var n := |s| - 1;
      InsertDueIsMultiset(s[..n], r, previous, end);
      assert s == s[..n] + [s[n]];
    }
  }

  lemma {:induction false} InsertDueTotal(s: seq<Reservoir>, r: Reservoir, previous: int, end: int)
    ensures Available(InsertDue(s, r, previous, end)) == Available(s) + r.remaining
    decreases |s|
  {
    if s != [] && Due(s[|s| - 1], previous, end) > Due(r, previous, end) {
      var n := |s| - 1;
      InsertDueTotal(s[..n], r, previous, end);
      assert (InsertDue(s[..n], r, previous, end) + [s[n]])[..n + 1] == InsertDue(s[..n], r, previous, end);
    } else {
      assert (s + [r])[..|s|] == s;
    }
  }

  lemma {:induction false} SortDueIsMultiset(s: seq<Reservoir>, previous: int, end: int)
    ensures multiset(SortDue(s, previous, end)) == multiset(s)
    decreases |s|
  {
    if s != [] {
      var n := |s| - 1;
      SortDueIsMultiset(s[..n], previous, end);
      InsertDueIsMultiset(SortDue(s[..n], previous, end), s[n], previous, end);
      assert s == s[..n] + [s[n]];
    }
  }

  lemma {:induction false} SortDueTotal(s: seq<Reservoir>, previous: int, end: int)
    ensures Available(SortDue(s, previous, end)) == Available(s)
    decreases |s|
  {
    if s != [] {
      var n := |s| - 1;
      SortDueTotal(s[..n], previous, end);
      InsertDueTotal(SortDue(s[..n], previous, end), s[n], previous, end);
    }
  }

  lemma SortDueKeepsSane(s: seq<Reservoir>, previous: int, end: int)
    requires AllSane(s)
    ensures AllSane(SortDue(s, previous, end))
  {
    SortDueIsMultiset(s, previous, end);
    var q := SortDue(s, previous, end);
    forall i | 0 <= i < |q| ensures Sane(q[i]) {
      assert q[i] in multiset(s);
    }
  }

  /** Draining takes exactly min(need, available), never more than a reservoir holds. */
  lemma {:induction false} DrainIsExact(items: seq<Reservoir>, need: real)
    requires AllSane(items) && need >= 0.0
    ensures var (out, left) := Drain(items, need);
            && AllSane(out) && 0.0 <= left <= need
            && need - left == MinR(need, Available(items))
            && Available(out) == Available(items) - (need - left)
    decreases |items|
  {
    if items != [] {
      var n := |items| - 1;
      DrainIsExact(items[..n], need);
      var (rest, left) := Drain(items[..n], need);
      var out := rest + [Debited(items[n], left)];
      assert out[..n] == rest && Drain(items, need).0 == out;
    }
  }

  lemma RefillKeepsSane(items: seq<Reservoir>, at: int)
    requires AllSane(items)
    ensures AllSane(Refill(items, at))
  {
  }

  lemma NeedIsPositive(demand: real, from: int, to: int)
    requires demand > 0.0 && from <= to
    ensures Need(demand, from, to) >= 0.0 && (Need(demand, from, to) > 0.0 <==> from < to)
  {
    var h := Hours(from, to);
    assert h >= 0.0 && (h > 0.0 <==> from < to);
    assert from < to ==> demand * h > 0.0;
  }

  lemma NeedAdds(demand: real, a: int, b: int, c: int)
    ensures Need(demand, a, b) + Need(demand, b, c) == Need(demand, a, c)
  {
    assert Hours(a, b) + Hours(b, c) == Hours(a, c);
    Distribute(demand, Hours(a, b), Hours(b, c));
  }

  lemma Distribute(x: real, y: real, z: real)
    ensures x * y + x * z == x * (y + z)
  {
  }

  ghost predicate Ascending(events: seq<int>, from: int) {
    && (forall i | 0 <= i < |events| :: from <= events[i])
    && forall i, j | 0 <= i < j < |events| :: events[i] <= events[j]
  }

  lemma RatioAtLeastOne(available: real, need: real)
    requires need > 0.0
    ensures available / need >= 1.0 <==> available >= need
  {
    var ratio := available / need;
    assert ratio * need == available;
    if ratio >= 1.0 { Scale(need, 1.0, ratio); }
    if available >= need { Cancel(need, 1.0, ratio); }
  }

  lemma Scale(k: real, a: real, b: real)
    requires k > 0.0 && a <= b
    ensures k * a <= k * b
  {
    var d := b - a;
    assert k * d >= 0.0;
  }

  lemma Cancel(k: real, a: real, b: real)
    requires k > 0.0 && k * a <= k * b
    ensures a <= b
  {
    var d := b - a;
    assert k * d >= 0.0;
    assert d == k * d / k;
  }

  ghost predicate Adequate(s: Sim, demand: real, start: int) {
    && AllSane(s.items) && start <= s.previous
    && (s.margin.Infinite? <==> s.previous == start)
    && (s.met <==> s.margin.Infinite? || s.margin.value >= 1.0)
    && (s.met ==> s.drained == Need(demand, start, s.previous))
    && (!s.met ==> s.drained < Need(demand, start, s.previous))
  }

  lemma EventKeepsAdequate(s: Sim, demand: real, start: int, end: int, at: int)
    requires Adequate(s, demand, start) && demand > 0.0 && s.previous <= at
    ensures Adequate(Event(s, demand, end, at), demand, start)
  {
    NeedIsPositive(demand, s.previous, at);
    NeedAdds(demand, start, s.previous, at);
    var need := Need(demand, s.previous, at);
    if need > 0.0 {
      var sorted := SortDue(s.items, s.previous, end);
      SortDueKeepsSane(s.items, s.previous, end);
      SortDueTotal(s.items, s.previous, end);
      DrainIsExact(sorted, need);
      RatioAtLeastOne(Available(s.items), need);
      RefillKeepsSane(Drain(sorted, need).0, at);
    }
  }

  lemma {:induction false} SimulateIsAdequate(s: Sim, demand: real, end: int, events: seq<int>)
    requires AllSane(s.items) && s.margin.Infinite? && s.drained == 0.0 && s.met
    requires demand > 0.0 && Ascending(events, s.previous)
    ensures Adequate(Simulate(s, demand, end, events), demand, s.previous)
    ensures Simulate(s, demand, end, events).previous == if events == [] then s.previous else events[|events| - 1]
    decreases |events|
  {
    if events == [] {
      NeedAdds(demand, s.previous, s.previous, s.previous);
    } else {
      var prior := events[..|events| - 1];
      SimulateIsAdequate(s, demand, end, prior);
      EventKeepsAdequate(Simulate(s, demand, end, prior), demand, s.previous, end, events[|events| - 1]);
    }
  }

  // ------------------------------------------------------------------- the events

  lemma {:induction false} InsertTimeIsMultiset(s: seq<int>, t: int)
    ensures multiset(InsertTime(s, t)) == multiset(s) + multiset{t}
    decreases |s|
  {
    if s != [] && s[|s| - 1] > t {
      var n := |s| - 1;
      InsertTimeIsMultiset(s[..n], t);
      assert s == s[..n] + [s[n]];
    }
  }

  lemma {:induction false} InsertTimeSorts(s: seq<int>, t: int, from: int)
    requires Ascending(s, from) && from <= t
    ensures Ascending(InsertTime(s, t), from)
    ensures var r := InsertTime(s, t); r[|r| - 1] == if s == [] || s[|s| - 1] <= t then t else s[|s| - 1]
    decreases |s|
  {
    if s != [] && s[|s| - 1] > t {
      InsertTimeSorts(s[..|s| - 1], t, from);
    }
  }

  lemma {:induction false} SortTimesSorts(s: seq<int>, from: int)
    requires forall i | 0 <= i < |s| :: from <= s[i]
    ensures Ascending(SortTimes(s), from) && multiset(SortTimes(s)) == multiset(s)
    decreases |s|
  {
    if s != [] {
      var n := |s| - 1;
      SortTimesSorts(s[..n], from);
      InsertTimeSorts(SortTimes(s[..n]), s[n], from);
      InsertTimeIsMultiset(SortTimes(s[..n]), s[n]);
      assert s == s[..n] + [s[n]];
    }
  }

  // The events ascend from `now` and the last one ends the horizon.
  lemma EventsEndTheHorizon(accounts: seq<Account>, now: int, end: int)
    requires now < end
    ensures var events := Events(accounts, now, end);
            events != [] && Ascending(events, now) && events[|events| - 1] == end
  {
    var all := [end] + Resets(accounts, now, end);
    assert forall i | 0 <= i < |all| :: now <= all[i] <= end;
    SortTimesSorts(all, now);
    var events := Events(accounts, now, end);
    var last := events[|events| - 1];
    assert last in multiset(events);
    assert last in all;
    assert all[0] == end && end in multiset(all);
    assert end in multiset(events);
    var i :| 0 <= i < |events| && events[i] == end;
    assert events[i] <= last;
  }

  /** Adequacy: the margin is finite, and at least 1 iff every interval's demand was
      met, in which case exactly demand * horizon was drained; otherwise less was. */
  lemma MarginIsAdequate(accounts: seq<Account>, demand: real, horizon: int, now: int)
    requires Quotas(accounts) && demand > 0.0 && horizon > 0
    ensures var s := Whole(accounts, demand, horizon, now);
            && Margin(accounts, demand, horizon, now) == Some(s.margin) && s.margin.Finite?
            && AllSane(s.items)
            && (s.margin.value >= 1.0 <==> s.met)
            && (s.met <==> s.drained == Need(demand, now, now + horizon))
            && (!s.met <==> s.drained < Need(demand, now, now + horizon))
  {
    ReservoirsAreSane(accounts, now);
    EventsEndTheHorizon(accounts, now, now + horizon);
    AdequateRun(Initial(accounts, now), demand, now + horizon, Events(accounts, now, now + horizon));
  }

  lemma AdequateRun(start: Sim, demand: real, end: int, events: seq<int>)
    requires AllSane(start.items) && start.margin.Infinite? && start.drained == 0.0 && start.met
    requires demand > 0.0 && start.previous < end
    requires events != [] && Ascending(events, start.previous) && events[|events| - 1] == end
    ensures var s := Simulate(start, demand, end, events);
            && s.margin.Finite? && AllSane(s.items)
            && (s.margin.value >= 1.0 <==> s.met)
            && (s.met <==> s.drained == Need(demand, start.previous, end))
            && (!s.met <==> s.drained < Need(demand, start.previous, end))
  {
    SimulateIsAdequate(start, demand, end, events);
  }

  // ------------------------------------------------------------------- antitone

  // The same reservoir under less demand: at least as much now, and at least as much
  // of the week behind it.
  ghost predicate Better(r: Reservoir, q: Reservoir) {
    && r.capacity == q.capacity && r.reset == q.reset && r.weeklyOnly == q.weeklyOnly
    && r.remaining >= q.remaining && r.weekly - r.remaining >= q.weekly - q.remaining
    && Sane(r) && Sane(q)
  }

  ghost predicate AllBetter(a: seq<Reservoir>, b: seq<Reservoir>) {
    |a| == |b| && forall i | 0 <= i < |a| :: Better(a[i], b[i])
  }

  lemma {:induction false} InsertKeepsBetter(a: seq<Reservoir>, b: seq<Reservoir>, r: Reservoir, q: Reservoir, previous: int, end: int)
    requires AllBetter(a, b) && Better(r, q)
    ensures AllBetter(InsertDue(a, r, previous, end), InsertDue(b, q, previous, end))
    decreases |a|
  {
    if a != [] && Due(a[|a| - 1], previous, end) > Due(r, previous, end) {
      InsertKeepsBetter(a[..|a| - 1], b[..|b| - 1], r, q, previous, end);
    }
  }

  lemma {:induction false} SortKeepsBetter(a: seq<Reservoir>, b: seq<Reservoir>, previous: int, end: int)
    requires AllBetter(a, b)
    ensures AllBetter(SortDue(a, previous, end), SortDue(b, previous, end))
    decreases |a|
  {
    if a != [] {
      var n := |a| - 1;
      SortKeepsBetter(a[..n], b[..n], previous, end);
      InsertKeepsBetter(SortDue(a[..n], previous, end), SortDue(b[..n], previous, end), a[n], b[n], previous, end);
    }
  }

  lemma {:induction false} BetterHasMore(a: seq<Reservoir>, b: seq<Reservoir>)
    requires AllBetter(a, b)
    ensures Available(a) >= Available(b) && Available(b) >= 0.0
    decreases |a|
  {
    if a != [] { BetterHasMore(a[..|a| - 1], b[..|b| - 1]); }
  }

  lemma DebitKeepsBetter(r: Reservoir, q: Reservoir, need: real, more: real)
    requires Better(r, q) && 0.0 <= need <= more
    ensures Better(Debited(r, need), Debited(q, more))
    ensures 0.0 <= need - MinR(need, r.remaining) <= more - MinR(more, q.remaining)
  {
  }

  lemma {:induction false} DrainKeepsBetter(a: seq<Reservoir>, b: seq<Reservoir>, need: real, more: real)
    requires AllBetter(a, b) && 0.0 <= need <= more
    ensures AllBetter(Drain(a, need).0, Drain(b, more).0)
    ensures 0.0 <= Drain(a, need).1 <= Drain(b, more).1
    decreases |a|
  {
    if a != [] {
      var n := |a| - 1;
      DrainKeepsBetter(a[..n], b[..n], need, more);
      DebitKeepsBetter(a[n], b[n], Drain(a[..n], need).1, Drain(b[..n], more).1);
    }
  }

  lemma RefillKeepsBetter(a: seq<Reservoir>, b: seq<Reservoir>, at: int)
    requires AllBetter(a, b)
    ensures AllBetter(Refill(a, at), Refill(b, at))
  {
  }

  lemma RatioAntitone(a: real, b: real, need: real, more: real)
    requires 0.0 < need <= more && a >= b >= 0.0
    ensures a / need >= b / more
  {
    var x, y := a / need, b / more;
    assert x * need == a && y * more == b;
    assert y >= 0.0 by { Cancel(more, 0.0, y); }
    assert y * (more - need) >= 0.0;
    assert need * y <= need * x;
    Cancel(need, y, x);
  }

  lemma NeedMonotone(demand: real, more: real, from: int, to: int)
    requires 0.0 < demand <= more && from <= to
    ensures Need(demand, from, to) <= Need(more, from, to)
  {
    var h := Hours(from, to);
    assert h >= 0.0;
    assert (more - demand) * h >= 0.0;
  }

  // The two runs, step by step.
  ghost predicate Ahead(s: Sim, t: Sim) {
    AllBetter(s.items, t.items) && s.previous == t.previous && AtMost(t.margin, s.margin)
  }

  lemma EventKeepsAhead(s: Sim, t: Sim, demand: real, more: real, end: int, at: int)
    requires Ahead(s, t) && 0.0 < demand <= more && s.previous <= at
    ensures Ahead(Event(s, demand, end, at), Event(t, more, end, at))
  {
    NeedIsPositive(demand, s.previous, at);
    NeedIsPositive(more, s.previous, at);
    NeedMonotone(demand, more, s.previous, at);
    if s.previous < at {
      var need, want := Need(demand, s.previous, at), Need(more, s.previous, at);
      BetterHasMore(s.items, t.items);
      RatioAntitone(Available(s.items), Available(t.items), need, want);
      var a, b := SortDue(s.items, s.previous, end), SortDue(t.items, s.previous, end);
      SortKeepsBetter(s.items, t.items, s.previous, end);
      DrainKeepsBetter(a, b, need, want);
      RefillKeepsBetter(Drain(a, need).0, Drain(b, want).0, at);
    }
  }

  lemma {:induction false} SimulateKeepsAhead(s: Sim, t: Sim, demand: real, more: real, end: int, events: seq<int>)
    requires Ahead(s, t) && 0.0 < demand <= more && Ascending(events, s.previous)
    ensures Ahead(Simulate(s, demand, end, events), Simulate(t, more, end, events))
    ensures Simulate(s, demand, end, events).previous == if events == [] then s.previous else events[|events| - 1]
    decreases |events|
  {
    if events != [] {
      var prior := events[..|events| - 1];
      SimulateKeepsAhead(s, t, demand, more, end, prior);
      EventKeepsAhead(Simulate(s, demand, end, prior), Simulate(t, more, end, prior), demand, more, end, events[|events| - 1]);
    }
  }

  /** The margin is antitone in demand: asking more of the same accounts over the same
      horizon never shows a larger margin. */
  lemma MarginIsAntitone(accounts: seq<Account>, demand: real, more: real, horizon: int, now: int)
    requires Quotas(accounts) && 0.0 < demand <= more && horizon > 0
    ensures var a, b := Margin(accounts, demand, horizon, now), Margin(accounts, more, horizon, now);
            a.Some? && b.Some? && AtMost(b.value, a.value)
  {
    WholeIsAntitone(accounts, demand, more, horizon, now);
  }

  lemma WholeIsAntitone(accounts: seq<Account>, demand: real, more: real, horizon: int, now: int)
    requires Quotas(accounts) && 0.0 < demand <= more && horizon > 0
    ensures AtMost(Whole(accounts, more, horizon, now).margin, Whole(accounts, demand, horizon, now).margin)
  {
    var start, end := Initial(accounts, now), now + horizon;
    var events := Events(accounts, now, end);
    assert AllSane(start.items) by { ReservoirsAreSane(accounts, now); }
    assert Ascending(events, start.previous) by { EventsEndTheHorizon(accounts, now, end); }
    AntitoneRun(start, demand, more, end, events);
  }

  lemma AntitoneRun(start: Sim, demand: real, more: real, end: int, events: seq<int>)
    requires AllSane(start.items) && 0.0 < demand <= more && Ascending(events, start.previous)
    ensures AtMost(Simulate(start, more, end, events).margin, Simulate(start, demand, end, events).margin)
  {
    SimulateKeepsAhead(start, start, demand, more, end, events);
  }

  // ---------------------------------------------------------------- the program

  /** The simulation as the program runs it: one pass to collect reservoirs and
      events, then an event loop that drains and refills in place. */
  method Compute(accounts: seq<Account>, demand: real, horizon: int, now: int) returns (margin: Option<Ratio>)
    ensures margin == Margin(accounts, demand, horizon, now)
  {
    if demand <= 0.0 || horizon <= 0 {
      return None;
    }
    var end := now + horizon;
    var items, resets := Collect(accounts, now, end);
    var events := SortTimes([end] + resets);
    var low, previous := Infinite, now;
    ghost var s := Initial(accounts, now);
    for k := 0 to |events|
      invariant s == Simulate(Initial(accounts, now), demand, end, events[..k])
      invariant s.items == items && s.previous == previous && s.margin == low
    {
      var at := events[k];
      assert events[..k + 1][..k] == events[..k];
      var need := Need(demand, previous, at);
      if need > 0.0 {
        items, low := DrainInterval(items, low, need, previous, end);
      }
      if at > previous {
        items := RefillInPlace(items, at);
      }
      s := Event(s, demand, end, at);
      previous := at;
    }
    assert events[..|events|] == events;
    return Some(low);
  }

  method DrainInterval(before: seq<Reservoir>, bound: Ratio, need: real, previous: int, end: int)
    returns (items: seq<Reservoir>, low: Ratio)
    requires need > 0.0
    ensures low == Least(bound, Available(before) / need)
    ensures items == Drain(SortDue(before, previous, end), need).0
  {
    var available := Total(before);
    low := Least(bound, available / need);
    items := SortDue(before, previous, end);
    items := DrainInPlace(items, need);
  }

  method Collect(accounts: seq<Account>, now: int, end: int) returns (items: seq<Reservoir>, resets: seq<int>)
    ensures items == Reservoirs(accounts, now) && resets == Resets(accounts, now, end)
  {
    items, resets := [], [];
    for i := 0 to |accounts|
      invariant items == Reservoirs(accounts[..i], now) && resets == Resets(accounts[..i], now, end)
    {
      assert accounts[..i + 1][..i] == accounts[..i];
      var a := accounts[i];
      if Usable(a, now) {
        items := items + [Start(a)];
        if !a.weeklyOnly && now < a.reset < end {
          resets := resets + [a.reset];
        }
      }
    }
    assert accounts[..|accounts|] == accounts;
  }

  method Total(items: seq<Reservoir>) returns (available: real)
    ensures available == Available(items)
  {
    available := 0.0;
    for i := 0 to |items|
      invariant available == Available(items[..i])
    {
      assert items[..i + 1][..i] == items[..i];
      available := available + items[i].remaining;
    }
    assert items[..|items|] == items;
  }

  method DrainInPlace(items: seq<Reservoir>, need: real) returns (out: seq<Reservoir>)
    ensures out == Drain(items, need).0
  {
    out := items;
    var left := need;
    for i := 0 to |items|
      invariant |out| == |items|
      invariant forall j | i <= j < |items| :: out[j] == items[j]
      invariant out[..i] == Drain(items[..i], need).0 && left == Drain(items[..i], need).1
    {
      assert items[..i + 1][..i] == items[..i];
      var debit := MinR(left, out[i].remaining);
      ghost var before := out[..i];
      out := out[i := out[i].(remaining := out[i].remaining - debit, weekly := MaxR(0.0, out[i].weekly - debit))];
      assert out[..i + 1] == before + [Debited(items[i], left)];
      left := left - debit;
    }
    assert items[..|items|] == items && out[..|items|] == out;
  }

  method RefillInPlace(items: seq<Reservoir>, at: int) returns (out: seq<Reservoir>)
    ensures out == Refill(items, at)
  {
    out := items;
    for i := 0 to |items|
      invariant |out| == |items|
      invariant forall j | 0 <= j < |items| :: out[j] == if j < i then Refilled(items[j], at) else items[j]
    {
      if !out[i].weeklyOnly && out[i].reset == at {
        out := out[i := out[i].(remaining := MinR(out[i].capacity, out[i].weekly))];
      }
    }
  }
}
