/**
 What one event of the recovery simulation does to the single reservoirs, and which
 reservoirs and events the simulation starts with.
 */
module RecoveryEvents {
  import opened RecoveryMargin

  ghost predicate SortedByDue(items: seq<Reservoir>, previous: int, end: int) {
    forall i, j | 0 <= i < j < |items| :: Due(items[i], previous, end) <= Due(items[j], previous, end)
  }

  lemma AppendSorted(s: seq<Reservoir>, r: Reservoir, previous: int, end: int)
    requires SortedByDue(s, previous, end) && forall q <- s :: Due(q, previous, end) <= Due(r, previous, end)
    ensures SortedByDue(s + [r], previous, end)
  {
  }

  lemma {:induction false} InsertSorts(s: seq<Reservoir>, r: Reservoir, previous: int, end: int)
    requires SortedByDue(s, previous, end)
    ensures SortedByDue(InsertDue(s, r, previous, end), previous, end)
    decreases |s|
  {
    if s != [] && Due(s[|s| - 1], previous, end) > Due(r, previous, end) {
      var n := |s| - 1;
      InsertSorts(s[..n], r, previous, end);
      InsertDueIsMultiset(s[..n], r, previous, end);
      var q := InsertDue(s[..n], r, previous, end);
      forall x | x in q ensures Due(x, previous, end) <= Due(s[n], previous, end) {
        assert x in multiset(q);
        assert x in multiset(s[..n]) || x == r;
      }
      AppendSorted(q, s[n], previous, end);
    } else if s != [] {
      assert forall x <- s :: Due(x, previous, end) <= Due(s[|s| - 1], previous, end);
      AppendSorted(s, r, previous, end);
    }
  }

  lemma {:induction false} SortDueIsSorted(s: seq<Reservoir>, previous: int, end: int)
    ensures SortedByDue(SortDue(s, previous, end), previous, end)
    decreases |s|
  {
    if s != [] {
      SortDueIsSorted(s[..|s| - 1], previous, end);
      InsertSorts(SortDue(s[..|s| - 1], previous, end), s[|s| - 1], previous, end);
    }
  }

  /** The drain takes the reservoirs in the order of their next reset: before one that
      still resets inside the horizon come only such that reset no later. */
  lemma DrainOrder(s: seq<Reservoir>, previous: int, end: int)
    ensures var q := SortDue(s, previous, end);
            && multiset(q) == multiset(s)
            && forall i, j | 0 <= i < j < |q| && q[j].reset != 0 && previous < q[j].reset < end ::
                 q[i].reset != 0 && previous < q[i].reset <= q[j].reset
  {
    SortDueIsMultiset(s, previous, end);
    SortDueIsSorted(s, previous, end);
    var q := SortDue(s, previous, end);
    forall i, j | 0 <= i < j < |q| && q[j].reset != 0 && previous < q[j].reset < end
      ensures q[i].reset != 0 && previous < q[i].reset <= q[j].reset
    {
      assert Due(q[i], previous, end) <= Due(q[j], previous, end);
    }
  }

  // What a reservoir gives it also loses of its week; nothing else of it changes.
  predicate Gives(r: Reservoir, out: Reservoir) {
    && 0.0 <= out.remaining <= r.remaining
    && r.weekly - out.weekly == r.remaining - out.remaining
    && out.capacity == r.capacity && out.reset == r.reset && out.weeklyOnly == r.weeklyOnly
  }

  // A later reservoir, and the need left over, wait until the earlier ones are empty.
  ghost predicate InTurn(items: seq<Reservoir>, out: seq<Reservoir>, left: real) {
    && |out| == |items|
    && (forall i, j | 0 <= i < j < |items| && out[i].remaining > 0.0 :: out[j] == items[j])
    && (forall i | 0 <= i < |items| && out[i].remaining > 0.0 :: left == 0.0)
  }

  /** Draining is greedy: a reservoir gives nothing before the earlier ones are empty,
      and what it gives it also loses of its week. */
  lemma {:induction false} DrainIsGreedy(items: seq<Reservoir>, need: real)
    requires AllSane(items) && need >= 0.0
    ensures InTurn(items, Drain(items, need).0, Drain(items, need).1)
    ensures forall i | 0 <= i < |items| :: Gives(items[i], Drain(items, need).0[i])
    decreases |items|
  {
    if items != [] {
      var n := |items| - 1;
      var rest, left := Drain(items[..n], need).0, Drain(items[..n], need).1;
      DrainIsGreedy(items[..n], need);
      DrainIsExact(items[..n], need);
      DebitGives(items[n], left);
      TakesTurn(items, rest, left);
      assert Drain(items, need).0 == rest + [Debited(items[n], left)];
    }
  }

  lemma DebitGives(r: Reservoir, need: real)
    requires Sane(r) && need >= 0.0
    ensures Gives(r, Debited(r, need))
    ensures need == 0.0 ==> Debited(r, need) == r
    ensures Debited(r, need).remaining > 0.0 ==> MinR(need, r.remaining) == need
  {
  }

  lemma TakesTurn(items: seq<Reservoir>, rest: seq<Reservoir>, left: real)
    requires items != [] && AllSane(items) && left >= 0.0 && InTurn(items[..|items| - 1], rest, left)
    ensures var r := items[|items| - 1];
            InTurn(items, rest + [Debited(r, left)], left - MinR(left, r.remaining))
  {
    var n := |items| - 1;
    DebitGives(items[n], left);
    assert forall i | 0 <= i < n :: items[..n][i] == items[i];
  }

  /** An event first drains the interval before it and then refills exactly the five-hour
      reservoirs that reset at it, to their capacity or to what is left of the week. */
  lemma EventRefills(s: Sim, demand: real, end: int, at: int, i: nat)
    requires s.previous < at && i < |s.items|
    ensures var drained, items := Interval(s, demand, end, at).items, Event(s, demand, end, at).items;
            && |items| == |drained| == |s.items|
            && items[i] == drained[i].(remaining := items[i].remaining)
            && items[i].remaining == if drained[i].weeklyOnly || drained[i].reset != at then drained[i].remaining
                                     else if drained[i].capacity <= drained[i].weekly then drained[i].capacity else drained[i].weekly
  {
  }

  /** Each interval asks for demand times its hours, drains that or all there is, and
      lowers the margin to what was available for it. */
  lemma IntervalDrains(s: Sim, demand: real, end: int, at: int, need: real)
    requires AllSane(s.items) && demand > 0.0 && s.previous < at
    requires need == demand * ((at - s.previous) as real / HOUR as real)
    ensures need > 0.0
    ensures var n, available := Interval(s, demand, end, at), Available(s.items);
            && Available(n.items) == (if available >= need then available - need else 0.0)
            && n.margin.Finite? && Lowered(s.margin, available / need, n.margin.value)
  {
    NeedIsPositive(demand, s.previous, at);
    assert Need(demand, s.previous, at) == need;
    DrainedTotal(s, need, end);
    LeastLowers(s.margin, Available(s.items) / need);
  }

  // The smaller of a bound, if there is one, and x.
  predicate Lowered(bound: Ratio, x: real, low: real) {
    low <= x && (bound.Finite? ==> low <= bound.value) && (low == x || bound == Finite(low))
  }

  lemma LeastLowers(bound: Ratio, x: real)
    ensures Least(bound, x).Finite? && Lowered(bound, x, Least(bound, x).value)
  {
  }

  lemma DrainedTotal(s: Sim, need: real, end: int)
    requires AllSane(s.items) && need > 0.0
    ensures Available(Drain(SortDue(s.items, s.previous, end), need).0)
         == if Available(s.items) >= need then Available(s.items) - need else 0.0
  {
    SortDueKeepsSane(s.items, s.previous, end);
    SortDueTotal(s.items, s.previous, end);
    DrainIsExact(SortDue(s.items, s.previous, end), need);
  }

  // ------------------------------------------------------------- how it starts

  predicate Counts(a: Account, now: int) {
    a.state.Healthy? && (a.overloaded ==> now >= a.retryAt)
  }

  // What an account brings: what is left of its five hours but no more than its week.
  predicate Brings(a: Account, r: Reservoir) {
    && r.weekly == a.week && r.capacity == a.capacity && r.reset == a.reset && r.weeklyOnly == a.weeklyOnly
    && r.remaining == if a.weeklyOnly || a.week < a.fiveHour then a.week else a.fiveHour
  }

  /** Another account adds one reservoir at the end if it counts, and none otherwise. */
  lemma ReservoirsGrow(accounts: seq<Account>, a: Account, now: int)
    ensures var before, after := Reservoirs(accounts, now), Reservoirs(accounts + [a], now);
            if Counts(a, now) then |after| == |before| + 1 && after[..|before|] == before && Brings(a, after[|before|])
            else after == before
  {
    assert (accounts + [a])[..|accounts|] == accounts;
  }

  /** The simulation stops at the end of the horizon and at every reset of a counted
      five-hour reservoir strictly inside it, and nowhere else. */
  lemma {:induction false} ResetsAre(accounts: seq<Account>, now: int, end: int, t: int)
    ensures t in Resets(accounts, now, end)
            <==> now < t < end && exists a :: a in accounts && Counts(a, now) && !a.weeklyOnly && a.reset == t
    decreases |accounts|
  {
    if accounts != [] {
      var n := |accounts| - 1;
      ResetsAre(accounts[..n], now, end, t);
      assert accounts == accounts[..n] + [accounts[n]];
    }
  }

  lemma EventsAre(accounts: seq<Account>, now: int, end: int, t: int)
    requires now < end
    ensures t in Events(accounts, now, end)
            <==> t == end || (now < t < end && exists a :: a in accounts && Counts(a, now) && !a.weeklyOnly && a.reset == t)
  {
    var all := [end] + Resets(accounts, now, end);
    ResetsAre(accounts, now, end, t);
    assert forall i | 0 <= i < |all| :: now <= all[i];
    SortTimesSorts(all, now);
    assert t in Events(accounts, now, end) <==> t in multiset(all);
    assert t in multiset(all) <==> t in all;
  }
}
