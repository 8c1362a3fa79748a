/**
 Runs of the epoch sweeps in which a probe escapes the program's own count. Each shows,
 from the start, that a bound one might expect is not kept; EpochRuns says exactly
 when that happens.

 The runs are built from short pieces, an inventory and a sweep, an answer, a header or
 a finished warmup between a decision and its record, and repeated as often as asked.
 */
module EpochEscapes {
  import opened QuotaEpoch
  import opened EpochRuns

  // ------------------------------------------------------------ twice in one round

  // A target is chosen for a probe, another account's response headers restart the
  // sweep, then the probe is recorded.
  lemma DecidedThenRestarted(s: System, x: Auth, y: Auth, inventory: set<Auth>, at: int, now: int)
    requires s.pending.None? && 0 < at && s.clock <= at < now && x != y && {x, y} <= inventory
    requires s.state.sweep.reason != ProviderReset && SweepDue(s.state.sweep, x, at)
    ensures var n := Next(Next(s, Decide(x, at)), Header(y, inventory, now));
            && n.pending == Some(Decision(x, SweepProbe, at, s.sweeps)) && n.clock == now && n.strays == 0 && n.rounds.Keys == {}
            && n.state.sweep.active && n.state.sweep.round == 1 && n.state.sweep.roundStartedAt == now && n.state.sweep.nextRoundAt == 0
            && n.state.sweep.deadline == now + SWEEP_WINDOW
            && x in n.state.sweep.targets && n.state.sweep.targets[x] == UNTRIED
  {
    var t := Next(s, Decide(x, at));
    assert t.pending == Some(Decision(x, SweepProbe, at, s.sweeps)) && t.state == s.state && t.clock == at;
    var b := BeginSweep(t.state.sweep, inventory, ProviderReset, now);
    assert Starts(t.state.sweep, ProviderReset) && b.targets[x] == UNTRIED && y in b.targets;
  }

  lemma RestartStrays(s: System, x: Auth, at: int, now: int)
    requires s.pending.Some? && s.pending.value.auth == x && s.pending.value.reason == SweepProbe && s.pending.value.at == at
    requires s.clock <= now && s.strays == 0 && s.rounds.Keys == {} && 0 < at < s.state.sweep.roundStartedAt <= now
    requires s.state.sweep.active && s.state.sweep.round == 1 && s.state.sweep.nextRoundAt == 0 && now < s.state.sweep.deadline
    requires x in s.state.sweep.targets && s.state.sweep.targets[x] == UNTRIED
    ensures var n := Next(s, Record(now));
            && n.strays == 1 && n.pending.None? && n.clock == now && n.rounds.Keys == {} && n.state.sweep.round == 1
            && n.state.sweep.roundStartedAt == s.state.sweep.roundStartedAt
            && SweepDue(n.state.sweep, x, now)
  {
  }

  lemma ProbedInRound(s: System, x: Auth, now: int)
    requires s.pending.None? && 0 < now && s.clock == now && s.rounds.Keys == {} && s.state.sweep.round == 1
    requires s.state.sweep.roundStartedAt <= now && SweepDue(s.state.sweep, x, now)
    ensures var n := Next(Next(s, Decide(x, now)), Record(now));
            n.strays == s.strays && RoundsOf(n, x) == [1] && n.state.sweep.round == 1
  {
    var t := Next(s, Decide(x, now));
    assert t.pending == Some(Decision(x, SweepProbe, now, s.sweeps)) && t.state == s.state;
  }

  const STRAYED: seq<Step> := [Inventory({"a", "b"}, 1), Decide("a", 1), Header("b", {"a", "b"}, 2), Record(3)]
  const PROBED_AGAIN: seq<Step> := [Decide("a", 3), Record(3)]

  /** It happens: from the start, one target is probed twice in the first round. */
  lemma StrayRun()
    ensures var s, n := Run(STRAYED), Run(STRAYED + PROBED_AGAIN);
            && s.strays == 1 && s.pending.None? && ReasonFor(s.state, "a", 3) == SweepProbe
            && n.strays == 1 && RoundsOf(n, "a") == [1] && n.state.sweep.round == 1
  {
    var s := Next(START, Inventory({"a", "b"}, 1));
    FirstSweep({"a", "b"}, 1, "a");
    DecidedThenRestarted(s, "a", "b", {"a", "b"}, 1, 2);
    var t := Next(Next(s, Decide("a", 1)), Header("b", {"a", "b"}, 2));
    RestartStrays(t, "a", 1, 3);
    RunFour(STRAYED);
    ProbedInRound(Next(t, Record(3)), "a", 3);
    RunTwo(STRAYED, PROBED_AGAIN);
  }

  lemma FirstSweep(inventory: set<Auth>, now: int, x: Auth)
    requires x in inventory && now > 0
    ensures var s := Next(START, Inventory(inventory, now));
            && s.pending.None? && s.clock == now && s.state.sweep.reason == Bootstrap && SweepDue(s.state.sweep, x, now)
            && s.state.id.NoEpoch? && s.state.sequence == 0 && s.state.accounts.Keys == {} && s.lost.Keys == {} && s.counted.Keys == {}
            && s.state.sweep.startedAt == s.state.sweep.roundStartedAt == now && s.state.sweep.targets.Keys == inventory
  {
    assert InventoryReason(INITIAL, inventory) == Some(Bootstrap);
  }

  lemma RunFour(steps: seq<Step>)
    requires |steps| == 4
    ensures Run(steps) == Next(Next(Next(Next(START, steps[0]), steps[1]), steps[2]), steps[3])
  {
    assert steps[..3][..2] == steps[..2] && steps[..2][..1] == steps[..1] && steps[..1][..0] == [];
    assert Run(steps[..1]) == Next(START, steps[0]);
    assert Run(steps[..2]) == Next(Run(steps[..1]), steps[1]);
    assert Run(steps[..3]) == Next(Run(steps[..2]), steps[2]);
  }

  lemma RunTwo(steps: seq<Step>, more: seq<Step>)
    requires |more| == 2
    ensures Run(steps + more) == Next(Next(Run(steps), more[0]), more[1])
  {
    var all := steps + more;
    assert all[..|all| - 1][..|all| - 2] == steps && all[..|all| - 1][|all| - 2] == more[0];
  }

  lemma RunMore(steps: seq<Step>, more: seq<Step>)
    requires |more| == 4
    ensures Run(steps + more) == Next(Next(Next(Next(Run(steps), more[0]), more[1]), more[2]), more[3])
  {
    var half := steps + more[..2];
    assert half + more[2..] == steps + more && more[2..][0] == more[2] && more[2..][1] == more[3];
    RunTwo(steps, more[..2]);
    RunTwo(half, more[2..]);
  }

  // ------------------------------------------------------- follow-ups without end

  // No sweep is running; `x`, observed at `at`, is pending and was never followed up.
  ghost predicate Waiting(s: System, x: Auth, at: int) {
    && s.pending.None? && s.clock == at && at > 0 && !s.state.sweep.active
    && !s.state.id.NoEpoch? && s.state.sequence == 1 && s.state.confirmedAt <= at
    && x in s.state.accounts && s.state.accounts[x] == Account(Pending, at, 0, 0)
  }

  function AnswerOf(x: Auth, now: int): Answer {
    Answer(x, now, false, true, Reading(now, true))
  }

  function FactsOf(x: Auth, now: int): Facts {
    Facts(map[x := Reading(now, true)], map[], 0)
  }

  function FirstEpoch(x: Auth): seq<Step> {
    [Inventory({x}, 1), Decide(x, 1), Record(1), Answered(AnswerOf(x, 1), {x}, FactsOf(x, 1), 1)]
  }

  lemma FirstProbe(x: Auth)
    ensures var s := Next(Next(Next(START, Inventory({x}, 1)), Decide(x, 1)), Record(1));
            && s.pending.None? && s.clock == 1 && s.state.sweep.active && s.state.sweep.reason == Bootstrap
            && s.state.sweep.startedAt == 1 && s.state.sweep.targets.Keys == {x} && s.state.sweep.targets[x] == Target(1, 0, false)
            && s.state.id.NoEpoch? && s.state.sequence == 0 && s.state.accounts.Keys == {} && s.lost.Keys == {}
  {
    var s := Next(START, Inventory({x}, 1));
    FirstSweep({x}, 1, x);
    var t := Next(s, Decide(x, 1));
    assert t.pending == Some(Decision(x, SweepProbe, 1, s.sweeps)) && t.state == s.state;
  }

  lemma FirstAnswer(s: System, x: Auth)
    requires s.pending.None? && s.clock == 1 && s.state.sweep.active && s.state.sweep.reason == Bootstrap
    requires s.state.sweep.startedAt == 1 && s.state.sweep.targets.Keys == {x} && s.state.sweep.targets[x] == Target(1, 0, false)
    requires s.state.id.NoEpoch? && s.state.sequence == 0 && s.state.accounts.Keys == {}
    ensures var n := Next(s, Answered(AnswerOf(x, 1), {x}, FactsOf(x, 1), 1));
            Waiting(n, x, 1) && n.lost.Keys == {} && n.counted.Keys == {} && n.state.accounts.Keys == {x}
  {
    var f := FactsOf(x, 1);
    var u := Absorb(s.state, AnswerOf(x, 1), {x}, 1);
    assert u.sweep.targets.Keys == {x} && u.sweep.targets[x] == Target(1, 1, false);
    FirstIsSeen(u, x);
    var d := Decided(u, f, 1);
    assert d == Confirm(u, Bootstrap, f, 1);
    assert d.accounts.Keys == {x} && d.accounts[x] == Account(Pending, 1, 0, 0);
  }

  lemma FirstIsSeen(u: State, x: Auth)
    requires u.sweep.targets.Keys == {x} && u.sweep.targets[x] == Target(1, 1, false) && u.sweep.startedAt == 1
    requires u.sweep.active && u.sweep.reason == Bootstrap && u.id.NoEpoch?
    ensures ConfirmsBootstrap(u, 1) && !ConfirmsReset(u)
  {
    assert Seen(u.sweep) == {x};
    assert |u.sweep.targets| == |u.sweep.targets.Keys| == |{x}|;
  }

  lemma FirstEpochRun(x: Auth)
    ensures Waiting(Run(FirstEpoch(x)), x, 1) && LostOf(Run(FirstEpoch(x)), x) == 0
    ensures Run(FirstEpoch(x)).state.accounts.Keys == {x} && Run(FirstEpoch(x)).counted.Keys == {}
  {
    RunFour(FirstEpoch(x));
    FirstProbe(x);
    FirstAnswer(Next(Next(Next(START, Inventory({x}, 1)), Decide(x, 1)), Record(1)), x);
  }

  // A follow-up is decided, a response of the account comes in, the follow-up is
  // recorded, and its answer shows that the account still has to be activated.
  function LostFollowUp(x: Auth, now: int): seq<Step> {
    [Decide(x, now), Usage(x, now), Record(now), Answered(AnswerOf(x, now), {x}, FactsOf(x, now), now)]
  }

  lemma FollowUpIsLost(s: System, x: Auth, at: int, now: int)
    requires Waiting(s, x, at) && now == at + SNAPSHOT_AGE + 1
    ensures var n := Next(Next(Next(s, Decide(x, now)), Usage(x, now)), Record(now));
            && n.pending.None? && n.clock == now && n.state == s.state.(accounts := s.state.accounts[x := Account(Natural, at, 0, 0)])
            && LostOf(n, x) == LostOf(s, x) + 1
  {
    assert PendingDue(s.state, x, now) && !SweepDue(s.state.sweep, x, now);
    var t := Next(s, Decide(x, now));
    assert t.pending == Some(Decision(x, PendingProbe, now, s.sweeps)) && t.state == s.state;
    var u := Next(t, Usage(x, now));
    assert !PendingDue(u.state, x, now);
  }

  lemma PendingAgain(s: System, x: Auth, at: int, now: int)
    requires s.pending.None? && s.clock == now > 0 && !s.state.sweep.active && !s.state.id.NoEpoch?
    requires s.state.sequence == 1 && s.state.confirmedAt <= now && x in s.state.accounts && s.state.accounts[x] == Account(Natural, at, 0, 0)
    ensures var n := Next(s, Answered(AnswerOf(x, now), {x}, FactsOf(x, now), now));
            Waiting(n, x, now) && LostOf(n, x) == LostOf(s, x)
  {
    var u := Absorb(s.state, AnswerOf(x, now), {x}, now);
    assert u.accounts[x] == Account(Pending, now, 0, 0);
    assert Finalize(u, FactsOf(x, now), now) == u;
  }

  /** The follow-ups sent in one epoch have no bound: for every n some run sends n that
      the program does not count. */
  lemma {:induction false} LostFollowUpsHaveNoBound(n: nat, x: Auth) returns (steps: seq<Step>, at: int)
    ensures Waiting(Run(steps), x, at)
    ensures Run(steps).state.sequence == 1 && LostOf(Run(steps), x) == n
  {
    if n == 0 {
      steps, at := FirstEpoch(x), 1;
      FirstEpochRun(x);
    } else {
      var prior, before := LostFollowUpsHaveNoBound(n - 1, x);
      at := before + SNAPSHOT_AGE + 1;
      OneMoreLost(prior, x, before, at);
      steps := prior + LostFollowUp(x, at);
    }
  }

  lemma OneMoreLost(steps: seq<Step>, x: Auth, at: int, now: int)
    requires Waiting(Run(steps), x, at) && now == at + SNAPSHOT_AGE + 1
    ensures var n := Run(steps + LostFollowUp(x, now)); Waiting(n, x, now) && LostOf(n, x) == LostOf(Run(steps), x) + 1
  {
    RunMore(steps, LostFollowUp(x, now));
    FollowUpIsLost(Run(steps), x, at, now);
    PendingAgain(Next(Next(Next(Run(steps), Decide(x, now)), Usage(x, now)), Record(now)), x, at, now);
  }

  // --------------------------------------------------------- leaving and returning

  lemma FollowedUpOnce(s: System, x: Auth, at: int, now: int)
    requires Waiting(s, x, at) && now == at + SNAPSHOT_AGE + 1 && s.counted.Keys == {}
    ensures var n := Next(Next(s, Decide(x, now)), Record(now));
            && n.pending.None? && n.clock == now && n.counted.Keys == {x} && n.counted[x] == [now]
            && n.state == s.state.(accounts := s.state.accounts[x := Account(Pending, at, 1, now)])
  {
    assert PendingDue(s.state, x, now) && !SweepDue(s.state.sweep, x, now);
    var t := Next(s, Decide(x, now));
    assert t.pending == Some(Decision(x, PendingProbe, now, s.sweeps)) && t.state == s.state;
    assert TimesOf(t.counted, x) + [now] == [now];
  }

  // The inventory sweep of `now` runs with these targets, and no account is known.
  ghost predicate Returning(s: System, now: int, targets: set<Auth>) {
    && s.pending.None? && s.clock == now > 0 && !s.state.id.NoEpoch? && s.state.accounts.Keys == {} && s.counted.Keys == {}
    && var w := s.state.sweep;
       && w.active && w.reason == InventoryChange && w.startedAt == w.roundStartedAt == now
       && w.nextRoundAt == 0 && w.deadline == now + SWEEP_WINDOW && w.targets.Keys == targets
  }

  ghost predicate SameEpoch(s: System, n: System) {
    n.state.sequence == s.state.sequence && n.state.id == s.state.id
  }

  lemma Leaves(s: System, x: Auth, y: Auth, now: int)
    requires s.pending.None? && s.clock == now > 0 && !s.state.sweep.active && !s.state.id.NoEpoch?
    requires x != y && s.state.accounts.Keys == {x}
    ensures var n := Next(s, Inventory({y}, now)); Returning(n, now, {y}) && SameEpoch(s, n)
  {
    assert y in {y} && y !in s.state.accounts;
  }

  lemma Returns(s: System, x: Auth, y: Auth, now: int)
    requires Returning(s, now, {y}) && x != y
    ensures var n := Next(s, Inventory({x, y}, now));
            Returning(n, now, {x, y}) && SameEpoch(s, n) && n.state.sweep.targets[x] == UNTRIED
  {
    assert x in {x, y} && x !in s.state.sweep.targets;
  }

  lemma ReturnIsProbed(s: System, x: Auth, y: Auth, now: int)
    requires Returning(s, now, {x, y}) && s.state.sweep.targets[x] == UNTRIED
    ensures var n := Next(Next(s, Decide(x, now)), Record(now));
            Returning(n, now, {x, y}) && SameEpoch(s, n) && n.state.sweep.targets[x] == Target(now, 0, false)
  {
    var t := Next(s, Decide(x, now));
    assert t.pending == Some(Decision(x, SweepProbe, now, s.sweeps)) && t.state == s.state;
  }

  lemma ReturnIsAdopted(s: System, x: Auth, y: Auth, now: int)
    requires Returning(s, now, {x, y}) && s.state.sweep.targets[x] == Target(now, 0, false)
    ensures var n := Next(s, Answered(AnswerOf(x, now), {x, y}, FactsOf(x, now), now));
            && SameEpoch(s, n) && n.clock == now && x in n.state.accounts && n.state.accounts[x] == Account(Pending, now, 0, 0)
            && x !in n.counted
  {
    var u := Absorb(s.state, AnswerOf(x, now), {x, y}, now);
    assert u.sweep.targets.Keys == {x, y} && u.sweep.targets[x] == Target(now, now, false) && u.accounts.Keys == {};
    assert !Confirms(u, now);
    var d := Decided(u, FactsOf(x, now), now);
    assert d == Adopted(u, FactsOf(x, now));
    assert x in d.accounts && d.accounts[x] == Account(Pending, now, 0, 0);
  }

  // `x` is followed up; then one inventory does not list it, and the next does again.
  function Reentry(x: Auth, y: Auth, now: int): seq<Step> {
    [Inventory({y}, now), Inventory({x, y}, now), Decide(x, now), Record(now)]
  }

  /** An account that leaves the inventory and returns is counted from nothing again,
      in the same epoch. */
  lemma ReturningRestartsTheCount(x: Auth, y: Auth) returns (before: seq<Step>, away: seq<Step>)
    requires x != y
    ensures var s, n := Run(before), Run(before + away);
            && x in s.state.accounts && s.state.accounts[x].attempts == 1 && |TimesOf(s.counted, x)| == 1
            && n.state.sequence == s.state.sequence && n.state.id == s.state.id
            && x in n.state.accounts && n.state.accounts[x] == Account(Pending, n.clock, 0, 0) && TimesOf(n.counted, x) == []
  {
    var now := SNAPSHOT_AGE + 2;
    var follow: seq<Step> := [Decide(x, now), Record(now)];
    var probed := Reentry(x, y, now);
    var adopted := Answered(AnswerOf(x, now), {x, y}, FactsOf(x, now), now);
    FirstEpochRun(x);
    before := FirstEpoch(x) + follow;
    RunTwo(FirstEpoch(x), follow);
    FollowedUpOnce(Run(FirstEpoch(x)), x, 1, now);
    RunMore(before, probed);
    Leaves(Run(before), x, y, now);
    Returns(Next(Run(before), probed[0]), x, y, now);
    ReturnIsProbed(Next(Next(Run(before), probed[0]), probed[1]), x, y, now);
    ReturnIsAdopted(Run(before + probed), x, y, now);
    away := probed + [adopted];
    RunLast(before, probed, adopted);
  }

  lemma RunLast(steps: seq<Step>, more: seq<Step>, last: Step)
    ensures Run(steps + (more + [last])) == Next(Run(steps + more), last)
  {
    var all := steps + (more + [last]);
    assert all[..|all| - 1] == steps + more;
  }
}
