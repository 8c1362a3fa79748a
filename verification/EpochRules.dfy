/**
 When the epoch scheduler begins, probes, advances, confirms and closes, on the fields
 of its state: the conditions a reader of a status report could check by hand.

 The state functions of QuotaEpoch say how each section computes its result, and
 EpochRuns what whole runs keep. Here every section is characterised from outside:
 which facts about sweep, targets and accounts decide, and everything that stays.
 */
module EpochRules {
  import opened QuotaEpoch

  // ---------------------------------------------------------------------- probing

  /** A sweep probes a target without evidence once per round, inside its window and
      after the round's delay. */
  lemma SweepProbeIff(e: State, x: Auth, now: int)
    ensures var s := e.sweep;
            ReasonFor(e, x, now) == SweepProbe <==>
              && s.active && now < s.deadline && (s.nextRoundAt != 0 ==> now >= s.nextRoundAt)
              && x in s.targets && !s.targets[x].evidence
              && (s.targets[x].attemptedAt == 0 || s.targets[x].attemptedAt < if s.roundStartedAt != 0 then s.roundStartedAt else s.startedAt)
  {
  }

  // A pending account that was never observed in the epoch, or not for ten minutes.
  predicate Unobserved(a: Account, now: int) {
    a.state == Pending && (a.observedAt == 0 || a.observedAt > now || now - a.observedAt > 10 * MINUTE)
  }

  /** Outside a sweep probe a pending account is followed up: three times, half a minute
      apart, and within a quarter of an hour of a provider reset any time ten minutes
      after the last one. */
  lemma PendingProbeIff(e: State, x: Auth, now: int)
    requires ReasonFor(e, x, now) != SweepProbe
    ensures ReasonFor(e, x, now) == PendingProbe <==>
              && x in e.accounts && e.id != NoEpoch && Unobserved(e.accounts[x], now)
              && var a := e.accounts[x];
                 && (a.lastProbeAt == 0 || now - a.lastProbeAt >= 30 * SECOND)
                 && (a.attempts < 3
                     || (e.reason == ProviderReset && e.confirmedAt != 0 && 0 <= now - e.confirmedAt <= 15 * MINUTE
                         && a.lastProbeAt != 0 && now - a.lastProbeAt >= 10 * MINUTE))
  {
  }

  /** Recording a probe changes its own target or account and nothing else. */
  lemma ProbeIsRecorded(e: State, x: Auth, reason: ProbeReason, now: int)
    ensures var n := RecordProbe(e, x, reason, now);
            && n.(accounts := e.accounts, sweep := e.sweep) == e
            && n.sweep.(targets := e.sweep.targets) == e.sweep && n.sweep.targets.Keys == e.sweep.targets.Keys && n.accounts.Keys == e.accounts.Keys
            && (forall y | y in e.sweep.targets ::
                  n.sweep.targets[y] == if reason.SweepProbe? && y == x then e.sweep.targets[y].(attemptedAt := now) else e.sweep.targets[y])
            && (forall y | y in e.accounts ::
                  n.accounts[y] == if reason.PendingProbe? && y == x && Unobserved(e.accounts[y], now)
                                   then e.accounts[y].(attempts := e.accounts[y].attempts + 1, lastProbeAt := now) else e.accounts[y])
  {
    var n := RecordProbe(e, x, reason, now);
    assert n.sweep.targets.Keys == e.sweep.targets.Keys && n.accounts.Keys == e.accounts.Keys;
  }

  // -------------------------------------------------------------------- beginning

  // A sweep that has just begun, for ten minutes.
  predicate Begun(s: Sweep, reason: Reason, now: int) {
    && s.active && s.reason == reason && s.startedAt == now && s.deadline == now + 10 * MINUTE
    && s.round == 1 && s.roundStartedAt == now && s.nextRoundAt == 0 && s.epoch == NoEpoch
  }

  /** Beginning a sweep starts an idle one, lets a provider reset take over any other
      kind and start it afresh, and otherwise only fits the targets to the inventory.
      Targets that stay keep what they showed unless the sweep started over. */
  lemma BeginIs(s: Sweep, inventory: set<Auth>, reason: Reason, now: int)
    requires inventory != {}
    ensures var n, starts := BeginSweep(s, inventory, reason, now), !s.active || (reason == ProviderReset && s.reason != ProviderReset);
            && n.active && n.targets.Keys == inventory && n.required == Quorum(|inventory|)
            && (starts ==> Begun(n, reason, now) && forall x | x in inventory :: n.targets[x] == Target(0, 0, false))
            && (!starts ==>
                  && n.(targets := s.targets, required := s.required) == s
                  && forall x | x in inventory :: n.targets[x] == if x in s.targets then s.targets[x] else Target(0, 0, false))
  {
    var n := BeginSweep(s, inventory, reason, now);
    assert n.targets.Keys == inventory;
    assert |n.targets| == |n.targets.Keys|;
  }

  /** A quorum is everybody in a pool of at most two, and otherwise half, rounded up. */
  lemma QuorumIs(n: nat)
    ensures Quorum(n) == if n <= 2 then n else n / 2 + n % 2
  {
  }

  /** An inventory forgets the accounts that left. It begins a first sweep while there is
      no epoch, and later one for newcomers; a running sweep keeps its reason. */
  lemma PrepareIs(e: State, inventory: set<Auth>, now: int)
    ensures var n := Prepare(e, inventory, now);
            && (forall x :: x in n.accounts <==> x in e.accounts && x in inventory)
            && (forall x | x in n.accounts :: n.accounts[x] == e.accounts[x])
            && n.(accounts := e.accounts, sweep := e.sweep) == e
            && n.sweep == if e.sweep.active then BeginSweep(e.sweep, inventory, e.sweep.reason, now)
                          else if e.id == NoEpoch then BeginSweep(e.sweep, inventory, Bootstrap, now)
                          else if inventory - e.accounts.Keys != {} then BeginSweep(e.sweep, inventory, InventoryChange, now)
                          else e.sweep
  {
    if x :| x in inventory && x !in e.accounts {
      assert x in inventory - e.accounts.Keys;
    }
  }

  // -------------------------------------------------------------------- finalizing

  // Every target, or every target without evidence, has an answer or attempt from `since` on.
  predicate AllAnswered(s: Sweep) {
    forall x | x in s.targets :: s.targets[x].observedAt != 0 && s.targets[x].observedAt >= s.startedAt
  }

  predicate AllTried(s: Sweep) {
    forall x | x in s.targets && !s.targets[x].evidence ::
      s.targets[x].attemptedAt != 0 && s.targets[x].attemptedAt >= if s.roundStartedAt != 0 then s.roundStartedAt else s.startedAt
  }

  // What confirms an epoch: a provider reset with its quorum of evidence, or without any
  // epoch yet the first answers, once all are in or the time is up.
  predicate Confirming(e: State, now: int) {
    var s := e.sweep;
    if s.reason == ProviderReset
    then s.epoch == NoEpoch && s.required > 0 && |set x | x in s.targets && s.targets[x].evidence| >= s.required
    else
      && s.reason != NoReason && e.id == NoEpoch
      && (exists x :: x in s.targets && s.targets[x].observedAt != 0 && s.targets[x].observedAt >= s.startedAt)
      && (AllAnswered(s) || now >= s.deadline)
  }

  lemma SeenAll(s: Sweep)
    ensures |Seen(s)| == |s.targets| <==> AllAnswered(s)
    ensures |Seen(s)| > 0 <==> exists x :: x in s.targets && s.targets[x].observedAt != 0 && s.targets[x].observedAt >= s.startedAt
  {
    var seen := Seen(s);
    assert |s.targets| == |s.targets.Keys| && seen <= s.targets.Keys;
    if AllAnswered(s) {
      assert seen == s.targets.Keys;
    } else {
      var x :| x in s.targets && x !in seen;
      Smaller(seen, s.targets.Keys, x);
    }
    if |seen| > 0 {
      var x :| x in seen;
    }
    if x :| x in s.targets && s.targets[x].observedAt != 0 && s.targets[x].observedAt >= s.startedAt {
      assert x in seen;
    }
  }

  lemma Smaller(a: set<Auth>, b: set<Auth>, x: Auth)
    requires a <= b && x in b && x !in a
    ensures |a| < |b|
  {
    assert b == a + {x} + (b - a - {x});
    assert |a + {x}| == |a| + 1;
  }

  lemma ConfirmsIff(e: State, now: int)
    requires e.sweep.active
    ensures Confirms(e, now) <==> Confirming(e, now)
  {
    SeenAll(e.sweep);
    assert Evident(e.sweep.targets) == set x | x in e.sweep.targets && e.sweep.targets[x].evidence;
  }

  // A further round: of at most four, 45 seconds from now, and only inside the window.
  predicate Advancing(s: Sweep, now: int) {
    && s.reason == ProviderReset && s.round < 4 && now < s.deadline
    && (s.deadline == 0 || now + 45 * SECOND < s.deadline) && AllTried(s)
  }

  /** How a running sweep goes on: it confirms and closes; or begins a further round; or
      closes at its deadline, or without a provider reset once everybody answered; or
      just runs on. */
  lemma FinalizeIs(e: State, f: Facts, now: int)
    requires e.sweep.active
    ensures var n := Finalize(e, f, now);
            && (n.sequence == e.sequence + 1 <==> Confirming(e, now))
            && (n.sequence == e.sequence <==> !Confirming(e, now))
            && (n.sweep.active <==>
                  && !Confirming(e, now)
                  && (Advancing(e.sweep, now) || (now < e.sweep.deadline && (e.sweep.reason == ProviderReset || !AllAnswered(e.sweep)))))
            && (!Confirming(e, now) && Advancing(e.sweep, now) ==>
                  n.sweep == e.sweep.(round := e.sweep.round + 1, roundStartedAt := now + 45 * SECOND, nextRoundAt := now + 45 * SECOND))
            && (!Confirming(e, now) && n.sweep.active && !Advancing(e.sweep, now) ==> n.sweep == e.sweep)
            && (!n.sweep.active ==> n.sweep == e.sweep.(active := false, nextRoundAt := 0, epoch := n.sweep.epoch))
  {
    ConfirmsIff(e, now);
    SeenAll(e.sweep);
    assert RoundComplete(e.sweep) <==> AllTried(e.sweep);
    FinalizeCases(e, f, now);
  }

  lemma FinalizeCases(e: State, f: Facts, now: int)
    requires e.sweep.active
    ensures var n, d := Finalize(e, f, now), Decided(e, f, now);
            && d.sequence == e.sequence + (if Confirms(e, now) then 1 else 0) && n.sequence == d.sequence
            && (!Confirms(e, now) ==> d.sweep == e.sweep)
            && d.sweep == e.sweep.(epoch := d.sweep.epoch)
            && n.sweep == (if !Confirms(e, now) && e.sweep.reason == ProviderReset && now < e.sweep.deadline && RoundComplete(e.sweep) && CanAdvance(e.sweep, now)
                           then Advanced(e.sweep, now)
                           else if Confirms(e, now) || now >= e.sweep.deadline || (e.sweep.reason != ProviderReset && |Seen(e.sweep)| == |e.sweep.targets|)
                           then d.sweep.(active := false, nextRoundAt := 0)
                           else e.sweep)
  {
  }

  // -------------------------------------------------------------------- confirming

  // The answer that counts for the epoch: read since the sweep started.
  predicate Answered(s: Sweep, f: Facts, x: Auth) {
    x in s.targets && x in f.readings && s.targets[x].observedAt != 0 && s.targets[x].observedAt >= s.startedAt
  }

  predicate UsedSince(s: Sweep, f: Facts, x: Auth) {
    x in f.used && f.used[x] != 0 && f.used[x] >= s.startedAt
  }

  /** The accounts of a new epoch are the sweep's targets. One is done when it was used
      since the sweep started, or when its answer says so and, after a provider reset,
      is evidence of the reset; every other one is pending. Its answer's time is kept
      unless it claims not to need a warmup without being evidence. */
  lemma ConfirmedAccountsAre(e: State, f: Facts, now: int, x: Auth)
    requires e.sweep.active && Confirming(e, now)
    ensures var s, n := e.sweep, Finalize(e, f, now);
            var trusted := Answered(s, f, x) && (s.reason == ProviderReset ==> s.targets[x].evidence);
            && (x in n.accounts <==> x in s.targets)
            && (x in n.accounts ==>
                  var a := n.accounts[x];
                  && a.state == (if UsedSince(s, f, x) || (trusted && !f.readings[x].needsWarmup) then Natural else Pending)
                  && a.observedAt == (if trusted || (Answered(s, f, x) && f.readings[x].needsWarmup) then f.readings[x].refreshed else 0)
                  && a.attempts == 0 && a.lastProbeAt == 0)
            && n.confirmedAt == now && n.resetAt == f.anchor
            && n.reason == (if s.reason == ProviderReset then ProviderReset else Bootstrap)
  {
    ConfirmsIff(e, now);
    ConfirmedIs(e, f, now);
    if x in e.sweep.targets { ConfirmedFields(e.sweep, x, if e.sweep.reason == ProviderReset then ProviderReset else Bootstrap, f); }
  }

  lemma ConfirmedIs(e: State, f: Facts, now: int)
    requires e.sweep.active && Confirms(e, now)
    ensures var n, reason := Finalize(e, f, now), if e.sweep.reason == ProviderReset then ProviderReset else Bootstrap;
            && n.confirmedAt == now && n.resetAt == f.anchor && n.reason == reason
            && (forall x :: x in n.accounts <==> x in e.sweep.targets)
            && (forall x | x in n.accounts :: n.accounts[x] == Confirmed(e.sweep, x, reason, f))
  {
  }

  lemma ConfirmedFields(s: Sweep, x: Auth, reason: Reason, f: Facts)
    requires x in s.targets
    ensures var a, trusted := Confirmed(s, x, reason, f), Answered(s, f, x) && (reason == ProviderReset ==> s.targets[x].evidence);
            && a.state == (if UsedSince(s, f, x) || (trusted && !f.readings[x].needsWarmup) then Natural else Pending)
            && a.observedAt == (if trusted || (Answered(s, f, x) && f.readings[x].needsWarmup) then f.readings[x].refreshed else 0)
            && a.attempts == 0 && a.lastProbeAt == 0
  {
  }

  /** The new epoch is named after the minute of the reset, or of the confirmation if no
      reset is known; if that is the current name its sequence number is added. */
  lemma EpochNameIs(e: State, f: Facts, now: int)
    requires e.sweep.active && Confirming(e, now)
    ensures var n, at := Finalize(e, f, now), if f.anchor != 0 then f.anchor else now;
            n.id.Epoch? && n.id.week == at / (60 * SECOND)
            && n.id.suffix == (if e.id == Epoch(at / (60 * SECOND), 0) then e.sequence + 1 else 0)
            && n.sweep.epoch == n.id
  {
    ConfirmsIff(e, now);
  }

  /** Without a confirmation no account is lost, and an account joins only from a sweep for
      newcomers within an epoch, as its own answer describes it. */
  lemma NewcomersJoin(e: State, f: Facts, now: int, x: Auth)
    requires e.sweep.active && !Confirming(e, now)
    ensures var n := Finalize(e, f, now);
            var joins := e.sweep.reason == InventoryChange && e.id != NoEpoch && x in e.sweep.targets && e.sweep.targets[x].observedAt != 0 && x in f.readings;
            && (x in n.accounts <==> x in e.accounts || joins)
            && (x in e.accounts ==> n.accounts[x] == e.accounts[x])
            && (x in n.accounts && x !in e.accounts ==>
                  n.accounts[x] == Account(if f.readings[x].needsWarmup then Pending else Natural, f.readings[x].refreshed, 0, 0))
  {
    ConfirmsIff(e, now);
    UnconfirmedAccounts(e, f, now);
  }

  lemma UnconfirmedAccounts(e: State, f: Facts, now: int)
    requires e.sweep.active && !Confirms(e, now)
    ensures Finalize(e, f, now).accounts == (if e.sweep.reason == InventoryChange && e.id != NoEpoch then Adopted(e, f) else e).accounts
  {
  }

  // -------------------------------------------------------------------- observing

  /** An answer to a probe. New evidence of a reset takes over the sweep; the answer's
      target is marked, and keeps evidence it had. Its account, unless the answer is
      older than the epoch, adopts it or counts as unobserved; a warmed or blocked one
      keeps its state, and no answer changes how often it was followed up. */
  lemma AnswerIs(e: State, a: Answer, inventory: set<Auth>, now: int)
    ensures var n := Absorb(e, a, inventory, now);
            var swept := if a.evidence && !(e.sweep.active && e.sweep.reason == ProviderReset) then BeginSweep(e.sweep, inventory, ProviderReset, now) else e.sweep;
            && n.(sweep := e.sweep, accounts := e.accounts) == e && n.accounts.Keys == e.accounts.Keys
            && n.sweep.(targets := swept.targets) == swept && n.sweep.targets.Keys == swept.targets.Keys
            && (forall x | x in swept.targets ::
                  n.sweep.targets[x] == if x == a.auth then swept.targets[x].(observedAt := a.refreshed, evidence := swept.targets[x].evidence || a.evidence)
                                        else swept.targets[x])
            && (forall x | x in e.accounts ::
                  if x == a.auth && a.refreshed >= e.confirmedAt then Adopts(e.accounts[x], n.accounts[x], a) else n.accounts[x] == e.accounts[x])
  {
    var n := Absorb(e, a, inventory, now);
    var swept := if a.evidence && !(e.sweep.active && e.sweep.reason == ProviderReset) then BeginSweep(e.sweep, inventory, ProviderReset, now) else e.sweep;
    assert n.accounts.Keys == e.accounts.Keys && n.sweep.targets.Keys == swept.targets.Keys;
  }

  predicate Adopts(was: Account, n: Account, a: Answer) {
    && n.attempts == was.attempts && n.lastProbeAt == was.lastProbeAt
    && n.observedAt == (if a.adopts then a.reading.refreshed else 0)
    && n.state == (if !a.adopts || was.state in {Warmed, Blocked} then was.state else if a.reading.needsWarmup then Pending else Natural)
  }

  /** A response header that shows a reset begins, or takes over, the sweep and marks its
      own credential if it is a target. */
  lemma HeaderIs(e: State, x: Auth, inventory: set<Auth>, now: int)
    requires inventory != {}
    ensures var n, s := HeaderReset(e, x, inventory, now), BeginSweep(e.sweep, inventory, ProviderReset, now);
            && n.(sweep := e.sweep) == e && n.sweep.(targets := s.targets) == s
            && (forall y :: y in n.sweep.targets <==> y in s.targets)
            && (forall y | y in s.targets :: n.sweep.targets[y] == if y == x then s.targets[y].(evidence := true) else s.targets[y])
  {
  }
}
