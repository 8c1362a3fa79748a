/**
 Quota epochs (quota_epoch.go): bounded probe sweeps that decide, by quorum, when the
 provider reset everybody's weekly quota. Times are nanoseconds with 0 for Go's zero
 time. Snapshots are reduced to what the sweep reads from them; the median reset
 anchor is an input.
 */
module QuotaEpoch {

  type Auth = string

  const SECOND: int := 1000000000
  const MINUTE: int := 60 * SECOND
  const SWEEP_WINDOW: int := 10 * MINUTE
  const ROUND_DELAY: int := 45 * SECOND
  const MAX_ROUNDS: nat := 4
  const SNAPSHOT_AGE: int := 10 * MINUTE
  const CATCHUP_AGE: int := 15 * MINUTE
  const PENDING_LIMIT: nat := 3
  const PENDING_DELAY: int := 30 * SECOND

  datatype Option<T> = None | Some(value: T)

  datatype Reason = NoReason | Bootstrap | InventoryChange | ProviderReset

  datatype AccountState = Pending | Natural | Warmed | Blocked

  datatype Account = Account(state: AccountState, observedAt: int, attempts: nat, lastProbeAt: int)

  datatype Target = Target(attemptedAt: int, observedAt: int, evidence: bool)

  // "week-N", or with the sequence appended; suffix 0 stands for none.
  datatype EpochId = NoEpoch | Epoch(week: int, suffix: nat)

  datatype Sweep = Sweep(active: bool, reason: Reason, startedAt: int, deadline: int, round: nat,
                         roundStartedAt: int, nextRoundAt: int, required: nat, epoch: EpochId, targets: map<Auth, Target>)

  datatype State = State(id: EpochId, sequence: nat, reason: Reason, confirmedAt: int, resetAt: int,
                         accounts: map<Auth, Account>, sweep: Sweep)

  const IDLE := Sweep(false, NoReason, 0, 0, 0, 0, 0, 0, NoEpoch, map[])
  const INITIAL := State(NoEpoch, 0, NoReason, 0, 0, map[], IDLE)
  const UNTRIED := Target(0, 0, false)

  // A snapshot of an account: when it was refreshed, and whether a warmup is due.
  datatype Reading = Reading(refreshed: int, needsWarmup: bool)

  // --------------------------------------------------------------------- quorum

  function Quorum(n: nat): nat {
    if n <= 1 then n else if (n + 1) / 2 < 2 then 2 else (n + 1) / 2
  }

  /** A quorum is attainable, and any two of one pool together cover it. */
  lemma QuorumIsHalf(n: nat)
    ensures Quorum(n) <= n && 2 * Quorum(n) >= n && (n > 0 ==> Quorum(n) > 0)
  {
  }

  function Evident(targets: map<Auth, Target>): set<Auth> {
    set x | x in targets && targets[x].evidence
  }

  function Seen(s: Sweep): set<Auth> {
    set x | x in s.targets && s.targets[x].observedAt != 0 && s.targets[x].observedAt >= s.startedAt
  }

  // ---------------------------------------------------------------------- begin

  function Opened(reason: Reason, now: int): Sweep {
    Sweep(true, reason, now, now + SWEEP_WINDOW, 1, now, 0, 0, NoEpoch, map[])
  }

  function Upgraded(s: Sweep, now: int): Sweep {
    s.(reason := ProviderReset, startedAt := now, deadline := now + SWEEP_WINDOW, round := 1, roundStartedAt := now,
       nextRoundAt := 0, epoch := NoEpoch, targets := map x | x in s.targets :: UNTRIED)
  }

  function Retargeted(s: Sweep, inventory: set<Auth>): Sweep {
    var targets := map x | x in inventory :: if x in s.targets then s.targets[x] else UNTRIED;
    s.(targets := targets, required := Quorum(|targets|))
  }

  // Does beginning (re)start the sweep?
  predicate Starts(s: Sweep, reason: Reason) {
    !s.active || (reason == ProviderReset && s.reason != ProviderReset)
  }

  function BeginSweep(s: Sweep, inventory: set<Auth>, reason: Reason, now: int): Sweep {
    if inventory == {} then s
    else
      var begun := if !s.active then Opened(reason, now) else if Starts(s, reason) then Upgraded(s, now) else s;
      Retargeted(begun, inventory)
  }

  // Why an inventory begins or refreshes a sweep, if at all.
  function InventoryReason(e: State, inventory: set<Auth>): Option<Reason> {
    if e.id.NoEpoch? && !e.sweep.active then Some(Bootstrap)
    else if e.sweep.active then Some(e.sweep.reason)
    else if exists x :: x in inventory && x !in e.accounts then Some(InventoryChange)
    else None
  }

  function Prepare(e: State, inventory: set<Auth>, now: int): State {
    var kept := e.(accounts := map x | x in e.accounts && x in inventory :: e.accounts[x]);
    var why := InventoryReason(kept, inventory);
    if why.None? then kept else kept.(sweep := BeginSweep(kept.sweep, inventory, why.value, now))
  }

  // --------------------------------------------------------------------- probing

  datatype ProbeReason = NoProbe | SweepProbe | PendingProbe

  predicate SweepDue(s: Sweep, x: Auth, now: int) {
    && s.active && now < s.deadline && (s.nextRoundAt == 0 || now >= s.nextRoundAt)
    && x in s.targets && !s.targets[x].evidence
    && (s.targets[x].attemptedAt == 0
        || s.targets[x].attemptedAt < (if s.roundStartedAt == 0 then s.startedAt else s.roundStartedAt))
  }

  predicate NeedsObservation(a: Account, now: int) {
    a.observedAt == 0 || now < a.observedAt || now - a.observedAt > SNAPSHOT_AGE
  }

  // After the first follow-ups only one late catch-up, inside the reset's window.
  predicate CatchUp(e: State, a: Account, now: int) {
    && e.reason == ProviderReset && e.confirmedAt != 0
    && e.confirmedAt <= now && now - e.confirmedAt <= CATCHUP_AGE
    && a.lastProbeAt != 0 && now >= a.lastProbeAt + SNAPSHOT_AGE
  }

  predicate Spaced(e: State, a: Account, now: int) {
    (a.attempts >= PENDING_LIMIT ==> CatchUp(e, a, now)) && (a.lastProbeAt == 0 || now >= a.lastProbeAt + PENDING_DELAY)
  }

  predicate PendingDue(e: State, x: Auth, now: int) {
    && x in e.accounts && !e.id.NoEpoch? && e.accounts[x].state == Pending
    && NeedsObservation(e.accounts[x], now) && Spaced(e, e.accounts[x], now)
  }

  function ReasonFor(e: State, x: Auth, now: int): ProbeReason {
    if SweepDue(e.sweep, x, now) then SweepProbe
    else if PendingDue(e, x, now) then PendingProbe
    else NoProbe
  }

  function RecordProbe(e: State, x: Auth, reason: ProbeReason, now: int): State {
    match reason
    case SweepProbe =>
      if x in e.sweep.targets
      then e.(sweep := e.sweep.(targets := e.sweep.targets[x := e.sweep.targets[x].(attemptedAt := now)])) else e
    case PendingProbe =>
      if x in e.accounts && e.accounts[x].state == Pending && NeedsObservation(e.accounts[x], now)
      then e.(accounts := e.accounts[x := e.accounts[x].(attempts := e.accounts[x].attempts + 1, lastProbeAt := now)]) else e
    case NoProbe => e
  }

  // ------------------------------------------------------------------ confirming

  function FromReading(r: Reading): Account {
    Account(if r.needsWarmup then Pending else Natural, r.refreshed, 0, 0)
  }

  // What a confirmation is told: readings, recent usage, and the reset anchor.
  datatype Facts = Facts(readings: map<Auth, Reading>, used: map<Auth, int>, anchor: int)

  function Confirmed(s: Sweep, x: Auth, reason: Reason, f: Facts): Account
    requires x in s.targets
  {
    var t := s.targets[x];
    var seen := x in f.readings && t.observedAt != 0 && t.observedAt >= s.startedAt;
    var a := if seen && (reason != ProviderReset || t.evidence) then FromReading(f.readings[x])
             else if seen && f.readings[x].needsWarmup then Account(Pending, f.readings[x].refreshed, 0, 0)
             else Account(Pending, 0, 0, 0);
    if x in f.used && f.used[x] != 0 && f.used[x] >= s.startedAt then a.(state := Natural) else a
  }

  function NextId(current: EpochId, anchor: int, now: int, sequence: nat): EpochId {
    var base := Epoch((if anchor == 0 then now else anchor) / MINUTE, 0);
    if base == current then base.(suffix := sequence) else base
  }

  function Confirm(e: State, reason: Reason, f: Facts, now: int): State {
    var id := NextId(e.id, f.anchor, now, e.sequence + 1);
    State(id, e.sequence + 1, reason, now, f.anchor,
          map x | x in e.sweep.targets :: Confirmed(e.sweep, x, reason, f), e.sweep.(epoch := id))
  }

  // -------------------------------------------------------------------- finalizing

  function RoundStart(s: Sweep): int { if s.roundStartedAt == 0 then s.startedAt else s.roundStartedAt }

  predicate RoundComplete(s: Sweep) {
    forall x :: x in s.targets && !s.targets[x].evidence ==> s.targets[x].attemptedAt != 0 && s.targets[x].attemptedAt >= RoundStart(s)
  }

  predicate CanAdvance(s: Sweep, now: int) {
    && s.active && s.reason == ProviderReset && s.round < MAX_ROUNDS
    && (s.deadline == 0 || now + ROUND_DELAY < s.deadline)
  }

  function Advanced(s: Sweep, now: int): Sweep {
    s.(round := s.round + 1, roundStartedAt := now + ROUND_DELAY, nextRoundAt := now + ROUND_DELAY)
  }

  predicate ConfirmsReset(e: State) {
    && e.sweep.active && e.sweep.reason == ProviderReset && e.sweep.epoch.NoEpoch?
    && e.sweep.required > 0 && |Evident(e.sweep.targets)| >= e.sweep.required
  }

  predicate ConfirmsBootstrap(e: State, now: int) {
    && e.sweep.active && (e.sweep.reason == Bootstrap || e.sweep.reason == InventoryChange) && e.id.NoEpoch?
    && |Seen(e.sweep)| > 0 && (|Seen(e.sweep)| == |e.sweep.targets| || now >= e.sweep.deadline)
  }

  function Adopted(e: State, f: Facts): State {
    var newcomers := set x | x in e.sweep.targets && x !in e.accounts && e.sweep.targets[x].observedAt != 0 && x in f.readings;
    e.(accounts := map x | x in e.accounts.Keys + newcomers :: if x in e.accounts then e.accounts[x] else FromReading(f.readings[x]))
  }

  predicate Confirms(e: State, now: int) { ConfirmsReset(e) || ConfirmsBootstrap(e, now) }

  function Decided(e: State, f: Facts, now: int): State {
    if ConfirmsReset(e) then Confirm(e, ProviderReset, f, now)
    else if ConfirmsBootstrap(e, now) then Confirm(e, Bootstrap, f, now)
    else if e.sweep.reason == InventoryChange && !e.id.NoEpoch? then Adopted(e, f)
    else e
  }

  function Finalize(e: State, f: Facts, now: int): State {
    if !e.sweep.active then e
    else
      var n, confirmed := Decided(e, f, now), Confirms(e, now);
      if !confirmed && n.sweep.reason == ProviderReset && now < n.sweep.deadline && RoundComplete(n.sweep) && CanAdvance(n.sweep, now)
      then n.(sweep := Advanced(n.sweep, now))
      else if confirmed || now >= n.sweep.deadline || (n.sweep.reason != ProviderReset && |Seen(n.sweep)| == |n.sweep.targets|)
      then n.(sweep := n.sweep.(active := false, nextRoundAt := 0))
      else n
  }

  // -------------------------------------------------------------------- observing

  // A probe's answer: its refresh time, whether it is new reset evidence, and what
  // the account becomes if it adopts the snapshot.
  datatype Answer = Answer(auth: Auth, refreshed: int, evidence: bool, adopts: bool, reading: Reading)

  function Marked(s: Sweep, a: Answer): Sweep {
    if a.auth !in s.targets then s
    else
      var t := s.targets[a.auth];
      s.(targets := s.targets[a.auth := t.(observedAt := a.refreshed, evidence := t.evidence || a.evidence)])
  }

  function Updated(e: State, a: Answer): map<Auth, Account> {
    if a.auth !in e.accounts || a.refreshed < e.confirmedAt then e.accounts
    else
      var was := e.accounts[a.auth];
      var next := if !a.adopts then was.(observedAt := 0)
                  else FromReading(a.reading).(attempts := was.attempts, lastProbeAt := was.lastProbeAt,
                         state := if was.state in {Warmed, Blocked} then was.state else FromReading(a.reading).state);
      e.accounts[a.auth := next]
  }

  // What the answer itself changes, before the sweep is finalized.
  function Absorb(e: State, a: Answer, inventory: set<Auth>, now: int): State {
    var begun := if a.evidence && (!e.sweep.active || e.sweep.reason != ProviderReset)
                 then e.(sweep := BeginSweep(e.sweep, inventory, ProviderReset, now)) else e;
    var marked := begun.(sweep := Marked(begun.sweep, a));
    marked.(accounts := Updated(marked, a))
  }

  function Observe(e: State, a: Answer, inventory: set<Auth>, f: Facts, now: int): State {
    Finalize(Absorb(e, a, inventory, now), f, now)
  }

  // A response header showed a reset.
  function HeaderReset(e: State, x: Auth, inventory: set<Auth>, now: int): State {
    var s := BeginSweep(e.sweep, inventory, ProviderReset, now);
    e.(sweep := if inventory != {} && x in s.targets then s.(targets := s.targets[x := s.targets[x].(evidence := true)]) else s)
  }

  function SetState(e: State, x: Auth, state: AccountState): State {
    if x in e.accounts then e.(accounts := e.accounts[x := e.accounts[x].(state := state)]) else e
  }
}
