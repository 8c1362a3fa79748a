/**
 Whole runs of the epoch sweeps: how often a target or a pending account is probed,
 and what a confirmed epoch rests on.

 A probe is decided under one lock and recorded under the next, by one refresh worker;
 response headers and finished warmups may come in between.
 */
module EpochRuns {
  import opened QuotaEpoch

  datatype Decision = Decision(auth: Auth, reason: ProbeReason, at: int, sweep: nat)

  // History: `sweeps` counts sweep starts and restarts, `rounds` lists per target the
  // rounds of the probes decided since the last start, and `strays` counts probes
  // recorded since then that were decided before it. `counted` lists per account, since
  // the confirmation or since it joined later, when its follow-ups were decided that
  // still stood when recorded; `lost` counts, since the confirmation, those that did not.
  datatype System = System(state: State, pending: Option<Decision>, clock: int,
                           sweeps: nat, rounds: map<Auth, seq<nat>>, strays: nat,
                           counted: map<Auth, seq<int>>, lost: map<Auth, nat>)

  const START := System(INITIAL, None, 0, 0, map[], 0, map[], map[])

  datatype Step =
    | Inventory(inventory: set<Auth>, now: int)
    | Decide(auth: Auth, now: int)
    | Record(now: int)
    | Skip(now: int)
    | Answered(answer: Answer, inventory: set<Auth>, facts: Facts, now: int)
    | Failed(facts: Facts, now: int)
    | Header(auth: Auth, inventory: set<Auth>, now: int)
    | Usage(auth: Auth, now: int)
    | Warmup(auth: Auth, outcome: AccountState, now: int)

  // The refresh worker does one thing at a time; the clock does not run backwards.
  predicate Allowed(s: System, step: Step) {
    && step.now >= s.clock && step.now > 0
    && (step.Record? || step.Skip? ==> s.pending.Some?)
    && (step.Inventory? || step.Decide? || step.Answered? || step.Failed? ==> s.pending.None?)
  }

  // The follow-ups of the accounts that are still there, if no epoch was confirmed.
  function Carried(counted: map<Auth, seq<int>>, e: State, n: State): map<Auth, seq<int>> {
    if n.sequence != e.sequence then map[] else map x | x in counted && x in n.accounts :: counted[x]
  }

  function Told(s: System, n: State): System {
    s.(state := n,
       counted := Carried(s.counted, s.state, n),
       lost := if n.sequence != s.state.sequence then map[] else s.lost)
  }

  // The history after the sweep became that of `n`.
  function Noted(s: System, n: State, started: bool): System {
    Told(s, n).(sweeps := if started then s.sweeps + 1 else s.sweeps,
                strays := if started then 0 else s.strays,
                rounds := if started then map[] else map x | x in s.rounds && x in n.sweep.targets :: s.rounds[x])
  }

  function RoundsOf(s: System, x: Auth): seq<nat> {
    if x in s.rounds then s.rounds[x] else []
  }

  function TimesOf(counted: map<Auth, seq<int>>, x: Auth): seq<int> {
    if x in counted then counted[x] else []
  }

  function LostOf(s: System, x: Auth): nat {
    if x in s.lost then s.lost[x] else 0
  }

  function Recorded(s: System, d: Decision): System {
    var n := s.(state := RecordProbe(s.state, d.auth, d.reason, d.at), pending := None);
    match d.reason
    case NoProbe => n
    case SweepProbe =>
      if d.auth !in s.state.sweep.targets then n
      else if d.at < s.state.sweep.roundStartedAt then n.(strays := s.strays + 1)
      else n.(rounds := s.rounds[d.auth := RoundsOf(s, d.auth) + [s.state.sweep.round]])
    case PendingProbe =>
      if PendingDue(s.state, d.auth, d.at) then n.(counted := s.counted[d.auth := TimesOf(s.counted, d.auth) + [d.at]])
      else n.(lost := s.lost[d.auth := LostOf(s, d.auth) + 1])
  }

  function Next(s: System, step: Step): System {
    if !Allowed(s, step) then s
    else
      var t := s.(clock := step.now);
      match step
      case Inventory(inventory, now) =>
        var kept := s.state.(accounts := map x | x in s.state.accounts && x in inventory :: s.state.accounts[x]);
        var why := InventoryReason(kept, inventory);
        Noted(t, Prepare(s.state, inventory, now), why.Some? && inventory != {} && Starts(s.state.sweep, why.value))
      case Decide(x, now) =>
        var reason := ReasonFor(s.state, x, now);
        if reason == NoProbe then t else t.(pending := Some(Decision(x, reason, now, s.sweeps)))
      case Record(_) => Recorded(t, s.pending.value)
      case Skip(_) => t.(pending := None)
      case Answered(a, inventory, f, now) =>
        Noted(t, Observe(s.state, a, inventory, f, now), a.evidence && inventory != {} && Starts(s.state.sweep, ProviderReset))
      case Failed(f, now) => Told(t, Finalize(s.state, f, now))
      case Header(x, inventory, now) =>
        Noted(t, HeaderReset(s.state, x, inventory, now), inventory != {} && Starts(s.state.sweep, ProviderReset))
      case Usage(x, now) =>
        if x in s.state.accounts && s.state.accounts[x].state == Pending then t.(state := SetState(s.state, x, Natural)) else t
      case Warmup(x, outcome, now) => t.(state := SetState(s.state, x, outcome))
  }

  function Run(steps: seq<Step>): System
    decreases |steps|
  {
    if steps == [] then START else Next(Run(steps[..|steps| - 1]), steps[|steps| - 1])
  }

  // -------------------------------------------------------------------- the sweep

  // An active sweep's rounds, deadline and quorum.
  ghost predicate SweepOk(s: Sweep, clock: int) {
    s.active ==>
      && 1 <= s.round <= MAX_ROUNDS && 0 < s.startedAt <= clock && s.startedAt <= s.roundStartedAt
      && s.required == Quorum(|s.targets|)
      && (s.round == 1 ==> s.nextRoundAt == 0 && s.roundStartedAt == s.startedAt)
      && (s.round > 1 ==> s.nextRoundAt == s.roundStartedAt && s.reason == ProviderReset)
  }

  ghost predicate Increasing(r: seq<nat>, round: nat) {
    && (forall i | 0 <= i < |r| :: 1 <= r[i] <= round)
    && forall i, j | 0 <= i < j < |r| :: r[i] < r[j]
  }

  // A target's probes fell in distinct rounds, and if one fell in this round the
  // target counts as tried.
  ghost predicate Tried(s: Sweep, x: Auth, r: seq<nat>) {
    && x in s.targets && Increasing(r, s.round)
    && (r != [] && r[|r| - 1] == s.round ==> s.targets[x].attemptedAt >= s.roundStartedAt && s.targets[x].attemptedAt > 0)
  }

  ghost predicate SweepHistory(s: System) {
    && (s.state.sweep.active ==> forall x | x in s.rounds :: Tried(s.state.sweep, x, s.rounds[x]))
    && s.strays <= 1
    && (s.pending.Some? ==> s.pending.value.sweep <= s.sweeps && 0 < s.pending.value.at <= s.clock)
    && (s.pending.Some? && s.pending.value.sweep < s.sweeps ==> s.rounds == map[] && s.strays == 0)
    && (s.pending.Some? && s.pending.value.sweep == s.sweeps && s.pending.value.reason == SweepProbe ==> Fresh(s, s.pending.value))
  }

  // A decision that still stands: its target was not tried in this round.
  ghost predicate Fresh(s: System, d: Decision) {
    && s.state.sweep.active && d.at > 0 && d.at >= s.state.sweep.roundStartedAt
    && (RoundsOf(s, d.auth) == [] || RoundsOf(s, d.auth)[|RoundsOf(s, d.auth)| - 1] < s.state.sweep.round)
  }

  lemma BeginOk(s: Sweep, inventory: set<Auth>, reason: Reason, now: int, clock: int)
    requires SweepOk(s, clock) && clock <= now && now > 0
    ensures SweepOk(BeginSweep(s, inventory, reason, now), now)
  {
  }

  // Beginning without restarting keeps the tried targets that stay.
  lemma BeginKeepsTried(s: Sweep, inventory: set<Auth>, reason: Reason, now: int, x: Auth, r: seq<nat>)
    requires s.active && !Starts(s, reason) && Tried(s, x, r) && (inventory == {} || x in inventory)
    ensures Tried(BeginSweep(s, inventory, reason, now), x, r)
  {
  }

  lemma FinalizeShape(e: State, f: Facts, now: int)
    ensures var n := Finalize(e, f, now);
            && n.sweep.targets == e.sweep.targets && n.sweep.required == e.sweep.required
            && n.sweep.startedAt == e.sweep.startedAt && n.sweep.reason == e.sweep.reason
            && (n.sweep.active ==> e.sweep.active)
            && (n.sweep.active ==>
                  || (n.sweep.round == e.sweep.round && n.sweep.roundStartedAt == e.sweep.roundStartedAt && n.sweep.nextRoundAt == e.sweep.nextRoundAt)
                  || (e.sweep.reason == ProviderReset && e.sweep.round < MAX_ROUNDS && RoundComplete(e.sweep)
                      && n.sweep.round == e.sweep.round + 1 && n.sweep.roundStartedAt == n.sweep.nextRoundAt == now + ROUND_DELAY))
  {
  }

  lemma FinalizeOk(e: State, f: Facts, now: int, clock: int)
    requires SweepOk(e.sweep, clock) && clock <= now
    ensures SweepOk(Finalize(e, f, now).sweep, now)
  {
    FinalizeShape(e, f, now);
  }

  lemma FinalizeKeepsTried(e: State, f: Facts, now: int, x: Auth, r: seq<nat>)
    requires e.sweep.active && Tried(e.sweep, x, r) && Finalize(e, f, now).sweep.active
    ensures Tried(Finalize(e, f, now).sweep, x, r)
  {
    FinalizeShape(e, f, now);
  }

  lemma MarkKeepsTried(s: Sweep, a: Answer, x: Auth, r: seq<nat>)
    requires Tried(s, x, r)
    ensures Tried(Marked(s, a), x, r)
  {
  }

  lemma MarkOk(s: Sweep, a: Answer, clock: int)
    requires SweepOk(s, clock)
    ensures SweepOk(Marked(s, a), clock)
  {
    if a.auth in s.targets {
      assert Marked(s, a).targets.Keys == s.targets.Keys;
    }
  }

  // ------------------------------------------------------------- pending accounts

  // An account's follow-ups: at most three, spaced, and one catch-up in its window.
  ghost predicate FollowedUp(e: State, times: seq<int>) {
    && |times| <= PENDING_LIMIT + 1
    && (|times| > 0 ==> times[0] > 0 && times[0] >= e.confirmedAt)
    && (|times| > 1 ==> times[1] >= times[0] + PENDING_DELAY)
    && (|times| > 2 ==> times[2] >= times[1] + PENDING_DELAY)
    && (|times| > 3 ==> times[3] >= times[2] + SNAPSHOT_AGE && times[3] <= e.confirmedAt + CATCHUP_AGE && e.reason == ProviderReset)
  }

  // The program's own counter and time are those of its follow-ups.
  ghost predicate AccountOk(e: State, a: Account, times: seq<int>) {
    && FollowedUp(e, times) && a.attempts == |times|
    && (times != [] ==> a.lastProbeAt == times[|times| - 1])
  }

  ghost predicate AccountsOk(e: State, counted: map<Auth, seq<int>>, clock: int) {
    && e.confirmedAt <= clock
    && counted.Keys <= e.accounts.Keys
    && forall x | x in e.accounts :: AccountOk(e, e.accounts[x], TimesOf(counted, x))
  }

  // A decided follow-up is due when it is recorded, except that the account may no
  // longer be pending.
  ghost predicate PendingOk(e: State, d: Decision) {
    d.reason == PendingProbe ==>
      && d.at > 0 && d.at >= e.confirmedAt && d.auth in e.accounts && !e.id.NoEpoch?
      && NeedsObservation(e.accounts[d.auth], d.at) && Spaced(e, e.accounts[d.auth], d.at)
  }

  lemma FollowUpOk(e: State, a: Account, times: seq<int>, now: int)
    requires AccountOk(e, a, times) && Spaced(e, a, now) && now > 0 && now >= e.confirmedAt
    ensures AccountOk(e, a.(attempts := a.attempts + 1, lastProbeAt := now), times + [now])
  {
    if a.attempts > PENDING_LIMIT {
      NoFifth(e, a, times, now);
    }
  }

  // A fifth would come at least 21 minutes after the confirmation.
  lemma NoFifth(e: State, a: Account, times: seq<int>, now: int)
    requires AccountOk(e, a, times) && a.attempts > PENDING_LIMIT
    ensures !Spaced(e, a, now)
  {
    assert 2 * PENDING_DELAY + 2 * SNAPSHOT_AGE == 21 * MINUTE > CATCHUP_AGE;
  }

  // Accounts keep their follow-ups while no epoch is confirmed; newcomers have none.
  lemma AccountsStay(e: State, n: State, counted: map<Auth, seq<int>>, clock: int, now: int)
    requires AccountsOk(e, counted, clock) && clock <= now
    requires n.confirmedAt == e.confirmedAt && n.reason == e.reason && n.sequence == e.sequence
    requires forall x | x in n.accounts ::
               if x in e.accounts then n.accounts[x].attempts == e.accounts[x].attempts && n.accounts[x].lastProbeAt == e.accounts[x].lastProbeAt
               else n.accounts[x].attempts == 0
    ensures AccountsOk(n, Carried(counted, e, n), now)
  {
    forall x | x in n.accounts ensures AccountOk(n, n.accounts[x], TimesOf(Carried(counted, e, n), x)) {
      if x in e.accounts {
        assert AccountOk(e, e.accounts[x], TimesOf(counted, x));
      }
    }
  }

  lemma CarriedAll(counted: map<Auth, seq<int>>, e: State, n: State)
    requires counted.Keys <= n.accounts.Keys && n.sequence == e.sequence
    ensures Carried(counted, e, n) == counted
  {
  }

  ghost predicate Inv(s: System) {
    && s.clock >= 0
    && SweepOk(s.state.sweep, s.clock) && SweepHistory(s)
    && AccountsOk(s.state, s.counted, s.clock)
    && (s.pending.Some? ==> PendingOk(s.state, s.pending.value))
  }

  // ------------------------------------------------------------------- each step

  // What a new state owes the invariant, for a history carried by `Noted`.
  lemma NotedInv(s: System, n: State, started: bool, now: int)
    requires Inv(s) && s.clock <= now && now > 0
    requires SweepOk(n.sweep, now) && AccountsOk(n, Carried(s.counted, s.state, n), now)
    requires !started ==> (n.sweep.active ==> s.state.sweep.active) && (n.sweep.active ==> KeepsTried(s, n))
    requires s.pending.Some? ==> PendingOk(n, s.pending.value)
    requires s.pending.Some? && !started ==>
               && n.sweep.active == s.state.sweep.active && n.sweep.round == s.state.sweep.round
               && n.sweep.roundStartedAt == s.state.sweep.roundStartedAt
    ensures Inv(Noted(s.(clock := now), n, started))
  {
    var t := Noted(s.(clock := now), n, started);
    if !started && s.pending.Some? && s.pending.value.sweep == s.sweeps && s.pending.value.reason == SweepProbe {
      var d := s.pending.value;
      if d.auth in n.sweep.targets && d.auth in t.rounds {
        assert t.rounds[d.auth] == s.rounds[d.auth];
        assert Tried(s.state.sweep, d.auth, s.rounds[d.auth]);
      }
    }
  }

  ghost predicate KeepsTried(s: System, n: State) {
    forall x | x in s.rounds && x in n.sweep.targets :: Tried(n.sweep, x, s.rounds[x])
  }

  lemma PrepareInv(s: System, inventory: set<Auth>, now: int)
    requires Inv(s) && Allowed(s, Inventory(inventory, now))
    ensures Inv(Next(s, Inventory(inventory, now)))
  {
    var kept := s.state.(accounts := map x | x in s.state.accounts && x in inventory :: s.state.accounts[x]);
    var why := InventoryReason(kept, inventory);
    var n := Prepare(s.state, inventory, now);
    var started := why.Some? && inventory != {} && Starts(s.state.sweep, why.value);
    if why.Some? {
      BeginOk(s.state.sweep, inventory, why.value, now, s.clock);
      if !started && n.sweep.active {
        forall x | x in s.rounds && x in n.sweep.targets ensures Tried(n.sweep, x, s.rounds[x]) {
          BeginKeepsTried(s.state.sweep, inventory, why.value, now, x, s.rounds[x]);
        }
      }
    }
    PrepareKeepsAccounts(s.state, inventory, now);
    AccountsStay(s.state, n, s.counted, s.clock, now);
    NotedInv(s, n, started, now);
  }

  lemma PrepareKeepsAccounts(e: State, inventory: set<Auth>, now: int)
    ensures var n := Prepare(e, inventory, now);
            && n.confirmedAt == e.confirmedAt && n.reason == e.reason && n.sequence == e.sequence
            && forall x | x in n.accounts :: x in e.accounts && n.accounts[x] == e.accounts[x]
  {
  }

  lemma HeaderInv(s: System, x: Auth, inventory: set<Auth>, now: int)
    requires Inv(s) && Allowed(s, Header(x, inventory, now))
    ensures Inv(Next(s, Header(x, inventory, now)))
  {
    var b := BeginSweep(s.state.sweep, inventory, ProviderReset, now);
    var n := HeaderReset(s.state, x, inventory, now);
    var started := inventory != {} && Starts(s.state.sweep, ProviderReset);
    BeginOk(s.state.sweep, inventory, ProviderReset, now, s.clock);
    assert n.sweep.targets.Keys == b.targets.Keys;
    if !started && n.sweep.active {
      forall y | y in s.rounds && y in n.sweep.targets ensures Tried(n.sweep, y, s.rounds[y]) {
        assert Tried(s.state.sweep, y, s.rounds[y]) && y in b.targets.Keys;
        if inventory != {} {
          BeginKeepsTried(s.state.sweep, inventory, ProviderReset, now, y, s.rounds[y]);
        }
      }
    }
    AccountsStay(s.state, n, s.counted, s.clock, now);
    NotedInv(s, n, started, now);
  }

  lemma UpdatedOk(e: State, a: Answer, counted: map<Auth, seq<int>>, clock: int)
    requires AccountsOk(e, counted, clock)
    ensures var n := e.(accounts := Updated(e, a));
            AccountsOk(n, counted, clock) && n.accounts.Keys == e.accounts.Keys
  {
    var n := e.(accounts := Updated(e, a));
    assert n.accounts.Keys == e.accounts.Keys;
    AccountsStay(e, n, counted, clock, clock);
    CarriedAll(counted, e, n);
  }

  lemma FinalizeAccountsOk(e: State, f: Facts, counted: map<Auth, seq<int>>, now: int, clock: int)
    requires AccountsOk(e, counted, clock) && clock <= now
    ensures AccountsOk(Finalize(e, f, now), Carried(counted, e, Finalize(e, f, now)), now)
  {
    var n := Finalize(e, f, now);
    FinalizeConfirms(e, f, now);
    if n.sequence != e.sequence {
      ConfirmStartsOver(e, f, now);
      assert Carried(counted, e, n) == map[];
    } else {
      FinalizeKeepsAccounts(e, f, now);
      AccountsStay(e, n, counted, clock, now);
    }
  }

  lemma ConfirmStartsOver(e: State, f: Facts, now: int)
    requires Finalize(e, f, now).sequence != e.sequence
    ensures forall x | x in Finalize(e, f, now).accounts :: Finalize(e, f, now).accounts[x].attempts == 0
  {
  }

  lemma FinalizeKeepsAccounts(e: State, f: Facts, now: int)
    requires Finalize(e, f, now).sequence == e.sequence
    ensures var n := Finalize(e, f, now);
            forall x | x in n.accounts :: if x in e.accounts then n.accounts[x] == e.accounts[x] else n.accounts[x].attempts == 0
  {
  }

  lemma AbsorbOk(s: System, a: Answer, inventory: set<Auth>, now: int)
    requires Inv(s) && s.clock <= now && now > 0
    ensures var u := Absorb(s.state, a, inventory, now);
            && SweepOk(u.sweep, now) && AccountsOk(u, s.counted, now) && u.sequence == s.state.sequence
            && u.accounts.Keys == s.state.accounts.Keys
            && (!(a.evidence && inventory != {} && Starts(s.state.sweep, ProviderReset)) && u.sweep.active ==>
                  s.state.sweep.active && KeepsTried(s, u))
  {
    var e := s.state;
    var begins := a.evidence && (!e.sweep.active || e.sweep.reason != ProviderReset);
    var begun := if begins then e.(sweep := BeginSweep(e.sweep, inventory, ProviderReset, now)) else e;
    var marked := begun.(sweep := Marked(begun.sweep, a));
    BeginOk(e.sweep, inventory, ProviderReset, now, s.clock);
    MarkOk(begun.sweep, a, now);
    UpdatedOk(marked, a, s.counted, s.clock);
    if !(begins && inventory != {}) && e.sweep.active {
      forall x | x in s.rounds && x in marked.sweep.targets ensures Tried(marked.sweep, x, s.rounds[x]) {
        MarkKeepsTried(begun.sweep, a, x, s.rounds[x]);
      }
    }
  }

  lemma AnsweredInv(s: System, a: Answer, inventory: set<Auth>, f: Facts, now: int)
    requires Inv(s) && Allowed(s, Answered(a, inventory, f, now))
    ensures Inv(Next(s, Answered(a, inventory, f, now)))
  {
    var u := Absorb(s.state, a, inventory, now);
    var started := a.evidence && inventory != {} && Starts(s.state.sweep, ProviderReset);
    var n := Finalize(u, f, now);
    AbsorbOk(s, a, inventory, now);
    FinalizeOk(u, f, now, now);
    FinalizeAccountsOk(u, f, s.counted, now, now);
    FinalizeShape(u, f, now);
    if !started && n.sweep.active {
      forall x | x in s.rounds && x in n.sweep.targets ensures Tried(n.sweep, x, s.rounds[x]) {
        FinalizeKeepsTried(u, f, now, x, s.rounds[x]);
      }
    }
    NotedInv(s, n, started, now);
  }

  lemma FailedInv(s: System, f: Facts, now: int)
    requires Inv(s) && Allowed(s, Failed(f, now))
    ensures Inv(Next(s, Failed(f, now)))
  {
    var n := Finalize(s.state, f, now);
    FinalizeOk(s.state, f, now, s.clock);
    FinalizeAccountsOk(s.state, f, s.counted, now, s.clock);
    FinalizeShape(s.state, f, now);
    if n.sweep.active {
      forall x | x in s.rounds ensures Tried(n.sweep, x, s.rounds[x]) {
        FinalizeKeepsTried(s.state, f, now, x, s.rounds[x]);
      }
    }
  }

  lemma DecideInv(s: System, x: Auth, now: int)
    requires Inv(s) && Allowed(s, Decide(x, now))
    ensures Inv(Next(s, Decide(x, now)))
  {
    if SweepDue(s.state.sweep, x, now) && x in s.rounds {
      assert Tried(s.state.sweep, x, s.rounds[x]);
    }
  }

  lemma RecordInv(s: System, now: int)
    requires Inv(s) && Allowed(s, Record(now))
    ensures Inv(Next(s, Record(now)))
  {
    var d := s.pending.value;
    match d.reason {
      case NoProbe =>
      case PendingProbe => RecordPendingInv(s, d, now);
      case SweepProbe =>
        if d.auth in s.state.sweep.targets {
          RecordSweepInv(s, d, Next(s, Record(now)));
        }
    }
  }

  lemma RecordPendingInv(s: System, d: Decision, now: int)
    requires Inv(s) && s.pending == Some(d) && d.reason == PendingProbe && s.clock <= now
    ensures Inv(Recorded(s.(clock := now), d))
  {
    var n, x := Recorded(s.(clock := now), d), d.auth;
    if PendingDue(s.state, x, d.at) {
      FollowUpOk(s.state, s.state.accounts[x], TimesOf(s.counted, x), d.at);
      forall y | y in n.state.accounts ensures AccountOk(n.state, n.state.accounts[y], TimesOf(n.counted, y)) {
        if y != x {
          assert AccountOk(s.state, s.state.accounts[y], TimesOf(s.counted, y));
        }
      }
    }
  }

  lemma RecordSweepInv(s: System, d: Decision, n: System)
    requires Inv(s) && s.pending == Some(d) && d.reason == SweepProbe && d.auth in s.state.sweep.targets
    requires n.state == RecordProbe(s.state, d.auth, SweepProbe, d.at) && n.pending == None && n.clock >= s.clock && n.sweeps == s.sweeps && n.counted == s.counted
    requires if d.at < s.state.sweep.roundStartedAt then n.strays == s.strays + 1 && n.rounds == s.rounds
             else n.strays == s.strays && n.rounds == s.rounds[d.auth := RoundsOf(s, d.auth) + [s.state.sweep.round]]
    ensures Inv(n)
  {
    assert n.state.sweep.targets.Keys == s.state.sweep.targets.Keys;
    if s.state.sweep.active {
      forall x | x in n.rounds ensures Tried(n.state.sweep, x, n.rounds[x]) {
        RecordKeepsTried(s, d, n, x);
      }
    }
  }

  lemma RecordKeepsTried(s: System, d: Decision, n: System, x: Auth)
    requires SweepHistory(s) && SweepOk(s.state.sweep, s.clock) && s.state.sweep.active && x in n.rounds
    requires s.pending == Some(d) && d.reason == SweepProbe && d.auth in s.state.sweep.targets
    requires n.state.sweep == s.state.sweep.(targets := s.state.sweep.targets[d.auth := s.state.sweep.targets[d.auth].(attemptedAt := d.at)])
    requires n.rounds == if d.at < s.state.sweep.roundStartedAt then s.rounds
                         else s.rounds[d.auth := RoundsOf(s, d.auth) + [s.state.sweep.round]]
    ensures Tried(n.state.sweep, x, n.rounds[x])
  {
    if x in s.rounds {
      assert Tried(s.state.sweep, x, s.rounds[x]);
    }
  }

  lemma SetStateInv(s: System, x: Auth, state: AccountState, now: int)
    requires Inv(s) && s.clock <= now
    ensures Inv(s.(clock := now, state := SetState(s.state, x, state)))
  {
    SetStateKeepsAccounts(s.state, x, state, s.counted, s.clock, now);
  }

  lemma SetStateKeepsAccounts(e: State, x: Auth, state: AccountState, counted: map<Auth, seq<int>>, clock: int, now: int)
    requires AccountsOk(e, counted, clock) && clock <= now
    ensures AccountsOk(SetState(e, x, state), counted, now) && SetState(e, x, state).accounts.Keys == e.accounts.Keys
  {
    var n := SetState(e, x, state);
    assert n.accounts.Keys == e.accounts.Keys;
    AccountsStay(e, n, counted, clock, now);
    CarriedAll(counted, e, n);
  }

  lemma StepInv(s: System, step: Step)
    requires Inv(s)
    ensures Inv(Next(s, step))
  {
    if Allowed(s, step) {
      match step {
        case Inventory(inventory, now) => PrepareInv(s, inventory, now);
        case Decide(x, now) => DecideInv(s, x, now);
        case Record(now) => RecordInv(s, now);
        case Skip(now) => SetStateInv(s, "", Pending, now);
        case Answered(a, inventory, f, now) => AnsweredInv(s, a, inventory, f, now);
        case Failed(f, now) => FailedInv(s, f, now);
        case Header(x, inventory, now) => HeaderInv(s, x, inventory, now);
        case Usage(x, now) => SetStateInv(s, x, Natural, now);
        case Warmup(x, outcome, now) => SetStateInv(s, x, outcome, now);
      }
    }
  }

  lemma {:induction false} RunInv(steps: seq<Step>)
    ensures Inv(Run(steps))
    decreases |steps|
  {
    if steps != [] {
      RunInv(steps[..|steps| - 1]);
      StepInv(Run(steps[..|steps| - 1]), steps[|steps| - 1]);
    }
  }

  // ---------------------------------------------------------------- main results

  /** Bounded sweeps: since the sweep last started, a target that stayed in it had at
      most one probe decided per round, so at most as many as there were rounds, at
      most four; a sweep that is no provider reset has one round. */
  lemma SweepProbesAreBounded(steps: seq<Step>, x: Auth)
    requires Run(steps).state.sweep.active
    ensures var s := Run(steps);
            && Increasing(RoundsOf(s, x), s.state.sweep.round)
            && |RoundsOf(s, x)| <= s.state.sweep.round <= MAX_ROUNDS
            && (s.state.sweep.reason != ProviderReset ==> s.state.sweep.round == 1)
            && s.strays <= 1
  {
    RunInv(steps);
    var s := Run(steps);
    if x in s.rounds {
      assert Tried(s.state.sweep, x, s.rounds[x]);
    }
    IncreasingIsShort(RoundsOf(s, x), s.state.sweep.round);
  }

  lemma {:induction false} IncreasingIsShort(r: seq<nat>, round: nat)
    requires Increasing(r, round)
    ensures |r| <= round
    decreases |r|
  {
    if r != [] {
      var n := |r| - 1;
      IncreasingIsShort(r[..n], r[n] - 1);
    }
  }

  // The sweep takes probes now.
  predicate Probing(s: Sweep, now: int) {
    s.active && now < s.deadline && (s.nextRoundAt == 0 || now >= s.nextRoundAt)
  }

  /** Once per round, exactly. After a sweep probe is recorded, its target is to be
      probed again in the same round iff the probe was decided before the round began.
      That takes a restart of the sweep between deciding and recording. */
  lemma ProbedAgainIff(steps: seq<Step>, now: int, later: int)
    requires Run(steps).pending.Some? && Run(steps).pending.value.reason == SweepProbe && Allowed(Run(steps), Record(now))
    requires Run(steps).pending.value.auth in Run(steps).state.sweep.targets
    ensures var s, d := Run(steps), Run(steps).pending.value;
            var sweep := s.state.sweep;
            && (ReasonFor(Next(s, Record(now)).state, d.auth, later) == SweepProbe
                <==> Probing(sweep, later) && !sweep.targets[d.auth].evidence && d.at < sweep.roundStartedAt)
            && (d.at < sweep.roundStartedAt ==> d.sweep < s.sweeps)
  {
    RunInv(steps);
  }

  /** Bounded follow-ups: since an epoch was confirmed (or since it joined later) an
      account that is still there got at most three follow-ups that stood when they
      were recorded, half a minute apart, and after a provider reset one more, at least
      ten minutes later and inside the catch-up window. There never is a fifth. */
  lemma FollowUpsAreBounded(steps: seq<Step>, x: Auth)
    requires x in Run(steps).state.accounts
    ensures var e, times := Run(steps).state, TimesOf(Run(steps).counted, x);
            && FollowedUp(e, times) && |times| <= PENDING_LIMIT + 1
            && e.accounts[x].attempts == |times|
            && (|times| > PENDING_LIMIT ==> forall now :: !PendingDue(e, x, now))
  {
    RunInv(steps);
    var e, times := Run(steps).state, TimesOf(Run(steps).counted, x);
    assert AccountOk(e, e.accounts[x], times);
    if |times| > PENDING_LIMIT {
      forall now ensures !PendingDue(e, x, now) {
        NoFifth(e, e.accounts[x], times, now);
      }
    }
  }

  /** Not every follow-up that is sent counts: it counts iff its account is still
      pending when it is recorded. Nothing else can have changed since the decision. */
  lemma FollowUpCountsIff(steps: seq<Step>, now: int)
    requires Run(steps).pending.Some? && Run(steps).pending.value.reason == PendingProbe && Allowed(Run(steps), Record(now))
    ensures var s, d := Run(steps), Run(steps).pending.value;
            var n, x := Next(s, Record(now)), d.auth;
            && x in s.state.accounts && x in n.state.accounts
            && (n.state.accounts[x].attempts == s.state.accounts[x].attempts + 1 <==> s.state.accounts[x].state == Pending)
            && (s.state.accounts[x].state != Pending ==> n.state == s.state && LostOf(n, x) == LostOf(s, x) + 1)
  {
    RunInv(steps);
  }

  // A step confirms an epoch when it raises the sequence.
  predicate ConfirmsEpoch(s: System, step: Step) {
    Next(s, step).state.sequence != s.state.sequence
  }

  lemma FinalizeConfirms(e: State, f: Facts, now: int)
    ensures var n := Finalize(e, f, now);
            && (n.sequence != e.sequence <==> e.sweep.active && Confirms(e, now))
            && (n.sequence != e.sequence ==>
                  && n.sequence == e.sequence + 1 && n.id != e.id && !n.id.NoEpoch? && n.confirmedAt == now
                  && n.reason == if ConfirmsReset(e) then ProviderReset else Bootstrap)
            && (n.sequence == e.sequence ==> n.id == e.id && n.reason == e.reason && n.confirmedAt == e.confirmedAt)
  {
  }

  // `n` is the next epoch after `e`, and a provider reset has its quorum.
  ghost predicate NextEpoch(e: State, n: State, now: int) {
    && n.sequence == e.sequence + 1 && n.id != e.id && n.confirmedAt == now
    && (n.reason == ProviderReset ==>
          && n.sweep.reason == ProviderReset && |n.sweep.targets| > 0
          && |Evident(n.sweep.targets)| >= Quorum(|n.sweep.targets|))
  }

  lemma FinalizeRestsOnQuorum(e: State, f: Facts, now: int, clock: int)
    requires SweepOk(e.sweep, clock) && Finalize(e, f, now).sequence != e.sequence
    ensures NextEpoch(e, Finalize(e, f, now), now)
  {
    FinalizeConfirms(e, f, now);
    FinalizeShape(e, f, now);
  }

  /** Every confirmed epoch has the next sequence number and an id different from the
      one before; a provider reset is confirmed only with evidence from at least a
      quorum of the current targets, and only while its sweep is running. */
  lemma ConfirmationRestsOnQuorum(steps: seq<Step>, step: Step)
    requires ConfirmsEpoch(Run(steps), step)
    ensures NextEpoch(Run(steps).state, Next(Run(steps), step).state, step.now)
  {
    RunInv(steps);
    StepRestsOnQuorum(Run(steps), step);
  }

  lemma StepRestsOnQuorum(s: System, step: Step)
    requires Inv(s) && ConfirmsEpoch(s, step)
    ensures NextEpoch(s.state, Next(s, step).state, step.now)
  {
    match step {
      case Answered(a, inventory, f, now) =>
        AbsorbOk(s, a, inventory, now);
        AbsorbKeepsEpoch(s.state, a, inventory, now);
        FinalizeRestsOnQuorum(Absorb(s.state, a, inventory, now), f, now, now);
      case Failed(f, now) =>
        FinalizeRestsOnQuorum(s.state, f, now, s.clock);
      case _ =>
    }
  }

  lemma AbsorbKeepsEpoch(e: State, a: Answer, inventory: set<Auth>, now: int)
    ensures Absorb(e, a, inventory, now).sequence == e.sequence && Absorb(e, a, inventory, now).id == e.id
  {
  }

  /** A round begins only after every target without evidence was tried in the last. */
  lemma RoundsFollowEachOther(e: State, f: Facts, now: int)
    requires e.sweep.active && Finalize(e, f, now).sweep.active && Finalize(e, f, now).sweep.round != e.sweep.round
    ensures Finalize(e, f, now).sweep.round == e.sweep.round + 1 <= MAX_ROUNDS
    ensures Finalize(e, f, now).sweep.nextRoundAt == now + ROUND_DELAY
    ensures forall x | x in e.sweep.targets && !e.sweep.targets[x].evidence :: e.sweep.targets[x].attemptedAt >= RoundStart(e.sweep)
  {
    FinalizeShape(e, f, now);
  }
}
