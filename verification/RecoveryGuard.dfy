/**
 The recovery guard (recovery_guard.go): after exhaustion is observed a credential is
 guarded until one single probe, dispatched under fresh evidence, succeeds. Times are
 integers with 0 for Go's zero time.
 */
module RecoveryGuard {
  import Backoff

  type Credential = string
  type RequestId = string

  const LEASE: int := 2 * Backoff.MINUTE

  datatype Entry = Entry(
    index: string, observedAt: int, resetAt: int, ready: bool,
    owner: RequestId, ownerAuth: Credential, reservedAt: int, dispatched: bool,
    failures: nat, retryAt: int, generation: nat, ownerGeneration: nat)

  type Accounts = map<Credential, Entry>

  function NewEntry(index: string): Entry {
    Entry(index, 0, 0, false, "", "", 0, false, 0, 0, 0, 0)
  }

  // One window of a quota snapshot; `exhausted` is the used-percent threshold test.
  datatype Window = Window(fiveHour: bool, exhausted: bool, allowed: bool, limitReached: bool, observedAt: int, resetAt: int)

  // `recent` is the caller's staleness test, `noFiveHour` a complete report without
  // a five-hour window.
  datatype Snapshot = Snapshot(auth: Credential, index: string, refreshed: int, recent: bool, noFiveHour: bool, windows: seq<Window>)

  function Max(a: int, b: int): int { if b > a then b else a }

  // ------------------------------------------------------------------- evidence

  predicate Full(w: Window, now: int) {
    w.fiveHour && w.exhausted && w.observedAt != 0 && w.observedAt <= now
  }

  // The first exhausted five-hour window, as an index, or the number of windows.
  function FirstFull(windows: seq<Window>, now: int): (i: nat)
    ensures i <= |windows|
    ensures i < |windows| ==> Full(windows[i], now)
    ensures forall j | 0 <= j < i :: !Full(windows[j], now)
    decreases |windows|
  {
    if windows == [] then 0
    else if Full(windows[0], now) then 0
    else 1 + FirstFull(windows[1..], now)
  }

  predicate Readable(s: Snapshot, now: int) {
    s.auth != "" && s.index != "" && s.refreshed != 0 && s.refreshed <= now
  }

  predicate Exhausts(s: Snapshot, now: int) {
    Readable(s, now) && FirstFull(s.windows, now) < |s.windows|
  }

  // A live five-hour cycle observed after what the guard recorded.
  predicate NewCycle(e: Entry, w: Window, now: int) {
    && w.fiveHour && w.allowed && !w.limitReached && !w.exhausted
    && w.observedAt >= e.observedAt && (e.resetAt == 0 || w.observedAt >= e.resetAt)
    && w.resetAt != 0 && now < w.resetAt
  }

  predicate Clean(w: Window, now: int) {
    w.allowed && !w.limitReached && !w.exhausted && (w.resetAt == 0 || now < w.resetAt)
  }

  predicate Proves(e: Entry, s: Snapshot, now: int) {
    && (s.noFiveHour || ((e.resetAt == 0 || s.refreshed >= e.resetAt) && exists i :: 0 <= i < |s.windows| && NewCycle(e, s.windows[i], now)))
    && forall i :: 0 <= i < |s.windows| ==> Clean(s.windows[i], now)
  }

  function Observe(g: Accounts, s: Snapshot, now: int): Accounts {
    if !Readable(s, now) then g
    else
      var i := FirstFull(s.windows, now);
      var known := s.auth in g;
      var e := if known && g[s.auth].index != s.index then g[s.auth].(index := s.index, ready := false)
               else if known then g[s.auth] else NewEntry(s.index);
      if i < |s.windows| then
        var w := s.windows[i];
        if !known then g[s.auth := e.(observedAt := w.observedAt, resetAt := w.resetAt, generation := 1)]
        else g[s.auth := e.(observedAt := Max(e.observedAt, w.observedAt), generation := e.generation + 1,
                            resetAt := Max(e.resetAt, w.resetAt), ready := false)]
      else if !known || e.dispatched || !s.recent || s.refreshed <= e.observedAt then g
      else if Proves(e, s, now) then g[s.auth := e.(ready := true)]
      else g
  }

  function Require(g: Accounts, id: Credential, index: string, now: int, retryAt: int): Accounts {
    if id == "" || index == "" then g
    else
      var e := if id in g then g[id] else NewEntry(index);
      g[id := e.(generation := e.generation + 1, observedAt := now, ready := false, retryAt := Max(e.retryAt, retryAt))]
  }

  // ---------------------------------------------------------------- reservations

  datatype Verdict = Verdict(allowed: bool, guarded: bool)

  predicate Refuses(e: Entry, id: Credential, index: string, request: RequestId, now: int) {
    || (index != "" && e.index != index)
    || !e.ready || now < e.retryAt || request == ""
    || (e.owner != "" && e.owner != request && (e.dispatched || now < e.reservedAt + LEASE))
    || (e.owner == request && e.ownerAuth != "" && e.ownerAuth != id)
  }

  function Reserve(g: Accounts, id: Credential, index: string, request: RequestId, now: int): (Accounts, Verdict) {
    if id !in g then (g, Verdict(true, false))
    else if Refuses(g[id], id, index, request, now) then (g, Verdict(false, true))
    else if g[id].owner == request then (g, Verdict(true, true))
    else
      var e := g[id];
      (g[id := e.(owner := request, ownerAuth := id, reservedAt := now, dispatched := false, ownerGeneration := e.generation)],
       Verdict(true, true))
  }

  function Dispatch(g: Accounts, id: Credential, request: RequestId): (Accounts, bool) {
    if id !in g then (g, true)
    else
      var e := g[id];
      if e.owner != request || request == "" || (e.ownerAuth != "" && e.ownerAuth != id) then (g, false)
      else (g[id := e.(dispatched := true)], true)
  }

  // ---------------------------------------------------------------------- finish

  datatype Outcome = Outcome(request: RequestId, except: Credential, success: bool, preserve: bool, now: int, base: int, max: int)

  predicate Concerns(id: Credential, e: Entry, o: Outcome) {
    && e.owner == o.request && id != o.except && !(e.ownerAuth == o.except && o.except != "")
    && !(o.preserve && e.dispatched)
  }

  // The probe proved what its evidence asked: no newer exhaustion came since.
  predicate Proven(e: Entry, o: Outcome) {
    o.success && e.dispatched && e.ownerGeneration == e.generation
  }

  function Failed(e: Entry, o: Outcome): Entry {
    var f := if e.dispatched
             then e.(failures := e.failures + 1, ready := false,
                     retryAt := Max(e.retryAt, o.now + Backoff.RetryDelay(e.failures + 1, o.base, o.max)))
             else e;
    f.(owner := "", ownerAuth := "", reservedAt := 0, dispatched := false)
  }

  function Finish(g: Accounts, o: Outcome): Accounts {
    if o.request == "" then g
    else map id | id in g && !(Concerns(id, g[id], o) && Proven(g[id], o)) ::
           if Concerns(id, g[id], o) then Failed(g[id], o) else g[id]
  }

  // ------------------------------------------------------------------------ runs

  datatype Step =
    | Look(snapshot: Snapshot, at: int)
    | Exhaust(id: Credential, index: string, at: int, retryAt: int)
    | Take(id: Credential, index: string, request: RequestId, at: int)
    | Send(id: Credential, request: RequestId)
    | End(outcome: Outcome)

  // History: `flying` are the probes sent and not finished, `stale` the owned guards
  // for which exhaustion evidence arrived since their owner reserved.
  datatype System = System(accounts: Accounts, flying: set<(Credential, RequestId)>, stale: set<Credential>)

  ghost function Next(s: System, step: Step): System {
    match step
    case Look(snapshot, at) =>
      System(Observe(s.accounts, snapshot, at), s.flying, if Exhausts(snapshot, at) then s.stale + {snapshot.auth} else s.stale)
    case Exhaust(id, index, at, retryAt) =>
      System(Require(s.accounts, id, index, at, retryAt), s.flying, if id != "" && index != "" then s.stale + {id} else s.stale)
    case Take(id, index, request, at) =>
      var (g, _) := Reserve(s.accounts, id, index, request, at);
      System(g, s.flying, if g != s.accounts then s.stale - {id} else s.stale)
    case Send(id, request) =>
      var (g, ok) := Dispatch(s.accounts, id, request);
      System(g, if ok && id in s.accounts then s.flying + {(id, request)} else s.flying, s.stale)
    case End(o) =>
      System(Finish(s.accounts, o),
             (set p | p in s.flying && (p.1 != o.request || o.preserve || p.0 == o.except) :: p), s.stale)
  }

  ghost function Run(steps: seq<Step>): System
    decreases |steps|
  {
    if steps == [] then System(map[], {}, {}) else Next(Run(steps[..|steps| - 1]), steps[|steps| - 1])
  }

  ghost predicate Inv(s: System) {
    && (forall p | p in s.flying :: p.1 != "" && p.0 in s.accounts && s.accounts[p.0].owner == p.1 && s.accounts[p.0].dispatched)
    && (forall id | id in s.accounts && s.accounts[id].owner != "" ::
          && s.accounts[id].ownerAuth == id
          && s.accounts[id].ownerGeneration <= s.accounts[id].generation
          && (id in s.stale <==> s.accounts[id].ownerGeneration < s.accounts[id].generation))
    && (forall id | id in s.accounts && s.accounts[id].owner == "" :: !s.accounts[id].dispatched)
    && "" !in s.accounts
  }

  lemma LookInv(s: System, snapshot: Snapshot, at: int)
    requires Inv(s)
    ensures Inv(Next(s, Look(snapshot, at)))
  {
  }

  lemma TakeInv(s: System, id: Credential, index: string, request: RequestId, at: int)
    requires Inv(s)
    ensures Inv(Next(s, Take(id, index, request, at)))
  {
    if id in s.accounts && !Refuses(s.accounts[id], id, index, request, at) && s.accounts[id].owner != request {
      var g := Reserve(s.accounts, id, index, request, at).0;
      assert g[id].owner != s.accounts[id].owner;
      forall p | p in s.flying ensures p.0 != id {
        assert s.accounts[p.0].dispatched && s.accounts[p.0].owner != "";
      }
    }
  }

  lemma EndInv(s: System, o: Outcome)
    requires Inv(s)
    ensures Inv(Next(s, End(o)))
  {
    var n := Next(s, End(o));
    forall p | p in n.flying
      ensures p.1 != "" && p.0 in n.accounts && n.accounts[p.0].owner == p.1 && n.accounts[p.0].dispatched
    {
      assert p in s.flying;
      if o.request != "" {
        assert !Concerns(p.0, s.accounts[p.0], o);
      }
    }
  }

  lemma StepInv(s: System, step: Step)
    requires Inv(s)
    ensures Inv(Next(s, step))
  {
    match step {
      case Look(snapshot, at) => LookInv(s, snapshot, at);
      case Exhaust(id, index, at, retryAt) =>
      case Take(id, index, request, at) => TakeInv(s, id, index, request, at);
      case Send(id, request) =>
      case End(o) => EndInv(s, o);
    }
  }

  lemma {:induction false} RunInv(steps: seq<Step>)
    ensures Inv(Run(steps))
    decreases |steps|
  {
    if steps != [] {
      RunInv(steps[..|steps| - 1]);
      StepInv(Run(steps[..|steps| - 1]), steps[|steps| - 1]);
    }
  }

  // ---------------------------------------------------------------- main results

  /** One probe at a time: in every run, two requests are never both dispatched and
      unfinished on the same guarded credential. */
  lemma SingleProbe(steps: seq<Step>, id: Credential, a: RequestId, b: RequestId)
    requires (id, a) in Run(steps).flying && (id, b) in Run(steps).flying
    ensures a == b && id in Run(steps).accounts && Run(steps).accounts[id].owner == a
  {
    RunInv(steps);
  }

  /** While a probe flies nobody else is let through, however long it takes. */
  lemma FlyingBlocks(steps: seq<Step>, id: Credential, owner: RequestId, index: string, other: RequestId, now: int)
    requires (id, owner) in Run(steps).flying && other != owner
    ensures Reserve(Run(steps).accounts, id, index, other, now) == (Run(steps).accounts, Verdict(false, true))
    ensures Dispatch(Run(steps).accounts, id, other) == (Run(steps).accounts, false)
  {
    RunInv(steps);
  }

  /** Evidence fencing: ending a request lifts a guard iff the request was its
      dispatched owner, succeeded, and no exhaustion evidence came in since it
      reserved. Nothing else ever lifts a guard. */
  lemma GuardLiftedIff(steps: seq<Step>, step: Step, id: Credential)
    requires id in Run(steps).accounts
    ensures var s := Run(steps);
            id !in Next(s, step).accounts
            <==> (step.End? && step.outcome.request != "" && step.outcome.success && !step.outcome.preserve
                  && id != step.outcome.except
                  && s.accounts[id].owner == step.outcome.request && s.accounts[id].dispatched && id !in s.stale)
  {
    RunInv(steps);
  }

  /** The retry time of a standing guard never moves earlier, and before it nobody
      can reserve. */
  lemma RetryNeverEarlier(s: System, step: Step, id: Credential)
    requires id in s.accounts && id in Next(s, step).accounts
    ensures Next(s, step).accounts[id].retryAt >= s.accounts[id].retryAt
    ensures forall index, request, now :: now < s.accounts[id].retryAt ==> !Reserve(s.accounts, id, index, request, now).1.allowed
  {
  }

  /** A failed probe is not retried before its full backoff has passed. */
  lemma FailureBacksOff(g: Accounts, o: Outcome, id: Credential)
    requires o.request != "" && id in g && Concerns(id, g[id], o) && g[id].dispatched && !Proven(g[id], o)
    ensures var e := Finish(g, o)[id];
            && e.owner == "" && !e.ready && e.failures == g[id].failures + 1
            && e.retryAt >= o.now + Backoff.RetryDelay(e.failures, o.base, o.max) > o.now
  {
    Backoff.RetryDelayIsPositive(g[id].failures + 1, o.base, o.max);
  }

  // ------------------------------------------------------- exactly when, on fields

  // Everything of a guard but its reservation.
  predicate SameGuard(e: Entry, n: Entry) {
    && n.index == e.index && n.observedAt == e.observedAt && n.resetAt == e.resetAt && n.ready == e.ready
    && n.failures == e.failures && n.retryAt == e.retryAt && n.generation == e.generation
  }

  /** A request is let through a guard exactly when the guard is ready, past its retry
      time and not for another index, and nobody else holds it: it is free, already the
      request's own, or its owner sent nothing for two minutes. It then owns the guard
      under the evidence of that moment; a refused one changes nothing. */
  lemma ReservesIff(steps: seq<Step>, id: Credential, index: string, request: RequestId, now: int)
    requires id in Run(steps).accounts
    ensures var g := Run(steps).accounts;
            var e, (n, v) := g[id], Reserve(g, id, index, request, now);
            && v.guarded
            && (v.allowed <==>
                  && e.ready && now >= e.retryAt && request != "" && (index == "" || index == e.index)
                  && (e.owner in {"", request} || (!e.dispatched && now >= e.reservedAt + 2 * Backoff.MINUTE)))
            && (!v.allowed || e.owner == request ==> n == g)
            && n.Keys == g.Keys && (forall x | x in g && x != id :: n[x] == g[x])
            && (v.allowed && e.owner != request ==>
                  && SameGuard(e, n[id]) && n[id].owner == request && n[id].ownerAuth == id
                  && n[id].reservedAt == now && !n[id].dispatched && n[id].ownerGeneration == e.generation)
  {
    RunInv(steps);
    var g := Run(steps).accounts;
    assert Reserve(g, id, index, request, now).0.Keys == g.Keys;
  }

  // What a snapshot must show for a guard to become ready: it is current and newer than
  // the exhaustion, every window is usable, and unless there is no five-hour window at
  // all, a running five-hour cycle was observed after the exhausted one reset.
  ghost predicate Trusted(e: Entry, s: Snapshot, now: int) {
    && s.index != "" && s.refreshed != 0 && s.refreshed <= now && s.recent && s.refreshed > e.observedAt
    && (forall w <- s.windows :: w.allowed && !w.limitReached && !w.exhausted && (w.resetAt == 0 || w.resetAt > now))
    && (s.noFiveHour
        || ((e.resetAt == 0 || s.refreshed >= e.resetAt)
            && exists w :: w in s.windows && w.fiveHour && w.resetAt > now && w.resetAt != 0
                           && w.observedAt >= e.observedAt && (e.resetAt == 0 || w.observedAt >= e.resetAt)))
  }

  lemma ProvesIff(e: Entry, s: Snapshot, now: int)
    requires Readable(s, now) && s.recent && s.refreshed > e.observedAt
    ensures Proves(e, s, now) <==> Trusted(e, s, now)
    ensures Proves(e, s, now) ==> FirstFull(s.windows, now) == |s.windows|
  {
    if Trusted(e, s, now) {
      assert forall i :: 0 <= i < |s.windows| ==> Clean(s.windows[i], now);
      if !s.noFiveHour {
        var w :| w in s.windows && w.fiveHour && w.resetAt > now && w.resetAt != 0
                 && w.observedAt >= e.observedAt && (e.resetAt == 0 || w.observedAt >= e.resetAt);
        var i :| 0 <= i < |s.windows| && s.windows[i] == w;
        assert NewCycle(e, s.windows[i], now);
      }
    }
    if Proves(e, s, now) {
      forall w | w in s.windows ensures w.allowed && !w.limitReached && !w.exhausted && (w.resetAt == 0 || w.resetAt > now) {
        var i :| 0 <= i < |s.windows| && s.windows[i] == w;
        assert Clean(s.windows[i], now);
      }
    }
  }

  /** A guard that is not ready becomes ready exactly by a trusted snapshot of its own
      credential while no probe of it is out. */
  lemma BecomesReadyIff(steps: seq<Step>, step: Step, id: Credential)
    requires id in Run(steps).accounts && id in Next(Run(steps), step).accounts && !Run(steps).accounts[id].ready
    ensures var e, n := Run(steps).accounts[id], Next(Run(steps), step).accounts[id];
            && (n.ready <==> step.Look? && step.snapshot.auth == id && !e.dispatched && Trusted(e, step.snapshot, step.at))
            && (n.ready ==> n == e.(ready := true, index := step.snapshot.index))
  {
    RunInv(steps);
    var e := Run(steps).accounts[id];
    if step.Look? && step.snapshot.auth == id && Readable(step.snapshot, step.at) && step.snapshot.recent && step.snapshot.refreshed > e.observedAt {
      ProvesIff(e, step.snapshot, step.at);
      ProvesIff(e.(index := step.snapshot.index, ready := false), step.snapshot, step.at);
    }
  }

  // Evidence of exhaustion: a read five-hour window that is used up, or a demand.
  ghost predicate Exhaustion(step: Step, id: Credential) {
    || (step.Look? && step.snapshot.auth == id && step.snapshot.index != "" && step.snapshot.refreshed != 0 && step.snapshot.refreshed <= step.at
        && exists w :: w in step.snapshot.windows && w.fiveHour && w.exhausted && w.observedAt != 0 && w.observedAt <= step.at)
    || (step.Exhaust? && step.id == id && step.index != "")
  }

  lemma ExhaustsIff(s: Snapshot, now: int)
    ensures Exhausts(s, now) <==>
              && s.auth != "" && s.index != "" && s.refreshed != 0 && s.refreshed <= now
              && exists w :: w in s.windows && w.fiveHour && w.exhausted && w.observedAt != 0 && w.observedAt <= now
  {
    if w :| w in s.windows && w.fiveHour && w.exhausted && w.observedAt != 0 && w.observedAt <= now {
      var i :| 0 <= i < |s.windows| && s.windows[i] == w;
      assert Full(s.windows[i], now);
    }
  }

  /** A credential becomes guarded exactly by evidence of exhaustion, and new evidence
      always takes a standing guard's readiness and never makes its times older. */
  lemma GuardedIff(steps: seq<Step>, step: Step, id: Credential)
    requires id != ""
    ensures var g, n := Run(steps).accounts, Next(Run(steps), step).accounts;
            && (id !in g ==> (id in n <==> Exhaustion(step, id)))
            && (Exhaustion(step, id) ==> id in n && !n[id].ready && n[id].generation > (if id in g then g[id].generation else 0))
            && (Exhaustion(step, id) && step.Look? && id in g ==> n[id].observedAt >= g[id].observedAt && n[id].resetAt >= g[id].resetAt)
            && (step.Exhaust? && Exhaustion(step, id) ==>
                  n[id].observedAt == step.at && n[id].retryAt == Latest(if id in g then g[id].retryAt else 0, step.retryAt))
  {
    RunInv(steps);
    if step.Look? { ExhaustsIff(step.snapshot, step.at); }
  }

  /** The end of a request, for each guard it owns: a guard it is told to spare keeps it;
      a proven one is lifted; any other becomes free, and if the probe was sent it waits
      for fresh evidence and its backoff, while an unsent one costs nothing. */
  lemma EndDecides(steps: seq<Step>, o: Outcome, id: Credential)
    requires id in Run(steps).accounts && Run(steps).accounts[id].owner == o.request != ""
    ensures var s := Run(steps);
            var e, n := s.accounts[id], Next(s, End(o)).accounts;
            if id == o.except || (o.preserve && e.dispatched) then id in n && n[id] == e
            else if o.success && e.dispatched && id !in s.stale then id !in n
            else id in n && n[id].owner == "" && !n[id].dispatched && if e.dispatched then BacksOff(e, n[id], o) else SameGuard(e, n[id])
  {
    RunInv(steps);
    FinishAt(Run(steps).accounts, o, id);
    FailedFields(Run(steps).accounts[id], o);
  }

  predicate BacksOff(e: Entry, n: Entry, o: Outcome) {
    && !n.ready && n.failures == e.failures + 1
    && n.retryAt == Latest(e.retryAt, o.now + Backoff.RetryDelay(e.failures + 1, o.base, o.max))
    && n.index == e.index && n.observedAt == e.observedAt && n.resetAt == e.resetAt && n.generation == e.generation
  }

  lemma FailedFields(e: Entry, o: Outcome)
    ensures var n := Failed(e, o); n.owner == "" && !n.dispatched && if e.dispatched then BacksOff(e, n, o) else SameGuard(e, n)
  {
  }

  lemma FinishAt(g: Accounts, o: Outcome, id: Credential)
    requires id in g && o.request != ""
    ensures var n := Finish(g, o);
            && (id !in n <==> Concerns(id, g[id], o) && Proven(g[id], o))
            && (id in n ==> n[id] == if Concerns(id, g[id], o) then Failed(g[id], o) else g[id])
  {
  }

  function Latest(a: int, b: int): int { if a <= b then b else a }

  // ---------------------------------------------------------- the mutable guard

  class Guard {
    var accounts: Accounts

    constructor ()
      ensures accounts == map[]
    {
      accounts := map[];
    }

    method ObserveQuota(s: Snapshot, now: int)
      modifies this
      ensures accounts == Observe(old(accounts), s, now)
    {
      if !Readable(s, now) {
        return;
      }
      var full := 0;
      while full < |s.windows| && !Full(s.windows[full], now)
        invariant full <= |s.windows|
        invariant forall j | 0 <= j < full :: !Full(s.windows[j], now)
      {
        full := full + 1;
      }
      FirstIs(s.windows, now, full);
      var known := s.auth in accounts;
      var e := NewEntry(s.index);
      if known {
        e := accounts[s.auth];
        if e.index != s.index {
          e := e.(index := s.index, ready := false);
        }
      }
      if full < |s.windows| {
        var w := s.windows[full];
        if !known {
          e := e.(observedAt := w.observedAt, resetAt := w.resetAt, generation := 1);
        } else {
          e := e.(observedAt := Max(e.observedAt, w.observedAt), generation := e.generation + 1);
          e := e.(resetAt := Max(e.resetAt, w.resetAt), ready := false);
        }
        accounts := accounts[s.auth := e];
        return;
      }
      if !known || e.dispatched || !s.recent || s.refreshed <= e.observedAt {
        return;
      }
      var valid := Validate(e, s, now);
      if valid {
        accounts := accounts[s.auth := e.(ready := true)];
      }
    }

    static lemma FirstIs(windows: seq<Window>, now: int, i: nat)
      requires i <= |windows| && (i < |windows| ==> Full(windows[i], now))
      requires forall j | 0 <= j < i :: !Full(windows[j], now)
      ensures FirstFull(windows, now) == i
    {
    }

    static method Validate(e: Entry, s: Snapshot, now: int) returns (valid: bool)
      ensures valid == Proves(e, s, now)
    {
      valid := s.noFiveHour;
      if !valid && (e.resetAt == 0 || s.refreshed >= e.resetAt) {
        for i := 0 to |s.windows|
          invariant valid <==> exists j :: 0 <= j < i && NewCycle(e, s.windows[j], now)
        {
          if NewCycle(e, s.windows[i], now) {
            valid := true;
          }
        }
      }
      ghost var proven := valid;
      for i := 0 to |s.windows|
        invariant valid <==> proven && forall j :: 0 <= j < i ==> Clean(s.windows[j], now)
      {
        if !Clean(s.windows[i], now) {
          valid := false;
        }
      }
    }

    method ReserveFor(id: Credential, index: string, request: RequestId, now: int) returns (v: Verdict)
      modifies this
      ensures (accounts, v) == Reserve(old(accounts), id, index, request, now)
    {
      if id !in accounts {
        return Verdict(true, false);
      }
      var e := accounts[id];
      if index != "" && e.index != index {
        return Verdict(false, true);
      }
      if !e.ready || now < e.retryAt || request == "" {
        return Verdict(false, true);
      }
      if e.owner != "" && e.owner != request {
        if e.dispatched || now < e.reservedAt + LEASE {
          return Verdict(false, true);
        }
        e := e.(owner := "");
      }
      if e.owner == request && e.ownerAuth != "" && e.ownerAuth != id {
        return Verdict(false, true);
      }
      if e.owner == "" {
        e := e.(owner := request, ownerAuth := id, reservedAt := now, dispatched := false, ownerGeneration := e.generation);
        accounts := accounts[id := e];
      }
      return Verdict(true, true);
    }

    method Dispatched(id: Credential, request: RequestId) returns (ok: bool)
      modifies this
      ensures (accounts, ok) == Dispatch(old(accounts), id, request)
    {
      if id !in accounts {
        return true;
      }
      var e := accounts[id];
      if e.owner != request || request == "" || (e.ownerAuth != "" && e.ownerAuth != id) {
        return false;
      }
      accounts := accounts[id := e.(dispatched := true)];
      return true;
    }

    method FinishExcept(o: Outcome) returns (changed: bool)
      modifies this
      ensures accounts == Finish(old(accounts), o)
      ensures changed <==> o.request != "" && exists id :: id in old(accounts) && Concerns(id, old(accounts)[id], o)
    {
      if o.request == "" {
        return false;
      }
      changed := false;
      ghost var start := accounts;
      var left := accounts.Keys;
      while left != {}
        invariant left <= start.Keys
        invariant accounts == map id | id in start && (id in left || !(Concerns(id, start[id], o) && Proven(start[id], o))) ::
                    if id !in left && Concerns(id, start[id], o) then Failed(start[id], o) else start[id]
        invariant changed <==> exists id :: id in start && id !in left && Concerns(id, start[id], o)
        decreases left
      {
        var id :| id in left;
        var e := accounts[id];
        left := left - {id};
        if Concerns(id, e, o) {
          changed := true;
          if Proven(e, o) {
            accounts := accounts - {id};
          } else {
            var freed := Free(e, o);
            accounts := accounts[id := freed];
          }
        }
      }
    }

    static method Free(e: Entry, o: Outcome) returns (r: Entry)
      ensures r == Failed(e, o)
    {
      r := e;
      if e.dispatched {
        var delay := Backoff.ComputeRetryDelay(e.failures + 1, o.base, o.max);
        r := r.(failures := e.failures + 1, ready := false, retryAt := Max(e.retryAt, o.now + delay));
      }
      r := r.(owner := "", ownerAuth := "", reservedAt := 0, dispatched := false);
    }

    method RequireEvidence(id: Credential, index: string, now: int, retryAt: int)
      modifies this
      ensures accounts == Require(old(accounts), id, index, now, retryAt)
    {
      if id == "" || index == "" {
        return;
      }
      var e := if id in accounts then accounts[id] else NewEntry(index);
      e := e.(generation := e.generation + 1, observedAt := now, ready := false);
      if retryAt > e.retryAt {
        e := e.(retryAt := retryAt);
      }
      accounts := accounts[id := e];
    }
  }
}
