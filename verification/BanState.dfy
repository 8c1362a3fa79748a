/**
 Credential bans (banState in main.go): a banned credential stays quarantined until
 one half-open probe succeeds. Times are integers with 0 for Go's zero time; labels,
 counters and the normalisation of unknown kinds are left out.

 A probe belongs to a lifecycle, which alone ends it, or is anonymous with a lease; a
 429 that arrives meanwhile is evidence against an owned probe's success.
 */
module BanState {
  import Backoff

  type Credential = string
  type RequestId = string

  const SECOND: int := 1000000000

  datatype Kind = Quota | Probation

  datatype Entry = Entry(
    resetAt: int, bannedAt: int, kind: Kind, halfOpen: bool,
    startedAt: int, leaseUntil: int, attempts: nat, owner: RequestId, dispatched: bool,
    failures: nat, localBackoff: int, localMax: int, evidence: nat, probeEvidence: nat, provisional: bool)

  type Bans = map<Credential, Entry>

  function Max(a: int, b: int): int { if b > a then b else a }

  function Normalize(e: Entry): Entry {
    if !e.halfOpen then e.(startedAt := 0, leaseUntil := 0, owner := "", dispatched := false)
    else if e.startedAt == 0 then e.(halfOpen := false, leaseUntil := 0)
    else e
  }

  datatype Disposition = Healthy | Cooldown | ProbeReady | HalfOpen

  function DispositionOf(raw: Entry, now: int): Disposition {
    var e := Normalize(raw);
    if e.halfOpen && (e.owner != "" || (e.leaseUntil != 0 && now < e.leaseUntil)) then HalfOpen
    else if e.resetAt == 0 || now < e.resetAt then Cooldown
    else ProbeReady
  }

  predicate RequestMatches(e: Entry, requestedAt: int) {
    e.halfOpen && e.startedAt != 0 && (requestedAt == 0 || requestedAt >= e.startedAt - SECOND)
  }

  // ------------------------------------------------------------------- cooldowns

  // A 429 during an owned probe leaves the probe its lease.
  function KeepLease(e: Entry, p: Entry): Entry {
    if p.halfOpen && p.owner != ""
    then e.(halfOpen := true, owner := p.owner, startedAt := p.startedAt, leaseUntil := p.leaseUntil,
            probeEvidence := p.probeEvidence, dispatched := p.dispatched)
    else e
  }

  // A known deadline is never shortened, unless it was provisional.
  function KeepDeadline(e: Entry, p: Entry): Entry {
    if !p.provisional && p.resetAt > e.resetAt
    then e.(resetAt := p.resetAt, kind := if p.kind == Quota then Quota else e.kind) else e
  }

  function Cooled(raw: Entry, prior: Option<Entry>): Entry {
    var e := Normalize(raw).(halfOpen := false, startedAt := 0, leaseUntil := 0);
    if prior.None? then e
    else
      var p := Normalize(prior.value);
      var kept := KeepDeadline(KeepLease(e, p), p);
      kept.(attempts := Max(kept.attempts, p.attempts))
  }

  datatype Option<T> = None | Some(value: T)

  function Lookup(b: Bans, id: Credential): Option<Entry> {
    if id in b then Some(b[id]) else None
  }

  function SetIfAbsent(b: Bans, id: Credential, e: Entry): Bans {
    if id == "" || id in b then b else b[id := Normalize(e)]
  }

  predicate ClosesProbe(p: Entry, requestedAt: int) {
    p.halfOpen && p.owner == "" && RequestMatches(p, requestedAt)
  }

  // The entry a 429 records, before it meets the older one.
  function Recorded(raw: Entry, prior: Option<Entry>, requestedAt: int): Entry {
    var e := Normalize(raw);
    if prior.None? then e.(evidence := 1)
    else
      var p := Normalize(prior.value);
      var f := p.failures + if ClosesProbe(p, requestedAt) then 1 else 0;
      e.(failures := f, evidence := p.evidence + 1,
         resetAt := if f > 0 then Max(e.resetAt, e.bannedAt + Backoff.RetryDelay(f, e.localBackoff, e.localMax)) else e.resetAt)
  }

  function Record429(b: Bans, id: Credential, raw: Entry, requestedAt: int): Bans {
    if id == "" then b
    else
      var prior := Lookup(b, id);
      b[id := Cooled(Recorded(raw, prior, requestedAt), prior)]
  }

  // ---------------------------------------------------------------------- probes

  datatype Start = Start(allowed: bool, started: bool)

  predicate BindsLease(e: Entry, owner: RequestId, now: int) {
    owner != "" && e.halfOpen && e.owner == "" && e.leaseUntil != 0 && now < e.leaseUntil
  }

  // `owner` is the lifecycle id, "" for the legacy anonymous probe.
  function TryStart(b: Bans, id: Credential, owner: RequestId, now: int, lease: int): (Bans, Start) {
    if id == "" then (b, Start(false, false))
    else if id !in b then (b, Start(true, false))
    else
      var e := Normalize(b[id]);
      if owner != "" && e.halfOpen && e.owner == owner then (b, Start(true, false))
      else if BindsLease(e, owner, now) then (b[id := e.(owner := owner, probeEvidence := e.evidence)], Start(true, false))
      else if DispositionOf(e, now) != ProbeReady then (b, Start(false, false))
      else (b[id := Opened(e, owner, now, lease)], Start(true, true))
  }

  function Opened(e: Entry, owner: RequestId, now: int, lease: int): Entry {
    e.(halfOpen := true, startedAt := now, leaseUntil := now + (if lease <= 0 then 15 * Backoff.MINUTE else lease),
       attempts := e.attempts + 1, owner := owner, dispatched := false, probeEvidence := e.evidence)
  }

  function MarkDispatched(b: Bans, id: Credential, owner: RequestId): Bans {
    if id in b && owner != "" && b[id].owner == owner && b[id].halfOpen then b[id := b[id].(dispatched := true)] else b
  }

  // A usage record ends an anonymous probe; an owned one only its own lifecycle ends.
  function CompleteProbe(b: Bans, id: Credential, requestedAt: int, now: int, success: bool, retryAfter: int): Bans {
    if id == "" || id !in b then b
    else
      var e := Normalize(b[id]);
      if e.owner != "" || !RequestMatches(e, requestedAt) then b
      else if success then b - {id}
      else b[id := e.(halfOpen := false, startedAt := 0, leaseUntil := 0,
                      resetAt := now + (if retryAfter <= 0 then 2 * Backoff.MINUTE else retryAfter))]
  }

  datatype Outcome = Outcome(owner: RequestId, except: Credential, success: bool, preserve: bool, now: int, base: int, max: int)

  predicate Concerns(id: Credential, e: Entry, o: Outcome) {
    e.halfOpen && e.owner == o.owner && id != o.except && !(o.preserve && e.dispatched)
  }

  predicate Proven(e: Entry, o: Outcome) {
    o.success && e.probeEvidence == e.evidence
  }

  function Reopened(e: Entry, o: Outcome): Entry {
    e.(halfOpen := false, owner := "", dispatched := false, startedAt := 0, leaseUntil := 0, failures := e.failures + 1,
       resetAt := Max(e.resetAt, o.now + Backoff.RetryDelay(e.failures + 1, o.base, o.max)))
  }

  function CompleteOwned(b: Bans, o: Outcome): Bans {
    if o.owner == "" then b
    else map id | id in b && !(Concerns(id, b[id], o) && Proven(b[id], o)) ::
           if Concerns(id, b[id], o) then Reopened(b[id], o) else b[id]
  }

  // ------------------------------------------------------------------------ runs

  datatype Step =
    | Hit(id: Credential, entry: Entry, requestedAt: int, at: int)
    | Suspect(id: Credential, entry: Entry, at: int)
    | Probe(id: Credential, owner: RequestId, lease: int, at: int)
    | Sent(id: Credential, owner: RequestId, at: int)
    | Usage(id: Credential, requestedAt: int, success: bool, retryAfter: int, at: int)
    | End(outcome: Outcome, at: int)

  // History: the clock, owned probes admitted and not ended, and the owned entries
  // hit by a 429 since their owner got the probe.
  datatype System = System(bans: Bans, clock: int, flying: set<(Credential, RequestId)>, hit: set<Credential>)

  // Time does not run backwards; recorded entries are plain cooldowns.
  predicate Allowed(s: System, step: Step) {
    && step.at >= s.clock && step.at > 0
    && (step.Suspect? || step.Hit? ==> !step.entry.halfOpen)
    && (step.End? ==> step.outcome.now == step.at)
  }

  predicate Spared(b: Bans, id: Credential, o: Outcome) {
    o.preserve && id in b && b[id].dispatched
  }

  function Next(s: System, step: Step): System {
    if !Allowed(s, step) then s
    else
      var n := s.(clock := step.at);
      match step
      case Hit(id, entry, requestedAt, at) =>
        n.(bans := Record429(s.bans, id, entry, requestedAt), hit := if id != "" then s.hit + {id} else s.hit)
      case Suspect(id, entry, at) => n.(bans := SetIfAbsent(s.bans, id, entry))
      case Probe(id, owner, lease, at) =>
        var (b, start) := TryStart(s.bans, id, owner, at, lease);
        n.(bans := b,
           flying := if start.allowed && id in s.bans && owner != "" then s.flying + {(id, owner)} else s.flying,
           hit := if b != s.bans then s.hit - {id} else s.hit)
      case Sent(id, owner, at) => n.(bans := MarkDispatched(s.bans, id, owner))
      case Usage(id, requestedAt, success, retryAfter, at) =>
        n.(bans := CompleteProbe(s.bans, id, requestedAt, at, success, retryAfter))
      case End(o, at) =>
        n.(bans := CompleteOwned(s.bans, o),
           flying := set p | p in s.flying && (p.1 != o.owner || p.0 == o.except || Spared(s.bans, p.0, o)) :: p)
  }

  function Run(steps: seq<Step>): System
    decreases |steps|
  {
    if steps == [] then System(map[], 0, {}, {}) else Next(Run(steps[..|steps| - 1]), steps[|steps| - 1])
  }

  ghost predicate Tidy(e: Entry, clock: int) {
    && e == Normalize(e)
    && (e.halfOpen ==> 0 < e.startedAt <= clock)
    && (e.halfOpen && e.owner == "" ==> e.resetAt <= e.startedAt)
    && (e.owner == "" ==> !e.dispatched)
    && (e.owner != "" ==> e.halfOpen && e.probeEvidence <= e.evidence)
  }

  ghost predicate Inv(s: System) {
    && s.clock >= 0
    && (forall id | id in s.bans :: Tidy(s.bans[id], s.clock))
    && (forall p | p in s.flying :: p.1 != "" && p.0 in s.bans && s.bans[p.0].owner == p.1)
    && (forall id | id in s.bans && s.bans[id].owner != "" ::
          id in s.hit <==> s.bans[id].probeEvidence < s.bans[id].evidence)
  }

  lemma HitInv(s: System, step: Step)
    requires Inv(s) && Allowed(s, step) && step.Hit?
    ensures Inv(Next(s, step))
  {
    if step.id != "" {
      HitEntry(s, step);
      var n := Next(s, step).bans[step.id];
      forall p | p in s.flying && p.0 == step.id ensures n.owner == p.1 {
        assert s.bans[p.0].owner == p.1;
      }
    }
  }

  lemma HitEntry(s: System, step: Step)
    requires Inv(s) && Allowed(s, step) && step.Hit? && step.id != ""
    ensures var n := Next(s, step).bans[step.id];
            && Tidy(n, step.at)
            && (if step.id in s.bans && s.bans[step.id].owner != ""
                then n.owner == s.bans[step.id].owner && n.probeEvidence < n.evidence
                else n.owner == "")
  {
  }

  lemma ProbeInv(s: System, step: Step)
    requires Inv(s) && Allowed(s, step) && step.Probe?
    ensures Inv(Next(s, step))
  {
    if step.id in s.bans {
      var e := s.bans[step.id];
      forall p | p in s.flying && p.0 == step.id ensures e.owner == p.1 != "" && e.halfOpen {
      }
    }
  }

  lemma EndInv(s: System, step: Step)
    requires Inv(s) && Allowed(s, step) && step.End?
    ensures Inv(Next(s, step))
  {
    var n, o := Next(s, step), step.outcome;
    forall p | p in n.flying ensures p.0 in n.bans && n.bans[p.0].owner == p.1 {
      if o.owner != "" {
        assert p in s.flying && !Concerns(p.0, s.bans[p.0], o);
      }
    }
  }

  lemma StepInv(s: System, step: Step)
    requires Inv(s)
    ensures Inv(Next(s, step))
  {
    if Allowed(s, step) {
      match step {
        case Hit(_, _, _, _) => HitInv(s, step);
        case Suspect(_, _, _) =>
        case Probe(_, _, _, _) => ProbeInv(s, step);
        case Sent(_, _, _) =>
        case Usage(_, _, _, _, _) =>
        case End(_, _) => EndInv(s, step);
      }
    }
  }

  lemma {:induction false} RunInv(steps: seq<Step>)
    ensures Inv(Run(steps))
    decreases |steps|
  {
    if steps != [] {
      RunInv(steps[..|steps| - 1]);
      StepInv(Run(steps[..|steps| - 1]), steps[|steps| - 1]);
    }
  }

  // ---------------------------------------------------------------- main results

  /** A ban's deadline never moves earlier, unless the entry was provisional. */
  lemma DeadlineNeverEarlier(steps: seq<Step>, step: Step, id: Credential)
    requires id in Run(steps).bans && !Run(steps).bans[id].provisional
    requires id in Next(Run(steps), step).bans
    ensures Next(Run(steps), step).bans[id].resetAt >= Run(steps).bans[id].resetAt
  {
    RunInv(steps);
    StepKeepsDeadline(Run(steps), step, id);
  }

  lemma StepKeepsDeadline(s: System, step: Step, id: Credential)
    requires Inv(s) && id in s.bans && !s.bans[id].provisional && id in Next(s, step).bans
    ensures Next(s, step).bans[id].resetAt >= s.bans[id].resetAt
  {
    assert Tidy(s.bans[id], s.clock);
    if Allowed(s, step) {
      match step {
        case Hit(x, raw, requestedAt, at) => if x == id && id != "" { CooledFields(Recorded(raw, Some(s.bans[id]), requestedAt), s.bans[id]); }
        case End(o, at) => if o.owner != "" { OwnedAt(s.bans, o, id); }
        case Usage(_, _, _, _, _) => UsageKeepsDeadline(s, step, id);
        case _ =>
      }
    }
  }

  lemma UsageKeepsDeadline(s: System, step: Step, id: Credential)
    requires step.Usage? && Allowed(s, step) && id in s.bans && Tidy(s.bans[id], s.clock) && id in Next(s, step).bans
    ensures Next(s, step).bans[id].resetAt >= s.bans[id].resetAt
  {
  }

  /** The exception is real: a classified 429 may shorten a provisional ban. */
  lemma ProvisionalMayShorten(b: Bans, id: Credential, raw: Entry, requestedAt: int)
    requires id != "" && id in b && b[id].provisional && !raw.halfOpen
    requires Normalize(b[id]).failures == 0 && !ClosesProbe(Normalize(b[id]), requestedAt)
    ensures Record429(b, id, raw, requestedAt)[id].resetAt == raw.resetAt
  {
  }

  /** One owned probe at a time. */
  lemma SingleProbe(steps: seq<Step>, id: Credential, a: RequestId, b: RequestId)
    requires (id, a) in Run(steps).flying && (id, b) in Run(steps).flying
    ensures a == b && id in Run(steps).bans && Run(steps).bans[id].owner == a
  {
    RunInv(steps);
  }

  /** While an owned probe is out nobody else is admitted, however long it takes and
      whatever 429s arrive. */
  lemma FlyingBlocks(steps: seq<Step>, id: Credential, owner: RequestId, other: RequestId, now: int, lease: int)
    requires (id, owner) in Run(steps).flying && other != owner
    ensures TryStart(Run(steps).bans, id, other, now, lease) == (Run(steps).bans, Start(false, false)) || id == ""
  {
    RunInv(steps);
    var e := Run(steps).bans[id];
    assert Tidy(e, Run(steps).clock) && e.owner == owner;
  }

  /** A ban is lifted only by a probe that succeeds: an anonymous one whose request
      matches, or an owned one that no 429 hit since its owner got it. */
  lemma BanLiftedIff(steps: seq<Step>, step: Step, id: Credential)
    requires id in Run(steps).bans && Allowed(Run(steps), step)
    ensures var s := Run(steps);
            var e := s.bans[id];
            id !in Next(s, step).bans
            <==> || (step.Usage? && step.id == id && id != "" && step.success && e.owner == "" && e.halfOpen
                     && (step.requestedAt == 0 || step.requestedAt >= e.startedAt - 1000000000))
                 || (step.End? && step.outcome.owner != "" && step.outcome.success && e.owner == step.outcome.owner
                     && id != step.outcome.except && !(step.outcome.preserve && e.dispatched) && id !in s.hit)
  {
    RunInv(steps);
    assert Tidy(Run(steps).bans[id], Run(steps).clock);
  }

  /** Waiting does not heal: before its deadline, or while a probe is out, a banned
      credential is not schedulable; after it only a probe may start. */
  lemma ProbeStartsIff(steps: seq<Step>, id: Credential, owner: RequestId, now: int, lease: int)
    requires id != "" && id in Run(steps).bans
    ensures var e := Run(steps).bans[id];
            TryStart(Run(steps).bans, id, owner, now, lease).1.started
            <==> e.resetAt != 0 && now >= e.resetAt && e.owner == ""
                 && !(e.halfOpen && e.leaseUntil != 0 && now < e.leaseUntil)
  {
    RunInv(steps);
    assert Tidy(Run(steps).bans[id], Run(steps).clock);
  }

  // ------------------------------------------------------- exactly when, on fields

  // The ban itself, apart from the probe.
  predicate SameBan(e: Entry, n: Entry) {
    && n.bannedAt == e.bannedAt && n.kind == e.kind && n.localBackoff == e.localBackoff && n.localMax == e.localMax
    && n.evidence == e.evidence && n.provisional == e.provisional
  }

  /** Reading an entry in clears a probe that never started or is over, and nothing of the
      ban itself. It takes two readings exactly when a half-open entry has no start but an
      owner or a dispatch. */
  lemma NormalizeClearsProbe(e: Entry)
    ensures var n := Normalize(e);
            && SameBan(e, n) && n.resetAt == e.resetAt && n.failures == e.failures && n.attempts == e.attempts
            && (n.halfOpen <==> e.halfOpen && e.startedAt != 0) && (n.halfOpen ==> n == e)
            && (!n.halfOpen ==> n.startedAt == 0 && n.leaseUntil == 0)
            && (Normalize(n) == n <==> !(e.halfOpen && e.startedAt == 0 && (e.owner != "" || e.dispatched)))
  {
  }

  /** Who is let through a ban: the probe's own owner; the first lifecycle that binds a
      live anonymous probe; and, with the deadline passed and no probe out, a new probe,
      which counts as an attempt and gets its lease. Nobody else changes anything. */
  lemma AdmittedIff(steps: seq<Step>, id: Credential, owner: RequestId, now: int, lease: int)
    requires id != "" && id in Run(steps).bans
    ensures var b := Run(steps).bans;
            var e, (n, start) := b[id], TryStart(b, id, owner, now, lease);
            var live := e.halfOpen && e.leaseUntil != 0 && now < e.leaseUntil;
            && (start.allowed <==>
                  || (owner != "" && (e.owner == owner || (e.owner == "" && live)))
                  || (e.owner == "" && !live && e.resetAt != 0 && now >= e.resetAt))
            && n.Keys == b.Keys && (forall x | x in b && x != id :: n[x] == b[x])
            && (!start.allowed || e.owner == owner != "" ==> n[id] == e)
            && (start.allowed && !start.started && e.owner != owner ==> n[id] == e.(owner := owner, probeEvidence := e.evidence))
            && (start.started ==>
                  && SameBan(e, n[id]) && n[id].resetAt == e.resetAt && n[id].failures == e.failures
                  && n[id].halfOpen && n[id].owner == owner && n[id].startedAt == now && n[id].attempts == e.attempts + 1
                  && n[id].leaseUntil == now + (if lease > 0 then lease else 15 * Backoff.MINUTE)
                  && !n[id].dispatched && n[id].probeEvidence == e.evidence)
  {
    RunInv(steps);
    assert Tidy(Run(steps).bans[id], Run(steps).clock);
    assert TryStart(Run(steps).bans, id, owner, now, lease).0.Keys == Run(steps).bans.Keys;
  }

  // A 429 that answers a matching anonymous probe.
  predicate ProbeFailedBy(p: Entry, requestedAt: int) {
    p.halfOpen && p.owner == "" && (requestedAt == 0 || requestedAt >= p.startedAt - SECOND)
  }

  /** A 429 on a banned credential: one more piece of evidence, and one more failure if
      it answers the anonymous probe. The new deadline is the latest of the given one,
      the backoff of the failures, and unless it was provisional the old one; an owned
      probe stays out as it is and an anonymous one is over. */
  lemma HitOnBan(steps: seq<Step>, step: Step)
    requires step.Hit? && Allowed(Run(steps), step) && step.id != "" && step.id in Run(steps).bans
    ensures var p, raw, n := Run(steps).bans[step.id], step.entry, Next(Run(steps), step).bans[step.id];
            var failures := p.failures + if ProbeFailedBy(p, step.requestedAt) then 1 else 0;
            var given := if failures > 0 then Max(raw.resetAt, raw.bannedAt + Backoff.RetryDelay(failures, raw.localBackoff, raw.localMax)) else raw.resetAt;
            && n.evidence == p.evidence + 1 && n.failures == failures && n.attempts >= p.attempts
            && n.resetAt == (if p.provisional then given else Max(given, p.resetAt))
            && n.kind == (if n.resetAt > given && p.kind == Quota then Quota else raw.kind)
            && n.owner == p.owner && n.halfOpen == (p.owner != "")
            && (p.owner != "" ==> n.startedAt == p.startedAt && n.leaseUntil == p.leaseUntil && n.probeEvidence == p.probeEvidence && n.dispatched == p.dispatched)
  {
    RunInv(steps);
    var p := Run(steps).bans[step.id];
    assert Tidy(p, Run(steps).clock);
    CooledFields(Recorded(step.entry, Some(p), step.requestedAt), p);
  }

  lemma CooledFields(raw: Entry, p: Entry)
    requires !raw.halfOpen && p == Normalize(p) && (p.owner != "" ==> p.halfOpen)
    ensures var n := Cooled(raw, Some(p));
            && n.evidence == raw.evidence && n.failures == raw.failures && n.attempts == Max(raw.attempts, p.attempts)
            && n.resetAt == (if p.provisional then raw.resetAt else Max(raw.resetAt, p.resetAt))
            && n.kind == (if n.resetAt > raw.resetAt && p.kind == Quota then Quota else raw.kind)
            && n.owner == p.owner && n.halfOpen == (p.owner != "")
            && (p.owner != "" ==> n.startedAt == p.startedAt && n.leaseUntil == p.leaseUntil && n.probeEvidence == p.probeEvidence && n.dispatched == p.dispatched)
  {
  }

  /** A first 429 bans exactly as given, with one piece of evidence; a suspicion bans
      only a credential that is not banned yet. */
  lemma FirstBan(steps: seq<Step>, step: Step)
    requires (step.Hit? || step.Suspect?) && Allowed(Run(steps), step) && step.id != ""
    ensures var b, n := Run(steps).bans, Next(Run(steps), step).bans;
            && step.id in n && n.Keys == b.Keys + {step.id} && (forall x | x in b && x != step.id :: n[x] == b[x])
            && (step.id !in b ==> !n[step.id].halfOpen && n[step.id].owner == "" && n[step.id].resetAt == step.entry.resetAt && n[step.id].kind == step.entry.kind)
            && (step.id !in b && step.Hit? ==> n[step.id].evidence == 1)
            && (step.id in b && step.Suspect? ==> n == b)
  {
    assert Next(Run(steps), step).bans.Keys == Run(steps).bans.Keys + {step.id};
  }

  /** The end of an owner's request, for each ban whose probe it holds: it is spared,
      lifted, or reopened with one more failure and the backoff that this means. */
  lemma EndDecides(steps: seq<Step>, o: Outcome, at: int, id: Credential)
    requires id in Run(steps).bans && Run(steps).bans[id].owner == o.owner != "" && Allowed(Run(steps), End(o, at))
    ensures var s := Run(steps);
            var e, n := s.bans[id], Next(s, End(o, at)).bans;
            if id == o.except || (o.preserve && e.dispatched) then id in n && n[id] == e
            else if o.success && id !in s.hit then id !in n
            else
              && id in n && SameBan(e, n[id]) && n[id].owner == "" && !n[id].halfOpen && !n[id].dispatched
              && n[id].failures == e.failures + 1 && n[id].attempts == e.attempts
              && n[id].resetAt == Max(e.resetAt, o.now + Backoff.RetryDelay(e.failures + 1, o.base, o.max))
  {
    RunInv(steps);
    var s := Run(steps);
    assert Tidy(s.bans[id], s.clock);
    OwnedAt(s.bans, o, id);
    ReopenedFields(s.bans[id], o);
  }

  lemma ReopenedFields(e: Entry, o: Outcome)
    ensures var n := Reopened(e, o);
            && SameBan(e, n) && n.owner == "" && !n.halfOpen && !n.dispatched && n.failures == e.failures + 1 && n.attempts == e.attempts
            && n.resetAt == Max(e.resetAt, o.now + Backoff.RetryDelay(e.failures + 1, o.base, o.max))
  {
  }

  lemma OwnedAt(b: Bans, o: Outcome, id: Credential)
    requires id in b && o.owner != ""
    ensures var n := CompleteOwned(b, o);
            && (id !in n <==> Concerns(id, b[id], o) && Proven(b[id], o))
            && (id in n ==> n[id] == if Concerns(id, b[id], o) then Reopened(b[id], o) else b[id])
  {
  }

  /** A probe counts as sent exactly when its own owner is dispatched while it is out. */
  lemma SentMarks(steps: seq<Step>, id: Credential, owner: RequestId, at: int, x: Credential)
    requires Allowed(Run(steps), Sent(id, owner, at)) && x in Run(steps).bans
    ensures var e, n := Run(steps).bans[x], Next(Run(steps), Sent(id, owner, at)).bans;
            x in n && n[x] == e.(dispatched := e.dispatched || (x == id && owner != "" && e.owner == owner))
  {
    RunInv(steps);
    assert Tidy(Run(steps).bans[x], Run(steps).clock);
  }

  /** A usage record that fails an anonymous probe closes it for two minutes, or for as
      long as the answer asked; any other usage record that fails changes nothing. */
  lemma UsageFails(steps: seq<Step>, step: Step, id: Credential)
    requires step.Usage? && Allowed(Run(steps), step) && !step.success && id in Run(steps).bans
    ensures var e, n := Run(steps).bans[id], Next(Run(steps), step).bans;
            id in n
            && if id == step.id && id != "" && ProbeFailedBy(e, step.requestedAt)
               then SameBan(e, n[id]) && !n[id].halfOpen && n[id].failures == e.failures && n[id].attempts == e.attempts
                    && n[id].resetAt == step.at + (if step.retryAfter > 0 then step.retryAfter else 2 * Backoff.MINUTE)
               else n[id] == e
  {
    RunInv(steps);
    assert Tidy(Run(steps).bans[id], Run(steps).clock);
  }

  // ---------------------------------------------------------------- the mutable bans

  class Store {
    var bans: Bans

    constructor ()
      ensures bans == map[]
    {
      bans := map[];
    }

    method SetCooldownLocked(id: Credential, raw: Entry)
      modifies this
      ensures bans == old(bans)[id := Cooled(raw, Lookup(old(bans), id))]
    {
      var e := Normalize(raw);
      e := e.(halfOpen := false, startedAt := 0, leaseUntil := 0);
      if id in bans {
        var p := Normalize(bans[id]);
        if p.halfOpen && p.owner != "" {
          e := e.(halfOpen := true, owner := p.owner, startedAt := p.startedAt, leaseUntil := p.leaseUntil,
                  probeEvidence := p.probeEvidence, dispatched := p.dispatched);
        }
        e := DeadlineKept(e, p);
        if p.attempts > e.attempts {
          e := e.(attempts := p.attempts);
        }
      }
      bans := bans[id := e];
    }

    static method DeadlineKept(e: Entry, p: Entry) returns (r: Entry)
      ensures r == KeepDeadline(e, p)
    {
      r := e;
      if !p.provisional && p.resetAt > e.resetAt {
        r := r.(resetAt := p.resetAt);
        if p.kind == Quota && e.kind == Probation {
          r := r.(kind := Quota);
        }
      }
    }

    method SetIfMissing(id: Credential, e: Entry)
      modifies this
      ensures bans == SetIfAbsent(old(bans), id, e)
    {
      if id != "" && id !in bans {
        bans := bans[id := Normalize(e)];
      }
    }

    method Record(id: Credential, raw: Entry, requestedAt: int)
      modifies this
      ensures bans == Record429(old(bans), id, raw, requestedAt)
    {
      if id == "" {
        return;
      }
      var e := EntryFor(id, raw, requestedAt);
      SetCooldownLocked(id, e);
    }

    method EntryFor(id: Credential, raw: Entry, requestedAt: int) returns (e: Entry)
      ensures e == Recorded(raw, Lookup(bans, id), requestedAt)
    {
      e := Normalize(raw);
      if id !in bans {
        return e.(evidence := 1);
      }
      var p := Normalize(bans[id]);
      e := e.(failures := p.failures, evidence := p.evidence + 1);
      if p.halfOpen && p.owner == "" && RequestMatches(p, requestedAt) {
        e := e.(failures := e.failures + 1);
      }
      if e.failures > 0 {
        var delay := Backoff.ComputeRetryDelay(e.failures, e.localBackoff, e.localMax);
        if e.bannedAt + delay > e.resetAt {
          e := e.(resetAt := e.bannedAt + delay);
        }
      }
    }

    method TryStartOwned(id: Credential, owner: RequestId, now: int, lease: int) returns (start: Start)
      modifies this
      ensures (bans, start) == TryStart(old(bans), id, owner, now, lease)
    {
      if id == "" {
        return Start(false, false);
      }
      if id !in bans {
        return Start(true, false);
      }
      var e := Normalize(bans[id]);
      if owner != "" && e.halfOpen && e.owner == owner {
        return Start(true, false);
      }
      if owner != "" && e.halfOpen && e.owner == "" && e.leaseUntil != 0 && now < e.leaseUntil {
        bans := bans[id := e.(owner := owner, probeEvidence := e.evidence)];
        return Start(true, false);
      }
      if DispositionOf(e, now) != ProbeReady {
        return Start(false, false);
      }
      bans := bans[id := Opened(e, owner, now, lease)];
      return Start(true, true);
    }

    method Complete(id: Credential, requestedAt: int, now: int, success: bool, retryAfter: int)
      modifies this
      ensures bans == CompleteProbe(old(bans), id, requestedAt, now, success, retryAfter)
    {
      if id == "" || id !in bans {
        return;
      }
      var e := Normalize(bans[id]);
      if e.owner != "" || !RequestMatches(e, requestedAt) {
        return;
      }
      if success {
        bans := bans - {id};
        return;
      }
      var wait := if retryAfter <= 0 then 2 * Backoff.MINUTE else retryAfter;
      bans := bans[id := e.(halfOpen := false, startedAt := 0, leaseUntil := 0, resetAt := now + wait)];
    }

    method Mark(id: Credential, owner: RequestId)
      modifies this
      ensures bans == MarkDispatched(old(bans), id, owner)
    {
      if id in bans && owner != "" && bans[id].owner == owner && bans[id].halfOpen {
        bans := bans[id := bans[id].(dispatched := true)];
      }
    }

    method CompleteOwnedExcept(o: Outcome) returns (changed: bool)
      modifies this
      ensures bans == CompleteOwned(old(bans), o)
      ensures changed <==> o.owner != "" && exists id :: id in old(bans) && Concerns(id, old(bans)[id], o)
    {
      if o.owner == "" {
        return false;
      }
      changed := false;
      ghost var start := bans;
      var left := bans.Keys;
      while left != {}
        invariant left <= start.Keys
        invariant bans == map id | id in start && (id in left || !(Concerns(id, start[id], o) && Proven(start[id], o))) ::
                    if id !in left && Concerns(id, start[id], o) then Reopened(start[id], o) else start[id]
        invariant changed <==> exists id :: id in start && id !in left && Concerns(id, start[id], o)
        decreases left
      {
        var id :| id in left;
        var e := bans[id];
        left := left - {id};
        if Concerns(id, e, o) {
          changed := true;
          if Proven(e, o) {
            bans := bans - {id};
          } else {
            var r := Reopen(e, o);
            bans := bans[id := r];
          }
        }
      }
    }

    static method Reopen(e: Entry, o: Outcome) returns (r: Entry)
      ensures r == Reopened(e, o)
    {
      r := e.(halfOpen := false, owner := "", dispatched := false, startedAt := 0, leaseUntil := 0, failures := e.failures + 1);
      var delay := Backoff.ComputeRetryDelay(r.failures, o.base, o.max);
      if o.now + delay > r.resetAt {
        r := r.(resetAt := o.now + delay);
      }
    }
  }
}
