/**
 Pacing permits (continuityGate in continuity.go): executions reserve permit times
 spaced by the current interval, per overlapping set of eligible accounts. Times are
 nanoseconds. The gate's next-permit hint only serves callers without an account
 scope; here it is an input.
 */
module PacingGate {

  type Id = string
  type Auth = string

  const SECOND: int := 1000000000
  const MAX_RESERVATIONS: nat := 2048
  const ID_LIMIT: nat := 512

  datatype Cycle = Cycle(index: string, weeklyOnly: bool, reset: int)

  type Scope = map<Auth, Cycle>

  datatype Gate = Gate(
    reservations: map<Id, int>, dispatched: set<Id>, scopes: map<Id, Scope>, intervals: map<Id, int>,
    cycles: Scope, current: Scope, lastByAuth: map<Auth, int>)

  const EMPTY := Gate(map[], {}, map[], map[], map[], map[], map[])

  function Max(a: int, b: int): int { if a >= b then a else b }

  const JITTER: int := 5 * SECOND

  predicate SameReset(a: int, b: int) {
    a != 0 && b != 0 && -JITTER <= a - b <= JITTER
  }

  predicate SameCycle(a: Cycle, b: Cycle) {
    a.index == b.index && a.weeklyOnly == b.weeklyOnly && (a.weeklyOnly || SameReset(a.reset, b.reset))
  }

  predicate SameScope(a: Scope, b: Scope) {
    |a| == |b| && forall x :: x in a ==> x in b && SameCycle(a[x], b[x])
  }

  predicate Overlap(a: Scope, b: Scope) {
    exists x :: x in a && x in b
  }

  // Reservations leave with their scope and interval.
  function Forget(g: Gate, ids: set<Id>): Gate {
    g.(reservations := g.reservations - ids, scopes := g.scopes - ids, intervals := g.intervals - ids)
  }

  predicate Waits(g: Gate, id: Id) {
    id in g.reservations && id !in g.dispatched
  }

  // ------------------------------------------------------------------------ pace

  predicate Usable(id: Id, interval: int) {
    id != "" && |id| <= ID_LIMIT && interval >= SECOND
  }

  function Lapsed(g: Gate, maxWait: int, now: int): set<Id> {
    set id | id in g.reservations && id !in g.dispatched && now > g.reservations[id] + maxWait
  }

  // Reservations whose time passed leave; so does the caller's own if its accounts
  // or cycles changed.
  function Settle(g: Gate, id: Id, maxWait: int, now: int): Gate {
    var p := Forget(g, Lapsed(g, maxWait, now));
    if Waits(p, id) && id in p.scopes && !SameScope(p.scopes[id], p.current) then Forget(p, {id}) else p
  }

  // What holds a new permit back: its accounts' last dispatches, and every waiting
  // reservation it overlaps, by the larger of the two intervals.
  ghost predicate After(g: Gate, interval: int, at: int) {
    && (forall x | x in g.current && x in g.lastByAuth :: at >= g.lastByAuth[x] + interval)
    && (forall x | Rival(g, x) :: at >= g.reservations[x] + Max(interval, g.intervals[x]))
  }

  predicate Rival(g: Gate, x: Id) {
    Waits(g, x) && x in g.scopes && x in g.intervals && Overlap(g.scopes[x], g.current)
  }

  ghost predicate Tight(g: Gate, interval: int, now: int, at: int) {
    || at == now
    || (exists x :: x in g.current && x in g.lastByAuth && at == g.lastByAuth[x] + interval)
    || (exists x :: Rival(g, x) && at == g.reservations[x] + Max(interval, g.intervals[x]))
  }

  // The earliest permit from `now` on; `hint` serves callers without a scope.
  ghost predicate Permit(g: Gate, interval: int, now: int, hint: int, at: int) {
    if g.current == map[] then at == Max(now, hint)
    else at >= now && After(g, interval, at) && Tight(g, interval, now, at)
  }

  function Grant(g: Gate, id: Id, interval: int, at: int): Gate {
    g.(reservations := g.reservations[id := at], scopes := g.scopes[id := g.current], intervals := g.intervals[id := interval])
  }

  // One assessment, with the permit `at` it computed. The result is the wait.
  function Pace(g: Gate, id: Id, interval: int, poll: int, maxWait: int, now: int, at: int): (Gate, int) {
    if !Usable(id, interval) then (g, 0)
    else
      var p := Settle(g, id, maxWait, now);
      if id in p.reservations then (p, Max(0, p.reservations[id] - now))
      else if |p.reservations| >= MAX_RESERVATIONS then (p, poll)
      else if at - now > maxWait then (p, poll)
      else (Grant(p, id, interval, at), Max(0, at - now))
  }

  // ------------------------------------------------------------------- the others

  function Complete(g: Gate, id: Id): Gate {
    Forget(g, {id}).(dispatched := g.dispatched - {id})
  }

  // `selected` is the account that was used, "" if unknown.
  function Dispatch(g: Gate, id: Id, selected: Auth, now: int): Gate {
    if !Waits(g, id) then g
    else
      var used := if selected != "" then {selected} else if id in g.scopes then g.scopes[id].Keys else {};
      g.(dispatched := g.dispatched + {id},
         lastByAuth := map x | x in g.lastByAuth.Keys + used :: if x in used then now else g.lastByAuth[x])
  }

  function Clear(g: Gate): Gate {
    Forget(g, g.reservations.Keys - g.dispatched).(cycles := map[], current := map[], lastByAuth := map[])
  }

  // Accounts whose cycle really changed, as opposed to drifting within tolerance.
  function Changed(g: Gate, scope: Scope): set<Auth> {
    set x | x in scope && x in g.cycles && !SameCycle(g.cycles[x], scope[x])
  }

  function Touched(g: Gate, changed: set<Auth>): set<Id> {
    set id | id in g.scopes && id !in g.dispatched && exists x :: x in g.scopes[id] && x in changed
  }

  function SetCycle(g: Gate, scope: Scope): Gate {
    var changed := Changed(g, scope);
    Forget(g, Touched(g, changed)).(
      cycles := map x | x in g.cycles.Keys + scope.Keys :: if x in g.cycles && x !in changed then g.cycles[x] else scope[x],
      lastByAuth := g.lastByAuth - changed,
      current := scope)
  }

  function Dropped(g: Gate, scope: Scope, id: Id): set<Id> {
    set x | x in g.reservations && x !in g.dispatched
            && (x == id || (scope != map[] && x in g.scopes && SameScope(g.scopes[x], scope)))
  }

  function ClearScope(g: Gate, scope: Scope, id: Id): Gate {
    Forget(g, Dropped(g, scope, id))
  }

  // ------------------------------------------------------------------------ runs

  datatype Step =
    | Assess(id: Id, interval: int, poll: int, maxWait: int, now: int, hint: int, at: int)
    | Finish(id: Id)
    | Send(id: Id, selected: Auth, now: int)
    | Reset
    | Cycles(scope: Scope)
    | Drop(scope: Scope, id: Id)

  ghost predicate Allowed(g: Gate, step: Step) {
    step.Assess? && Usable(step.id, step.interval) ==>
      Permit(Settle(g, step.id, step.maxWait, step.now), step.interval, step.now, step.hint, step.at)
  }

  ghost function Next(g: Gate, step: Step): Gate {
    if !Allowed(g, step) then g
    else match step
      case Assess(id, interval, poll, maxWait, now, _, at) => Pace(g, id, interval, poll, maxWait, now, at).0
      case Finish(id) => Complete(g, id)
      case Send(id, selected, now) => Dispatch(g, id, selected, now)
      case Reset => Clear(g)
      case Cycles(scope) => SetCycle(g, scope)
      case Drop(scope, id) => ClearScope(g, scope, id)
  }

  ghost function Run(steps: seq<Step>): Gate
    decreases |steps|
  {
    if steps == [] then EMPTY else Next(Run(steps[..|steps| - 1]), steps[|steps| - 1])
  }

  predicate Whole(g: Gate) {
    && g.scopes.Keys == g.reservations.Keys && g.intervals.Keys == g.reservations.Keys
    && g.dispatched <= g.reservations.Keys
  }

  predicate PairApart(g: Gate, a: Id, b: Id) {
    Waits(g, a) && Waits(g, b) && a != b && a in g.scopes && b in g.scopes && a in g.intervals && b in g.intervals
    && Overlap(g.scopes[a], g.scopes[b]) ==>
      var gap := Max(g.intervals[a], g.intervals[b]);
      gap <= g.reservations[a] - g.reservations[b] || gap <= g.reservations[b] - g.reservations[a]
  }

  ghost predicate Apart(g: Gate) {
    forall a, b :: PairApart(g, a, b)
  }

  ghost predicate Inv(g: Gate) {
    Whole(g) && Apart(g) && |g.reservations| <= MAX_RESERVATIONS
  }

  lemma SubsetSize<T>(a: set<T>, b: set<T>)
    requires a <= b
    ensures |a| <= |b|
  {
    assert b == a + (b - a);
  }

  // Fewer waiting reservations, otherwise as they were.
  ghost predicate Fewer(g: Gate, n: Gate) {
    forall x | Waits(n, x) ::
      && Waits(g, x) && n.reservations[x] == g.reservations[x]
      && (x in n.scopes ==> x in g.scopes && n.scopes[x] == g.scopes[x])
      && (x in n.intervals ==> x in g.intervals && n.intervals[x] == g.intervals[x])
  }

  lemma FewerApart(g: Gate, n: Gate)
    requires Apart(g) && Fewer(g, n)
    ensures Apart(n)
  {
    forall a, b ensures PairApart(n, a, b) {
      assert PairApart(g, a, b);
    }
  }

  lemma ForgetInv(g: Gate, ids: set<Id>)
    requires Inv(g) && ids !! g.dispatched
    ensures Inv(Forget(g, ids))
  {
    var n := Forget(g, ids);
    assert n.reservations.Keys == g.reservations.Keys - ids;
    SubsetSize(n.reservations.Keys, g.reservations.Keys);
    FewerApart(g, n);
  }

  lemma SettleInv(g: Gate, id: Id, maxWait: int, now: int)
    requires Inv(g)
    ensures Inv(Settle(g, id, maxWait, now))
  {
    var lapsed := Lapsed(g, maxWait, now);
    assert lapsed !! g.dispatched;
    ForgetInv(g, lapsed);
    var p := Forget(g, lapsed);
    if Waits(p, id) { ForgetInv(p, {id}); }
  }

  lemma GrantApart(p: Gate, id: Id, interval: int, now: int, hint: int, at: int)
    requires Whole(p) && Apart(p) && id !in p.reservations && Permit(p, interval, now, hint, at)
    ensures Apart(Grant(p, id, interval, at))
  {
    var n := Grant(p, id, interval, at);
    forall a, b ensures PairApart(n, a, b) {
      assert PairApart(p, a, b);
      if a == id && Waits(p, b) {
        OverlapIsSymmetric(p.current, p.scopes[b]);
        assert Overlap(p.scopes[b], p.current) ==> Rival(p, b);
      }
      if b == id && Waits(p, a) {
        assert Overlap(p.scopes[a], p.current) ==> Rival(p, a);
      }
    }
  }

  lemma OverlapIsSymmetric(a: Scope, b: Scope)
    ensures Overlap(a, b) == Overlap(b, a)
  {
  }

  lemma GrantInv(p: Gate, id: Id, interval: int, now: int, hint: int, at: int)
    requires Inv(p) && id !in p.reservations && |p.reservations| < MAX_RESERVATIONS
    requires Permit(p, interval, now, hint, at)
    ensures Inv(Grant(p, id, interval, at))
  {
    GrantApart(p, id, interval, now, hint, at);
    assert Grant(p, id, interval, at).reservations.Keys == p.reservations.Keys + {id};
  }

  lemma AssessInv(g: Gate, id: Id, interval: int, poll: int, maxWait: int, now: int, hint: int, at: int)
    requires Inv(g) && (Usable(id, interval) ==> Permit(Settle(g, id, maxWait, now), interval, now, hint, at))
    ensures Inv(Pace(g, id, interval, poll, maxWait, now, at).0)
  {
    SettleInv(g, id, maxWait, now);
    var p := Settle(g, id, maxWait, now);
    if Usable(id, interval) && id !in p.reservations && |p.reservations| < MAX_RESERVATIONS {
      GrantInv(p, id, interval, now, hint, at);
    }
  }

  lemma ClearInv(g: Gate)
    requires Inv(g)
    ensures Inv(Clear(g))
  {
    ForgetInv(g, g.reservations.Keys - g.dispatched);
    SameReservations(Forget(g, g.reservations.Keys - g.dispatched), Clear(g));
  }

  lemma CyclesInv(g: Gate, scope: Scope)
    requires Inv(g)
    ensures Inv(SetCycle(g, scope))
  {
    ForgetInv(g, Touched(g, Changed(g, scope)));
    SameReservations(Forget(g, Touched(g, Changed(g, scope))), SetCycle(g, scope));
  }

  lemma StepInv(g: Gate, step: Step)
    requires Inv(g)
    ensures Inv(Next(g, step))
  {
    if Allowed(g, step) {
      match step {
        case Assess(id, interval, poll, maxWait, now, hint, at) => AssessInv(g, id, interval, poll, maxWait, now, hint, at);
        case Finish(id) => CompleteInv(g, id);
        case Send(id, selected, now) => DispatchInv(g, id, selected, now);
        case Reset => ClearInv(g);
        case Cycles(scope) => CyclesInv(g, scope);
        case Drop(scope, id) => ForgetInv(g, Dropped(g, scope, id));
      }
    }
  }

  lemma SameReservations(g: Gate, n: Gate)
    requires Inv(g) && n.reservations == g.reservations && n.scopes == g.scopes && n.intervals == g.intervals && n.dispatched == g.dispatched
    ensures Inv(n)
  {
    FewerApart(g, n);
  }

  lemma CompleteInv(g: Gate, id: Id)
    requires Inv(g)
    ensures Inv(Complete(g, id))
  {
    var n := Complete(g, id);
    assert n.reservations.Keys == g.reservations.Keys - {id};
    SubsetSize(n.reservations.Keys, g.reservations.Keys);
    FewerApart(g, n);
  }

  lemma DispatchInv(g: Gate, id: Id, selected: Auth, now: int)
    requires Inv(g)
    ensures Inv(Dispatch(g, id, selected, now))
  {
    FewerApart(g, Dispatch(g, id, selected, now));
  }

  // ---------------------------------------------------------------- main results

  lemma {:induction false} RunInv(steps: seq<Step>)
    ensures Inv(Run(steps))
    decreases |steps|
  {
    if steps != [] {
      RunInv(steps[..|steps| - 1]);
      StepInv(Run(steps[..|steps| - 1]), steps[|steps| - 1]);
    }
  }

  /** In every run, any two waiting reservations whose scopes share an account are at
      least the larger of their intervals apart. */
  lemma PermitsStayApart(steps: seq<Step>, a: Id, b: Id)
    requires Waits(Run(steps), a) && Waits(Run(steps), b) && a != b
    ensures var g := Run(steps);
            && a in g.scopes && b in g.scopes && a in g.intervals && b in g.intervals
            && (Overlap(g.scopes[a], g.scopes[b]) ==>
                  var gap := Max(g.intervals[a], g.intervals[b]);
                  gap <= g.reservations[a] - g.reservations[b] || gap <= g.reservations[b] - g.reservations[a])
  {
    RunInv(steps);
    assert PairApart(Run(steps), a, b);
  }

  /** There are never more than 2048 reservations, every one with the scope and the
      interval it was made under. */
  lemma ReservationsAreBounded(steps: seq<Step>)
    ensures var g := Run(steps);
            |g.reservations| <= MAX_RESERVATIONS && g.scopes.Keys == g.reservations.Keys && g.intervals.Keys == g.reservations.Keys
  {
    RunInv(steps);
  }

  /** A promise is kept: while a reservation stands its permit time does not move. It
      moves only for a caller whose own scope changed, and then in that caller's own
      assessment. */
  lemma PromiseIsKept(steps: seq<Step>, step: Step, id: Id)
    requires id in Run(steps).reservations && id in Next(Run(steps), step).reservations
    ensures var g := Run(steps);
            || Next(g, step).reservations[id] == g.reservations[id]
            || (step.Assess? && step.id == id && id !in g.dispatched
                && (step.now > g.reservations[id] + step.maxWait || !SameScope(g.scopes[id], g.current)))
  {
    RunInv(steps);
    StepKeepsPromise(Run(steps), step, id);
  }

  lemma StepKeepsPromise(g: Gate, step: Step, id: Id)
    requires Whole(g) && id in g.reservations && id in Next(g, step).reservations
    ensures Next(g, step).reservations[id] == g.reservations[id]
            || (step.Assess? && step.id == id && id !in g.dispatched
                && (step.now > g.reservations[id] + step.maxWait || !SameScope(g.scopes[id], g.current)))
  {
    if step.Assess? {
      if Allowed(g, step) && Usable(step.id, step.interval) {
        SettleKeepsPromise(g, step.id, step.maxWait, step.now, id);
        var p := Settle(g, step.id, step.maxWait, step.now);
        PaceShape(g, step, p);
      }
    } else {
      OthersKeepPromise(g, step, id);
    }
  }

  lemma PaceShape(g: Gate, step: Step, p: Gate)
    requires step.Assess? && Allowed(g, step) && Usable(step.id, step.interval) && p == Settle(g, step.id, step.maxWait, step.now)
    ensures Next(g, step).reservations == p.reservations
            || (step.id !in p.reservations && Next(g, step).reservations == p.reservations[step.id := step.at])
  {
  }

  lemma OthersKeepPromise(g: Gate, step: Step, id: Id)
    requires !step.Assess? && id in g.reservations && id in Next(g, step).reservations
    ensures Next(g, step).reservations[id] == g.reservations[id]
  {
  }

  lemma SettleKeepsPromise(g: Gate, caller: Id, maxWait: int, now: int, id: Id)
    requires Whole(g) && id in g.reservations
    ensures var p := Settle(g, caller, maxWait, now);
            && (id in p.reservations ==> p.reservations[id] == g.reservations[id])
            && (id !in p.reservations ==>
                  id !in g.dispatched && (now > g.reservations[id] + maxWait || (caller == id && !SameScope(g.scopes[id], g.current))))
  {
  }

  /** A new reservation waits at most the caller's horizon and keeps its distance from
      the last dispatch of every account in its scope. */
  lemma GrantIsBounded(steps: seq<Step>, step: Step)
    requires step.Assess? && Usable(step.id, step.interval) && Allowed(Run(steps), step) && step.maxWait >= 0
    requires var p := Settle(Run(steps), step.id, step.maxWait, step.now);
             step.id !in p.reservations && step.id in Next(Run(steps), step).reservations
    ensures var g, at := Run(steps), Next(Run(steps), step).reservations[step.id];
            && step.now <= at <= step.now + step.maxWait
            && Pace(g, step.id, step.interval, step.poll, step.maxWait, step.now, step.at).1 == at - step.now
            && forall x | x in g.current && x in g.lastByAuth :: at >= g.lastByAuth[x] + step.interval
  {
  }

  /** The permit is determined: no two times are both earliest. */
  lemma PermitIsUnique(g: Gate, interval: int, now: int, hint: int, a: int, b: int)
    requires Permit(g, interval, now, hint, a) && Permit(g, interval, now, hint, b)
    ensures a == b
  {
  }

  // Far enough after the last dispatches in the scope and behind everybody waiting who
  // shares an account, for both intervals.
  ghost predicate Unhindered(g: Gate, interval: int, t: int) {
    && (forall x | x in g.current && x in g.lastByAuth :: t - g.lastByAuth[x] >= interval)
    && (forall id | id in g.reservations && id !in g.dispatched && id in g.scopes && id in g.intervals && g.scopes[id].Keys * g.current.Keys != {} ::
          t - g.reservations[id] >= interval && t - g.reservations[id] >= g.intervals[id])
  }

  /** The permit is the earliest time from now on that nothing hinders. */
  lemma PermitIsEarliest(g: Gate, interval: int, now: int, hint: int, at: int)
    requires g.current != map[] && Permit(g, interval, now, hint, at)
    ensures at >= now && Unhindered(g, interval, at)
    ensures forall t | t >= now && Unhindered(g, interval, t) :: t >= at
  {
    forall id | id in g.scopes ensures g.scopes[id].Keys * g.current.Keys != {} <==> Overlap(g.scopes[id], g.current) {
      if Overlap(g.scopes[id], g.current) {
        var x :| x in g.scopes[id] && x in g.current;
        assert x in g.scopes[id].Keys * g.current.Keys;
      }
    }
  }

  // ------------------------------------------------------- exactly when, on fields

  // Another account, another kind of plan, or a five-hour reset that is unknown or
  // moved by more than five seconds.
  predicate Another(a: Cycle, b: Cycle) {
    || a.index != b.index || a.weeklyOnly != b.weeklyOnly
    || (!a.weeklyOnly && (a.reset == 0 || b.reset == 0 || a.reset - b.reset > 5 * SECOND || b.reset - a.reset > 5 * SECOND))
  }

  predicate Alike(a: Scope, b: Scope) {
    a.Keys == b.Keys && forall x | x in a :: x in b && !Another(a[x], b[x])
  }

  lemma SameScopeIff(a: Scope, b: Scope)
    ensures SameScope(a, b) <==> Alike(a, b)
  {
    if SameScope(a, b) {
      SameSize(a.Keys, b.Keys);
    }
    if a.Keys == b.Keys {
      assert |a| == |a.Keys| == |b|;
    }
  }

  lemma SameSize<T>(a: set<T>, b: set<T>)
    requires a <= b && |a| == |b|
    ensures a == b
  {
    if a != b {
      SubsetSize(a, b);
      var x :| x in b && x !in a;
      SubsetSize(a + {x}, b);
    }
  }

  // A waiting reservation whose time passed the horizon, or whose caller now has
  // another scope.
  predicate Late(g: Gate, id: Id, maxWait: int, now: int) {
    id in g.reservations && id !in g.dispatched && now - g.reservations[id] > maxWait
  }

  predicate Moved(g: Gate, id: Id) {
    id in g.reservations && id !in g.dispatched && id in g.scopes && !Alike(g.scopes[id], g.current)
  }

  /** When a reservation ends: with its execution; and if nothing was sent for it, by a
      reset, when one of its accounts enters another cycle, when its scope or itself is
      dropped, or when any assessment finds it late. */
  lemma ReservationEndsIff(steps: seq<Step>, step: Step, id: Id)
    requires id in Run(steps).reservations && (step.Assess? ==> Allowed(Run(steps), step) && step.id != id)
    ensures var g, n := Run(steps), Next(Run(steps), step);
            && (id in n.reservations ==> n.reservations[id] == g.reservations[id])
            && (id !in n.reservations <==> EndedBy(g, step, id))
  {
    RunInv(steps);
    if step.Assess? {
      AssessmentEnds(Run(steps), step, id);
    } else {
      OthersEnd(Run(steps), step, id);
    }
  }

  lemma OthersEnd(g: Gate, step: Step, id: Id)
    requires !step.Assess? && id in g.reservations
    ensures var n := Next(g, step);
            && (id in n.reservations ==> n.reservations[id] == g.reservations[id])
            && (id !in n.reservations <==> EndedBy(g, step, id))
  {
    OthersKeep(g, step, id);
    if step.Drop? && id in g.scopes { SameScopeIff(g.scopes[id], step.scope); }
    if step.Cycles? { TouchedIff(g, step.scope, id); }
  }

  lemma OthersKeep(g: Gate, step: Step, id: Id)
    requires !step.Assess? && id in g.reservations
    ensures var n := Next(g, step);
            && (id in n.reservations ==> n.reservations[id] == g.reservations[id])
            && (step.Cycles? ==> (id !in n.reservations <==> id in Touched(g, Changed(g, step.scope))))
            && (step.Drop? ==> (id !in n.reservations <==> id in Dropped(g, step.scope, step.id)))
  {
  }

  lemma AssessmentEnds(g: Gate, step: Step, id: Id)
    requires Inv(g) && step.Assess? && Allowed(g, step) && step.id != id && id in g.reservations
    ensures var n := Next(g, step);
            && (id in n.reservations ==> n.reservations[id] == g.reservations[id])
            && (id !in n.reservations <==> EndedBy(g, step, id))
  {
    if Usable(step.id, step.interval) {
      SettledKeys(g, step.id, step.maxWait, step.now);
      PaceShape(g, step, Settle(g, step.id, step.maxWait, step.now));
    }
  }

  ghost predicate EndedBy(g: Gate, step: Step, id: Id) {
    match step
    case Finish(x) => x == id
    case Send(_, _, _) => false
    case Reset => id !in g.dispatched
    case Cycles(scope) =>
      id !in g.dispatched && id in g.scopes && exists x :: x in g.scopes[id] && x in scope && x in g.cycles && Another(g.cycles[x], scope[x])
    case Drop(scope, x) => id !in g.dispatched && (x == id || (scope != map[] && id in g.scopes && Alike(g.scopes[id], scope)))
    case Assess(_, _, _, maxWait, now, _, _) => Usable(step.id, step.interval) && Late(g, id, maxWait, now)
  }

  lemma TouchedIff(g: Gate, scope: Scope, id: Id)
    ensures id in Touched(g, Changed(g, scope)) <==>
              id in g.scopes && id !in g.dispatched && exists x :: x in g.scopes[id] && x in scope && x in g.cycles && Another(g.cycles[x], scope[x])
  {
    if id in g.scopes {
      if x :| x in g.scopes[id] && x in scope && x in g.cycles && Another(g.cycles[x], scope[x]) {
        assert x in Changed(g, scope);
      }
    }
  }

  /** The assessment of a usable caller. A standing reservation that is neither late nor
      moved is kept and waited for. Otherwise it gets a new one, under the current scope,
      exactly when fewer than 2048 remain and the permit is within its horizon; failing
      that it has none and is told to poll. */
  lemma AssessmentIs(steps: seq<Step>, step: Step)
    requires step.Assess? && Allowed(Run(steps), step) && step.id != "" && |step.id| <= 512 && step.interval >= SECOND
    ensures var g, n := Run(steps), Next(Run(steps), step);
            var wait := Pace(g, step.id, step.interval, step.poll, step.maxWait, step.now, step.at).1;
            var others := set x | x in g.reservations && x != step.id && !Late(g, x, step.maxWait, step.now);
            if step.id in g.reservations && !Late(g, step.id, step.maxWait, step.now) && !Moved(g, step.id)
            then step.id in n.reservations && n.reservations[step.id] == g.reservations[step.id] && wait == NotBefore(g.reservations[step.id] - step.now)
            else if |others| < 2048 && step.at - step.now <= step.maxWait
            then step.id in n.reservations && n.reservations[step.id] == step.at && wait == NotBefore(step.at - step.now)
                 && step.id in n.scopes && n.scopes[step.id] == g.current && step.id in n.intervals && n.intervals[step.id] == step.interval
            else step.id !in n.reservations && wait == step.poll
  {
    RunInv(steps);
    SettledReservations(Run(steps), step.id, step.maxWait, step.now);
  }

  function NotBefore(x: int): int { if x < 0 then 0 else x }

  lemma SettledReservations(g: Gate, id: Id, maxWait: int, now: int)
    requires Inv(g)
    ensures var p := Settle(g, id, maxWait, now);
            var others := set x | x in g.reservations && x != id && !Late(g, x, maxWait, now);
            && (id in p.reservations <==> id in g.reservations && !Late(g, id, maxWait, now) && !Moved(g, id))
            && (id in p.reservations ==> p.reservations[id] == g.reservations[id])
            && p.current == g.current
            && (id !in p.reservations ==> |p.reservations| == |others|)
  {
    var p := Settle(g, id, maxWait, now);
    var others := set x | x in g.reservations && x != id && !Late(g, x, maxWait, now);
    SettledKeys(g, id, maxWait, now);
    if id !in p.reservations {
      assert p.reservations.Keys == others;
      assert |p.reservations| == |p.reservations.Keys|;
    }
  }

  lemma SettledKeys(g: Gate, id: Id, maxWait: int, now: int)
    requires Inv(g)
    ensures var p := Settle(g, id, maxWait, now);
            && p.current == g.current
            && (forall x :: x in p.reservations <==> x in g.reservations && !Late(g, x, maxWait, now) && !(x == id && Moved(g, id)))
            && (forall x | x in p.reservations :: p.reservations[x] == g.reservations[x])
  {
    LateKeys(g, maxWait, now);
    var p := Forget(g, Lapsed(g, maxWait, now));
    if id in p.scopes { SameScopeIff(p.scopes[id], p.current); }
  }

  lemma LateKeys(g: Gate, maxWait: int, now: int)
    requires Whole(g)
    ensures var p := Forget(g, Lapsed(g, maxWait, now));
            && p.current == g.current && p.dispatched == g.dispatched
            && (forall x :: x in p.reservations <==> x in g.reservations && !Late(g, x, maxWait, now))
            && (forall x :: x in p.scopes <==> x in p.reservations)
            && (forall x | x in p.reservations :: p.reservations[x] == g.reservations[x] && p.scopes[x] == g.scopes[x])
  {
  }

  /** A dispatch counts once: it stamps the account that was used, or if that is unknown
      every account of the scope, and nothing else. */
  lemma DispatchStamps(steps: seq<Step>, id: Id, selected: Auth, now: int, x: Auth)
    ensures var g, n := Run(steps), Next(Run(steps), Send(id, selected, now));
            var stamps := id in g.reservations && id !in g.dispatched && (if selected != "" then x == selected else id in g.scopes && x in g.scopes[id]);
            && n.reservations == g.reservations && n.scopes == g.scopes && n.intervals == g.intervals
            && n.dispatched == g.dispatched + (if id in g.reservations then {id} else {})
            && (x in n.lastByAuth <==> stamps || x in g.lastByAuth)
            && (x in n.lastByAuth ==> n.lastByAuth[x] == if stamps then now else g.lastByAuth[x])
  {
  }

  /** Adopting cycles: the scope becomes the current one; an account whose cycle is
      another one loses its last dispatch and takes the new anchor, and a cycle that only
      drifted keeps its first anchor, so that drift does not add up unseen. */
  lemma CyclesAdopted(steps: seq<Step>, scope: Scope, x: Auth)
    ensures var g, n := Run(steps), Next(Run(steps), Cycles(scope));
            var another := x in scope && x in g.cycles && Another(g.cycles[x], scope[x]);
            && n.current == scope
            && (x in n.cycles <==> x in g.cycles || x in scope)
            && (x in n.cycles ==> n.cycles[x] == if x in g.cycles && !another then g.cycles[x] else scope[x])
            && (x in n.lastByAuth <==> x in g.lastByAuth && !another)
            && (x in n.lastByAuth ==> n.lastByAuth[x] == g.lastByAuth[x])
  {
  }

  /** A reset forgets cycles, scope and last dispatches; what was sent keeps its
      reservation until it ends. */
  lemma ResetForgets(steps: seq<Step>)
    ensures var g, n := Run(steps), Next(Run(steps), Reset);
            && n.cycles == map[] && n.current == map[] && n.lastByAuth == map[] && n.dispatched == g.dispatched
            && n.reservations.Keys == g.dispatched
  {
    RunInv(steps);
    assert Next(Run(steps), Reset).reservations.Keys == Run(steps).dispatched;
  }

  // ------------------------------------------------------------ the mutable gate

  class ContinuityGate {
    var reservations: map<Id, int>
    var dispatched: set<Id>
    var scopes: map<Id, Scope>
    var intervals: map<Id, int>
    var cycles: Scope
    var current: Scope
    var lastByAuth: map<Auth, int>

    ghost function View(): Gate
      reads this
    {
      Gate(reservations, dispatched, scopes, intervals, cycles, current, lastByAuth)
    }

    constructor ()
      ensures View() == EMPTY
    {
      reservations, dispatched, scopes, intervals := map[], {}, map[], map[];
      cycles, current, lastByAuth := map[], map[], map[];
    }

    method ForgetOne(id: Id)
      modifies this`reservations, this`scopes, this`intervals
      ensures View() == Forget(old(View()), {id})
    {
      reservations, scopes, intervals := reservations - {id}, scopes - {id}, intervals - {id};
    }

    method ExpireLapsed(maxWait: int, now: int)
      modifies this`reservations, this`scopes, this`intervals
      ensures View() == Forget(old(View()), Lapsed(old(View()), maxWait, now))
    {
      ghost var start := View();
      var left := reservations.Keys;
      ghost var gone: set<Id> := {};
      while left != {}
        invariant left <= start.reservations.Keys && gone <= start.reservations.Keys - left
        invariant View() == Forget(start, gone)
        invariant forall x | x in start.reservations && x !in left :: x in gone <==> x in Lapsed(start, maxWait, now)
        decreases left
      {
        var x :| x in left;
        left := left - {x};
        if x !in dispatched && now > reservations[x] + maxWait {
          ForgetOne(x);
          ForgetTwice(start, gone, {x});
          gone := gone + {x};
        }
      }
      assert gone == Lapsed(start, maxWait, now);
    }

    static lemma ForgetTwice(g: Gate, a: set<Id>, b: set<Id>)
      ensures Forget(Forget(g, a), b) == Forget(g, a + b)
    {
      assert g.reservations - a - b == g.reservations - (a + b);
      assert g.scopes - a - b == g.scopes - (a + b);
      assert g.intervals - a - b == g.intervals - (a + b);
    }

    // The earliest permit that nothing holds back.
    method Earliest(interval: int, now: int, hint: int) returns (at: int)
      requires Whole(View())
      ensures Permit(View(), interval, now, hint, at)
    {
      if current == map[] {
        return Max(now, hint);
      }
      at := now;
      var left := current.Keys;
      while left != {}
        invariant left <= current.Keys && at >= now
        invariant forall x | x in current && x in lastByAuth && x !in left :: at >= lastByAuth[x] + interval
        invariant at == now || exists x :: x in current && x in lastByAuth && at == lastByAuth[x] + interval
        decreases left
      {
        var x :| x in left;
        left := left - {x};
        if x in lastByAuth && lastByAuth[x] + interval > at {
          at := lastByAuth[x] + interval;
        }
      }
      at := BehindRivals(interval, now, at);
    }

    method BehindRivals(interval: int, now: int, first: int) returns (at: int)
      requires Whole(View()) && Tight(View(), interval, now, first)
      ensures at >= first && Tight(View(), interval, now, at)
      ensures forall x | Rival(View(), x) :: at >= reservations[x] + Max(interval, intervals[x])
    {
      at := first;
      var waiting := reservations.Keys;
      while waiting != {}
        invariant waiting <= reservations.Keys && at >= first
        invariant forall x | Rival(View(), x) && x !in waiting :: at >= reservations[x] + Max(interval, intervals[x])
        invariant Tight(View(), interval, now, at)
        decreases waiting
      {
        var x :| x in waiting;
        waiting := waiting - {x};
        if x !in dispatched && Overlap(scopes[x], current) {
          assert Rival(View(), x);
          var next := reservations[x] + Max(interval, intervals[x]);
          if next > at {
            at := next;
          }
        }
      }
    }

    method PaceFor(id: Id, interval: int, poll: int, maxWait: int, now: int, hint: int) returns (wait: int, ghost at: int)
      requires Whole(View())
      modifies this
      ensures Usable(id, interval) ==> Permit(Settle(old(View()), id, maxWait, now), interval, now, hint, at)
      ensures (View(), wait) == Pace(old(View()), id, interval, poll, maxWait, now, at)
    {
      at := now;
      if !Usable(id, interval) {
        return 0, at;
      }
      SettleFor(id, maxWait, now);
      var permit := Earliest(interval, now, hint);
      at := permit;
      if id in reservations {
        return Max(0, reservations[id] - now), at;
      }
      if |reservations| >= MAX_RESERVATIONS || permit - now > maxWait {
        return poll, at;
      }
      Reserve(id, interval, permit);
      return Max(0, permit - now), at;
    }

    method Reserve(id: Id, interval: int, at: int)
      modifies this`reservations, this`scopes, this`intervals
      ensures View() == Grant(old(View()), id, interval, at)
    {
      reservations := reservations[id := at];
      scopes := scopes[id := current];
      intervals := intervals[id := interval];
    }

    method SettleFor(id: Id, maxWait: int, now: int)
      requires Whole(View())
      modifies this`reservations, this`scopes, this`intervals
      ensures View() == Settle(old(View()), id, maxWait, now) && Whole(View())
    {
      ExpireLapsed(maxWait, now);
      if id in reservations && id !in dispatched && id in scopes && !SameScope(scopes[id], current) {
        ForgetOne(id);
      }
      SettleKeepsWhole(old(View()), id, maxWait, now);
    }

    static lemma SettleKeepsWhole(g: Gate, id: Id, maxWait: int, now: int)
      requires Whole(g)
      ensures Whole(Settle(g, id, maxWait, now))
    {
      ForgetKeepsWhole(g, Lapsed(g, maxWait, now));
      var p := Forget(g, Lapsed(g, maxWait, now));
      if Waits(p, id) {
        ForgetKeepsWhole(p, {id});
      }
    }

    static lemma ForgetKeepsWhole(g: Gate, ids: set<Id>)
      requires Whole(g) && ids !! g.dispatched
      ensures Whole(Forget(g, ids))
    {
      var n := Forget(g, ids);
      assert n.reservations.Keys == g.reservations.Keys - ids;
    }

    method CompleteOf(id: Id)
      modifies this
      ensures View() == Complete(old(View()), id)
    {
      ForgetOne(id);
      dispatched := dispatched - {id};
    }

    method DispatchedOf(id: Id, selected: Auth, now: int)
      modifies this
      ensures View() == Dispatch(old(View()), id, selected, now)
    {
      if id !in reservations || id in dispatched {
        return;
      }
      dispatched := dispatched + {id};
      var used := if selected != "" then {selected} else if id in scopes then scopes[id].Keys else {};
      Stamp(used, now);
    }

    method Stamp(used: set<Auth>, now: int)
      modifies this`lastByAuth
      ensures lastByAuth == map x | x in old(lastByAuth).Keys + used :: if x in used then now else old(lastByAuth)[x]
    {
      ghost var start := lastByAuth;
      var left := used;
      while left != {}
        invariant left <= used
        invariant lastByAuth == map x | x in start.Keys + (used - left) :: if x in used - left then now else start[x]
        decreases left
      {
        var x :| x in left;
        lastByAuth := lastByAuth[x := now];
        left := left - {x};
      }
    }

    method ClearPacing()
      modifies this
      ensures View() == Clear(old(View()))
    {
      var ids := reservations.Keys - dispatched;
      reservations, scopes, intervals := reservations - ids, scopes - ids, intervals - ids;
      cycles, current, lastByAuth := map[], map[], map[];
    }

    method SetPacingCycle(scope: Scope)
      modifies this
      ensures View() == SetCycle(old(View()), scope)
    {
      var changed := AdoptCycles(scope);
      ghost var start := View();
      var left := scopes.Keys;
      ghost var gone: set<Id> := {};
      while left != {}
        invariant left <= start.scopes.Keys && gone <= start.scopes.Keys - left
        invariant View() == Forget(start, gone)
        invariant forall x | x in start.scopes && x !in left :: x in gone <==> x in Touched(start, changed)
        decreases left
      {
        var x :| x in left;
        left := left - {x};
        if x !in dispatched && exists a :: a in scopes[x] && a in changed {
          ForgetOne(x);
          ForgetTwice(start, gone, {x});
          gone := gone + {x};
        }
      }
      assert gone == Touched(start, changed);
      current := scope;
    }

    // Anchors stay where the cycle only drifted; a changed cycle forgets its pacing.
    method AdoptCycles(scope: Scope) returns (changed: set<Auth>)
      modifies this`cycles, this`lastByAuth
      ensures changed == Changed(old(View()), scope)
      ensures cycles == map x | x in old(cycles).Keys + scope.Keys :: if x in old(cycles) && x !in changed then old(cycles)[x] else scope[x]
      ensures lastByAuth == old(lastByAuth) - changed
    {
      changed := {};
      ghost var start := cycles;
      var left := scope.Keys;
      while left != {}
        invariant left <= scope.Keys
        invariant changed == Changed(old(View()), scope) - left
        invariant lastByAuth == old(lastByAuth) - changed
        invariant cycles == map x | x in start.Keys + (scope.Keys - left) ::
                    if x in start && x !in changed then start[x] else scope[x]
        decreases left
      {
        var x :| x in left;
        left := left - {x};
        if x in cycles && SameCycle(cycles[x], scope[x]) {
          assert x !in Changed(old(View()), scope);
        } else {
          if x in cycles {
            changed := changed + {x};
            lastByAuth := lastByAuth - {x};
          }
          cycles := cycles[x := scope[x]];
        }
      }
    }

    method ClearPacingScope(scope: Scope, id: Id)
      modifies this
      ensures View() == ClearScope(old(View()), scope, id)
    {
      ghost var start := View();
      var left := reservations.Keys;
      ghost var gone: set<Id> := {};
      while left != {}
        invariant left <= start.reservations.Keys && gone <= start.reservations.Keys - left
        invariant View() == Forget(start, gone)
        invariant forall x | x in start.reservations && x !in left :: x in gone <==> x in Dropped(start, scope, id)
        decreases left
      {
        var x :| x in left;
        left := left - {x};
        if x !in dispatched && (x == id || (scope != map[] && x in scopes && SameScope(scopes[x], scope))) {
          ForgetOne(x);
          ForgetTwice(start, gone, {x});
          gone := gone + {x};
        }
      }
      assert gone == Dropped(start, scope, id);
    }
  }
}
