/**
 Quota reservations, their settlement into debt and its acknowledgement (adq_pbs.go).
 Quota is exact, 0 is Go's zero time, an id is the pair (nanoseconds, counter).
 */
module ReservationBook {

  type Id = (int, nat)

  const SECOND: int := 1000000000
  const DEFAULT_TTL: int := 45 * SECOND
  const SLACK: real := 0.000000001
  const CYCLE: int := 300 * SECOND

  datatype Option<T> = None | Some(value: T)

  datatype Status = Active | Released | Settling | Reconciled | Expired

  // A quota window as last observed; `at` and `reset` may be 0 for unknown.
  datatype Window = Window(at: int, reset: int, used: real, credits: Option<real>)

  datatype Snapshot = Snapshot(refreshed: int, fiveHour: Option<Window>, weekly: Option<Window>)

  datatype Amount = Amount(fiveHour: real, weekly: real)

  datatype Reservation = Reservation(
    auth: string, reserved: Amount, expiresAt: int, status: Status,
    actual: Amount, settledAt: int, settleExpiresAt: int, baseline: Snapshot)

  type Reservations = map<Id, Reservation>

  datatype Book = Book(capacities: map<string, Amount>, reservations: Reservations, next: nat)

  const EMPTY := Book(map[], map[], 0)
  const NOTHING := Snapshot(0, None, None)

  function Max(a: real, b: real): real { if a > b then a else b }

  // -------------------------------------------------------------------- sums

  datatype Kind = FiveHour | Weekly

  function Part(a: Amount, k: Kind): real { if k.FiveHour? then a.fiveHour else a.weekly }

  // The sum of a map's values, in whatever order.
  ghost function Total(m: map<Id, real>): real
    decreases |m|
  {
    if m == map[] then 0.0
    else
      var k :| k in m;
      Less(m, k);
      m[k] + Total(m - {k})
  }

  lemma Less(m: map<Id, real>, k: Id)
    requires k in m
    ensures |m - {k}| < |m|
  {
    assert (m - {k}).Keys == m.Keys - {k};
  }

  lemma {:induction false} TotalRemove(m: map<Id, real>, k: Id)
    requires k in m
    ensures Total(m) == m[k] + Total(m - {k})
    decreases |m|
  {
    var j :| j in m && Total(m) == m[j] + Total(m - {j});
    if j != k {
      Less(m, j);
      Less(m, k);
      TotalRemove(m - {j}, k);
      TotalRemove(m - {k}, j);
      assert m - {j} - {k} == m - {k} - {j};
    }
  }

  lemma TotalInsert(m: map<Id, real>, k: Id, v: real)
    requires k !in m
    ensures Total(m[k := v]) == Total(m) + v
  {
    TotalRemove(m[k := v], k);
    assert m[k := v] - {k} == m;
  }

  lemma {:induction false} TotalSubmap(m: map<Id, real>, n: map<Id, real>)
    requires forall k | k in n :: k in m && m[k] == n[k]
    requires forall k | k in m :: m[k] >= 0.0
    ensures 0.0 <= Total(n) <= Total(m)
    decreases |m|
  {
    if m == map[] {
      assert n == map[];
    } else {
      var k :| k in m;
      Less(m, k);
      TotalRemove(m, k);
      if k in n {
        TotalRemove(n, k);
        TotalSubmap(m - {k}, n - {k});
      } else {
        TotalSubmap(m - {k}, n);
      }
    }
  }

  // What an account's active reservations hold, and what its settling ones owe.
  function Held(m: Reservations, auth: string, k: Kind): map<Id, real> {
    map id | id in m && m[id].auth == auth && m[id].status == Active :: Part(m[id].reserved, k)
  }

  function Owed(m: Reservations, auth: string, k: Kind): map<Id, real> {
    map id | id in m && m[id].auth == auth && m[id].status == Settling :: Part(m[id].actual, k)
  }

  ghost function Reserved(m: Reservations, auth: string, k: Kind): real { Total(Held(m, auth, k)) }

  ghost function Debt(m: Reservations, auth: string, k: Kind): real { Total(Owed(m, auth, k)) }

  // ------------------------------------------------------------------ operations

  function Positive(a: Amount): Amount { Amount(Max(a.fiveHour, 0.0), Max(a.weekly, 0.0)) }

  function SetCapacity(b: Book, auth: string, capacity: Amount): Book {
    b.(capacities := b.capacities[auth := Positive(capacity)])
  }

  function Due(at: int, now: int): bool { at != 0 && now >= at }

  function ExpireOne(r: Reservation, now: int): Reservation {
    if r.status == Active && Due(r.expiresAt, now) then r.(status := Expired)
    else if r.status == Settling && Due(r.settleExpiresAt, now) then r.(status := Reconciled, actual := Amount(0.0, 0.0))
    else r
  }

  function ExpireAll(m: Reservations, now: int): Reservations {
    map id | id in m :: ExpireOne(m[id], now)
  }

  function Expire(b: Book, now: int): Book { b.(reservations := ExpireAll(b.reservations, now)) }

  ghost predicate Fits(b: Book, auth: string, request: Amount) {
    && auth in b.capacities
    && forall k: Kind :: Reserved(b.reservations, auth, k) + Part(request, k) <= Part(b.capacities[auth], k) + SLACK
  }

  function NewReservation(auth: string, request: Amount, ttl: int, now: int): Reservation {
    Reservation(auth, request, now + (if ttl <= 0 then DEFAULT_TTL else ttl), Active, Amount(0.0, 0.0), 0, 0, NOTHING)
  }

  // Reserve for `auth` if it fits; the id is returned.
  ghost function TryReserve(b: Book, auth: string, request: Amount, ttl: int, now: int): (Book, Option<Id>) {
    if auth == "" || auth !in b.capacities then (b, None)
    else
      var e, want := Expire(b, now), Positive(request);
      if !Fits(e, auth, want) then (e, None)
      else
        var id := (now, e.next + 1);
        (e.(next := e.next + 1, reservations := e.reservations[id := NewReservation(auth, want, ttl, now)]), Some(id))
  }

  predicate Terminal(s: Status) { s == Released || s == Reconciled }

  function Release(b: Book, id: Id): (Book, bool) {
    if id !in b.reservations then (b, false)
    else if Terminal(b.reservations[id].status) then (b, true)
    else (b.(reservations := b.reservations[id := b.reservations[id].(status := Released, actual := Amount(0.0, 0.0))]), true)
  }

  function SettlementTtl(cooldown: int): int {
    if cooldown <= 0 then 120 * SECOND
    else if cooldown < 30 * SECOND then 30 * SECOND
    else if cooldown > 600 * SECOND then 600 * SECOND
    else cooldown
  }

  // The debit a reservation turns into: nothing in a window it never reserved.
  function Debit(r: Reservation, actual: Amount): Amount {
    Amount(if r.reserved.fiveHour == 0.0 then 0.0 else Max(actual.fiveHour, 0.0), Max(actual.weekly, 0.0))
  }

  function Settled(r: Reservation, actual: Amount, snapshot: Snapshot, now: int, ttl: int): Reservation {
    var debit := Debit(r, actual);
    if debit.fiveHour <= 0.0 && debit.weekly <= 0.0 then r.(status := Reconciled, actual := Amount(0.0, 0.0))
    else r.(status := Settling, actual := debit, settledAt := now, settleExpiresAt := now + SettlementTtl(ttl), baseline := snapshot)
  }

  function Settle(b: Book, id: Id, actual: Amount, snapshot: Snapshot, now: int, ttl: int): (Book, bool) {
    if id !in b.reservations then (b, false)
    else
      var r := b.reservations[id];
      if Terminal(r.status) || r.status == Settling then (b, true)
      else (b.(reservations := b.reservations[id := Settled(r, actual, snapshot, now, ttl)]), true)
  }

  // ------------------------------------------------------------- acknowledgement

  function ObservedAt(w: Window, fallback: int): int { if w.at == 0 then fallback else w.at }

  // Both resets are known wherever this is asked.
  predicate SameCycle(a: int, b: int) { -CYCLE <= a - b <= CYCLE }

  predicate UsageChanged(base: Window, current: Window) {
    || current.used > base.used + SLACK || current.used < base.used - SLACK
    || (base.credits.Some? && current.credits.Some? && current.credits.value > base.credits.value + SLACK)
    || (base.reset != 0 && current.reset != 0 && !SameCycle(base.reset, current.reset))
  }

  // Strictly newer than both the baseline and the settlement, and different.
  predicate Acknowledges(base: Option<Window>, baseAt: int, current: Option<Window>, fallback: int, settledAt: int) {
    && base.Some? && current.Some?
    && ObservedAt(current.value, fallback) != 0
    && ObservedAt(current.value, fallback) > ObservedAt(base.value, baseAt)
    && ObservedAt(current.value, fallback) > settledAt
    && UsageChanged(base.value, current.value)
  }

  function WindowOf(s: Snapshot, k: Kind): Option<Window> { if k.FiveHour? then s.fiveHour else s.weekly }

  predicate Clears(r: Reservation, snapshot: Snapshot, k: Kind) {
    Acknowledges(WindowOf(r.baseline, k), r.baseline.refreshed, WindowOf(snapshot, k), snapshot.refreshed, r.settledAt)
  }

  function Remaining(r: Reservation, snapshot: Snapshot, k: Kind): real {
    if Part(r.actual, k) > 0.0 && Clears(r, snapshot, k) then 0.0 else Part(r.actual, k)
  }

  function Observed(r: Reservation, auth: string, snapshot: Snapshot): Reservation {
    if r.status != Settling || r.auth != auth then r
    else
      var left := Amount(Remaining(r, snapshot, FiveHour), Remaining(r, snapshot, Weekly));
      r.(actual := left, status := if left.fiveHour <= 0.0 && left.weekly <= 0.0 then Reconciled else Settling)
  }

  function ObserveQuota(b: Book, auth: string, snapshot: Snapshot, now: int): Book {
    var e := ExpireAll(b.reservations, now);
    b.(reservations := map id | id in e :: Observed(e[id], auth, snapshot))
  }

  // ----------------------------------------------------------------------- runs

  datatype Step =
    | Capacity(auth: string, capacity: Amount)
    | Reserve(auth: string, request: Amount, ttl: int, at: int)
    | GiveBack(id: Id)
    | Finish(id: Id, actual: Amount, snapshot: Snapshot, at: int, ttl: int)
    | Observe(auth: string, snapshot: Snapshot, at: int)
    | Tick(at: int)

  // `checked` are the accounts that reserved since their capacity was last set.
  datatype System = System(book: Book, checked: set<string>)

  ghost function Next(s: System, step: Step): System {
    match step
    case Capacity(auth, capacity) => System(SetCapacity(s.book, auth, capacity), s.checked - {auth})
    case Reserve(auth, request, ttl, at) =>
      var (b, id) := TryReserve(s.book, auth, request, ttl, at);
      System(b, if id.Some? then s.checked + {auth} else s.checked)
    case GiveBack(id) => s.(book := Release(s.book, id).0)
    case Finish(id, actual, snapshot, at, ttl) => s.(book := Settle(s.book, id, actual, snapshot, at, ttl).0)
    case Observe(auth, snapshot, at) => s.(book := ObserveQuota(s.book, auth, snapshot, at))
    case Tick(at) => s.(book := Expire(s.book, at))
  }

  ghost function Run(steps: seq<Step>): System
    decreases |steps|
  {
    if steps == [] then System(EMPTY, {}) else Next(Run(steps[..|steps| - 1]), steps[|steps| - 1])
  }

  ghost predicate Sound(b: Book) {
    && (forall id | id in b.reservations :: id.1 <= b.next)
    && forall id, k: Kind | id in b.reservations :: Part(b.reservations[id].reserved, k) >= 0.0
  }

  ghost predicate Within(b: Book, auth: string) {
    && auth in b.capacities
    && forall k: Kind :: Reserved(b.reservations, auth, k) <= Part(b.capacities[auth], k) + SLACK
  }

  // Nothing became active and no reservation changed hands or size.
  ghost predicate Shrinks(m: Reservations, n: Reservations) {
    forall id | id in n && n[id].status == Active ::
      id in m && m[id].status == Active && m[id].auth == n[id].auth && m[id].reserved == n[id].reserved
  }

  lemma ShrinkingHolds(b: Book, n: Reservations, auth: string, k: Kind)
    requires Sound(b) && Shrinks(b.reservations, n)
    ensures 0.0 <= Reserved(n, auth, k) <= Reserved(b.reservations, auth, k)
  {
    TotalSubmap(Held(b.reservations, auth, k), Held(n, auth, k));
  }

  lemma ShrinkingWithin(b: Book, n: Book, auth: string)
    requires Sound(b) && Shrinks(b.reservations, n.reservations) && n.capacities == b.capacities && Within(b, auth)
    ensures Within(n, auth)
  {
    forall k: Kind ensures Reserved(n.reservations, auth, k) <= Part(n.capacities[auth], k) + SLACK {
      ShrinkingHolds(b, n.reservations, auth, k);
    }
  }

  // A granted reservation adds exactly its amount, to its own account.
  lemma GrantAdds(e: Book, id: Id, r: Reservation, auth: string, k: Kind)
    requires id !in e.reservations && r.status == Active
    ensures Reserved(e.reservations[id := r], auth, k)
         == Reserved(e.reservations, auth, k) + if r.auth == auth then Part(r.reserved, k) else 0.0
  {
    var m := Held(e.reservations, auth, k);
    if r.auth == auth {
      assert Held(e.reservations[id := r], auth, k) == m[id := Part(r.reserved, k)];
      TotalInsert(m, id, Part(r.reserved, k));
    } else {
      assert Held(e.reservations[id := r], auth, k) == m;
    }
  }

  ghost predicate Inv(s: System) {
    Sound(s.book) && forall auth | auth in s.checked :: Within(s.book, auth)
  }

  lemma ReserveInv(s: System, auth: string, request: Amount, ttl: int, at: int)
    requires Inv(s)
    ensures Inv(Next(s, Reserve(auth, request, ttl, at)))
  {
    ReserveKeeps(s.book, s.checked, auth, request, ttl, at);
  }

  lemma ReserveKeeps(b: Book, checked: set<string>, auth: string, request: Amount, ttl: int, at: int)
    requires Sound(b) && forall x | x in checked :: Within(b, x)
    ensures var (n, id) := TryReserve(b, auth, request, ttl, at);
            Sound(n) && forall x | x in (if id.Some? then checked + {auth} else checked) :: Within(n, x)
  {
    if auth != "" && auth in b.capacities {
      var e, want := Expire(b, at), Positive(request);
      ExpireKeeps(b, at, checked);
      if Fits(e, auth, want) {
        GrantWithin(e, auth, want, ttl, at, checked);
      }
    }
  }

  lemma ExpireKeeps(b: Book, at: int, checked: set<string>)
    requires Sound(b) && forall x | x in checked :: Within(b, x)
    ensures Sound(Expire(b, at)) && forall x | x in checked :: Within(Expire(b, at), x)
  {
    forall x | x in checked ensures Within(Expire(b, at), x) { ShrinkingWithin(b, Expire(b, at), x); }
  }

  lemma GrantWithin(e: Book, auth: string, want: Amount, ttl: int, at: int, checked: set<string>)
    requires Sound(e) && Fits(e, auth, want) && want.fiveHour >= 0.0 && want.weekly >= 0.0
    requires forall x | x in checked :: Within(e, x)
    ensures var n := e.(next := e.next + 1, reservations := e.reservations[(at, e.next + 1) := NewReservation(auth, want, ttl, at)]);
            Sound(n) && n.capacities == e.capacities && forall x | x in checked + {auth} :: Within(n, x)
  {
    var id, r := (at, e.next + 1), NewReservation(auth, want, ttl, at);
    var n := e.(next := e.next + 1, reservations := e.reservations[id := r]);
    assert id !in e.reservations;
    forall x | x in checked + {auth} ensures Within(n, x) {
      forall k: Kind ensures Reserved(n.reservations, x, k) <= Part(n.capacities[x], k) + SLACK {
        GrantAdds(e, id, r, x, k);
      }
    }
  }

  lemma StepInv(s: System, step: Step)
    requires Inv(s)
    ensures Inv(Next(s, step))
  {
    var n := Next(s, step);
    match step {
      case Capacity(auth, capacity) =>
        forall x | x in n.checked ensures Within(n.book, x) { assert Within(s.book, x); }
      case Reserve(auth, request, ttl, at) => ReserveInv(s, auth, request, ttl, at);
      case GiveBack(id) => forall x | x in n.checked ensures Within(n.book, x) { ShrinkingWithin(s.book, n.book, x); }
      case Finish(id, actual, snapshot, at, ttl) =>
        forall x | x in n.checked ensures Within(n.book, x) { ShrinkingWithin(s.book, n.book, x); }
      case Observe(auth, snapshot, at) =>
        forall x | x in n.checked ensures Within(n.book, x) { ShrinkingWithin(s.book, n.book, x); }
      case Tick(at) => forall x | x in n.checked ensures Within(n.book, x) { ShrinkingWithin(s.book, n.book, x); }
    }
  }

  lemma {:induction false} RunInv(steps: seq<Step>)
    ensures Inv(Run(steps))
    decreases |steps|
  {
    if steps != [] {
      RunInv(steps[..|steps| - 1]);
      StepInv(Run(steps[..|steps| - 1]), steps[|steps| - 1]);
    }
  }

  /** Reservation safety: in every run, an account that reserved since its capacity
      was last set holds at most that capacity plus 1e-9 in both windows. However
      many reservations were granted, the tolerance counts once. */
  lemma ReservedWithinCapacity(steps: seq<Step>, auth: string, k: Kind)
    requires auth in Run(steps).checked
    ensures var b := Run(steps).book;
            auth in b.capacities && Reserved(b.reservations, auth, k) <= Part(b.capacities[auth], k) + SLACK
  {
    RunInv(steps);
  }

  /** A capacity is what was last set for the account, and never negative. */
  lemma {:induction false} CapacityIsLastSet(steps: seq<Step>, auth: string)
    requires auth in Run(steps).book.capacities
    ensures var c := Run(steps).book.capacities[auth];
            && c.fiveHour >= 0.0 && c.weekly >= 0.0
            && exists i :: 0 <= i < |steps| && IsLastSet(steps, i, auth)
                           && (steps[i].capacity.fiveHour >= 0.0 ==> c.fiveHour == steps[i].capacity.fiveHour)
                           && (steps[i].capacity.weekly >= 0.0 ==> c.weekly == steps[i].capacity.weekly)
    decreases |steps|
  {
    var n := |steps| - 1;
    if steps[n].Capacity? && steps[n].auth == auth {
      assert IsLastSet(steps, n, auth);
    } else {
      CapacityKept(Run(steps[..n]), steps[n], auth);
      CapacityIsLastSet(steps[..n], auth);
      var c := Run(steps).book.capacities[auth];
      var i :| 0 <= i < n && IsLastSet(steps[..n], i, auth)
               && (steps[..n][i].capacity.fiveHour >= 0.0 ==> c.fiveHour == steps[..n][i].capacity.fiveHour)
               && (steps[..n][i].capacity.weekly >= 0.0 ==> c.weekly == steps[..n][i].capacity.weekly);
      assert IsLastSet(steps, i, auth);
    }
  }

  predicate IsLastSet(steps: seq<Step>, i: int, auth: string) {
    && 0 <= i < |steps| && steps[i].Capacity? && steps[i].auth == auth
    && forall j | i < j < |steps| && steps[j].Capacity? :: steps[j].auth != auth
  }

  lemma CapacityKept(s: System, step: Step, auth: string)
    requires !(step.Capacity? && step.auth == auth) && auth in Next(s, step).book.capacities
    ensures auth in s.book.capacities && Next(s, step).book.capacities[auth] == s.book.capacities[auth]
  {
  }

  /** A reservation is granted exactly when, after lapsed leases are dropped, the
      request fits into what is left of the capacity plus 1e-9 in both windows. It is
      then active under a new id for the requested time, 45 s by default; a negative
      request asks for nothing. */
  lemma GrantedIffFits(steps: seq<Step>, auth: string, request: Amount, ttl: int, now: int)
    ensures var b := Run(steps).book;
            var (n, id) := TryReserve(b, auth, request, ttl, now);
            var e := Expire(b, now).reservations;
            && (id.Some? <==>
                  && auth != "" && auth in b.capacities
                  && Reserved(e, auth, FiveHour) + (if request.fiveHour > 0.0 then request.fiveHour else 0.0) <= b.capacities[auth].fiveHour + 0.000000001
                  && Reserved(e, auth, Weekly) + (if request.weekly > 0.0 then request.weekly else 0.0) <= b.capacities[auth].weekly + 0.000000001)
            && (id.Some? ==> id.value !in b.reservations && id.value in n.reservations && IsGrant(n.reservations[id.value], auth, request, ttl, now))
            && (forall x | x in b.reservations :: x in n.reservations && n.reservations[x] in {b.reservations[x], e[x]})
  {
    RunInv(steps);
    FitsBoth(Expire(Run(steps).book, now), auth, Positive(request));
  }

  predicate IsGrant(r: Reservation, auth: string, request: Amount, ttl: int, now: int) {
    && r.status == Active && r.auth == auth
    && r.reserved.fiveHour == (if request.fiveHour > 0.0 then request.fiveHour else 0.0)
    && r.reserved.weekly == (if request.weekly > 0.0 then request.weekly else 0.0)
    && r.expiresAt == now + (if ttl > 0 then ttl else 45 * SECOND)
  }

  lemma FitsBoth(b: Book, auth: string, request: Amount)
    ensures Fits(b, auth, request) <==>
              && auth in b.capacities
              && Reserved(b.reservations, auth, FiveHour) + request.fiveHour <= b.capacities[auth].fiveHour + SLACK
              && Reserved(b.reservations, auth, Weekly) + request.weekly <= b.capacities[auth].weekly + SLACK
  {
    assert Part(request, FiveHour) == request.fiveHour && Part(request, Weekly) == request.weekly;
    if auth in b.capacities {
      assert Part(b.capacities[auth], FiveHour) == b.capacities[auth].fiveHour;
      assert Part(b.capacities[auth], Weekly) == b.capacities[auth].weekly;
    }
  }

  // ------------------------------------------------------------------ conservation

  lemma HeldWithout(m: Reservations, id: Id, r: Reservation, auth: string, k: Kind)
    requires id in m && r.status != Active && r.auth == m[id].auth
    ensures Reserved(m[id := r], auth, k)
         == Reserved(m, auth, k) - if m[id].status == Active && m[id].auth == auth then Part(m[id].reserved, k) else 0.0
  {
    var held := Held(m, auth, k);
    if id in held {
      TotalRemove(held, id);
      assert Held(m[id := r], auth, k) == held - {id};
    } else {
      assert Held(m[id := r], auth, k) == held;
    }
  }

  lemma OwedWith(m: Reservations, id: Id, r: Reservation, auth: string, k: Kind)
    requires id in m && m[id].status != Settling && r.auth == m[id].auth
    ensures Debt(m[id := r], auth, k)
         == Debt(m, auth, k) + if r.status == Settling && r.auth == auth then Part(r.actual, k) else 0.0
  {
    var owed := Owed(m, auth, k);
    if r.status == Settling && r.auth == auth {
      assert Owed(m[id := r], auth, k) == owed[id := Part(r.actual, k)];
      TotalInsert(owed, id, Part(r.actual, k));
    } else {
      assert Owed(m[id := r], auth, k) == owed;
    }
  }

  /** Settling moves a live reservation out of what is reserved, by its whole amount,
      and into what is owed, by what it really used: all of it in the weekly window, and
      in the five-hour window only if quota was reserved there. A negative use owes
      nothing, and every other account is untouched.
      Settling it again, or after it ended, changes nothing, and at no point does one
      reservation count in both sums. */
  lemma SettleConserves(b: Book, id: Id, actual: Amount, snapshot: Snapshot, now: int, ttl: int, auth: string, k: Kind)
    requires id in b.reservations
    ensures var r, n := b.reservations[id], Settle(b, id, actual, snapshot, now, ttl).0;
            var mine := r.auth == auth;
            && Reserved(n.reservations, auth, k) == Reserved(b.reservations, auth, k) - (if mine && r.status == Active then Part(r.reserved, k) else 0.0)
            && Debt(n.reservations, auth, k) == Debt(b.reservations, auth, k) + (if mine && r.status in {Active, Expired} then
                                                           (if Part(actual, k) < 0.0 || (k.FiveHour? && r.reserved.fiveHour == 0.0) then 0.0 else Part(actual, k)) else 0.0)
            && (r.status !in {Active, Expired} ==> n == b)
            && Settle(n, id, actual, snapshot, now, ttl) == (n, true)
            && Held(n.reservations, auth, k).Keys !! Owed(n.reservations, auth, k).Keys
  {
    var r := b.reservations[id];
    if r.status in {Active, Expired} {
      HeldWithout(b.reservations, id, Settled(r, actual, snapshot, now, ttl), auth, k);
      OwedWith(b.reservations, id, Settled(r, actual, snapshot, now, ttl), auth, k);
    }
  }

  /** A settled reservation is reconciled at once exactly when it owes nothing; otherwise
      it settles until 30 s to 10 min after now, two minutes without a cooldown of the
      caller's, measured against the given snapshot. */
  lemma SettlementEnds(b: Book, id: Id, actual: Amount, snapshot: Snapshot, now: int, ttl: int)
    requires id in b.reservations && b.reservations[id].status in {Active, Expired}
    ensures var r, n := b.reservations[id], Settle(b, id, actual, snapshot, now, ttl).0;
            var w := n.reservations[id];
            var nothing := actual.weekly <= 0.0 && (actual.fiveHour <= 0.0 || r.reserved.fiveHour == 0.0);
            && (forall x | x in b.reservations && x != id :: x in n.reservations && n.reservations[x] == b.reservations[x])
            && n.reservations.Keys == b.reservations.Keys && n.capacities == b.capacities && n.next == b.next
            && w.auth == r.auth && w.reserved == r.reserved
            && w.status == (if nothing then Reconciled else Settling)
            && (nothing ==> w.actual.fiveHour == w.actual.weekly == 0.0)
            && (!nothing ==>
                  && w.settledAt == now && w.baseline == snapshot
                  && now + 30 * SECOND <= w.settleExpiresAt <= now + 600 * SECOND
                  && (30 * SECOND <= ttl <= 600 * SECOND ==> w.settleExpiresAt == now + ttl)
                  && (ttl <= 0 ==> w.settleExpiresAt == now + 120 * SECOND)
                  && (0 < ttl < 30 * SECOND ==> w.settleExpiresAt == now + 30 * SECOND)
                  && (ttl > 600 * SECOND ==> w.settleExpiresAt == now + 600 * SECOND))
  {
  }

  // Read later than both the settlement and its baseline.
  predicate Newer(base: Window, baseAt: int, current: Window, fallback: int, settledAt: int) {
    var seen := if current.at != 0 then current.at else fallback;
    seen != 0 && seen > settledAt && seen > if base.at != 0 then base.at else baseAt
  }

  /** An observation clears a debt exactly when it knows the window, is newer than the
      baseline and the settlement, and shows other usage, more credits used, or another
      reset cycle; the debt is then reconciled exactly when no window owes anything. */
  lemma ObservationClearsIff(b: Book, auth: string, snapshot: Snapshot, now: int, id: Id, k: Kind)
    requires id in b.reservations && b.reservations[id].status == Settling && b.reservations[id].auth == auth
    requires b.reservations[id].settleExpiresAt == 0 || now < b.reservations[id].settleExpiresAt
    requires Part(b.reservations[id].actual, k) > 0.0
    ensures var r, n := b.reservations[id], ObserveQuota(b, auth, snapshot, now).reservations[id];
            var base, seen := if k.FiveHour? then r.baseline.fiveHour else r.baseline.weekly, if k.FiveHour? then snapshot.fiveHour else snapshot.weekly;
            && (Part(n.actual, k) == 0.0 <==>
                  && base.Some? && seen.Some?
                  && Newer(base.value, r.baseline.refreshed, seen.value, snapshot.refreshed, r.settledAt)
                  && (seen.value.used - base.value.used > 0.000000001 || base.value.used - seen.value.used > 0.000000001
                      || (base.value.credits.Some? && seen.value.credits.Some? && seen.value.credits.value - base.value.credits.value > 0.000000001)
                      || (base.value.reset != 0 && seen.value.reset != 0
                          && (seen.value.reset - base.value.reset > 300 * SECOND || base.value.reset - seen.value.reset > 300 * SECOND))))
            && (Part(n.actual, k) == 0.0 || Part(n.actual, k) == Part(r.actual, k))
            && (n.status == Reconciled <==> n.actual.fiveHour <= 0.0 && n.actual.weekly <= 0.0)
            && (n.status == Reconciled || n.status == Settling)
  {
  }

  /** An observation first lets time pass for every account, and then touches only the
      settling reservations of its own. */
  lemma ObservationExpiresFirst(b: Book, auth: string, snapshot: Snapshot, now: int, id: Id)
    requires id in b.reservations
    ensures var o, e := ObserveQuota(b, auth, snapshot, now), Expire(b, now).reservations;
            && o.reservations.Keys == b.reservations.Keys && o.capacities == b.capacities && o.next == b.next
            && (!(e[id].status == Settling && e[id].auth == auth) ==> o.reservations[id] == e[id])
            && o.reservations[id].auth == e[id].auth && o.reservations[id].reserved == e[id].reserved
            && o.reservations[id].expiresAt == e[id].expiresAt && o.reservations[id].settleExpiresAt == e[id].settleExpiresAt
  {
  }

  /** Time alone ends a reservation exactly when it is active past its lease, and a debt
      exactly when it settles past its expiry; the zero time never comes. */
  lemma ExpiryIs(b: Book, now: int, id: Id)
    requires id in b.reservations
    ensures var r, n := b.reservations[id], Expire(b, now).reservations[id];
            && (n.status == Expired <==> r.status == Expired || (r.status == Active && r.expiresAt != 0 && now >= r.expiresAt))
            && (n.status == Reconciled <==> r.status == Reconciled || (r.status == Settling && r.settleExpiresAt != 0 && now >= r.settleExpiresAt))
            && (n.status != r.status && n.status == Reconciled ==> n.actual.fiveHour == n.actual.weekly == 0.0)
            && n.auth == r.auth && n.reserved == r.reserved
            && (n.status == r.status ==> n == r)
  {
  }

  /** A release gives back a reservation that has not ended, with whatever it holds or
      owes, and touches no other account. */
  lemma ReleaseGivesBack(b: Book, id: Id, auth: string, k: Kind)
    requires id in b.reservations
    ensures var r, n := b.reservations[id], Release(b, id).0;
            var mine := r.auth == auth;
            && Reserved(n.reservations, auth, k) == Reserved(b.reservations, auth, k) - (if mine && r.status == Active then Part(r.reserved, k) else 0.0)
            && Debt(n.reservations, auth, k) == Debt(b.reservations, auth, k) - (if mine && r.status == Settling then Part(r.actual, k) else 0.0)
            && (r.status == Reconciled ==> n == b)
            && (r.status != Reconciled ==> n.reservations[id].status == Released)
  {
    var r := b.reservations[id];
    if !Terminal(r.status) {
      var n := r.(status := Released, actual := Amount(0.0, 0.0));
      HeldWithout(b.reservations, id, n, auth, k);
      OwedWithout(b.reservations, id, n, auth, k);
    }
  }

  lemma OwedWithout(m: Reservations, id: Id, r: Reservation, auth: string, k: Kind)
    requires id in m && r.status != Settling && r.auth == m[id].auth
    ensures Debt(m[id := r], auth, k)
         == Debt(m, auth, k) - if m[id].status == Settling && m[id].auth == auth then Part(m[id].actual, k) else 0.0
  {
    var owed := Owed(m, auth, k);
    if id in owed {
      TotalRemove(owed, id);
      assert Owed(m[id := r], auth, k) == owed - {id};
    } else {
      assert Owed(m[id := r], auth, k) == owed;
    }
  }

  ghost predicate Kept(m: Reservations, n: Reservations) {
    && m.Keys <= n.Keys
    && forall id | id in m && Terminal(m[id].status) :: n[id] == m[id]
  }

  /** Released and reconciled are terminal, and no reservation is ever forgotten. */
  lemma TerminalStays(steps: seq<Step>, step: Step)
    ensures Kept(Run(steps).book.reservations, Next(Run(steps), step).book.reservations)
  {
    RunInv(steps);
  }

  /** A debt in a window goes away only by expiry, by release, or by a strictly newer
      observation that shows a change; polling the same numbers never erases it. */
  lemma DebtIsAcknowledged(s: System, step: Step, id: Id, k: Kind)
    requires id in s.book.reservations && s.book.reservations[id].status == Settling
    requires Part(s.book.reservations[id].actual, k) > 0.0 && Inv(s)
    ensures var r, n := s.book.reservations[id], Next(s, step).book.reservations[id];
            && n.auth == r.auth
            && ((n.status == Settling && Part(n.actual, k) == Part(r.actual, k))
                || (step.GiveBack? && step.id == id && n.status == Released)
                || (step.Tick? && Due(r.settleExpiresAt, step.at))
                || (step.Reserve? && Due(r.settleExpiresAt, step.at))
                || (step.Observe? && (Due(r.settleExpiresAt, step.at)
                                      || (step.auth == r.auth && Clears(r, step.snapshot, k) && Part(n.actual, k) == 0.0))))
  {
  }

  // --------------------------------------------------------------- the mutable book

  class Ledger {
    var capacities: map<string, Amount>
    var reservations: Reservations
    var next: nat

    ghost function View(): Book
      reads this
    {
      Book(capacities, reservations, next)
    }

    constructor ()
      ensures View() == EMPTY
    {
      capacities, reservations, next := map[], map[], 0;
    }

    method SetCapacityOf(auth: string, capacity: Amount)
      modifies this
      ensures View() == SetCapacity(old(View()), auth, capacity)
    {
      capacities := capacities[auth := Positive(capacity)];
    }

    method ExpireLocked(now: int) returns (changed: nat)
      modifies this`reservations
      ensures View() == Expire(old(View()), now)
      ensures changed == 0 ==> reservations == old(reservations)
    {
      changed := 0;
      ghost var start := reservations;
      var left := reservations.Keys;
      while left != {}
        invariant left <= start.Keys
        invariant reservations == map id | id in start :: if id in left then start[id] else ExpireOne(start[id], now)
        invariant changed == 0 ==> reservations == start
        decreases left
      {
        var id :| id in left;
        var r := reservations[id];
        left := left - {id};
        if r.status == Active && Due(r.expiresAt, now) {
          reservations := reservations[id := r.(status := Expired)];
          changed := changed + 1;
        } else if r.status == Settling && Due(r.settleExpiresAt, now) {
          reservations := reservations[id := r.(status := Reconciled, actual := Amount(0.0, 0.0))];
          changed := changed + 1;
        }
      }
    }

    method ReservedNow(auth: string, now: int) returns (sum: Amount)
      modifies this`reservations
      ensures View() == Expire(old(View()), now)
      ensures forall k: Kind :: Part(sum, k) == Reserved(reservations, auth, k)
    {
      var changed := ExpireLocked(now);
      sum := Amount(0.0, 0.0);
      var left := reservations.Keys;
      ghost var done: Reservations := map[];
      while left != {}
        invariant left <= reservations.Keys
        invariant View() == Expire(old(View()), now)
        invariant done == reservations - left
        invariant sum.fiveHour == Reserved(done, auth, FiveHour) && sum.weekly == Reserved(done, auth, Weekly)
        decreases left
      {
        var id :| id in left;
        var r := reservations[id];
        assert reservations - (left - {id}) == done[id := r];
        if r.auth == auth && r.status == Active {
          sum := Amount(sum.fiveHour + r.reserved.fiveHour, sum.weekly + r.reserved.weekly);
        }
        CountOne(done, id, r, auth, FiveHour);
        CountOne(done, id, r, auth, Weekly);
        done := done[id := r];
        left := left - {id};
      }
      assert done == reservations;
    }

    lemma CountOne(done: Reservations, id: Id, r: Reservation, auth: string, k: Kind)
      requires id !in done
      ensures Reserved(done[id := r], auth, k)
           == Reserved(done, auth, k) + if r.auth == auth && r.status == Active then Part(r.reserved, k) else 0.0
    {
      if r.status == Active {
        GrantAdds(Book(map[], done, 0), id, r, auth, k);
      } else {
        assert Held(done[id := r], auth, k) == Held(done, auth, k);
      }
    }

    method TryReserveFor(auth: string, request: Amount, ttl: int, now: int) returns (id: Option<Id>)
      modifies this
      ensures (View(), id) == TryReserve(old(View()), auth, request, ttl, now)
    {
      if auth == "" || auth !in capacities {
        return None;
      }
      var cap := capacities[auth];
      var sum := ReservedNow(auth, now);
      var want := Positive(request);
      assert Fits(View(), auth, want) <==> sum.fiveHour + want.fiveHour <= cap.fiveHour + SLACK && sum.weekly + want.weekly <= cap.weekly + SLACK by {
        assert Part(sum, FiveHour) == sum.fiveHour && Part(sum, Weekly) == sum.weekly;
      }
      if sum.fiveHour + want.fiveHour > cap.fiveHour + SLACK || sum.weekly + want.weekly > cap.weekly + SLACK {
        return None;
      }
      next := next + 1;
      reservations := reservations[(now, next) := NewReservation(auth, want, ttl, now)];
      return Some((now, next));
    }

    method ReleaseOf(id: Id) returns (known: bool)
      modifies this`reservations
      ensures (View(), known) == Release(old(View()), id)
    {
      if id !in reservations {
        return false;
      }
      if !Terminal(reservations[id].status) {
        reservations := reservations[id := reservations[id].(status := Released, actual := Amount(0.0, 0.0))];
      }
      return true;
    }

    method SettleOf(id: Id, actual: Amount, snapshot: Snapshot, now: int, ttl: int) returns (known: bool)
      modifies this`reservations
      ensures (View(), known) == Settle(old(View()), id, actual, snapshot, now, ttl)
    {
      if id !in reservations {
        return false;
      }
      var r := reservations[id];
      if Terminal(r.status) || r.status == Settling {
        return true;
      }
      var debit := Debit(r, actual);
      if debit.fiveHour <= 0.0 && debit.weekly <= 0.0 {
        r := r.(status := Reconciled, actual := Amount(0.0, 0.0));
      } else {
        r := r.(status := Settling, actual := debit, settledAt := now, baseline := snapshot);
        r := r.(settleExpiresAt := now + SettlementTtl(ttl));
      }
      reservations := reservations[id := r];
      return true;
    }

    method ObserveQuotaOf(auth: string, snapshot: Snapshot, now: int)
      modifies this`reservations
      ensures View() == ObserveQuota(old(View()), auth, snapshot, now)
    {
      var changed := ExpireLocked(now);
      ghost var start := reservations;
      var left := reservations.Keys;
      while left != {}
        invariant left <= start.Keys
        invariant reservations == map id | id in start :: if id in left then start[id] else Observed(start[id], auth, snapshot)
        decreases left
      {
        var id :| id in left;
        left := left - {id};
        var r := Acknowledge(reservations[id], auth, snapshot);
        reservations := reservations[id := r];
      }
    }

    static method Acknowledge(settling: Reservation, auth: string, snapshot: Snapshot) returns (r: Reservation)
      ensures r == Observed(settling, auth, snapshot)
    {
      r := settling;
      if r.status == Settling && r.auth == auth {
        var actual := r.actual;
        if actual.fiveHour > 0.0 && Clears(r, snapshot, FiveHour) {
          actual := actual.(fiveHour := 0.0);
        }
        if actual.weekly > 0.0 && Clears(r, snapshot, Weekly) {
          actual := actual.(weekly := 0.0);
        }
        r := r.(actual := actual);
        if actual.fiveHour <= 0.0 && actual.weekly <= 0.0 {
          r := r.(status := Reconciled);
        }
      }
    }
  }
}
