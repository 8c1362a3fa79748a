/**
 The rolling warmup budget (warmup_policy.go and the admission section of warmup.go):
 a ledger of admitted attempts that survives merges of persisted state, and the two
 limits enforced from it. Times are nanoseconds, 0 for Go's zero time.
 */
module WarmupBudget {
  import Backoff
  import Text

  const DAY: int := 24 * Backoff.HOUR
  const UNCERTAIN: int := 5 * Backoff.HOUR

  datatype Attempt = Attempt(auth: string, at: int)

  // What is remembered of the last warmup of a window; `failed` is a recorded error.
  datatype Entry = Entry(auth: string, attemptedAt: int, blocked: bool, failed: bool,
                         suppressUntil: int, failures: nat, completedAt: int, outcomeAt: int)

  type Entries = map<string, Entry>

  datatype Settings = Settings(minInterval: int, maxPerDay: int, retryAfter: int)

  // Configuration accepts one minute to one day; smaller values fall back.
  function Interval(c: Settings): int { if c.minInterval < Backoff.MINUTE then Backoff.MINUTE else c.minInterval }

  function Budget(c: Settings): int { if c.maxPerDay < 1 then 8 else c.maxPerDay }

  predicate Valid(c: Settings) { Interval(c) <= DAY }

  // ---------------------------------------------------------------------- merging

  predicate Counts(a: Attempt, now: int) { a.auth != "" && a.at > now - DAY }

  function Recorded(entries: Entries): set<Attempt> {
    set key | key in entries :: Attempt(entries[key].auth, entries[key].attemptedAt)
  }

  function Merged(ledger: set<Attempt>, incoming: set<Attempt>, entries: Entries, now: int): set<Attempt> {
    set a | a in ledger + incoming + Recorded(entries) && Counts(a, now)
  }

  /** Merging is an idempotent union that loses no attempt younger than 24 hours. */
  lemma MergeIsUnion(ledger: set<Attempt>, incoming: set<Attempt>, entries: Entries, now: int)
    ensures var m := Merged(ledger, incoming, entries, now);
            && Merged(m, incoming, entries, now) == m && Merged(m, {}, entries, now) == m
            && Merged(incoming, ledger, entries, now) == m
            && (forall a | a in ledger + incoming && Counts(a, now) :: a in m)
            && (forall a | a in m :: a.at > now - DAY && (a in ledger || a in incoming || a in Recorded(entries)))
  {
  }

  /** Later merges forget nothing earlier ones would have kept. */
  lemma MergesCompose(ledger: set<Attempt>, x: set<Attempt>, y: set<Attempt>, entries: Entries, t: int, now: int)
    requires t <= now
    ensures Merged(Merged(ledger, x, entries, t), y, entries, now) == Merged(ledger, x + y, entries, now)
  {
  }

  predicate Before(a: Attempt, b: Attempt) {
    a.at < b.at || (a.at == b.at && Text.Less(a.auth, b.auth))
  }

  ghost predicate Sorted(s: seq<Attempt>) {
    forall i, j | 0 <= i < j < |s| :: Before(s[i], s[j])
  }

  function Elements(s: seq<Attempt>): set<Attempt> { set a | a in s }

  /** The rebuilt ledger does not depend on the order of the union. */
  lemma {:induction false} SortedIsUnique(s: seq<Attempt>, t: seq<Attempt>)
    requires Sorted(s) && Sorted(t) && Elements(s) == Elements(t)
    ensures s == t
    decreases |s|
  {
    if s == [] {
      if t != [] {
        HasElement(t);
        assert false;
      }
    } else {
      assert s[0] in Elements(t) && t != [];
      assert t[0] in Elements(s);
      FirstIsLeast(s, t[0]);
      FirstIsLeast(t, s[0]);
      NotBoth(s[0], t[0]);
      forall a ensures a in Elements(s[1..]) <==> a in Elements(t[1..]) {
        TailElements(s, a);
        TailElements(t, a);
      }
      SortedIsUnique(s[1..], t[1..]);
      assert s == [s[0]] + s[1..] && t == [t[0]] + t[1..];
    }
  }

  lemma HasElement(t: seq<Attempt>)
    requires t != []
    ensures Elements(t) != {}
  {
    assert t[0] in Elements(t);
  }

  lemma FirstIsLeast(s: seq<Attempt>, a: Attempt)
    requires Sorted(s) && a in s
    ensures s[0] == a || Before(s[0], a)
  {
    var i :| 0 <= i < |s| && s[i] == a;
  }

  lemma NotBoth(a: Attempt, b: Attempt)
    ensures !(Before(a, b) && Before(b, a)) && !Before(a, a)
  {
    Text.Irreflexive(a.auth);
    if a.at == b.at && Text.Less(a.auth, b.auth) && Text.Less(b.auth, a.auth) {
      Text.Transitive(a.auth, b.auth, a.auth);
    }
  }

  lemma TailElements(s: seq<Attempt>, a: Attempt)
    requires Sorted(s) && s != []
    ensures a in Elements(s[1..]) <==> a in Elements(s) && a != s[0]
  {
    assert s == [s[0]] + s[1..];
    NotBoth(s[0], s[0]);
    if a in s[1..] {
      var i :| 0 <= i < |s[1..]| && s[1..][i] == a;
      assert Before(s[0], s[i + 1]);
    }
  }

  // ----------------------------------------------------------------------- holds

  function Mine(ledger: set<Attempt>, auth: string): set<Attempt> {
    set a | a in ledger && a.auth == auth
  }

  predicate PoolHeld(ledger: set<Attempt>, interval: int, now: int) {
    exists a :: a in ledger && now < a.at + interval
  }

  // How long a remembered outcome holds the account back.
  function RetryAt(e: Entry, c: Settings): int {
    if e.failed then if e.suppressUntil != 0 then e.suppressUntil else e.attemptedAt + Backoff.WarmupDelay(e.failures, c.retryAfter)
    else if e.completedAt == 0 && e.outcomeAt == 0 then e.suppressUntil
    else 0
  }

  predicate EntryHolds(e: Entry, auth: string, c: Settings, now: int) {
    e.auth == auth && (e.blocked || now < RetryAt(e, c))
  }

  predicate AccountHeld(ledger: set<Attempt>, entries: Entries, auth: string, c: Settings, now: int) {
    || |Mine(ledger, auth)| >= Budget(c)
    || exists key :: key in entries && EntryHolds(entries[key], auth, c, now)
  }

  // ------------------------------------------------------------------------ runs

  // `admitted` is history: every attempt ever admitted, in order.
  datatype System = System(ledger: set<Attempt>, entries: Entries, admitted: seq<Attempt>, clock: int)

  datatype Step =
    | Admit(auth: string, key: string, now: int)
    | Load(incoming: set<Attempt>, now: int)
    | Note(entries: Entries)

  function NewEntry(auth: string, failures: nat, now: int): Entry {
    Entry(auth, now, false, false, now + UNCERTAIN, failures, 0, 0)
  }

  predicate Admissible(s: System, c: Settings, auth: string, now: int) {
    var ledger := Merged(s.ledger, {}, s.entries, now);
    auth != "" && !PoolHeld(ledger, Interval(c), now) && !AccountHeld(ledger, s.entries, auth, c, now)
  }

  // An admission records the attempt before anything is sent. Loads and notes may
  // bring in anything: other instances' attempts, outcomes, cleared blocks.
  function Next(c: Settings, s: System, step: Step): System {
    match step
    case Admit(auth, key, now) =>
      if now < s.clock || !Admissible(s, c, auth, now) then s
      else
        var entries := s.entries[key := NewEntry(auth, if key in s.entries then s.entries[key].failures else 0, now)];
        System(Merged(Merged(s.ledger, {}, s.entries, now), {Attempt(auth, now)}, entries, now),
               entries, s.admitted + [Attempt(auth, now)], now)
    case Load(incoming, now) =>
      if now < s.clock then s else s.(ledger := Merged(s.ledger, incoming, s.entries, now), clock := now)
    case Note(entries) => s.(entries := entries)
  }

  function Run(c: Settings, steps: seq<Step>): System
    decreases |steps|
  {
    if steps == [] then System({}, map[], [], 0) else Next(c, Run(c, steps[..|steps| - 1]), steps[|steps| - 1])
  }

  // Earlier admissions of the same account within 24 hours of the j-th.
  ghost function Within(admitted: seq<Attempt>, j: nat): set<int>
    requires j < |admitted|
  {
    set i | 0 <= i < j && admitted[i].auth == admitted[j].auth && admitted[i].at > admitted[j].at - DAY
  }

  ghost predicate Spaced(admitted: seq<Attempt>, interval: int) {
    forall i, j | 0 <= i < j < |admitted| :: admitted[j].at - admitted[i].at >= interval
  }

  ghost predicate Budgeted(admitted: seq<Attempt>, budget: int) {
    forall j | 0 <= j < |admitted| :: |Within(admitted, j)| < budget
  }

  ghost predicate Remembered(s: System) {
    forall i | 0 <= i < |s.admitted| ::
      s.admitted[i].auth != "" && s.admitted[i].at <= s.clock && (s.admitted[i].at > s.clock - DAY ==> s.admitted[i] in s.ledger)
  }

  ghost predicate Inv(c: Settings, s: System) {
    Remembered(s) && Spaced(s.admitted, Interval(c)) && Budgeted(s.admitted, Budget(c))
  }

  lemma Member<T>(s: set<T>) returns (x: T)
    requires s != {}
    ensures x in s
  {
    x :| x in s;
  }

  lemma {:induction false} ImageSize(admitted: seq<Attempt>, indices: set<int>, image: set<Attempt>)
    requires forall i | i in indices :: 0 <= i < |admitted| && admitted[i] in image
    requires forall i, j | i in indices && j in indices && i != j :: admitted[i] != admitted[j]
    ensures |indices| <= |image|
    decreases |indices|
  {
    if indices != {} {
      var i := Member(indices);
      ImageSize(admitted, indices - {i}, image - {admitted[i]});
    }
  }

  lemma AdmitSpaces(c: Settings, s: System, auth: string, now: int)
    requires Valid(c) && Inv(c, s) && now >= s.clock && Admissible(s, c, auth, now)
    ensures Spaced(s.admitted + [Attempt(auth, now)], Interval(c))
  {
    var n := s.admitted + [Attempt(auth, now)];
    forall i, j | 0 <= i < j < |n| ensures n[j].at - n[i].at >= Interval(c) {
      if j == |s.admitted| && n[i].at > now - DAY {
        assert n[i] in Merged(s.ledger, {}, s.entries, now);
      }
    }
  }

  lemma AdmitBudgets(c: Settings, s: System, auth: string, now: int)
    requires Valid(c) && Inv(c, s) && now >= s.clock && Admissible(s, c, auth, now)
    ensures Budgeted(s.admitted + [Attempt(auth, now)], Budget(c))
  {
    var n := s.admitted + [Attempt(auth, now)];
    forall j | 0 <= j < |n| ensures |Within(n, j)| < Budget(c) {
      if j == |s.admitted| {
        var mine := Mine(Merged(s.ledger, {}, s.entries, now), auth);
        forall i | i in Within(n, j) ensures n[i] in mine {
          assert s.admitted[i] == n[i];
        }
        IntervalIsPositive(c);
        ImageSize(n, Within(n, j), mine);
      } else {
        assert Within(n, j) == Within(s.admitted, j);
      }
    }
  }

  lemma IntervalIsPositive(c: Settings)
    ensures Interval(c) > 0 && Budget(c) >= 1
  {
  }

  lemma StepInv(c: Settings, s: System, step: Step)
    requires Valid(c) && Inv(c, s)
    ensures Inv(c, Next(c, s, step))
  {
    if step.Admit? && step.now >= s.clock && Admissible(s, c, step.auth, step.now) {
      AdmitSpaces(c, s, step.auth, step.now);
      AdmitBudgets(c, s, step.auth, step.now);
    }
  }

  lemma {:induction false} RunInv(c: Settings, steps: seq<Step>)
    requires Valid(c)
    ensures Inv(c, Run(c, steps))
    decreases |steps|
  {
    if steps != [] {
      RunInv(c, steps[..|steps| - 1]);
      StepInv(c, Run(c, steps[..|steps| - 1]), steps[|steps| - 1]);
    }
  }

  // The admissions of one account in the window (until - 24h, until].
  ghost function Window(admitted: seq<Attempt>, auth: string, until: int): set<int> {
    set i | 0 <= i < |admitted| && admitted[i].auth == auth && until - DAY < admitted[i].at <= until
  }

  /** The budget: in every run, whatever other state is merged in, every 24 hour window
      contains at most the daily number of admitted attempts of each account. */
  lemma BudgetHolds(c: Settings, steps: seq<Step>, auth: string, until: int)
    requires Valid(c)
    ensures |Window(Run(c, steps).admitted, auth, until)| <= Budget(c)
  {
    RunInv(c, steps);
    IntervalIsPositive(c);
    var admitted := Run(c, steps).admitted;
    var window := Window(admitted, auth, until);
    if window != {} {
      var j := Last(window);
      assert window <= Within(admitted, j) + {j} by {
        forall i | i in window && i != j ensures i in Within(admitted, j) {
        }
      }
      SubsetSize(window, Within(admitted, j) + {j});
    }
  }

  lemma {:induction false} SubsetSize(a: set<int>, b: set<int>)
    requires a <= b
    ensures |a| <= |b|
  {
    assert b == a + (b - a);
  }

  lemma {:induction false} Last(s: set<int>) returns (m: int)
    requires s != {}
    ensures m in s && forall i | i in s :: i <= m
    decreases |s|
  {
    m := Member(s);
    assert forall i | i in s :: i == m || i in s - {m};
    if s - {m} != {} {
      var rest := Last(s - {m});
      if rest > m { m := rest; }
    }
  }

  /** Spacing: any two admitted attempts in the pool are at least the minimum interval
      apart. */
  lemma SpacingHolds(c: Settings, steps: seq<Step>, i: nat, j: nat)
    requires Valid(c) && i < j < |Run(c, steps).admitted|
    ensures Run(c, steps).admitted[j].at - Run(c, steps).admitted[i].at >= Interval(c)
  {
    RunInv(c, steps);
  }

  // ------------------------------------------------------- exactly when, on fields

  // An attempt younger than 24 hours that the ledger or a remembered outcome knows.
  predicate Recent(s: System, a: Attempt, now: int) {
    && a.auth != "" && now - a.at < 24 * Backoff.HOUR
    && (a in s.ledger || exists key :: key in s.entries && s.entries[key].auth == a.auth && s.entries[key].attemptedAt == a.at)
  }

  // A remembered outcome holds its account: for good, after a failure until it is
  // suppressed or backed off, and without any outcome until it is suppressed.
  predicate Holds(e: Entry, c: Settings, now: int) {
    || e.blocked
    || (e.failed && e.suppressUntil != 0 && now < e.suppressUntil)
    || (e.failed && e.suppressUntil == 0 && now < e.attemptedAt + Backoff.WarmupDelay(e.failures, c.retryAfter))
    || (!e.failed && e.completedAt == 0 && e.outcomeAt == 0 && now < e.suppressUntil)
  }

  lemma HoldsIff(e: Entry, auth: string, c: Settings, now: int)
    requires now >= 0
    ensures EntryHolds(e, auth, c, now) <==> e.auth == auth && Holds(e, c, now)
  {
  }

  lemma RecentIsMerged(s: System, now: int)
    ensures Merged(s.ledger, {}, s.entries, now) == set a | a in s.ledger + Recorded(s.entries) && Recent(s, a, now)
    ensures forall a :: Recent(s, a, now) ==> a in s.ledger + Recorded(s.entries)
  {
    forall a ensures a in Recorded(s.entries) <==> exists key :: key in s.entries && s.entries[key].auth == a.auth && s.entries[key].attemptedAt == a.at {
      if key :| key in s.entries && s.entries[key].auth == a.auth && s.entries[key].attemptedAt == a.at {
        assert Attempt(s.entries[key].auth, s.entries[key].attemptedAt) == a;
      }
    }
  }

  /** A warmup is admitted exactly when the last recent attempt of the pool is at least
      the minimum interval old, the account made fewer than its budget of recent
      attempts, and none of its remembered outcomes holds it. */
  lemma AdmittedIff(c: Settings, steps: seq<Step>, auth: string, key: string, now: int)
    requires now >= Run(c, steps).clock && now >= 0
    ensures var s := Run(c, steps);
            var mine := set a | a in s.ledger + Recorded(s.entries) && Recent(s, a, now) && a.auth == auth;
            Next(c, s, Admit(auth, key, now)).admitted
            == s.admitted + if && auth != ""
                               && (forall a | Recent(s, a, now) :: now - a.at >= (if c.minInterval >= Backoff.MINUTE then c.minInterval else Backoff.MINUTE))
                               && |mine| < (if c.maxPerDay >= 1 then c.maxPerDay else 8)
                               && (forall k | k in s.entries && s.entries[k].auth == auth :: !Holds(s.entries[k], c, now))
                            then [Attempt(auth, now)] else []
  {
    var s := Run(c, steps);
    RecentIsMerged(s, now);
    forall k | k in s.entries ensures EntryHolds(s.entries[k], auth, c, now) <==> s.entries[k].auth == auth && Holds(s.entries[k], c, now) {
      HoldsIff(s.entries[k], auth, c, now);
    }
    var mine := set a | a in s.ledger + Recorded(s.entries) && Recent(s, a, now) && a.auth == auth;
    assert Mine(Merged(s.ledger, {}, s.entries, now), auth) == mine;
  }

  /** What an admission records: the attempt in the ledger, and an entry of unknown outcome
      for five hours that keeps the count of failures; the rest of the ledger loses only
      attempts that are no longer recent. */
  lemma AdmissionRecords(c: Settings, steps: seq<Step>, auth: string, key: string, now: int)
    requires now >= Run(c, steps).clock && now >= 0
    requires Next(c, Run(c, steps), Admit(auth, key, now)).admitted != Run(c, steps).admitted
    ensures var s, n := Run(c, steps), Next(c, Run(c, steps), Admit(auth, key, now));
            && Attempt(auth, now) in n.ledger && n.clock == now
            && (forall a | a in s.ledger && Recent(s, a, now) :: a in n.ledger)
            && (forall a | a in n.ledger && a != Attempt(auth, now) :: Recent(s, a, now))
            && key in n.entries && (forall k | k in s.entries && k != key :: k in n.entries && n.entries[k] == s.entries[k])
            && var e := n.entries[key];
               && e.auth == auth && e.attemptedAt == now && e.suppressUntil == now + 5 * Backoff.HOUR
               && e.failures == (if key in s.entries then s.entries[key].failures else 0)
               && !e.blocked && !e.failed && e.completedAt == 0 && e.outcomeAt == 0
  {
    RecentIsMerged(Run(c, steps), now);
  }

  /** An admitted attempt is on record before anything is sent: whatever other state is
      loaded afterwards, its account gets no other warmup for five hours unless the
      entry is rewritten. */
  lemma UncertainHolds(c: Settings, steps: seq<Step>, auth: string, key: string, now: int, incoming: set<Attempt>, at: int, other: string, later: int)
    requires now >= Run(c, steps).clock && now >= 0
    requires Next(c, Run(c, steps), Admit(auth, key, now)).admitted != Run(c, steps).admitted
    requires now <= later < now + 5 * Backoff.HOUR
    ensures var loaded := Next(c, Next(c, Run(c, steps), Admit(auth, key, now)), Load(incoming, at));
            Next(c, loaded, Admit(auth, other, later)) == loaded
  {
    var s := Next(c, Run(c, steps), Admit(auth, key, now));
    var loaded := Next(c, s, Load(incoming, at));
    assert key in loaded.entries && EntryHolds(loaded.entries[key], auth, c, later);
  }

  // -------------------------------------------------------- the mutable ledger

  datatype Status = Status(held: bool, next: int)

  class Warmups {
    var attempts: seq<Attempt>
    var entries: Entries

    constructor ()
      ensures attempts == [] && entries == map[]
    {
      attempts, entries := [], map[];
    }

    // Rebuild the ledger as the sorted union.
    method Merge(incoming: seq<Attempt>, now: int)
      modifies this`attempts
      ensures Sorted(attempts)
      ensures Elements(attempts) == Merged(Elements(old(attempts)), Elements(incoming), entries, now)
    {
      var seen := Union(attempts, incoming, now);
      attempts := [];
      ghost var all := seen;
      while seen != {}
        invariant seen <= all && Sorted(attempts) && Elements(attempts) == all - seen
        decreases seen
      {
        var a :| a in seen;
        seen := seen - {a};
        var placed := Place(attempts, a);
        attempts := placed;
      }
    }

    method Union(ledger: seq<Attempt>, incoming: seq<Attempt>, now: int) returns (seen: set<Attempt>)
      ensures seen == Merged(Elements(ledger), Elements(incoming), entries, now)
    {
      seen := {};
      for i := 0 to |ledger|
        invariant seen == Merged(Elements(ledger[..i]), {}, map[], now)
      {
        assert ledger[..i + 1] == ledger[..i] + [ledger[i]];
        if Counts(ledger[i], now) {
          seen := seen + {ledger[i]};
        }
      }
      assert ledger[..|ledger|] == ledger;
      for i := 0 to |incoming|
        invariant seen == Merged(Elements(ledger), Elements(incoming[..i]), map[], now)
      {
        assert incoming[..i + 1] == incoming[..i] + [incoming[i]];
        if Counts(incoming[i], now) {
          seen := seen + {incoming[i]};
        }
      }
      assert incoming[..|incoming|] == incoming;
      var left := entries.Keys;
      ghost var known: set<Attempt> := {};
      while left != {}
        invariant left <= entries.Keys
        invariant known == set key | key in entries && key !in left :: Attempt(entries[key].auth, entries[key].attemptedAt)
        invariant seen == set a | a in Elements(ledger) + Elements(incoming) + known && Counts(a, now)
        decreases left
      {
        var key :| key in left;
        left := left - {key};
        var a := Attempt(entries[key].auth, entries[key].attemptedAt);
        known := known + {a};
        if Counts(a, now) {
          seen := seen + {a};
        }
      }
      assert known == Recorded(entries);
    }

    // Insert a new attempt in order.
    static method Place(s: seq<Attempt>, a: Attempt) returns (r: seq<Attempt>)
      requires Sorted(s) && a !in s
      ensures Sorted(r) && Elements(r) == Elements(s) + {a}
    {
      var i := |s|;
      while i > 0 && Before(a, s[i - 1])
        invariant 0 <= i <= |s|
        invariant forall j | i <= j < |s| :: Before(a, s[j])
      {
        i := i - 1;
      }
      r := s[..i] + [a] + s[i..];
      PlacedIsSorted(s, a, i);
      PlacedElements(s, a, i);
    }

    static lemma PlacedElements(s: seq<Attempt>, a: Attempt, i: nat)
      requires i <= |s|
      ensures Elements(s[..i] + [a] + s[i..]) == Elements(s) + {a}
    {
      assert s == s[..i] + s[i..];
      forall x ensures x in s[..i] + [a] + s[i..] <==> x in s || x == a {
      }
    }

    static lemma PlacedIsSorted(s: seq<Attempt>, a: Attempt, i: nat)
      requires Sorted(s) && a !in s && i <= |s|
      requires forall j | i <= j < |s| :: Before(a, s[j])
      requires i > 0 ==> !Before(a, s[i - 1])
      ensures Sorted(s[..i] + [a] + s[i..])
    {
      var r := s[..i] + [a] + s[i..];
      if i > 0 {
        Ordered(a, s[i - 1]);
        forall j | 0 <= j < i ensures Before(s[j], a) {
          if j < i - 1 { Chain(s[j], s[i - 1], a); }
        }
      }
      forall j, k | 0 <= j < k < |r| ensures Before(r[j], r[k]) {
        if j < i && k > i { assert r[k] == s[k - 1]; }
        if j == i { assert r[k] == s[k - 1]; }
        if j > i { assert r[j] == s[j - 1] && r[k] == s[k - 1]; }
      }
    }

    static lemma Ordered(a: Attempt, b: Attempt)
      ensures a == b || Before(a, b) || Before(b, a)
    {
      Text.Total(a.auth, b.auth);
    }

    static lemma Chain(a: Attempt, b: Attempt, c: Attempt)
      requires Before(a, b) && Before(b, c)
      ensures Before(a, c)
    {
      if a.at == b.at == c.at { Text.Transitive(a.auth, b.auth, c.auth); }
    }

    // The pool's hold: the newest attempt and the minimum interval.
    method PoolStatus(c: Settings, now: int) returns (status: Status)
      modifies this`attempts
      ensures Sorted(attempts) && Elements(attempts) == Merged(Elements(old(attempts)), {}, entries, now)
      ensures status.held <==> PoolHeld(Elements(attempts), Interval(c), now)
      ensures status.held ==> status.next > now && forall a | a in attempts :: a.at + Interval(c) <= status.next
    {
      Merge([], now);
      var n := |attempts|;
      if n > 0 {
        var until := attempts[n - 1].at + Interval(c);
        assert forall i | 0 <= i < n :: attempts[i].at <= attempts[n - 1].at;
        if now < until {
          assert attempts[n - 1] in Elements(attempts);
          return Status(true, until);
        }
      }
      return Status(false, 0);
    }

    // An account's hold: its budget of the last 24 hours and its last outcomes.
    method AccountStatus(auth: string, c: Settings, now: int) returns (status: Status)
      modifies this`attempts
      ensures Sorted(attempts) && Elements(attempts) == Merged(Elements(old(attempts)), {}, entries, now)
      ensures status.held <==> AccountHeld(Elements(attempts), entries, auth, c, now)
    {
      Merge([], now);
      var mine := Select(auth);
      var next, held := 0, false;
      if |mine| >= Budget(c) {
        var until := mine[|mine| - Budget(c)].at + DAY;
        assert mine[|mine| - Budget(c)] in Elements(mine);
        assert until > now;
        next, held := until, true;
      }
      var left, blocked := entries.Keys, false;
      ghost var over, ledger := held, attempts;
      while left != {}
        invariant attempts == ledger
        invariant left <= entries.Keys && over == (|mine| >= Budget(c))
        invariant held || blocked <==> over || exists key :: key in entries && key !in left && EntryHolds(entries[key], auth, c, now)
        decreases left
      {
        var key :| key in left;
        left := left - {key};
        var e := entries[key];
        if e.auth == auth {
          blocked := blocked || e.blocked;
          var until := Until(e, c);
          if now < until {
            held := true;
            if until >= next {
              next := until;
            }
          }
        }
      }
      return if blocked then Status(true, 0) else Status(held, next);
    }

    static method Until(e: Entry, c: Settings) returns (until: int)
      ensures until == RetryAt(e, c)
    {
      if e.failed {
        until := e.suppressUntil;
        if until == 0 {
          var delay := Backoff.ComputeWarmupDelay(c.retryAfter, e.failures);
          until := e.attemptedAt + delay;
        }
      } else if e.completedAt == 0 && e.outcomeAt == 0 {
        until := e.suppressUntil;
      } else {
        until := 0;
      }
    }

    method Select(auth: string) returns (mine: seq<Attempt>)
      requires Sorted(attempts)
      ensures |mine| == |Mine(Elements(attempts), auth)| && Elements(mine) == Mine(Elements(attempts), auth)
    {
      mine := [];
      for i := 0 to |attempts|
        invariant Elements(mine) == Mine(Elements(attempts[..i]), auth) && |mine| == |Elements(mine)|
      {
        assert attempts[..i + 1] == attempts[..i] + [attempts[i]];
        if attempts[i].auth == auth {
          NewElement(attempts, i);
          assert Elements(mine + [attempts[i]]) == Elements(mine) + {attempts[i]};
          mine := mine + [attempts[i]];
        }
      }
      assert attempts[..|attempts|] == attempts;
    }

    static lemma NewElement(s: seq<Attempt>, i: nat)
      requires Sorted(s) && i < |s|
      ensures s[i] !in Elements(s[..i])
    {
      forall j | 0 <= j < i ensures s[j] != s[i] {
        NotBoth(s[j], s[i]);
      }
    }

    // The whole admission section for one candidate.
    method Admit(auth: string, key: string, c: Settings, now: int) returns (ok: bool)
      modifies this
      ensures ok <==> Admissible(System(Elements(old(attempts)), old(entries), [], now), c, auth, now)
      ensures Sorted(attempts)
      ensures ok ==>
        var s := System(Elements(old(attempts)), old(entries), [], now);
        var n := Next(c, s, Step.Admit(auth, key, now));
        Elements(attempts) == n.ledger && entries == n.entries
      ensures !ok ==> entries == old(entries) && Elements(attempts) == Merged(Elements(old(attempts)), {}, entries, now)
    {
      ghost var start := Elements(attempts);
      var pool := PoolStatus(c, now);
      var account := AccountStatus(auth, c, now);
      MergeIsUnion(start, {}, entries, now);
      if auth == "" || pool.held || account.held {
        return false;
      }
      entries := entries[key := NewEntry(auth, if key in entries then entries[key].failures else 0, now)];
      Merge([Attempt(auth, now)], now);
      assert Elements([Attempt(auth, now)]) == {Attempt(auth, now)};
      return true;
    }
  }
}
