/**
 Any number of loaded plugin instances run reserve, claim, commit, check and
 release over one shared generation record (generation_owner.go).
 */
module GenerationProtocol {
  import opened GenerationRecord
  import opened GenerationJournal

  type Instance = nat
  type ThreadId = nat

  // One instance's own view of its lease (schedulerGenerationOwnership).
  datatype Ownership = Ownership(
    managed: bool,
    owner: string,
    ticket: nat,
    claimed: bool,
    claimedAt: nat,
    released: bool,
    superseded: bool,
    observedGeneration: nat)

  const UNMANAGED := Ownership(false, "", 0, false, 0, false, false, 0)

  function Reserved(owner: string, ticket: nat): Ownership {
    Ownership(true, owner, ticket, false, 0, false, false, 0)
  }

  function AfterClaim(m: Ownership, snap: Ownership, now: nat): Ownership {
    if !m.superseded && m.ticket == snap.ticket && m.owner == snap.owner
    then m.(claimed := true, claimedAt := now) else m
  }

  function AfterRelease(m: Ownership, snap: Ownership): Ownership {
    if m.ticket == snap.ticket && m.owner == snap.owner then m.(released := true) else m
  }

  // markGenerationSuperseded
  function AfterSupersede(m: Ownership, observed: nat): Ownership {
    if !m.managed || m.superseded then m
    else m.(superseded := true,
            observedGeneration := if observed > m.observedGeneration then observed else m.observedGeneration)
  }

  datatype Kind = Claiming | Committing | Checking | Releasing

  predicate MayBegin(m: Ownership, kind: Kind) {
    m.managed && !m.superseded && !m.released && (kind.Claiming? <==> !m.claimed)
  }

  // ------------------------------------------------------ one loaded instance

  // The shared state that commits write; the commit callback appends to it.
  class CommitLog {
    var tickets: seq<nat>

    constructor ()
      ensures tickets == []
    {
      tickets := [];
    }
  }

  class SchedulerGeneration {
    var ownership: Ownership

    constructor ()
      ensures ownership == UNMANAGED
    {
      ownership := UNMANAGED;
    }

    // reserveGenerationOwnership
    method ReserveOwnership(journal: JournalFile, owner: string, now: nat, fault: Fault) returns (ok: bool)
      modifies this`ownership, journal`bytes
      ensures var (bytes, res) := Update(journal.codec, old(journal.bytes), GenerationRecord.Reserve(now), fault);
              && journal.bytes == bytes && ok == res.Ok?
              && ownership == if ok then Reserved(owner, res.value.highestReserved) else old(ownership)
    {
      var res, _ := journal.UpdateRecord(GenerationRecord.Reserve(now), fault);
      if res.Err? {
        return false;
      }
      ownership := Reserved(owner, res.value.highestReserved);
      return true;
    }

    method MarkSuperseded(observed: nat)
      modifies this`ownership
      ensures ownership == AfterSupersede(old(ownership), observed)
    {
      if !ownership.managed || ownership.superseded {
        return;
      }
      ownership := ownership.(superseded := true);
      if observed > ownership.observedGeneration {
        ownership := ownership.(observedGeneration := observed);
      }
    }

    // claimGenerationAfterSuccessfulRefresh of a managed, not yet claimed instance
    method ClaimOwnership(journal: JournalFile, now: nat, fault: Fault) returns (claimedNow: bool, failed: bool)
      modifies this`ownership, journal`bytes
      ensures !MayBegin(old(ownership), Claiming) ==>
                !claimedNow && !failed && journal.bytes == old(journal.bytes) && ownership == old(ownership)
      ensures MayBegin(old(ownership), Claiming) ==>
                var m := old(ownership);
                var (bytes, res) := Update(journal.codec, old(journal.bytes), GenerationRecord.Claim(m.ticket, m.owner, now), fault);
                && journal.bytes == bytes && failed == res.Err?
                && (res.Ok? ==>
                      var seen := Read(journal.codec, old(journal.bytes)).value.latest;
                      && claimedNow == !Superseded(seen, m.ticket)
                      && ownership == (if claimedNow then AfterClaim(m, m, now) else AfterSupersede(m, seen.activeGeneration)))
                && (res.Err? ==> !claimedNow && ownership == m)
    {
      var snap := ownership;
      if !MayBegin(snap, Claiming) {
        return false, false;
      }
      var res, seen := journal.UpdateRecord(GenerationRecord.Claim(snap.ticket, snap.owner, now), fault);
      if res.Err? {
        return false, true;
      }
      if Superseded(seen, snap.ticket) {
        MarkSuperseded(seen.activeGeneration);
        return false, false;
      }
      if !ownership.superseded && ownership.ticket == snap.ticket && ownership.owner == snap.owner {
        ownership := ownership.(claimed := true, claimedAt := now);
        return true, false;
      }
      return false, false;
    }

    // withGenerationOwnerCommit of a managed instance; the commit runs under the lock
    // and may fail by itself once it was entered
    method CommitAsOwner(journal: JournalFile, log: CommitLog, commits: bool, fault: Fault) returns (committed: bool, failed: bool)
      modifies this`ownership, journal`bytes, log`tickets
      ensures !MayBegin(old(ownership), Committing) ==>
                !committed && !failed && journal.bytes == old(journal.bytes) && ownership == old(ownership) && log.tickets == old(log.tickets)
      ensures MayBegin(old(ownership), Committing) ==>
                var m := old(ownership);
                var (bytes, res) := Update(journal.codec, old(journal.bytes), Look, fault);
                var entered := res.Ok? && Holds(res.value, m.ticket, m.owner);
                && journal.bytes == bytes && committed == (entered && commits) && failed == (res.Err? || (entered && !commits))
                && log.tickets == old(log.tickets) + (if entered then [m.ticket] else [])
                && ownership == (if res.Ok? && !entered then AfterSupersede(m, res.value.activeGeneration) else m)
    {
      var snap := ownership;
      if !MayBegin(snap, Committing) {
        return false, false;
      }
      var res, seen := journal.UpdateRecord(Look, fault);
      if res.Err? {
        return false, true;
      }
      if !Holds(seen, snap.ticket, snap.owner) {
        MarkSuperseded(seen.activeGeneration);
        return false, false;
      }
      log.tickets := log.tickets + [snap.ticket];
      return commits, !commits;
    }

    // releaseGenerationOwnership
    method ReleaseOwnership(journal: JournalFile, now: nat, fault: Fault) returns (failed: bool)
      modifies this`ownership, journal`bytes
      ensures !MayBegin(old(ownership), Releasing) ==>
                !failed && journal.bytes == old(journal.bytes) && ownership == old(ownership)
      ensures MayBegin(old(ownership), Releasing) ==>
                var m := old(ownership);
                var (bytes, res) := Update(journal.codec, old(journal.bytes), GenerationRecord.Release(m.ticket, m.owner, now), fault);
                && journal.bytes == bytes && failed == res.Err?
                && ownership ==
                     if res.Err? then m
                     else
                       var seen := Read(journal.codec, old(journal.bytes)).value.latest;
                       if Holds(seen, m.ticket, m.owner) then AfterRelease(m, m)
                       else AfterSupersede(m, seen.activeGeneration)
    {
      var snap := ownership;
      if !MayBegin(snap, Releasing) {
        return false;
      }
      var res, seen := journal.UpdateRecord(GenerationRecord.Release(snap.ticket, snap.owner, now), fault);
      if res.Err? {
        return true;
      }
      if !Holds(seen, snap.ticket, snap.owner) {
        MarkSuperseded(seen.activeGeneration);
        return false;
      }
      if ownership.ticket == snap.ticket && ownership.owner == snap.owner {
        ownership := ownership.(released := true);
      }
      return false;
    }
  }

  // ------------------------------------------------------- the whole system

  datatype Todo =
    | PublishReservation(owner: string, ticket: nat)
    | Holding(kind: Kind, snap: Ownership) // snapshot taken, file lock not yet held
    | PublishClaim(claimSnap: Ownership, now: nat)
    | PublishRelease(releaseSnap: Ownership)
    | PublishSuperseded(observed: nat)

  datatype Thread = Thread(instance: Instance, todo: Todo)
  datatype Issue = Issue(ticket: nat, instance: Instance)

  // `issued` and `commits` record every reservation and every entry into a commit.
  datatype State = State(
    record: Record,
    memory: map<Instance, Ownership>,
    threads: map<ThreadId, Thread>,
    issued: seq<Issue>,
    commits: seq<nat>)

  // Every way an append can end: it succeeds, or it fails with or without the new line
  // having become durable. In FileProtocol the same protocol runs over the bytes.
  datatype Outcome = Done | Failed(written: bool)

  // One step is one critical section: the journal section of an operation under the
  // file lock, or the publication of its result under the instance's own mutex.
  // Between the two anything else may happen, and an instance may crash anywhere.
  datatype Step =
    | Load(instance: Instance)
    | Reserve(thread: ThreadId, instance: Instance, owner: string, now: nat, outcome: Outcome)
    | Begin(thread: ThreadId, instance: Instance, kind: Kind)
    | Locked(thread: ThreadId, now: nat, outcome: Outcome)
    | Publish(thread: ThreadId)
    | Crash(instance: Instance)

  // The effect of one journal section on the record.
  function JournalStep(r: Record, req: Request, outcome: Outcome): Record {
    match Resolve(req, r)
    case Err => r
    case Ok(w) => if outcome == Failed(false) then r else w
  }

  function Dropped(s: State, t: ThreadId): State {
    s.(threads := s.threads - {t})
  }

  function Waiting(s: State, t: ThreadId, todo: Todo): State
    requires t in s.threads
  {
    s.(threads := s.threads[t := s.threads[t].(todo := todo)])
  }

  function AfterReserve(s: State, t: ThreadId, i: Instance, owner: string, now: nat, outcome: Outcome): State {
    var req := GenerationRecord.Reserve(now);
    if t in s.threads || i !in s.memory || Resolve(req, s.record).Err? then s
    else
      var r := JournalStep(s.record, req, outcome);
      var ticket := NextTicket(s.record);
      if outcome.Done? then
        s.(record := r, issued := s.issued + [Issue(ticket, i)],
           threads := s.threads[t := Thread(i, PublishReservation(owner, ticket))])
      else s.(record := r)
  }

  function AfterLocked(s: State, t: ThreadId, now: nat, outcome: Outcome): State
    requires t in s.threads && s.threads[t].todo.Holding?
  {
    var snap := s.threads[t].todo.snap;
    match s.threads[t].todo.kind
    case Claiming =>
      var req := GenerationRecord.Claim(snap.ticket, snap.owner, now);
      if Superseded(s.record, snap.ticket) then
        if outcome.Done? then Waiting(s, t, PublishSuperseded(s.record.activeGeneration)) else Dropped(s, t)
      else
        var claimed := s.(record := JournalStep(s.record, req, outcome));
        if outcome.Done? && Resolve(req, s.record).Ok? then Waiting(claimed, t, PublishClaim(snap, now)) else Dropped(claimed, t)
    case Committing =>
      if outcome.Failed? then Dropped(s, t)
      else if Holds(s.record, snap.ticket, snap.owner) then Dropped(s.(commits := s.commits + [snap.ticket]), t)
      else Waiting(s, t, PublishSuperseded(s.record.activeGeneration))
    case Checking =>
      if outcome.Failed? || Holds(s.record, snap.ticket, snap.owner) then Dropped(s, t)
      else Waiting(s, t, PublishSuperseded(s.record.activeGeneration))
    case Releasing =>
      var req := GenerationRecord.Release(snap.ticket, snap.owner, now);
      if !Holds(s.record, snap.ticket, snap.owner) then
        if outcome.Done? then Waiting(s, t, PublishSuperseded(s.record.activeGeneration)) else Dropped(s, t)
      else
        var released := s.(record := JournalStep(s.record, req, outcome));
        if outcome.Done? && Resolve(req, s.record).Ok? then Waiting(released, t, PublishRelease(snap)) else Dropped(released, t)
  }

  function Published(m: Ownership, todo: Todo): Ownership {
    match todo
    case PublishReservation(owner, ticket) => Reserved(owner, ticket)
    case Holding(_, _) => m
    case PublishClaim(snap, now) => AfterClaim(m, snap, now)
    case PublishRelease(snap) => AfterRelease(m, snap)
    case PublishSuperseded(observed) => AfterSupersede(m, observed)
  }

  function Next(s: State, step: Step): State {
    match step
    case Load(i) => if i in s.memory then s else s.(memory := s.memory[i := UNMANAGED])
    case Reserve(t, i, owner, now, outcome) => AfterReserve(s, t, i, owner, now, outcome)
    case Begin(t, i, kind) =>
      if t !in s.threads && i in s.memory && MayBegin(s.memory[i], kind)
      then s.(threads := s.threads[t := Thread(i, Holding(kind, s.memory[i]))]) else s
    case Locked(t, now, outcome) =>
      if t in s.threads && s.threads[t].todo.Holding? then AfterLocked(s, t, now, outcome) else s
    case Publish(t) =>
      if t in s.threads && !s.threads[t].todo.Holding? && s.threads[t].instance in s.memory then
        var i := s.threads[t].instance;
        Dropped(s.(memory := s.memory[i := Published(s.memory[i], s.threads[t].todo)]), t)
      else s
    case Crash(i) =>
      s.(memory := s.memory - {i}, threads := map t | t in s.threads && s.threads[t].instance != i :: s.threads[t])
  }

  function Run(s: State, steps: seq<Step>): State
    decreases |steps|
  {
    if steps == [] then s else Next(Run(s, steps[..|steps| - 1]), steps[|steps| - 1])
  }

  // No instance is loaded yet; the journal may already hold older generations.
  function Initial(r: Record): State {
    State(r, map[], map[], [], [])
  }

  // --------------------------------------------------------------- invariant

  predicate IsIssued(s: State, ticket: nat, i: Instance) {
    Issue(ticket, i) in s.issued
  }

  predicate TodoIssued(s: State, th: Thread) {
    match th.todo
    case PublishReservation(_, ticket) => IsIssued(s, ticket, th.instance)
    case Holding(kind, snap) => MayBegin(snap, kind) && IsIssued(s, snap.ticket, th.instance) && (snap.claimed ==> snap.ticket <= s.record.activeGeneration)
    case PublishClaim(snap, _) => snap.ticket <= s.record.activeGeneration
    case PublishRelease(_) => true
    case PublishSuperseded(_) => true
  }

  predicate Inv(s: State) {
    && Valid(s.record)
    && (forall i, j | 0 <= i < j < |s.issued| :: s.issued[i].ticket < s.issued[j].ticket)
    && (forall i | 0 <= i < |s.issued| :: s.issued[i].ticket <= s.record.highestReserved)
    && (forall i | i in s.memory && s.memory[i].managed ::
          IsIssued(s, s.memory[i].ticket, i) && (s.memory[i].claimed ==> s.memory[i].ticket <= s.record.activeGeneration))
    && (forall t | t in s.threads :: TodoIssued(s, s.threads[t]))
    && (forall i | 0 <= i < |s.commits| :: s.commits[i] <= s.record.activeGeneration)
    && (forall i, j | 0 <= i < j < |s.commits| :: s.commits[i] <= s.commits[j])
  }

  lemma JournalStepFollows(r: Record, req: Request, outcome: Outcome)
    requires Valid(r)
    ensures var w := JournalStep(r, req, outcome); Valid(w) && Follows(w, r)
  {
    if Resolve(req, r).Ok? {
      ResolveFollows(req, r);
    }
  }

  lemma {:induction false} StepKeepsInv(s: State, step: Step)
    requires Inv(s)
    ensures Inv(Next(s, step))
  {
    match step
    case Load(i) =>
    case Reserve(t, i, owner, now, outcome) => ReserveKeepsInv(s, t, i, owner, now, outcome);
    case Begin(t, i, kind) =>
    case Locked(t, now, outcome) =>
      if t in s.threads && s.threads[t].todo.Holding? {
        LockedKeepsInv(s, t, now, outcome);
      }
    case Publish(t) => PublishKeepsInv(s, t);
    case Crash(i) =>
  }

  lemma ReserveKeepsInv(s: State, t: ThreadId, i: Instance, owner: string, now: nat, outcome: Outcome)
    requires Inv(s)
    ensures Inv(AfterReserve(s, t, i, owner, now, outcome))
  {
    var req := GenerationRecord.Reserve(now);
    JournalStepFollows(s.record, req, outcome);
    var n := AfterReserve(s, t, i, owner, now, outcome);
    if n.issued != s.issued {
      assert n.issued[|s.issued|] == Issue(NextTicket(s.record), i);
      assert forall x <- s.issued :: x in n.issued;
    }
  }

  // What one locked section may change.
  lemma LockedEffect(s: State, t: ThreadId, now: nat, outcome: Outcome)
    requires Inv(s) && t in s.threads && s.threads[t].todo.Holding?
    ensures var n := AfterLocked(s, t, now, outcome);
            && n.issued == s.issued && n.memory == s.memory
            && Valid(n.record) && Follows(n.record, s.record)
            && n.threads.Keys <= s.threads.Keys
            && (forall u | u in n.threads && u != t :: n.threads[u] == s.threads[u])
            && (t in n.threads ==> TodoIssued(n, n.threads[t]))
            && (n.commits == s.commits || n.commits == s.commits + [s.record.activeGeneration])
  {
    var snap := s.threads[t].todo.snap;
    assert TodoIssued(s, s.threads[t]);
    var claim := GenerationRecord.Claim(snap.ticket, snap.owner, now);
    JournalStepFollows(s.record, claim, outcome);
    JournalStepFollows(s.record, GenerationRecord.Release(snap.ticket, snap.owner, now), outcome);
    match s.threads[t].todo.kind
    case Claiming =>
      if !Superseded(s.record, snap.ticket) && Resolve(claim, s.record).Ok? {
        ResolveFollows(claim, s.record);
      }
    case Committing =>
    case Checking =>
    case Releasing =>
  }

  lemma LockedKeepsInv(s: State, t: ThreadId, now: nat, outcome: Outcome)
    requires Inv(s) && t in s.threads && s.threads[t].todo.Holding?
    ensures Inv(AfterLocked(s, t, now, outcome))
  {
    LockedEffect(s, t, now, outcome);
    var n := AfterLocked(s, t, now, outcome);
    forall u | u in n.threads ensures TodoIssued(n, n.threads[u]) {
      if u != t {
        assert TodoIssued(s, s.threads[u]);
      }
    }
  }

  lemma PublishKeepsInv(s: State, t: ThreadId)
    requires Inv(s)
    ensures Inv(Next(s, Publish(t)))
  {
    if t in s.threads {
      assert TodoIssued(s, s.threads[t]);
    }
  }

  lemma {:induction false} RunKeepsInv(s: State, steps: seq<Step>)
    requires Inv(s)
    ensures Inv(Run(s, steps))
    decreases |steps|
  {
    if steps != [] {
      RunKeepsInv(s, steps[..|steps| - 1]);
      StepKeepsInv(Run(s, steps[..|steps| - 1]), steps[|steps| - 1]);
    }
  }

  // ----------------------------------------------------------------- fencing

  /** A ticket belongs to at most one reservation. */
  lemma TicketsAreUnique(r: Record, steps: seq<Step>, p: nat, q: nat)
    requires Valid(r) && p < q < |Run(Initial(r), steps).issued|
    ensures var issued := Run(Initial(r), steps).issued; issued[p].ticket < issued[q].ticket
  {
    RunKeepsInv(Initial(r), steps);
  }

  /** At any time at most one instance can pass the ownership check. */
  lemma OneOwner(r: Record, steps: seq<Step>, t: ThreadId, u: ThreadId)
    requires Valid(r)
    requires var s := Run(Initial(r), steps);
             forall x <- [t, u] :: x in s.threads && s.threads[x].todo.Holding? &&
               Holds(s.record, s.threads[x].todo.snap.ticket, s.threads[x].todo.snap.owner)
    ensures var s := Run(Initial(r), steps); s.threads[t].instance == s.threads[u].instance
  {
    var s := Run(Initial(r), steps);
    RunKeepsInv(Initial(r), steps);
    assert t in [t, u] && u in [t, u];
    assert TodoIssued(s, s.threads[t]) && TodoIssued(s, s.threads[u]);
    var p :| 0 <= p < |s.issued| && s.issued[p] == Issue(s.record.activeGeneration, s.threads[t].instance);
    var q :| 0 <= q < |s.issued| && s.issued[q] == Issue(s.record.activeGeneration, s.threads[u].instance);
    assert p == q;
  }

  /** The tickets of successful commits never decrease over a run. */
  lemma CommitsAreOrdered(r: Record, steps: seq<Step>, p: nat, q: nat)
    requires Valid(r) && p < q < |Run(Initial(r), steps).commits|
    ensures var commits := Run(Initial(r), steps).commits; commits[p] <= commits[q]
  {
    RunKeepsInv(Initial(r), steps);
  }

  lemma StepFollows(s: State, step: Step)
    requires Inv(s)
    ensures Follows(Next(s, step).record, s.record)
    ensures Next(s, step).record.activeGeneration == s.record.activeGeneration && Next(s, step).record.active ==> s.record.active
    ensures exists more :: Next(s, step).commits == s.commits + more
  {
    assert s.commits == s.commits + [];
    match step
    case Reserve(t, i, owner, now, outcome) =>
      if Resolve(GenerationRecord.Reserve(now), s.record).Ok? {
        ResolveFollows(GenerationRecord.Reserve(now), s.record);
      }
    case Locked(t, now, outcome) =>
      if t in s.threads && s.threads[t].todo.Holding? {
        var snap := s.threads[t].todo.snap;
        var claim := GenerationRecord.Claim(snap.ticket, snap.owner, now);
        var release := GenerationRecord.Release(snap.ticket, snap.owner, now);
        if Resolve(claim, s.record).Ok? { ResolveFollows(claim, s.record); }
        if Resolve(release, s.record).Ok? { ResolveFollows(release, s.record); }
      }
    case _ =>
  }

  /** The highest reservation and the active generation never decrease. */
  lemma {:induction false} CountersNeverDecrease(s: State, steps: seq<Step>, n: nat)
    requires Inv(s) && n <= |steps|
    ensures Follows(Run(s, steps).record, Run(s, steps[..n]).record)
    decreases |steps|
  {
    if n == |steps| {
      assert steps[..n] == steps;
    } else {
      var prior := steps[..|steps| - 1];
      CountersNeverDecrease(s, prior, n);
      assert prior[..n] == steps[..n];
      RunKeepsInv(s, prior);
      StepFollows(Run(s, prior), steps[|steps| - 1]);
    }
  }

  predicate ActiveTicket(s: State, ticket: nat) {
    s.record.active && s.record.activeGeneration == ticket
  }

  // Ticket is over: a newer generation was claimed, or its tombstone is in place.
  predicate Retired(s: State, ticket: nat) {
    s.record.activeGeneration > ticket || (s.record.activeGeneration == ticket && !s.record.active)
  }

  lemma {:induction false} RetiredForever(s: State, steps: seq<Step>, ticket: nat)
    requires Inv(s) && Retired(s, ticket)
    ensures Retired(Run(s, steps), ticket)
    decreases |steps|
  {
    if steps != [] {
      RetiredForever(s, steps[..|steps| - 1], ticket);
      RunKeepsInv(s, steps[..|steps| - 1]);
      StepFollows(Run(s, steps[..|steps| - 1]), steps[|steps| - 1]);
    }
  }

  lemma {:induction false} ActiveOrRetired(s: State, steps: seq<Step>, ticket: nat)
    requires Inv(s) && ActiveTicket(s, ticket)
    ensures ActiveTicket(Run(s, steps), ticket) || Retired(Run(s, steps), ticket)
    decreases |steps|
  {
    if steps != [] {
      ActiveOrRetired(s, steps[..|steps| - 1], ticket);
      RunKeepsInv(s, steps[..|steps| - 1]);
      StepFollows(Run(s, steps[..|steps| - 1]), steps[|steps| - 1]);
    }
  }

  lemma {:induction false} RunSplit(s: State, first: seq<Step>, second: seq<Step>)
    ensures Run(s, first + second) == Run(Run(s, first), second)
    decreases |second|
  {
    if second == [] {
      assert first + second == first;
    } else {
      var prior, last := second[..|second| - 1], second[|second| - 1];
      RunSplit(s, first, prior);
      RunLast(s, first + prior, last);
      RunLast(Run(s, first), prior, last);
      assert first + second == (first + prior) + [last] && second == prior + [last];
    }
  }

  lemma RunLast(s: State, steps: seq<Step>, step: Step)
    ensures Run(s, steps + [step]) == Next(Run(s, steps), step)
  {
    assert (steps + [step])[..|steps|] == steps;
  }

  /** No revival: a ticket is active during one contiguous stretch of a run. */
  lemma NoRevival(r: Record, steps: seq<Step>, ticket: nat, i: nat, j: nat, k: nat)
    requires Valid(r) && i <= j <= k <= |steps|
    requires ActiveTicket(Run(Initial(r), steps[..i]), ticket)
    requires ActiveTicket(Run(Initial(r), steps[..k]), ticket)
    ensures ActiveTicket(Run(Initial(r), steps[..j]), ticket)
  {
    var s0 := Initial(r);
    RunKeepsInv(s0, steps[..i]);
    RunKeepsInv(s0, steps[..j]);
    RunSplit(s0, steps[..i], steps[i..j]);
    assert steps[..i] + steps[i..j] == steps[..j];
    ActiveOrRetired(Run(s0, steps[..i]), steps[i..j], ticket);
    RunSplit(s0, steps[..j], steps[j..k]);
    assert steps[..j] + steps[j..k] == steps[..k];
    if Retired(Run(s0, steps[..j]), ticket) {
      RetiredForever(Run(s0, steps[..j]), steps[j..k], ticket);
    }
  }

  /** A superseded snapshot is powerless forever: once a newer generation has been
      claimed or the ticket has its tombstone, no thread can commit with it. */
  lemma RetiredCannotCommit(s: State, steps: seq<Step>, t: ThreadId, now: nat)
    requires Inv(s)
    requires var n := Run(s, steps); t in n.threads && n.threads[t].todo.Holding? && Retired(s, n.threads[t].todo.snap.ticket)
    ensures Next(Run(s, steps), Locked(t, now, Done)).commits == Run(s, steps).commits
  {
    RetiredForever(s, steps, Run(s, steps).threads[t].todo.snap.ticket);
  }

  /** A thread that releases what it holds retires its ticket as soon as the new
      record is durable, whether or not its caller is told; if it is not durable the
      ticket stays active. */
  lemma ReleaseRetires(s: State, t: ThreadId, now: nat, outcome: Outcome)
    requires Inv(s) && t in s.threads && s.threads[t].todo.Holding? && s.threads[t].todo.kind.Releasing?
    requires ActiveTicket(s, s.threads[t].todo.snap.ticket) && s.record.activeOwner == s.threads[t].todo.snap.owner
    ensures var ticket, n := s.threads[t].todo.snap.ticket, Next(s, Locked(t, now, outcome));
            if outcome == Failed(false) then ActiveTicket(n, ticket)
            else Retired(n, ticket) && !n.record.active && n.record.activeGeneration == ticket
  {
    var snap := s.threads[t].todo.snap;
    ReleaseLeavesTombstone(s.record, snap.ticket, snap.owner, now);
  }

  /** After a durable release no commit of any continuation carries the ticket. */
  lemma ReleasedNeverCommits(s: State, t: ThreadId, now: nat, outcome: Outcome, later: seq<Step>)
    requires Inv(s) && t in s.threads && s.threads[t].todo.Holding? && s.threads[t].todo.kind.Releasing?
    requires ActiveTicket(s, s.threads[t].todo.snap.ticket) && s.record.activeOwner == s.threads[t].todo.snap.owner
    requires outcome != Failed(false)
    ensures var released := Next(s, Locked(t, now, outcome));
            exists more :: Run(released, later).commits == s.commits + more && s.threads[t].todo.snap.ticket !in more
  {
    var released := Next(s, Locked(t, now, outcome));
    StepKeepsInv(s, Locked(t, now, outcome));
    ReleaseRetires(s, t, now, outcome);
    RetiredCommitsNoMore(released, later, s.threads[t].todo.snap.ticket);
  }

  lemma {:induction false} RetiredCommitsNoMore(s: State, steps: seq<Step>, ticket: nat)
    requires Inv(s) && Retired(s, ticket)
    ensures exists more :: Run(s, steps).commits == s.commits + more && ticket !in more
    decreases |steps|
  {
    if steps == [] {
      assert s.commits == s.commits + [] && ticket !in [];
    } else {
      var prior, step := Run(s, steps[..|steps| - 1]), steps[|steps| - 1];
      RetiredCommitsNoMore(s, steps[..|steps| - 1], ticket);
      var more :| prior.commits == s.commits + more && ticket !in more;
      RunKeepsInv(s, steps[..|steps| - 1]);
      RetiredForever(s, steps[..|steps| - 1], ticket);
      OneCommit(prior, step, ticket);
      if Next(prior, step).commits != prior.commits {
        var last := more + [prior.record.activeGeneration];
        assert Next(prior, step).commits == s.commits + last && ticket !in last;
      }
    }
  }

  lemma OneCommit(s: State, step: Step, ticket: nat)
    requires Inv(s) && Retired(s, ticket)
    ensures Next(s, step).commits == s.commits
         || (Next(s, step).commits == s.commits + [s.record.activeGeneration] && s.record.activeGeneration != ticket)
  {
  }

  /** The newest reservation, claimed with a durable record, becomes the one active
      ticket with its owner, so a commit by the same snapshot passes at once. */
  lemma ClaimActivates(s: State, t: ThreadId, now: nat, outcome: Outcome)
    requires Inv(s) && t in s.threads && s.threads[t].todo.Holding? && s.threads[t].todo.kind.Claiming?
    requires var snap := s.threads[t].todo.snap;
             s.record.highestReserved == snap.ticket > s.record.activeGeneration && exists c <- snap.owner :: c !in {' ', '\t', '\n', '\r'}
    ensures var snap, n := s.threads[t].todo.snap, Next(s, Locked(t, now, outcome));
            if outcome == Failed(false) then n.record == s.record
            else ActiveTicket(n, snap.ticket) && n.record.activeOwner == snap.owner && n.record.highestReserved == s.record.highestReserved
  {
    var snap := s.threads[t].todo.snap;
    ClaimTakesOver(s.record, snap.ticket, snap.owner, now);
  }

  /** A commit is entered exactly when the journal's active record is the thread's own. */
  lemma CommitEntersIff(s: State, t: ThreadId, now: nat)
    requires t in s.threads && s.threads[t].todo.Holding? && s.threads[t].todo.kind.Committing?
    ensures var snap := s.threads[t].todo.snap;
            Next(s, Locked(t, now, Done)).commits
            == s.commits + if ActiveTicket(s, snap.ticket) && s.record.activeOwner == snap.owner then [snap.ticket] else []
  {
  }

  // The journal's record is not the thread's own, or a newer one bars its claim.
  predicate Overtaken(r: Record, kind: Kind, snap: Ownership) {
    if kind == Claiming then r.highestReserved > snap.ticket || r.activeGeneration >= snap.ticket
    else !(r.active && r.activeGeneration == snap.ticket && r.activeOwner == snap.owner)
  }

  /** What a section under the file lock leaves to publish: that the instance was overtaken,
      a claim or a release that went through, and after a commit, a check, an error or a
      refused claim nothing. An overtaken section changes neither record nor commits. */
  lemma SectionEnds(s: State, t: ThreadId, now: nat, outcome: Outcome)
    requires Valid(s.record) && t in s.threads && s.threads[t].todo.Holding?
    ensures var n, i, kind, snap := Next(s, Locked(t, now, outcome)), s.threads[t].instance, s.threads[t].todo.kind, s.threads[t].todo.snap;
            var overtaken := Overtaken(s.record, kind, snap);
            && (overtaken ==> n.record == s.record && n.commits == s.commits)
            && (t in n.threads <==> outcome == Done
                                    && (overtaken || kind == Releasing
                                        || (kind == Claiming && s.record.highestReserved == snap.ticket && exists c <- snap.owner :: c !in {' ', '\t', '\n', '\r'})))
            && (t in n.threads ==>
                  n.threads[t] == Thread(i, if overtaken then PublishSuperseded(s.record.activeGeneration)
                                            else if kind == Claiming then PublishClaim(snap, now) else PublishRelease(snap)))
  {
    var snap := s.threads[t].todo.snap;
    ClaimTakesOver(s.record, snap.ticket, snap.owner, now);
    ReleaseLeavesTombstone(s.record, snap.ticket, snap.owner, now);
  }

  /** An instance that finds itself overtaken is superseded as soon as it has published
      that, and by LeaseMoves and BeginsIff never begins anything with that lease again. */
  lemma OvertakenIsSuperseded(s: State, t: ThreadId, now: nat)
    requires Valid(s.record) && t in s.threads && s.threads[t].todo.Holding? && Overtaken(s.record, s.threads[t].todo.kind, s.threads[t].todo.snap)
    requires s.threads[t].instance in s.memory && s.memory[s.threads[t].instance].managed
    ensures var i, n := s.threads[t].instance, Next(Next(s, Locked(t, now, Done)), Publish(t));
            i in n.memory && n.memory[i].superseded && n.memory[i].observedGeneration >= (if s.memory[i].superseded then 0 else s.record.activeGeneration)
  {
    SectionEnds(s, t, now, Done);
    assert Next(s, Locked(t, now, Done)).memory == s.memory;
  }

  // ------------------------------------------------------------ one instance's lease

  /** What an instance may begin: with its own lease, neither superseded nor released, a
      claim if it has not claimed yet, and everything else only after that. */
  lemma BeginsIff(s: State, t: ThreadId, i: Instance, kind: Kind)
    requires t !in s.threads && i in s.memory
    ensures var m, n := s.memory[i], Next(s, Begin(t, i, kind));
            && (t in n.threads <==> m.managed && !m.superseded && !m.released && (kind == Claiming <==> !m.claimed))
            && (t in n.threads ==> n.threads[t] == Thread(i, Holding(kind, m)))
            && n.(threads := s.threads) == s
  {
  }

  // The publication that a step makes for an instance.
  predicate Publishes(s: State, step: Step, i: Instance) {
    step.Publish? && step.thread in s.threads && !s.threads[step.thread].todo.Holding? && s.threads[step.thread].instance == i
  }

  predicate Mine(m: Ownership, snap: Ownership) {
    m.ticket == snap.ticket && m.owner == snap.owner
  }

  /** How a lease moves: only a new reservation replaces it. Otherwise ticket and owner
      stay, superseded and released are for good, and the instance counts as the claimed
      owner only by publishing a claim of this very lease before it was superseded. */
  lemma LeaseMoves(s: State, step: Step, i: Instance)
    requires i in s.memory && i in Next(s, step).memory
    ensures var m, n := s.memory[i], Next(s, step).memory[i];
            if Publishes(s, step, i) && s.threads[step.thread].todo.PublishReservation?
            then var todo := s.threads[step.thread].todo;
                 n == Ownership(true, todo.owner, todo.ticket, false, 0, false, false, 0)
            else
              && n.managed == m.managed && Mine(m, n)
              && (n.claimed <==> m.claimed || (Publishes(s, step, i) && s.threads[step.thread].todo.PublishClaim?
                                               && !m.superseded && Mine(m, s.threads[step.thread].todo.claimSnap)))
              && (n.released <==> m.released || (Publishes(s, step, i) && s.threads[step.thread].todo.PublishRelease?
                                                 && Mine(m, s.threads[step.thread].todo.releaseSnap)))
              && (n.superseded <==> m.superseded || (Publishes(s, step, i) && s.threads[step.thread].todo.PublishSuperseded? && m.managed))
              && n.observedGeneration >= m.observedGeneration
              && (n.superseded && !m.superseded ==> n.observedGeneration >= s.threads[step.thread].todo.observed)
  {
  }
}
