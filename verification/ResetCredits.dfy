/**
 At-most-once redemption of reset credits (reset_credits.go): the journal of attempts
 and the workers around it. RedemptionFence puts every change inside a commit.
 */
module ResetCredits {
  import opened GenerationRecord

  type Instance = nat
  type RequestId = nat
  type WorkerId = nat

  const MINUTE: nat := 60
  const RETENTION: nat := 90 * 24 * 60 * MINUTE
  const JOURNAL_LIMIT: nat := 4096

  datatype Phase = Pending | Unknown | Confirmed | Verified

  datatype Attempt = Attempt(account: string, credit: string, before: nat, at: nat, phase: Phase)

  type Entries = map<RequestId, Attempt>

  // The journal file is replaced by one atomic rename, so a change is all or nothing;
  // Io says whether it became durable and whether the caller was told so.
  datatype Io = Durable | NotDurable | DurableButFailed

  // -------------------------------------------------------------- the entries

  predicate Prunable(a: Attempt, now: nat) {
    a.phase.Verified? && now > a.at + RETENTION
  }

  predicate Conflicts(a: Attempt, account: string, credit: string, now: nat) {
    a.credit == credit || (a.account == account && (!a.phase.Verified? || now < a.at + MINUTE))
  }

  function Kept(entries: Entries, now: nat): Entries {
    map r | r in entries && !Prunable(entries[r], now) :: entries[r]
  }

  predicate Blocked(entries: Entries, account: string, credit: string, now: nat) {
    exists r :: r in Kept(entries, now) && Conflicts(entries[r], account, credit, now)
  }

  // The reservation callback and the size check that follows it.
  function ReserveEntries(entries: Entries, request: RequestId, a: Attempt, now: nat): Result<Entries> {
    if Blocked(entries, a.account, a.credit, now) then Err
    else
      var next := Kept(entries, now)[request := a];
      if |next| > JOURNAL_LIMIT then Err else Ok(next)
  }

  function WriteEntries(entries: Entries, request: RequestId, a: Attempt): Result<Entries> {
    var next := entries[request := a];
    if |next| > JOURNAL_LIMIT then Err else Ok(next)
  }

  // A credit list as read from the provider (resetCreditState).
  datatype Listing = Listing(complete: bool, countKnown: bool, count: nat, observedAt: nat, credits: set<string>)

  predicate Proves(list: Listing, a: Attempt) {
    list.complete && list.observedAt > a.at && ShowsUse(list, a)
  }

  // Fewer credits than before, and the attempted one is gone.
  predicate ShowsUse(list: Listing, a: Attempt) {
    list.countKnown && list.count < a.before && a.credit !in list.credits
  }

  function Reconciled(a: Attempt, account: string, list: Listing): Attempt {
    if a.account == account && a.phase.Confirmed? && Proves(list, a) then a.(phase := Verified) else a
  }

  function ReconcileEntries(entries: Entries, account: string, list: Listing): Entries {
    map r | r in entries :: Reconciled(entries[r], account, list)
  }

  predicate StillOpen(entries: Entries, account: string, list: Listing) {
    exists r :: r in entries && entries[r].account == account && !Reconciled(entries[r], account, list).phase.Verified?
  }

  // The journal file of one state path.
  class AttemptJournal {
    var entries: Entries

    constructor ()
      ensures entries == map[]
    {
      entries := map[];
    }

    // The rename that ends changeResetCreditJournal.
    method Replace(next: Entries, io: Io) returns (ok: bool)
      modifies this
      ensures entries == (if |next| > JOURNAL_LIMIT || io.NotDurable? then old(entries) else next)
      ensures ok == (|next| <= JOURNAL_LIMIT && io.Durable?)
    {
      if |next| > JOURNAL_LIMIT || io.NotDurable? {
        return false;
      }
      entries := next;
      return io.Durable?;
    }

    // Reserve before dispatch, in maybeAutoUseResetCredit.
    method ReserveAttempt(request: RequestId, a: Attempt, now: nat, io: Io) returns (ok: bool)
      modifies this
      ensures var next := ReserveEntries(old(entries), request, a, now);
              && ok == (next.Ok? && io.Durable?)
              && entries == (if next.Ok? && !io.NotDurable? then next.value else old(entries))
    {
      var next := entries;
      var todo := entries.Keys;
      while todo != {}
        invariant todo <= entries.Keys
        invariant next == map r | r in entries && (r in todo || !Prunable(entries[r], now)) :: entries[r]
        invariant forall r | r in entries && r !in todo && !Prunable(entries[r], now) :: !Conflicts(entries[r], a.account, a.credit, now)
        invariant entries == old(entries)
      {
        var r :| r in todo;
        todo := todo - {r};
        var prior := entries[r];
        if Prunable(prior, now) {
          next := next - {r};
        } else if Conflicts(prior, a.account, a.credit, now) {
          assert r in Kept(entries, now);
          return false;
        }
      }
      assert next == Kept(entries, now);
      ok := Replace(next[request := a], io);
    }

    // Unconditional phase writes after the POST.
    method WriteAttempt(request: RequestId, a: Attempt, io: Io) returns (ok: bool)
      modifies this
      ensures var next := WriteEntries(old(entries), request, a);
              && ok == (next.Ok? && io.Durable?)
              && entries == (if next.Ok? && !io.NotDurable? then next.value else old(entries))
    {
      ok := Replace(entries[request := a], io);
    }

    // reconcileResetCreditAttempt
    method Reconcile(account: string, list: Listing, io: Io) returns (ok: bool, blocked: bool)
      requires |entries| <= JOURNAL_LIMIT
      modifies this
      ensures entries == (if io.NotDurable? then old(entries) else ReconcileEntries(old(entries), account, list))
      ensures ok == io.Durable?
      ensures blocked == (!ok || StillOpen(old(entries), account, list))
      ensures blocked <==> !ok || exists r :: r in entries && entries[r].account == account && !entries[r].phase.Verified?
      ensures forall r | r in entries && r in old(entries) && entries[r] != old(entries[r]) ::
                && old(entries[r]).phase.Confirmed? && entries[r] == old(entries[r]).(phase := Verified) && entries[r].account == account
                && list.complete && list.countKnown && list.observedAt > entries[r].at
                && list.count < entries[r].before && entries[r].credit !in list.credits
    {
      var next := entries;
      var todo := entries.Keys;
      blocked := false;
      while todo != {}
        invariant todo <= entries.Keys == next.Keys
        invariant forall r | r in entries :: next[r] == if r in todo then entries[r] else Reconciled(entries[r], account, list)
        invariant blocked <==> exists r :: r in entries && r !in todo && entries[r].account == account && !Reconciled(entries[r], account, list).phase.Verified?
        invariant entries == old(entries)
      {
        var r :| r in todo;
        todo := todo - {r};
        var prior := entries[r];
        if prior.account == account && !prior.phase.Verified? {
          if prior.phase.Confirmed? && list.countKnown && list.complete && list.observedAt > prior.at
             && list.count < prior.before && prior.credit !in list.credits {
            next := next[r := prior.(phase := Verified)];
          } else {
            blocked := true;
          }
        }
      }
      assert next == ReconcileEntries(entries, account, list);
      assert |next| == |next.Keys| == |entries.Keys| == |entries|;
      ok := Replace(next, io);
      if !ok {
        blocked := true;
      }
    }
  }

  // -------------------------------------------------- the journal's workers

  // One execution of maybeAutoUseResetCredit after its reservation succeeded.
  datatype Progress = Reserved | Posted | Answered | Verifying(recorded: bool)

  datatype Worker = Worker(instance: Instance, request: RequestId, attempt: Attempt, progress: Progress)

  datatype Post = Post(request: RequestId, account: string, credit: string)

  // `used`, `pruned` and `posts` record history: request ids ever drawn, entries
  // ever deleted, and every consume POST sent.
  datatype State = State(
    entries: Entries,
    workers: map<WorkerId, Worker>,
    used: set<RequestId>,
    pruned: set<RequestId>,
    posts: seq<Post>)

  // Steps that carry `fenced` change the journal only when the generation lets
  // them; a reservation that is not let through leaves nothing behind.
  datatype Step =
    | ReserveCard(worker: WorkerId, instance: Instance, request: RequestId, attempt: Attempt, now: nat, io: Io)
    | Dispatch(worker: WorkerId)
    | Respond(worker: WorkerId, confirmed: bool)
    | RecordPhase(worker: WorkerId, fenced: bool, io: Io)
    | Verify(worker: WorkerId, list: Listing, fenced: bool, io: Io)
    | ReconcileAll(account: string, list: Listing, io: Io)
    | Abandon(gone: set<WorkerId>)

  function Written(s: State, next: Result<Entries>, io: Io): State {
    if next.Ok? && !io.NotDurable? then s.(entries := next.value) else s
  }

  function Reserving(s: State, w: WorkerId, i: Instance, request: RequestId, a: Attempt, now: nat, io: Io): State {
    var next := ReserveEntries(s.entries, request, a, now);
    if w in s.workers || request in s.used || !a.phase.Pending? then s
    else if next.Err? || io.NotDurable? then s.(used := s.used + {request})
    else
      s.(entries := next.value,
         used := s.used + {request},
         pruned := s.pruned + (s.entries.Keys - next.value.Keys),
         workers := if io.Durable? then s.workers[w := Worker(i, request, a, Reserved)] else s.workers)
  }

  function Recording(s: State, w: WorkerId, fenced: bool, io: Io): State
    requires w in s.workers
  {
    var k := s.workers[w];
    var next := WriteEntries(s.entries, k.request, k.attempt);
    var n := if fenced then Written(s, next, io) else s;
    if k.attempt.phase.Confirmed?
    then n.(workers := s.workers[w := k.(progress := Verifying(fenced && next.Ok? && !io.NotDurable?))])
    else n.(workers := s.workers - {w})
  }

  function VerifiedBy(s: State, w: WorkerId, list: Listing, fenced: bool, io: Io): State
    requires w in s.workers
  {
    var k := s.workers[w];
    var next := WriteEntries(s.entries, k.request, k.attempt.(phase := Verified));
    (if fenced && ShowsUse(list, k.attempt) then Written(s, next, io) else s).(workers := s.workers - {w})
  }

  predicate At(s: State, w: WorkerId, p: Progress) {
    w in s.workers && s.workers[w].progress == p
  }

  predicate IsVerifying(s: State, w: WorkerId) {
    w in s.workers && s.workers[w].progress.Verifying?
  }

  function Next(s: State, step: Step): State {
    match step
    case ReserveCard(w, i, request, a, now, io) => Reserving(s, w, i, request, a, now, io)
    case Dispatch(w) =>
      if At(s, w, Reserved) then
        var k := s.workers[w];
        s.(posts := s.posts + [Post(k.request, k.attempt.account, k.attempt.credit)],
           workers := s.workers[w := k.(progress := Posted)])
      else s
    case Respond(w, confirmed) =>
      if At(s, w, Posted) then
        var k := s.workers[w];
        s.(workers := s.workers[w := k.(progress := Answered, attempt := k.attempt.(phase := if confirmed then Confirmed else Unknown))])
      else s
    case RecordPhase(w, fenced, io) => if At(s, w, Answered) then Recording(s, w, fenced, io) else s
    case Verify(w, list, fenced, io) => if IsVerifying(s, w) then VerifiedBy(s, w, list, fenced, io) else s
    case ReconcileAll(account, list, io) => Written(s, Ok(ReconcileEntries(s.entries, account, list)), io)
    case Abandon(gone) => s.(workers := s.workers - gone)
  }

  function Run(s: State, steps: seq<Step>): State
    decreases |steps|
  {
    if steps == [] then s else Next(Run(s, steps[..|steps| - 1]), steps[|steps| - 1])
  }

  const INITIAL := State(map[], map[], {}, {}, [])

  // ---------------------------------------------------------------- invariant

  ghost predicate SameCard(e: Attempt, a: Attempt) {
    e.account == a.account && e.credit == a.credit && e.at == a.at && e.before == a.before
  }

  // The entry of a worker that has not yet made a durable phase write.
  ghost predicate HasPending(s: State, k: Worker) {
    k.request in s.entries && k.request !in s.pruned && s.entries[k.request].phase.Pending? && SameCard(s.entries[k.request], k.attempt)
  }

  ghost predicate HasAnswer(s: State, k: Worker) {
    if k.request in s.entries
    then SameCard(s.entries[k.request], k.attempt) && (s.entries[k.request].phase.Confirmed? || s.entries[k.request].phase.Verified?)
    else k.request in s.pruned
  }

  ghost predicate WorkerEntry(s: State, k: Worker) {
    match k.progress
    case Reserved => HasPending(s, k) && k.attempt.phase.Pending?
    case Posted => HasPending(s, k) && k.attempt.phase.Pending?
    case Answered => HasPending(s, k) && (k.attempt.phase.Confirmed? || k.attempt.phase.Unknown?)
    case Verifying(recorded) => k.attempt.phase.Confirmed? && if recorded then HasAnswer(s, k) else HasPending(s, k)
  }

  ghost predicate WorkersKnown(s: State) {
    && (forall w | w in s.workers :: WorkerEntry(s, s.workers[w]) && s.workers[w].request in s.used)
    && (forall w, v | w in s.workers && v in s.workers && w != v :: s.workers[w].request != s.workers[v].request)
  }

  // Two entries never deleted are for different credits, and of two entries of one
  // account at least one is verified.
  ghost predicate EntriesApart(s: State) {
    && |s.entries| <= JOURNAL_LIMIT && s.pruned <= s.used
    && (forall r | r in s.entries :: r in s.used)
    && (forall r, q | r in s.entries && q in s.entries && r != q && r !in s.pruned && q !in s.pruned ::
          s.entries[r].credit != s.entries[q].credit)
    && (forall r, q | r in s.entries && q in s.entries && r != q && s.entries[r].account == s.entries[q].account ::
          s.entries[r].phase.Verified? || s.entries[q].phase.Verified?)
  }

  ghost predicate PostEntry(s: State, p: Post) {
    && p.request in s.used
    && (p.request in s.pruned ||
         (p.request in s.entries && s.entries[p.request].credit == p.credit && s.entries[p.request].account == p.account))
  }

  ghost predicate PostsKnown(s: State) {
    && (forall i | 0 <= i < |s.posts| :: PostEntry(s, s.posts[i]))
    && (forall i, j | 0 <= i < j < |s.posts| :: s.posts[i].request != s.posts[j].request)
    && (forall i, j | 0 <= i < j < |s.posts| && s.posts[i].credit == s.posts[j].credit :: s.posts[i].request in s.pruned)
  }

  // A worker about to post has no earlier post in its way.
  ghost predicate ClearToPost(s: State) {
    forall w, i | At(s, w, Reserved) && 0 <= i < |s.posts| ::
      s.posts[i].request != s.workers[w].request
      && (s.posts[i].credit == s.workers[w].attempt.credit ==> s.posts[i].request in s.pruned)
  }

  ghost predicate Inv(s: State) {
    WorkersKnown(s) && EntriesApart(s) && PostsKnown(s) && ClearToPost(s)
  }

  lemma ReserveFacts(entries: Entries, request: RequestId, a: Attempt, now: nat)
    requires ReserveEntries(entries, request, a, now).Ok? && request !in entries
    ensures var next := ReserveEntries(entries, request, a, now).value;
            && |next| <= JOURNAL_LIMIT
            && request in next && next[request] == a
            && (forall r | r in next && r != request ::
                  r in entries && next[r] == entries[r] && next[r].credit != a.credit
                  && (next[r].account == a.account ==> next[r].phase.Verified?))
            && (forall r | r in entries && r !in next :: Prunable(entries[r], now))
  {
    var next := ReserveEntries(entries, request, a, now).value;
    forall r | r in next && r != request
      ensures next[r].credit != a.credit && (next[r].account == a.account ==> next[r].phase.Verified?)
    {
      assert r in Kept(entries, now);
      assert !Conflicts(entries[r], a.account, a.credit, now);
    }
  }

  // A step that only rewrites the entry of one request, keeping its card.
  ghost predicate OneEntry(s: State, n: State, request: RequestId) {
    && n.posts == s.posts && n.used == s.used && n.pruned == s.pruned
    && (forall r | r != request :: (r in n.entries <==> r in s.entries) && (r in s.entries ==> n.entries[r] == s.entries[r]))
    && (request in s.entries ==> request in n.entries && SameCard(n.entries[request], s.entries[request]))
  }

  lemma OneEntryKeepsPosts(s: State, n: State, request: RequestId)
    requires Inv(s) && OneEntry(s, n, request)
    ensures PostsKnown(n)
  {
    forall i | 0 <= i < |n.posts| ensures PostEntry(n, n.posts[i]) {
      assert PostEntry(s, s.posts[i]);
    }
  }

  lemma ReservingEntries(s: State, w: WorkerId, i: Instance, request: RequestId, a: Attempt, now: nat, io: Io)
    requires Inv(s)
    ensures EntriesApart(Reserving(s, w, i, request, a, now, io))
  {
    if w !in s.workers && request !in s.used && a.phase.Pending? && !io.NotDurable? && ReserveEntries(s.entries, request, a, now).Ok? {
      ReserveFacts(s.entries, request, a, now);
      var n := DurableState(s, w, i, request, a, now, io);
      ReservedApart(s, n, request, a);
    }
  }

  lemma ReservedApart(s: State, n: State, request: RequestId, a: Attempt)
    requires EntriesApart(s) && request !in s.used && |n.entries| <= JOURNAL_LIMIT
    requires n.used == s.used + {request} && n.pruned == s.pruned + (s.entries.Keys - n.entries.Keys)
    requires request in n.entries && n.entries[request] == a
    requires forall r | r in n.entries && r != request ::
               && r in s.entries && n.entries[r] == s.entries[r] && n.entries[r].credit != a.credit
               && (n.entries[r].account == a.account ==> n.entries[r].phase.Verified?)
    ensures EntriesApart(n)
  {
    assert s.entries.Keys - n.entries.Keys <= s.used;
  }

  lemma ReservingWorkers(s: State, w: WorkerId, i: Instance, request: RequestId, a: Attempt, now: nat, io: Io)
    requires Inv(s)
    ensures WorkersKnown(Reserving(s, w, i, request, a, now, io))
  {
    if w !in s.workers && request !in s.used && a.phase.Pending? {
      var next := ReserveEntries(s.entries, request, a, now);
      if next.Ok? && !io.NotDurable? {
        DurablyReserved(s, w, i, request, a, now, io);
      } else {
        MoreUsed(s, request);
      }
    }
  }

  lemma MoreUsed(s: State, request: RequestId)
    requires WorkersKnown(s)
    ensures WorkersKnown(s.(used := s.used + {request}))
  {
    var n := s.(used := s.used + {request});
    forall v | v in n.workers ensures WorkerEntry(n, n.workers[v]) {
      OtherWorkerKept(s, n, s.workers[v]);
    }
  }

  lemma DurablyReserved(s: State, w: WorkerId, i: Instance, request: RequestId, a: Attempt, now: nat, io: Io)
    requires Inv(s) && w !in s.workers && request !in s.used && a.phase.Pending? && !io.NotDurable?
    requires ReserveEntries(s.entries, request, a, now).Ok?
    ensures WorkersKnown(Reserving(s, w, i, request, a, now, io))
  {
    var n := DurableState(s, w, i, request, a, now, io);
    ReservedWorkers(s, n, w, request, a);
  }

  lemma DurableState(s: State, w: WorkerId, i: Instance, request: RequestId, a: Attempt, now: nat, io: Io) returns (n: State)
    requires w !in s.workers && request !in s.used && request !in s.entries && a.phase.Pending? && !io.NotDurable?
    requires ReserveEntries(s.entries, request, a, now).Ok?
    ensures n == Reserving(s, w, i, request, a, now, io)
    ensures n.used == s.used + {request} && n.pruned == s.pruned + (s.entries.Keys - n.entries.Keys)
    ensures request in n.entries && n.entries[request] == a
    ensures forall r | r in n.entries && r != request :: r in s.entries && n.entries[r] == s.entries[r]
    ensures forall r | r in s.entries && r !in n.entries :: s.entries[r].phase.Verified?
    ensures n.posts == s.posts && (n.workers == s.workers || n.workers == s.workers[w := Worker(i, request, a, Reserved)])
  {
    ReserveFacts(s.entries, request, a, now);
    n := Reserving(s, w, i, request, a, now, io);
  }

  lemma ReservedWorkers(s: State, n: State, w: WorkerId, request: RequestId, a: Attempt)
    requires Inv(s) && request !in s.used && w !in s.workers && a.phase.Pending?
    requires n.used == s.used + {request} && n.pruned == s.pruned + (s.entries.Keys - n.entries.Keys)
    requires request in n.entries && n.entries[request] == a
    requires forall r | r in n.entries && r != request :: r in s.entries && n.entries[r] == s.entries[r]
    requires forall r | r in s.entries && r !in n.entries :: s.entries[r].phase.Verified?
    requires n.workers.Keys <= s.workers.Keys + {w}
    requires forall v | v in n.workers && v != w :: n.workers[v] == s.workers[v]
    requires w in n.workers ==> n.workers[w].request == request && n.workers[w].attempt == a && n.workers[w].progress.Reserved?
    ensures WorkersKnown(n)
  {
    forall v | v in n.workers ensures WorkerEntry(n, n.workers[v]) && n.workers[v].request in n.used && (v != w ==> n.workers[v].request != request) {
      if v != w {
        assert v in s.workers && WorkerEntry(s, s.workers[v]) && s.workers[v].request in s.used;
        WorkerSurvives(s, n, s.workers[v]);
      }
    }
  }

  // Pruning takes nothing away from a worker that still needs its entry.
  lemma WorkerSurvives(s: State, n: State, k: Worker)
    requires WorkerEntry(s, k)
    requires k.request in n.entries ==> k.request in s.entries && n.entries[k.request] == s.entries[k.request] && (k.request in n.pruned ==> k.request in s.pruned)
    requires k.request in s.entries && k.request !in n.entries ==> s.entries[k.request].phase.Verified? && k.request in n.pruned
    requires k.request in s.pruned ==> k.request in n.pruned
    ensures WorkerEntry(n, k)
  {
  }

  lemma ReservingPosts(s: State, w: WorkerId, i: Instance, request: RequestId, a: Attempt, now: nat, io: Io)
    requires Inv(s)
    ensures PostsKnown(Reserving(s, w, i, request, a, now, io)) && ClearToPost(Reserving(s, w, i, request, a, now, io))
  {
    if w !in s.workers && request !in s.used && a.phase.Pending? {
      if !io.NotDurable? && ReserveEntries(s.entries, request, a, now).Ok? {
        ReserveFacts(s.entries, request, a, now);
        var n := DurableState(s, w, i, request, a, now, io);
        ReservedPosts(s, n, w, i, request, a);
      } else {
        var n := Reserving(s, w, i, request, a, now, io);
        forall i | 0 <= i < |n.posts| ensures PostEntry(n, n.posts[i]) {
          assert PostEntry(s, s.posts[i]);
        }
        FewerReserved(s, n);
      }
    }
  }

  lemma ReservedPosts(s: State, n: State, w: WorkerId, i: Instance, request: RequestId, a: Attempt)
    requires Inv(s) && w !in s.workers && request !in s.used
    requires n.posts == s.posts && n.used == s.used + {request} && n.pruned == s.pruned + (s.entries.Keys - n.entries.Keys)
    requires request in n.entries && n.entries[request] == a
    requires forall r | r in n.entries && r != request :: r in s.entries && n.entries[r] == s.entries[r] && n.entries[r].credit != a.credit
    requires n.workers == s.workers || n.workers == s.workers[w := Worker(i, request, a, Reserved)]
    ensures PostsKnown(n) && ClearToPost(n)
  {
    forall j | 0 <= j < |n.posts|
      ensures PostEntry(n, n.posts[j])
      ensures n.posts[j].request != request && (n.posts[j].credit == a.credit ==> n.posts[j].request in n.pruned)
    {
      assert PostEntry(s, s.posts[j]);
    }
    forall v, j | At(n, v, Reserved) && 0 <= j < |n.posts|
      ensures n.posts[j].request != n.workers[v].request
        && (n.posts[j].credit == n.workers[v].attempt.credit ==> n.posts[j].request in n.pruned)
    {
      if v in s.workers {
        assert At(s, v, Reserved);
      }
    }
  }

  // A step that keeps every card and never takes a verified entry back.
  ghost predicate Rewrites(s: State, n: State) {
    && n.posts == s.posts && n.used == s.used && n.pruned == s.pruned && n.entries.Keys == s.entries.Keys
    && (forall r | r in s.entries :: SameCard(n.entries[r], s.entries[r]) && (s.entries[r].phase.Verified? ==> n.entries[r].phase.Verified?))
  }

  lemma RewriteKeepsApart(s: State, n: State)
    requires Inv(s) && Rewrites(s, n)
    ensures EntriesApart(n) && PostsKnown(n)
  {
    assert |n.entries| == |n.entries.Keys| && |s.entries| == |s.entries.Keys|;
    forall i | 0 <= i < |n.posts| ensures PostEntry(n, n.posts[i]) {
      assert PostEntry(s, s.posts[i]);
    }
  }

  lemma RecordingRewrites(s: State, w: WorkerId, fenced: bool, io: Io)
    requires Inv(s) && At(s, w, Answered)
    ensures Rewrites(s, Recording(s, w, fenced, io))
    ensures var k := s.workers[w];
            var next := s.entries[k.request := k.attempt];
            WriteEntries(s.entries, k.request, k.attempt) == Ok(next) && HasPending(s, k)
  {
    var k := s.workers[w];
    assert WorkerEntry(s, k);
    var next := s.entries[k.request := k.attempt];
    assert next.Keys == s.entries.Keys;
    assert |next| == |next.Keys| && |s.entries| == |s.entries.Keys|;
  }

  lemma RecordingKeepsInv(s: State, w: WorkerId, fenced: bool, io: Io)
    requires Inv(s) && At(s, w, Answered)
    ensures Inv(Recording(s, w, fenced, io))
  {
    var k := s.workers[w];
    var n := Recording(s, w, fenced, io);
    RecordingRewrites(s, w, fenced, io);
    RewriteKeepsApart(s, n);
    forall v | v in n.workers ensures WorkerEntry(n, n.workers[v]) && n.workers[v].request in n.used {
      RecordingKeepsWorker(s, w, fenced, io, v);
    }
    FewerReserved(s, n);
  }

  lemma RecordingKeepsWorker(s: State, w: WorkerId, fenced: bool, io: Io, v: WorkerId)
    requires Inv(s) && At(s, w, Answered) && v in Recording(s, w, fenced, io).workers
    ensures var n := Recording(s, w, fenced, io); WorkerEntry(n, n.workers[v]) && n.workers[v].request in n.used
  {
    var k, n := s.workers[w], Recording(s, w, fenced, io);
    RecordingRewrites(s, w, fenced, io);
    assert WorkerEntry(s, k);
    if v != w {
      assert s.workers[v].request != k.request && n.workers[v] == s.workers[v];
      OtherWorkerKept(s, n, s.workers[v]);
    }
  }

  lemma OtherWorkerKept(s: State, n: State, k: Worker)
    requires WorkerEntry(s, k) && n.pruned == s.pruned
    requires k.request in n.entries <==> k.request in s.entries
    requires k.request in s.entries ==> n.entries[k.request] == s.entries[k.request]
    ensures WorkerEntry(n, k)
  {
  }

  lemma VerifiedByKeepsInv(s: State, w: WorkerId, list: Listing, fenced: bool, io: Io)
    requires Inv(s) && IsVerifying(s, w)
    ensures Inv(VerifiedBy(s, w, list, fenced, io))
  {
    var k := s.workers[w];
    assert WorkerEntry(s, k);
    var n := VerifiedBy(s, w, list, fenced, io);
    assert OneEntry(s, n, k.request);
    OneEntryKeepsPosts(s, n, k.request);
    forall v | v in n.workers ensures WorkerEntry(n, n.workers[v]) && n.workers[v].request in n.used {
      assert WorkerEntry(s, s.workers[v]);
      assert s.workers[v].request != k.request;
    }
    FewerReserved(s, n);
  }

  // Nobody becomes ready to post.
  lemma FewerReserved(s: State, n: State)
    requires ClearToPost(s) && n.posts == s.posts && n.pruned == s.pruned
    requires forall w | At(n, w, Reserved) :: At(s, w, Reserved) && n.workers[w] == s.workers[w]
    ensures ClearToPost(n)
  {
  }

  lemma ReconcileKeepsInv(s: State, account: string, list: Listing, io: Io)
    requires Inv(s)
    ensures Inv(Next(s, ReconcileAll(account, list, io)))
  {
    var n := Next(s, ReconcileAll(account, list, io));
    ReconcileRewrites(s, account, list, io);
    RewriteKeepsApart(s, n);
    forall v | v in n.workers ensures WorkerEntry(n, n.workers[v]) && n.workers[v].request in n.used {
      assert WorkerEntry(s, s.workers[v]);
    }
    FewerReserved(s, n);
  }

  lemma ReconcileRewrites(s: State, account: string, list: Listing, io: Io)
    requires Inv(s)
    ensures var n := Next(s, ReconcileAll(account, list, io));
            && Rewrites(s, n) && n.workers == s.workers
            && (forall r | r in s.entries :: n.entries[r] == s.entries[r] || (s.entries[r].phase.Confirmed? && n.entries[r].phase.Verified?))
  {
    var next := ReconcileEntries(s.entries, account, list);
    assert next.Keys == s.entries.Keys;
  }

  lemma DispatchKeepsInv(s: State, w: WorkerId)
    requires Inv(s) && At(s, w, Reserved)
    ensures Inv(Next(s, Dispatch(w)))
  {
    var k := s.workers[w];
    assert WorkerEntry(s, k);
    var n := Next(s, Dispatch(w));
    forall v | v in n.workers ensures WorkerEntry(n, n.workers[v]) && n.workers[v].request in n.used {
      assert WorkerEntry(s, s.workers[v]);
    }
    forall i | 0 <= i < |n.posts| ensures PostEntry(n, n.posts[i]) {
      if i < |s.posts| { assert PostEntry(s, s.posts[i]); }
    }
    DispatchKeepsClear(s, w, n);
  }

  lemma DispatchKeepsClear(s: State, w: WorkerId, n: State)
    requires Inv(s) && At(s, w, Reserved) && n == Next(s, Dispatch(w))
    ensures ClearToPost(n)
  {
    assert WorkerEntry(s, s.workers[w]);
    forall v, i | At(n, v, Reserved) && 0 <= i < |n.posts|
      ensures n.posts[i].request != n.workers[v].request
        && (n.posts[i].credit == n.workers[v].attempt.credit ==> n.posts[i].request in n.pruned)
    {
      assert v != w && At(s, v, Reserved);
      assert WorkerEntry(s, s.workers[v]);
    }
  }

  lemma RespondKeepsInv(s: State, w: WorkerId, confirmed: bool)
    requires Inv(s) && At(s, w, Posted)
    ensures Inv(Next(s, Respond(w, confirmed)))
  {
    var n := Next(s, Respond(w, confirmed));
    forall v | v in n.workers ensures WorkerEntry(n, n.workers[v]) && n.workers[v].request in n.used {
      assert WorkerEntry(s, s.workers[v]);
    }
    forall i | 0 <= i < |n.posts| ensures PostEntry(n, n.posts[i]) {
      assert PostEntry(s, s.posts[i]);
    }
    FewerReserved(s, n);
  }

  lemma AbandonKeepsInv(s: State, gone: set<WorkerId>)
    requires Inv(s)
    ensures Inv(Next(s, Abandon(gone)))
  {
    var n := Next(s, Abandon(gone));
    forall v | v in n.workers ensures WorkerEntry(n, n.workers[v]) && n.workers[v].request in n.used {
      assert WorkerEntry(s, s.workers[v]);
    }
    forall i | 0 <= i < |n.posts| ensures PostEntry(n, n.posts[i]) {
      assert PostEntry(s, s.posts[i]);
    }
    FewerReserved(s, n);
  }

  lemma StepKeepsInv(s: State, step: Step)
    requires Inv(s)
    ensures Inv(Next(s, step))
  {
    match step
    case ReserveCard(w, i, request, a, now, io) =>
      ReservingEntries(s, w, i, request, a, now, io);
      ReservingWorkers(s, w, i, request, a, now, io);
      ReservingPosts(s, w, i, request, a, now, io);
    case Dispatch(w) => if At(s, w, Reserved) { DispatchKeepsInv(s, w); }
    case Respond(w, confirmed) => if At(s, w, Posted) { RespondKeepsInv(s, w, confirmed); }
    case RecordPhase(w, fenced, io) => if At(s, w, Answered) { RecordingKeepsInv(s, w, fenced, io); }
    case Verify(w, list, fenced, io) => if IsVerifying(s, w) { VerifiedByKeepsInv(s, w, list, fenced, io); }
    case ReconcileAll(account, list, io) => ReconcileKeepsInv(s, account, list, io);
    case Abandon(gone) => AbandonKeepsInv(s, gone);
  }

  lemma {:induction false} RunKeepsInv(s: State, steps: seq<Step>)
    requires Inv(s)
    ensures Inv(Run(s, steps))
    decreases |steps|
  {
    if steps != [] {
      RunKeepsInv(s, steps[..|steps| - 1]);
      StepKeepsInv(Run(s, steps[..|steps| - 1]), steps[|steps| - 1]);
    }
  }

  // ----------------------------------------------------------------- theorems

  /** At most one POST per credit while its entry is resident: over any run, with
      any crashes, lost responses and failed writes, two POSTs for one credit mean
      that the first one's entry was deleted in between. */
  lemma AtMostOncePerCredit(steps: seq<Step>, i: nat, j: nat)
    requires i < j < |Run(INITIAL, steps).posts|
    ensures var s := Run(INITIAL, steps);
            && s.posts[i].request != s.posts[j].request
            && (s.posts[i].credit == s.posts[j].credit ==> s.posts[i].request in s.pruned)
  {
    RunKeepsInv(INITIAL, steps);
  }

  /** An entry is deleted only when it is verified and older than the retention. */
  lemma OnlyVerifiedEntriesArePruned(s: State, step: Step, r: RequestId)
    requires Inv(s) && r in s.entries
    requires r !in Next(s, step).entries || (r in Next(s, step).pruned && r !in s.pruned)
    ensures step.ReserveCard? && Prunable(s.entries[r], step.now)
  {
    match step
    case ReserveCard(w, i, request, a, now, io) =>
      if request !in s.used && ReserveEntries(s.entries, request, a, now).Ok? {
        ReserveFacts(s.entries, request, a, now);
      }
    case _ => OnlyReservingPrunes(s, step);
  }

  lemma OnlyReservingPrunes(s: State, step: Step)
    requires !step.ReserveCard?
    ensures s.entries.Keys <= Next(s, step).entries.Keys && Next(s, step).pruned == s.pruned
  {
  }

  /** An entry turns verified exactly when it was confirmed, belongs to the account, and
      a complete list with a known count, read after the attempt, shows fewer credits
      than before and not the attempted one. Nothing else changes. */
  lemma ReconcileVerifiesIff(entries: Entries, account: string, list: Listing, r: RequestId)
    requires r in entries
    ensures var a, next := entries[r], ReconcileEntries(entries, account, list);
            && next.Keys == entries.Keys
            && (!a.phase.Verified? && next[r].phase.Verified? <==>
                  a.phase.Confirmed? && a.account == account && list.complete && list.countKnown
                  && list.observedAt > a.at && list.count < a.before && a.credit !in list.credits)
            && next[r] == (if next[r].phase.Verified? then a.(phase := Verified) else a)
  {
  }

  /** A reservation is refused exactly when an entry stands in its way or the journal
      would grow beyond 4096 entries. In its way stands an entry for the credit and one
      of the account that is not verified or younger than a minute, unless it is
      verified and older than 90 days: such entries are dropped, all others stay. */
  lemma ReservationTerms(entries: Entries, request: RequestId, a: Attempt, now: nat)
    ensures var res := ReserveEntries(entries, request, a, now);
            var lasting := set r | r in entries && !(entries[r].phase.Verified? && now > entries[r].at + 7776000);
            && (res.Ok? <==>
                  && |lasting + {request}| <= 4096
                  && forall r | r in lasting ::
                       && entries[r].credit != a.credit
                       && (entries[r].account == a.account ==> entries[r].phase.Verified? && now >= entries[r].at + 60))
            && (res.Ok? ==>
                  && res.value.Keys == lasting + {request} && res.value[request] == a
                  && forall r | r in lasting && r != request :: res.value[r] == entries[r])
  {
    var lasting := set r | r in entries && !(entries[r].phase.Verified? && now > entries[r].at + 7776000);
    assert Kept(entries, now).Keys == lasting;
    var next := Kept(entries, now)[request := a];
    assert next.Keys == lasting + {request} && |next| == |next.Keys|;
    if Blocked(entries, a.account, a.credit, now) {
      var r :| r in Kept(entries, now) && Conflicts(entries[r], a.account, a.credit, now);
      assert r in lasting;
    } else {
      forall r | r in lasting ensures !Conflicts(entries[r], a.account, a.credit, now) {
        assert r in Kept(entries, now);
      }
    }
  }

  ghost predicate TurnsVerified(s: State, n: State, r: RequestId) {
    r in s.entries && r in n.entries && !s.entries[r].phase.Verified? && n.entries[r].phase.Verified?
  }

  /** Over all steps an entry turns verified exactly when a durable write follows a
      list with a known count that shows fewer credits than before the attempt and not
      the attempted one: the list of a reconciliation, complete and later than a
      confirmed attempt, or the list its own worker read after the confirmation. */
  lemma VerifiedOnEvidence(s: State, step: Step, r: RequestId)
    requires Inv(s) && r in s.entries && !s.entries[r].phase.Verified?
    ensures TurnsVerified(s, Next(s, step), r) <==>
              var a := s.entries[r];
              && (step.ReconcileAll? || step.Verify?) && !step.io.NotDurable?
              && step.list.countKnown && step.list.count < a.before && a.credit !in step.list.credits
              && if step.ReconcileAll? then step.account == a.account && a.phase.Confirmed? && step.list.complete && step.list.observedAt > a.at
                 else IsVerifying(s, step.worker) && step.fenced && s.workers[step.worker].request == r
  {
    match step
    case Verify(w, list, fenced, io) =>
      if IsVerifying(s, w) {
        VerifyMoves(s, w, list, fenced, io, r);
        assert WorkerEntry(s, s.workers[w]);
      }
    case RecordPhase(w, fenced, io) =>
      RecordMoves(s, w, fenced, io, r);
      if At(s, w, Answered) {
        RecordingRewrites(s, w, fenced, io);
        assert WorkerEntry(s, s.workers[w]);
      }
    case ReserveCard(w, i, request, a, now, io) =>
      if r in Next(s, step).entries { ReserveMoves(s, step, r); }
    case ReconcileAll(account, list, io) =>
      ReconcileVerifiesIff(s.entries, account, list, r);
    case _ =>
  }

  /** When a POST is sent, its own entry is durable and pending, every other entry
      of the account is verified, and no earlier POST for the credit has an entry
      that was never deleted. */
  lemma PostIsGuarded(steps: seq<Step>, w: WorkerId)
    requires At(Run(INITIAL, steps), w, Reserved)
    ensures var s := Run(INITIAL, steps);
            var k := s.workers[w];
            && Next(s, Dispatch(w)).posts == s.posts + [Post(k.request, k.attempt.account, k.attempt.credit)]
            && HasPending(s, k)
            && (forall r | r in s.entries && r != k.request && s.entries[r].account == k.attempt.account :: s.entries[r].phase.Verified?)
            && (forall i | 0 <= i < |s.posts| && s.posts[i].credit == k.attempt.credit :: s.posts[i].request in s.pruned)
  {
    var s := Run(INITIAL, steps);
    RunKeepsInv(INITIAL, steps);
    assert WorkerEntry(s, s.workers[w]);
  }

  ghost predicate ExpectedMove(before: Phase, after: Phase) {
    || before == after
    || (before.Pending? && (after.Unknown? || after.Confirmed?))
    || (before.Confirmed? && after.Verified?)
  }

  // The durable verification write of a worker whose confirmation write was lost.
  ghost predicate SkipsConfirmation(s: State, step: Step, r: RequestId) {
    && step.Verify? && step.fenced && !step.io.NotDurable?
    && At(s, step.worker, Verifying(false)) && s.workers[step.worker].request == r
    && ShowsUse(step.list, s.workers[step.worker].attempt)
  }

  /** Phases move pending -> unknown or confirmed -> verified, and never back. The
      one other move is pending -> verified, and a step makes it exactly when it is
      the durable verification write of a worker whose confirmation write was lost. */
  lemma PhaseMoves(s: State, step: Step, r: RequestId)
    requires Inv(s) && r in s.entries && r in Next(s, step).entries
    ensures var before, after := s.entries[r].phase, Next(s, step).entries[r].phase;
            && (!SkipsConfirmation(s, step, r) ==> ExpectedMove(before, after))
            && (SkipsConfirmation(s, step, r) <==> before.Pending? && after.Verified?)
  {
    match step
    case Verify(w, list, fenced, io) =>
      if IsVerifying(s, w) {
        VerifyMoves(s, w, list, fenced, io, r);
      }
    case RecordPhase(w, fenced, io) => RecordMoves(s, w, fenced, io, r);
    case ReserveCard(w, i, request, a, now, io) => ReserveMoves(s, step, r);
    case ReconcileAll(account, list, io) => ReconcileRewrites(s, account, list, io);
    case _ =>
  }

  lemma RecordMoves(s: State, w: WorkerId, fenced: bool, io: Io, r: RequestId)
    requires Inv(s) && r in s.entries
    ensures var n := Next(s, RecordPhase(w, fenced, io));
            r in n.entries ==> ExpectedMove(s.entries[r].phase, n.entries[r].phase)
                               && (s.entries[r].phase.Pending? ==> !n.entries[r].phase.Verified?)
  {
    if At(s, w, Answered) {
      RecordingRewrites(s, w, fenced, io);
      assert WorkerEntry(s, s.workers[w]);
    }
  }

  lemma ReserveMoves(s: State, step: Step, r: RequestId)
    requires Inv(s) && step.ReserveCard? && r in s.entries && r in Next(s, step).entries
    ensures Next(s, step).entries[r] == s.entries[r]
  {
    if step.request !in s.used && ReserveEntries(s.entries, step.request, step.attempt, step.now).Ok? {
      ReserveFacts(s.entries, step.request, step.attempt, step.now);
    }
  }

  lemma VerifyMoves(s: State, w: WorkerId, list: Listing, fenced: bool, io: Io, r: RequestId)
    requires Inv(s) && IsVerifying(s, w) && r in s.entries
    ensures var n := VerifiedBy(s, w, list, fenced, io);
            if s.workers[w].request == r && fenced && !io.NotDurable? && ShowsUse(list, s.workers[w].attempt)
            then r in n.entries && n.entries[r].phase.Verified? && (s.entries[r].phase.Pending? <==> s.workers[w].progress == Verifying(false))
                 && !s.entries[r].phase.Unknown?
            else r in n.entries && n.entries[r] == s.entries[r]
  {
    var k := s.workers[w];
    assert WorkerEntry(s, k);
    if k.request == r {
      var next := s.entries[r := k.attempt.(phase := Verified)];
      assert next.Keys == s.entries.Keys;
      assert |next| == |next.Keys| && |s.entries| == |s.entries.Keys|;
    }
  }

  /** The skipped confirmation is reachable: a reservation, a POST, an answer
      "reset", a confirmation write that does not become durable, and then the
      verification. */
  lemma ConfirmationCanBeSkipped(a: Attempt, list: Listing)
    requires a.phase.Pending? && ShowsUse(list, a)
    ensures var steps := [ReserveCard(0, 0, 7, a, a.at, Durable), Dispatch(0), Respond(0, true), RecordPhase(0, true, NotDurable)];
            var s := Run(INITIAL, steps);
            && 7 in s.entries && s.entries[7].phase.Pending?
            && SkipsConfirmation(s, Verify(0, list, true, Durable), 7)
  {
    var steps: seq<Step> := [ReserveCard(0, 0, 7, a, a.at, Durable), Dispatch(0), Respond(0, true), RecordPhase(0, true, NotDurable)];
    var s1 := FirstReservation(a);
    assert steps[..0] == [];
    RunOne(steps, 0);
    RunOne(steps, 1);
    RunOne(steps, 2);
    RunOne(steps, 3);
    assert steps[..4] == steps;
    var s3 := PostAnswered(s1, a);
    ConfirmationLost(s3);
  }

  lemma PostAnswered(s1: State, a: Attempt) returns (s3: State)
    requires a.phase.Pending? && s1 == State(map[7 := a], map[0 := Worker(0, 7, a, Reserved)], {7}, {}, [])
    ensures s3 == Next(Next(s1, Dispatch(0)), Respond(0, true))
    ensures s3 == State(map[7 := a], map[0 := Worker(0, 7, a.(phase := Confirmed), Answered)], {7}, {}, [Post(7, a.account, a.credit)])
  {
    var s2 := State(map[7 := a], map[0 := Worker(0, 7, a, Posted)], {7}, {}, [Post(7, a.account, a.credit)]);
    assert Next(s1, Dispatch(0)) == s2;
    s3 := Next(s2, Respond(0, true));
  }

  lemma ConfirmationLost(s: State)
    requires At(s, 0, Answered) && s.workers[0].attempt.phase.Confirmed?
    ensures Next(s, RecordPhase(0, true, NotDurable)) == s.(workers := s.workers[0 := s.workers[0].(progress := Verifying(false))])
  {
  }

  lemma FirstReservation(a: Attempt) returns (s: State)
    requires a.phase.Pending?
    ensures s == Next(INITIAL, ReserveCard(0, 0, 7, a, a.at, Durable))
    ensures s == State(map[7 := a], map[0 := Worker(0, 7, a, Reserved)], {7}, {}, [])
  {
    var none: Entries := map[];
    assert Kept(none, a.at)[7 := a] == map[7 := a];
    assert |map[7 := a]| == 1;
    s := Next(INITIAL, ReserveCard(0, 0, 7, a, a.at, Durable));
  }

  lemma RunOne(steps: seq<Step>, n: nat)
    requires n < |steps|
    ensures Run(INITIAL, steps[..n + 1]) == Next(Run(INITIAL, steps[..n]), steps[n])
  {
    assert steps[..n + 1][..n] == steps[..n];
  }
}
