/**
 The protocol over the journal file: every section updates the bytes under a fault, and
 every such run is a run of the protocol on records, so its theorems hold of the file.
 */
module FileProtocol {
  import opened GenerationRecord
  import opened GenerationJournal
  import P = GenerationProtocol

  /** Every effect that a journal update on bytes can have, under any fault, is the
      effect of one of the outcomes of JournalStep on the record the bytes stand
      for; the caller sees success only for Done. */
  lemma UpdateIsJournalStep(c: Codec, f: seq<byte>, r: Record, req: Request, fault: Fault) returns (outcome: P.Outcome)
    requires Lawful(c) && Stands(c, f, r) && EncodableRequest(req)
    ensures var (g, res) := Update(c, f, req, fault);
            && Stands(c, g, P.JournalStep(r, req, outcome))
            && (outcome.Done? <==> res.Ok?)
            && (outcome.Done? ==> res == Resolve(req, r))
  {
    UpdateStands(c, f, r, req, fault);
    var (g, res) := Update(c, f, req, fault);
    if res.Ok? {
      outcome := P.Done;
    } else if Stands(c, g, r) {
      outcome := P.Failed(false);
    } else {
      outcome := P.Failed(true);
    }
  }

  // What a journal file stands for. A file is empty at first; a first append that was
  // cut leaves the line without its newline, or one that nobody can read any more.
  ghost predicate Represents(c: Codec, f: seq<byte>, r: Record) {
    || Stands(c, f, r)
    || (Encodable(r) && f == c.marshal(r))
    || (r == NO_RECORD && (f == [] || Read(c, f).Err?))
  }

  /** The same for every file that a journal can become, its first append included. */
  lemma UpdateSimulates(c: Codec, f: seq<byte>, r: Record, req: Request, fault: Fault) returns (outcome: P.Outcome)
    requires Lawful(c) && Represents(c, f, r) && EncodableRequest(req)
    ensures var (g, res) := Update(c, f, req, fault);
            && Represents(c, g, P.JournalStep(r, req, outcome))
            && (outcome.Done? <==> res.Ok?)
            && (outcome.Done? ==> res == Resolve(req, r) && Read(c, f).Ok? && Read(c, f).value.latest == r)
  {
    if Stands(c, f, r) {
      StandsRead(c, f, r);
      outcome := UpdateIsJournalStep(c, f, r, req, fault);
    } else if Read(c, f).Err? || fault.LockBusy? {
      outcome := P.Failed(false);
    } else {
      outcome := UpdateOneLine(c, f, r, req, fault);
    }
  }

  // The file is empty, or holds one line without its newline.
  ghost predicate OneLine(c: Codec, f: seq<byte>, r: Record) {
    (f == [] && r == NO_RECORD) || (Encodable(r) && f == c.marshal(r))
  }

  lemma OneLineRead(c: Codec, f: seq<byte>, r: Record)
    requires Lawful(c) && OneLine(c, f, r)
    ensures Encodable(r) && Read(c, f).Ok? && Read(c, f).value.latest == r && !Read(c, f).value.truncatedTail
    ensures |f| <= LINE_MAX_BYTES
  {
    if f != [] {
      assert LawfulAt(c, r);
      assert c.marshal(r)[..|f|] == f;
      ScanOnlyLine(c, r, |f|);
    }
  }

  lemma UpdateOneLine(c: Codec, f: seq<byte>, r: Record, req: Request, fault: Fault) returns (outcome: P.Outcome)
    requires Lawful(c) && OneLine(c, f, r) && EncodableRequest(req) && !fault.LockBusy?
    ensures var (g, res) := Update(c, f, req, fault);
            && Represents(c, g, P.JournalStep(r, req, outcome))
            && (outcome.Done? <==> res.Ok?)
            && (outcome.Done? ==> res == Resolve(req, r) && Read(c, f).Ok? && Read(c, f).value.latest == r)
  {
    OneLineRead(c, f, r);
    match Decide(req, r)
    case Refuse => outcome := P.Failed(false);
    case Keep => outcome := P.Done;
    case Write(w) =>
      ResolveEncodable(req, r);
      outcome := AppendToOneLine(c, f, r, w.(version := RECORD_VERSION), fault);
  }

  lemma AppendToOneLine(c: Codec, f: seq<byte>, r: Record, w: Record, fault: Fault) returns (outcome: P.Outcome)
    requires Lawful(c) && OneLine(c, f, r) && Encodable(r) && |f| <= LINE_MAX_BYTES && Encodable(w) && Follows(w, r)
    ensures var (g, res) := Append(c, f, w, fault);
            && Represents(c, g, if outcome == P.Failed(false) then r else w)
            && (outcome.Done? <==> res.Ok?) && (res.Ok? ==> res.value == w)
  {
    assert LawfulAt(c, w);
    var (g, res) := Append(c, f, w, fault);
    if g == f {
      outcome := P.Failed(false);
    } else {
      var j := AppendedPrefix(c, f, w, fault);
      var stays;
      if f == [] {
        stays := FirstLine(c, w, j);
      } else {
        stays := SecondLine(c, f, r, w, j);
      }
      outcome := if res.Ok? then P.Done else P.Failed(!stays);
    }
  }

  // An append to an empty file that got `j` bytes far.
  lemma FirstLine(c: Codec, w: Record, j: nat) returns (stays: bool)
    requires Lawful(c) && Encodable(w) && 0 < j <= |LineOf(c, w)|
    ensures Represents(c, ([] + Separator([])) + LineOf(c, w)[..j], if stays then NO_RECORD else w)
    ensures j == |LineOf(c, w)| ==> !stays
  {
    var g: seq<byte> := LineOf(c, w)[..j];
    assert ([] + Separator([])) + LineOf(c, w)[..j] == g;
    FirstAppendTorn(c, w, j);
    stays := j < |c.marshal(w)|;
    if j == |c.marshal(w)| {
      assert g == c.marshal(w);
    } else if j > |c.marshal(w)| {
      assert g == LineOf(c, w);
      CompactedStands(c, w);
    }
  }

  lemma SecondLine(c: Codec, f: seq<byte>, r: Record, w: Record, j: nat) returns (stays: bool)
    requires Lawful(c) && Encodable(r) && f == c.marshal(r) && Encodable(w) && Follows(w, r) && j <= |LineOf(c, w)|
    ensures Represents(c, (f + Separator(f)) + LineOf(c, w)[..j], if stays then r else w)
    ensures j == |LineOf(c, w)| ==> !stays
  {
    assert LawfulAt(c, r) && LawfulAt(c, w);
    LineHasNoNewline(c, r);
    assert f[|f| - 1] in f;
    assert Lines(c, [r]) == LineOf(c, r) by { assert [r][1..] == []; }
    assert f + Separator(f) == Lines(c, [r]);
    CutLineStands(c, [r], w, j);
    stays := j < |c.marshal(w)|;
  }

  // ------------------------------------------------------------------ whole runs

  // The file, and everything that the instances and their threads remember.
  datatype World = World(
    bytes: seq<byte>,
    memory: map<P.Instance, P.Ownership>,
    threads: map<P.ThreadId, P.Thread>,
    issued: seq<P.Issue>,
    commits: seq<nat>)

  datatype Step =
    | Load(instance: P.Instance)
    | Reserve(thread: P.ThreadId, instance: P.Instance, owner: string, now: nat, fault: Fault)
    | Begin(thread: P.ThreadId, instance: P.Instance, kind: P.Kind)
    | Locked(thread: P.ThreadId, now: nat, fault: Fault)
    | Publish(thread: P.ThreadId)
    | Crash(instance: P.Instance)

  function Empty(f: seq<byte>): World {
    World(f, map[], map[], [], [])
  }

  // The protocol's state, if the file stands for `r`.
  function View(w: World, r: Record): P.State {
    P.State(r, w.memory, w.threads, w.issued, w.commits)
  }

  function Reserving(c: Codec, w: World, t: P.ThreadId, i: P.Instance, owner: string, now: nat, fault: Fault): World {
    if t in w.threads || i !in w.memory then w
    else
      var (g, res) := Update(c, w.bytes, GenerationRecord.Reserve(now), fault);
      if res.Err? then w.(bytes := g)
      else w.(bytes := g, issued := w.issued + [P.Issue(res.value.highestReserved, i)],
              threads := w.threads[t := P.Thread(i, P.PublishReservation(owner, res.value.highestReserved))])
  }

  function RequestOf(kind: P.Kind, snap: P.Ownership, now: nat): Request {
    match kind
    case Claiming => GenerationRecord.Claim(snap.ticket, snap.owner, now)
    case Committing => Look
    case Checking => Look
    case Releasing => GenerationRecord.Release(snap.ticket, snap.owner, now)
  }

  // What the thread still has to publish after a section that found `seen`.
  function Answer(kind: P.Kind, snap: P.Ownership, seen: Record, now: nat): P.Todo
    requires !(Holds(seen, snap.ticket, snap.owner) && (kind.Committing? || kind.Checking?))
  {
    match kind
    case Claiming => if Superseded(seen, snap.ticket) then P.PublishSuperseded(seen.activeGeneration) else P.PublishClaim(snap, now)
    case Releasing => if Holds(seen, snap.ticket, snap.owner) then P.PublishRelease(snap) else P.PublishSuperseded(seen.activeGeneration)
    case _ => P.PublishSuperseded(seen.activeGeneration)
  }

  function Locking(c: Codec, w: World, t: P.ThreadId, now: nat, fault: Fault): World
    requires t in w.threads && w.threads[t].todo.Holding?
  {
    var th := w.threads[t];
    var kind, snap := th.todo.kind, th.todo.snap;
    var (g, res) := Update(c, w.bytes, RequestOf(kind, snap, now), fault);
    var rest := w.(bytes := g, threads := w.threads - {t});
    if res.Err? || Read(c, w.bytes).Err? then rest
    else
      var seen := Read(c, w.bytes).value.latest;
      if kind.Committing? && Holds(seen, snap.ticket, snap.owner) then rest.(commits := w.commits + [snap.ticket])
      else if kind.Checking? && Holds(seen, snap.ticket, snap.owner) then rest
      else w.(bytes := g, threads := w.threads[t := th.(todo := Answer(kind, snap, seen, now))])
  }

  // Steps that leave the file alone are the protocol's own.
  function Next(c: Codec, w: World, step: Step): World {
    match step
    case Reserve(t, i, owner, now, fault) => Reserving(c, w, t, i, owner, now, fault)
    case Locked(t, now, fault) => if t in w.threads && w.threads[t].todo.Holding? then Locking(c, w, t, now, fault) else w
    case Load(i) => Remembering(w, P.Load(i))
    case Begin(t, i, kind) => Remembering(w, P.Begin(t, i, kind))
    case Publish(t) => Remembering(w, P.Publish(t))
    case Crash(i) => Remembering(w, P.Crash(i))
  }

  function Remembering(w: World, step: P.Step): World {
    var n := P.Next(View(w, NO_RECORD), step);
    World(w.bytes, n.memory, n.threads, n.issued, n.commits)
  }

  function Run(c: Codec, w: World, steps: seq<Step>): World
    decreases |steps|
  {
    if steps == [] then w else Next(c, Run(c, w, steps[..|steps| - 1]), steps[|steps| - 1])
  }

  // Owners are the random texts of `newSchedulerGenerationOwner`; times fit the record.
  predicate Encodes(step: Step) {
    match step
    case Reserve(_, _, owner, now, _) => OwnerText(owner) && now <= MAX_GENERATION
    case Locked(_, now, _) => now <= MAX_GENERATION
    case _ => true
  }

  predicate OwnerTodo(todo: P.Todo) {
    match todo
    case PublishReservation(owner, _) => OwnerText(owner)
    case Holding(_, snap) => OwnerText(snap.owner)
    case _ => true
  }

  ghost predicate OwnersOk(w: World) {
    && (forall i | i in w.memory && w.memory[i].managed :: OwnerText(w.memory[i].owner))
    && (forall t | t in w.threads :: OwnerTodo(w.threads[t].todo))
  }

  ghost predicate Agrees(c: Codec, w: World, s: P.State) {
    && Represents(c, w.bytes, s.record) && OwnersOk(w) && s == View(w, s.record)
  }

  // What a section has in common with the protocol's, given its answer.
  predicate Answers(c: Codec, w: World, r: Record, req: Request, fault: Fault, outcome: P.Outcome) {
    var res := Update(c, w.bytes, req, fault).1;
    && (outcome.Done? <==> res.Ok?)
    && (outcome.Done? ==> res == Resolve(req, r) && Read(c, w.bytes).Ok? && Read(c, w.bytes).value.latest == r)
  }

  lemma LookingView(c: Codec, w: World, r: Record, t: P.ThreadId, now: nat, fault: Fault, outcome: P.Outcome)
    requires t in w.threads && w.threads[t].todo.Holding? && (w.threads[t].todo.kind.Committing? || w.threads[t].todo.kind.Checking?)
    requires Answers(c, w, r, Look, fault, outcome)
    ensures P.AfterLocked(View(w, r), t, now, outcome) == View(Locking(c, w, t, now, fault), P.JournalStep(r, Look, outcome))
  {
  }

  lemma ClaimingView(c: Codec, w: World, r: Record, t: P.ThreadId, now: nat, fault: Fault, outcome: P.Outcome)
    requires t in w.threads && w.threads[t].todo.Holding? && w.threads[t].todo.kind.Claiming?
    requires Answers(c, w, r, RequestOf(P.Claiming, w.threads[t].todo.snap, now), fault, outcome)
    ensures P.AfterLocked(View(w, r), t, now, outcome)
         == View(Locking(c, w, t, now, fault), P.JournalStep(r, RequestOf(P.Claiming, w.threads[t].todo.snap, now), outcome))
  {
  }

  lemma ReleasingView(c: Codec, w: World, r: Record, t: P.ThreadId, now: nat, fault: Fault, outcome: P.Outcome)
    requires t in w.threads && w.threads[t].todo.Holding? && w.threads[t].todo.kind.Releasing?
    requires Answers(c, w, r, RequestOf(P.Releasing, w.threads[t].todo.snap, now), fault, outcome)
    ensures P.AfterLocked(View(w, r), t, now, outcome)
         == View(Locking(c, w, t, now, fault), P.JournalStep(r, RequestOf(P.Releasing, w.threads[t].todo.snap, now), outcome))
  {
  }

  lemma LockingOwners(c: Codec, w: World, t: P.ThreadId, now: nat, fault: Fault)
    requires OwnersOk(w) && t in w.threads && w.threads[t].todo.Holding?
    ensures OwnersOk(Locking(c, w, t, now, fault))
    ensures Locking(c, w, t, now, fault).bytes
         == Update(c, w.bytes, RequestOf(w.threads[t].todo.kind, w.threads[t].todo.snap, now), fault).0
  {
  }

  lemma LockingAgrees(c: Codec, w: World, s: P.State, t: P.ThreadId, now: nat, fault: Fault) returns (p: P.Step)
    requires Lawful(c) && Agrees(c, w, s) && now <= MAX_GENERATION
    requires t in w.threads && w.threads[t].todo.Holding?
    ensures Agrees(c, Locking(c, w, t, now, fault), P.Next(s, p))
  {
    var r, todo := s.record, w.threads[t].todo;
    assert OwnerTodo(todo);
    var req := RequestOf(todo.kind, todo.snap, now);
    var outcome := UpdateSimulates(c, w.bytes, r, req, fault);
    assert Answers(c, w, r, req, fault, outcome);
    p := P.Locked(t, now, outcome);
    LockingOwners(c, w, t, now, fault);
    match todo.kind
    case Claiming => ClaimingView(c, w, r, t, now, fault, outcome);
    case Releasing => ReleasingView(c, w, r, t, now, fault, outcome);
    case Committing => LookingView(c, w, r, t, now, fault, outcome);
    case Checking => LookingView(c, w, r, t, now, fault, outcome);
  }

  lemma ReservingView(c: Codec, w: World, r: Record, t: P.ThreadId, i: P.Instance, owner: string, now: nat, fault: Fault, outcome: P.Outcome)
    requires Answers(c, w, r, GenerationRecord.Reserve(now), fault, outcome)
    ensures P.AfterReserve(View(w, r), t, i, owner, now, outcome)
         == View(Reserving(c, w, t, i, owner, now, fault),
                 if t in w.threads || i !in w.memory then r else P.JournalStep(r, GenerationRecord.Reserve(now), outcome))
  {
  }

  lemma ReservingAgrees(c: Codec, w: World, s: P.State, step: Step) returns (p: P.Step)
    requires Lawful(c) && Agrees(c, w, s) && step.Reserve? && Encodes(step)
    ensures Agrees(c, Next(c, w, step), P.Next(s, p))
  {
    var outcome := UpdateSimulates(c, w.bytes, s.record, GenerationRecord.Reserve(step.now), step.fault);
    p := P.Reserve(step.thread, step.instance, step.owner, step.now, outcome);
    ReservingView(c, w, s.record, step.thread, step.instance, step.owner, step.now, step.fault, outcome);
  }

  lemma StepAgrees(c: Codec, w: World, s: P.State, step: Step) returns (p: P.Step)
    requires Lawful(c) && Agrees(c, w, s) && Encodes(step)
    ensures Agrees(c, Next(c, w, step), P.Next(s, p))
  {
    match step
    case Load(i) => p := P.Load(i);
    case Begin(t, i, kind) => p := P.Begin(t, i, kind);
    case Publish(t) => p := P.Publish(t);
    case Crash(i) => p := P.Crash(i);
    case Reserve(_, _, _, _, _) => p := ReservingAgrees(c, w, s, step);
    case Locked(t, now, fault) =>
      if t in w.threads && w.threads[t].todo.Holding? {
        p := LockingAgrees(c, w, s, t, now, fault);
      } else {
        p := P.Locked(t, now, P.Done);
      }
  }

  ghost predicate AgreesAt(c: Codec, f: seq<byte>, r: Record, steps: seq<Step>, image: seq<P.Step>) {
    Agrees(c, Run(c, Empty(f), steps), P.Run(P.Initial(r), image))
  }

  lemma AgreesNext(c: Codec, f: seq<byte>, r: Record, steps: seq<Step>, image: seq<P.Step>) returns (p: P.Step)
    requires Lawful(c) && steps != [] && Encodes(steps[|steps| - 1]) && AgreesAt(c, f, r, steps[..|steps| - 1], image)
    ensures AgreesAt(c, f, r, steps, image + [p])
  {
    var k := |steps| - 1;
    p := StepAgrees(c, Run(c, Empty(f), steps[..k]), P.Run(P.Initial(r), image), steps[k]);
    assert (image + [p])[..|image + [p]| - 1] == image;
  }

  /** Step by step, a run over the file is a run of the protocol on the records that
      the file stands for. */
  lemma {:induction false} RunAgrees(c: Codec, f: seq<byte>, r: Record, steps: seq<Step>) returns (image: seq<P.Step>)
    requires Lawful(c) && Represents(c, f, r) && forall step <- steps :: Encodes(step)
    ensures |image| == |steps|
    ensures forall n | 0 <= n <= |steps| :: AgreesAt(c, f, r, steps[..n], image[..n])
    decreases |steps|
  {
    if steps == [] {
      image := [];
    } else {
      var k := |steps| - 1;
      var prior := RunAgrees(c, f, r, steps[..k]);
      assert AgreesAt(c, f, r, steps[..k][..k], prior[..k]) && steps[..k][..k] == steps[..k] && prior[..k] == prior;
      var last := AgreesNext(c, f, r, steps, prior);
      image := prior + [last];
      forall n | 0 <= n <= |steps| ensures AgreesAt(c, f, r, steps[..n], image[..n]) {
        PrefixAgrees(c, f, r, steps, prior, last, n);
      }
    }
  }

  lemma PrefixAgrees(c: Codec, f: seq<byte>, r: Record, steps: seq<Step>, prior: seq<P.Step>, last: P.Step, n: nat)
    requires n <= |steps| == |prior| + 1 && AgreesAt(c, f, r, steps, prior + [last])
    requires n <= |prior| ==> AgreesAt(c, f, r, steps[..|prior|][..n], prior[..n])
    ensures AgreesAt(c, f, r, steps[..n], (prior + [last])[..n])
  {
    if n <= |prior| {
      assert steps[..|prior|][..n] == steps[..n] && (prior + [last])[..n] == prior[..n];
    } else {
      assert steps[..n] == steps && (prior + [last])[..n] == prior + [last];
    }
  }

  // ------------------------------------------------------- fencing, of the file

  // The file's active generation, to anybody who reads it.
  predicate ActiveOnFile(c: Codec, f: seq<byte>, ticket: nat) {
    Read(c, f).Ok? && Read(c, f).value.latest.active && Read(c, f).value.latest.activeGeneration == ticket
  }

  lemma ActiveIsRecorded(c: Codec, f: seq<byte>, r: Record, ticket: nat)
    requires Lawful(c) && Represents(c, f, r)
    ensures Valid(r) && (ActiveOnFile(c, f, ticket) <==> r.active && r.activeGeneration == ticket)
  {
    if Stands(c, f, r) {
      StandsRead(c, f, r);
    } else if OneLine(c, f, r) {
      OneLineRead(c, f, r);
    }
  }

  /** Over any faults, from an empty file or any other journal: no ticket is issued
      twice, and commits happen in the order of their tickets. */
  lemma FileKeepsOrder(c: Codec, f: seq<byte>, r: Record, steps: seq<Step>, p: nat, q: nat)
    requires Lawful(c) && Represents(c, f, r) && (forall step <- steps :: Encodes(step)) && p < q
    ensures var w := Run(c, Empty(f), steps);
            && (q < |w.commits| ==> w.commits[p] <= w.commits[q])
            && (q < |w.issued| ==> w.issued[p].ticket < w.issued[q].ticket)
  {
    ActiveIsRecorded(c, f, r, 0);
    var image := RunAgrees(c, f, r, steps);
    assert AgreesAt(c, f, r, steps[..|steps|], image[..|steps|]) && steps[..|steps|] == steps && image[..|steps|] == image;
    P.RunKeepsInv(P.Initial(r), image);
  }

  /** And no revival: readers find a ticket active during one contiguous stretch. */
  lemma FileNeverRevives(c: Codec, f: seq<byte>, r: Record, steps: seq<Step>, ticket: nat, i: nat, j: nat, k: nat)
    requires Lawful(c) && Represents(c, f, r) && (forall step <- steps :: Encodes(step)) && i <= j <= k <= |steps|
    requires ActiveOnFile(c, Run(c, Empty(f), steps[..i]).bytes, ticket) && ActiveOnFile(c, Run(c, Empty(f), steps[..k]).bytes, ticket)
    ensures ActiveOnFile(c, Run(c, Empty(f), steps[..j]).bytes, ticket)
  {
    ActiveIsRecorded(c, f, r, 0);
    var image := RunAgrees(c, f, r, steps);
    forall n | n in {i, j, k}
      ensures ActiveOnFile(c, Run(c, Empty(f), steps[..n]).bytes, ticket) <==> P.ActiveTicket(P.Run(P.Initial(r), image[..n]), ticket)
    {
      assert AgreesAt(c, f, r, steps[..n], image[..n]);
      ActiveIsRecorded(c, Run(c, Empty(f), steps[..n]).bytes, P.Run(P.Initial(r), image[..n]).record, ticket);
    }
    P.NoRevival(r, image, ticket, i, j, k);
  }
}
