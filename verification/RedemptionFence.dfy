/**
 The redemption journal under the generation fence (reset_credits.go): both machines side
 by side, and a journal change goes through only while its thread's commit check passes.
 */
module RedemptionFence {
  import opened GenerationRecord
  import GP = GenerationProtocol
  import RC = ResetCredits

  // `writers` records the active generation at every change that went through.
  datatype State = State(generation: GP.State, journal: RC.State, writers: seq<nat>)

  datatype Step =
    | Generation(generationStep: GP.Step)
    | Change(thread: GP.ThreadId, now: nat, change: RC.Step)
    | Local(localStep: RC.Step)

  // The thread is about to run a commit and the record still names its ticket.
  predicate MayCommit(g: GP.State, t: GP.ThreadId) {
    && t in g.threads && g.threads[t].todo.Holding? && g.threads[t].todo.kind.Committing?
    && Holds(g.record, g.threads[t].todo.snap.ticket, g.threads[t].todo.snap.owner)
  }

  // The change is made on behalf of this instance; a worker asks for its verification
  // only when the list shows the use.
  predicate MadeBy(j: RC.State, change: RC.Step, i: GP.Instance) {
    match change
    case ReserveCard(_, instance, _, _, _, _) => instance == i
    case RecordPhase(w, _, _) => w in j.workers && j.workers[w].instance == i
    case Verify(w, list, _, _) => w in j.workers && j.workers[w].instance == i && RC.ShowsUse(list, j.workers[w].attempt)
    case ReconcileAll(_, _, _) => true
    case _ => false
  }

  predicate LetThrough(s: State, t: GP.ThreadId, change: RC.Step) {
    MayCommit(s.generation, t) && MadeBy(s.journal, change, s.generation.threads[t].instance)
  }

  // What the journal's workers do, given whether the fence let the change through.
  function Fenced(change: RC.Step, through: bool): RC.Step {
    match change
    case RecordPhase(w, _, io) => RC.RecordPhase(w, through, io)
    case Verify(w, list, _, io) => RC.Verify(w, list, through, io)
    case _ => if through then change else RC.Abandon({})
  }

  predicate IsLocal(step: RC.Step) {
    step.Dispatch? || step.Respond? || step.Abandon?
  }

  // The journal step that a step of the whole system amounts to.
  function JournalPart(s: State, step: Step): RC.Step {
    match step
    case Generation(g) =>
      RC.Abandon(if g.Crash? then set w | w in s.journal.workers && s.journal.workers[w].instance == g.instance else {})
    case Change(t, now, change) => Fenced(change, LetThrough(s, t, change))
    case Local(l) => if IsLocal(l) then l else RC.Abandon({})
  }

  function Next(s: State, step: Step): State {
    var journal := RC.Next(s.journal, JournalPart(s, step));
    match step
    case Generation(g) => s.(generation := GP.Next(s.generation, g), journal := journal)
    case Change(t, now, change) =>
      if LetThrough(s, t, change)
      then State(GP.Next(s.generation, GP.Locked(t, now, GP.Done)), journal, s.writers + [s.generation.record.activeGeneration])
      else s.(journal := journal)
    case Local(l) => s.(journal := journal)
  }

  function Run(s: State, steps: seq<Step>): State
    decreases |steps|
  {
    if steps == [] then s else Next(Run(s, steps[..|steps| - 1]), steps[|steps| - 1])
  }

  function Initial(r: Record): State {
    State(GP.Initial(r), RC.INITIAL, [])
  }

  // The run of the journal's workers inside a run of the whole system.
  function JournalSteps(s: State, steps: seq<Step>): (js: seq<RC.Step>)
    ensures |js| == |steps|
    decreases |steps|
  {
    if steps == [] then []
    else JournalSteps(s, steps[..|steps| - 1]) + [JournalPart(Run(s, steps[..|steps| - 1]), steps[|steps| - 1])]
  }

  lemma {:induction false} JournalRuns(s: State, steps: seq<Step>)
    ensures Run(s, steps).journal == RC.Run(s.journal, JournalSteps(s, steps))
    decreases |steps|
  {
    if steps != [] {
      var prior := steps[..|steps| - 1];
      JournalRuns(s, prior);
      var js := JournalSteps(s, steps);
      assert js[..|js| - 1] == JournalSteps(s, prior);
    }
  }

  predicate Inv(s: State) {
    && GP.Inv(s.generation)
    && (forall i | 0 <= i < |s.writers| :: s.writers[i] <= s.generation.record.activeGeneration)
    && (forall i, j | 0 <= i < j < |s.writers| :: s.writers[i] <= s.writers[j])
  }

  lemma {:induction false} RunKeepsInv(s: State, steps: seq<Step>)
    requires Inv(s)
    ensures Inv(Run(s, steps))
    decreases |steps|
  {
    if steps != [] {
      var before := Run(s, steps[..|steps| - 1]);
      RunKeepsInv(s, steps[..|steps| - 1]);
      match steps[|steps| - 1]
      case Generation(g) =>
        GP.StepKeepsInv(before.generation, g);
        GP.StepFollows(before.generation, g);
      case Change(t, now, change) =>
        GP.StepKeepsInv(before.generation, GP.Locked(t, now, GP.Done));
        GP.StepFollows(before.generation, GP.Locked(t, now, GP.Done));
      case Local(l) =>
    }
  }

  /** At most one consume POST per credit while its entry is resident, over any
      number of instances, takeovers, crashes, lost responses and failed writes. */
  lemma AtMostOnceAcrossInstances(r: Record, steps: seq<Step>, i: nat, j: nat)
    requires i < j < |Run(Initial(r), steps).journal.posts|
    ensures var s := Run(Initial(r), steps).journal;
            && s.posts[i].request != s.posts[j].request
            && (s.posts[i].credit == s.posts[j].credit ==> s.posts[i].request in s.pruned)
  {
    JournalRuns(Initial(r), steps);
    RC.AtMostOncePerCredit(JournalSteps(Initial(r), steps), i, j);
  }

  /** Journal entries change only through the fence, and the generations that
      change them never go back: after a newer generation has written, an older one
      never writes again. */
  lemma WritersAreOrdered(r: Record, steps: seq<Step>, p: nat, q: nat)
    requires Valid(r) && p < q < |Run(Initial(r), steps).writers|
    ensures var writers := Run(Initial(r), steps).writers; writers[p] <= writers[q]
  {
    RunKeepsInv(Initial(r), steps);
  }

  lemma ChangesAreFenced(s: State, step: Step)
    requires RC.Inv(s.journal) && Next(s, step).journal.entries != s.journal.entries
    ensures step.Change? && s.generation.record.active
    ensures Next(s, step).writers == s.writers + [s.generation.record.activeGeneration]
    ensures Next(s, step).generation.commits == s.generation.commits + [s.generation.record.activeGeneration]
    ensures var g, t := s.generation, step.thread;
            && t in g.threads && g.threads[t].todo.Holding? && g.threads[t].todo.kind == GP.Committing
            && g.threads[t].todo.snap.ticket == g.record.activeGeneration && g.threads[t].todo.snap.owner == g.record.activeOwner
            && ByInstance(s.journal, step.change, g.threads[t].instance)
  {
    var part := JournalPart(s, step);
    if !(step.Change? && LetThrough(s, step.thread, step.change)) {
      UnfencedKeepsEntries(s.journal, part);
    }
  }

  // A worker's change is its own instance's; a reconciliation is anybody's.
  predicate ByInstance(j: RC.State, change: RC.Step, i: GP.Instance) {
    || (change.ReserveCard? && change.instance == i)
    || (change.RecordPhase? && change.worker in j.workers && j.workers[change.worker].instance == i)
    || (change.Verify? && change.worker in j.workers && j.workers[change.worker].instance == i)
    || change.ReconcileAll?
  }

  /** The fence stops nothing else: a change by the instance whose commit is running goes
      through exactly as without a fence. */
  lemma OwnerIsLetThrough(s: State, t: GP.ThreadId, now: nat, change: RC.Step)
    requires var g := s.generation;
             && t in g.threads && g.threads[t].todo.Holding? && g.threads[t].todo.kind == GP.Committing
             && g.record.active && g.threads[t].todo.snap.ticket == g.record.activeGeneration && g.threads[t].todo.snap.owner == g.record.activeOwner
             && ByInstance(s.journal, change, g.threads[t].instance)
    requires change.RecordPhase? || change.Verify? ==> change.fenced
    ensures Next(s, Change(t, now, change)).journal == RC.Next(s.journal, change)
  {
    if change.Verify? && !RC.ShowsUse(change.list, s.journal.workers[change.worker].attempt) {
      assert RC.Next(s.journal, change) == RC.Next(s.journal, RC.Verify(change.worker, change.list, false, change.io));
    }
  }

  lemma UnfencedKeepsEntries(j: RC.State, step: RC.Step)
    requires IsLocal(step) || (step.RecordPhase? && !step.fenced) || (step.Verify? && !step.fenced)
    ensures RC.Next(j, step).entries == j.entries
  {
  }
}
