/**
 Whole runs of the concurrency gate: any sequence of registrations, picks, native
 admissions, warmups, completions and status reads, in any order the locks allow.

 A pick holds the selection lock from Open to Close and the gate's own lock only
 inside each of the two, so the state between them carries the open selection.
 Completions, rejections and status reads may run in that gap; registrations,
 arrivals, warmups and other picks may not. What the selection learned at Open
 (who is free, which keys it looked up) is still true at Close unless one of
 those status reads merged keys meanwhile, and `merged` records exactly that.
 The invariant therefore speaks about the gate and about the open selection,
 and each step has one small lemma that keeps it.
 */
module GateRuns {
  import opened CredentialAliases
  import opened ConcurrencyGate
  import opened GateAdmission
  import opened GateCap
  import opened GateSteps

  datatype System = System(gate: Gate, selecting: Option<Selection>)

  const START := System(EMPTY, None)

  datatype Step =
    | Enter(id: RequestId, at: nat, token: Token)
    | Finish(id: RequestId)
    | StopWait(id: RequestId)
    | Return(id: RequestId)
    | Observe(list: seq<Alias>)
    | Mark(id: RequestId, native: bool)
    | Open(pick: Pick)
    | Close(choice: Option<nat>, at: nat)
    | Arrive(arrival: Arrival)
    | Warm(id: RequestId, list: seq<Alias>, at: nat)

  // Steps that need the selection lock wait for an open selection; random tokens
  // and warmup ids are new; time does not run backwards within a pick. A request does
  // not stop waiting while its own pick is open: endWait is deferred by the very call
  // of schedulerPick that is picking (concurrency.go:467-471), and the host runs the
  // attempts of one execution one after the other.
  ghost predicate Allowed(s: System, step: Step) {
    match step
    case Enter(_, _, token) => s.selecting.None? && token != "" && token !in s.gate.tokens
    case Finish(_) => true
    case StopWait(id) => s.selecting.Some? ==> s.selecting.value.id != id
    case Return(_) => true
    case Observe(list) => AliasList(list)
    case Mark(_, _) => true
    case Open(pick) => s.selecting.None? && Candidates(pick.candidates)
    case Close(choice, at) =>
      && s.selecting.Some? && at >= s.selecting.value.now
      && (choice.Some? ==> choice.value < |s.selecting.value.attempt|)
    case Arrive(a) =>
      && s.selecting.None? && a.issued != "" && a.issued !in s.gate.tokens
      && (a.selected.Some? ==> AliasList(a.selected.value))
    case Warm(id, list, _) =>
      s.selecting.None? && AliasList(list) && id != "" && id !in s.gate.requests && id !in s.gate.completed
  }

  function Observed(s: System, list: seq<Alias>): System {
    var n := KeyFor(s.gate, list).0;
    if s.selecting.None? then s.(gate := n)
    else System(n, Some(s.selecting.value.(merged := s.selecting.value.merged || Merges(s.gate.aliases, list))))
  }

  ghost function Next(limit: nat, s: System, step: Step): System {
    if !Allowed(s, step) then s
    else match step
      case Enter(id, at, token) => s.(gate := Register(s.gate, id, at, token).0)
      case Finish(id) => s.(gate := Release(s.gate, id))
      case StopWait(id) => s.(gate := EndWait(s.gate, id))
      case Return(id) => s.(gate := FreeAttempt(s.gate, id))
      case Observe(list) => Observed(s, list)
      case Mark(id, native) => s.(gate := MarkNative(s.gate, id, native))
      case Open(pick) => var (n, selecting) := BeginPick(s.gate, pick, limit); System(n, selecting)
      case Close(choice, _) => System(CommitPick(s.gate, s.selecting.value, choice), None)
      case Arrive(a) => s.(gate := After(s.gate, a, limit))
      case Warm(id, list, at) => s.(gate := BeginWarmup(s.gate, id, list, at).0)
  }

  ghost function Run(limit: nat, steps: seq<Step>): System
    decreases |steps|
  {
    if steps == [] then START else Next(limit, Run(limit, steps[..|steps| - 1]), steps[|steps| - 1])
  }

  lemma RunLast(limit: nat, steps: seq<Step>, step: Step)
    ensures Run(limit, steps + [step]) == Next(limit, Run(limit, steps), step)
  {
    assert (steps + [step])[..|steps + [step]| - 1] == steps;
  }

  // ------------------------------------------------------------------- invariant

  ghost function Promised(s: System): set<Alias> {
    if s.selecting.None? then {} else Spare(s.selecting.value.attempt)
  }

  // What an open selection relies on until it commits.
  ghost predicate Holds(g: Gate, s: Selection) {
    && Candidates(s.attempt) && AllLearned(g.aliases, s.attempt)
    && (s.id in g.requests ==> g.requests[s.id].key == "" && g.requests[s.id].sequence == s.sequence)
    && (!s.merged ==> Unrivalled(g, s))
  }

  ghost predicate Unrivalled(g: Gate, s: Selection) {
    forall i | 0 <= i < |s.attempt| && s.attempt[i].aliases != [] ::
      !Overtakes(g.requests, Canon(g.aliases, s.attempt[i].aliases[0]), s.id, s.sequence, s.now)
  }

  ghost predicate Inv(limit: nat, s: System) {
    && Sound(s.gate, limit, Promised(s))
    && (s.selecting.Some? ==> Holds(s.gate, s.selecting.value))
  }

  // ------------------------------------------------------------- calm steps

  lemma CalmInv(limit: nat, s: System, n: Gate)
    requires Inv(limit, s) && Calmer(s.gate, n) && Books(n)
    requires s.selecting.Some? && s.selecting.value.id in n.requests ==>
               n.requests[s.selecting.value.id].sequence == s.gate.requests[s.selecting.value.id].sequence
    ensures Inv(limit, s.(gate := n))
  {
    CalmerKeeps(s.gate, n, limit, Promised(s));
    if s.selecting.Some? && !s.selecting.value.merged {
      CalmUnrivalled(s.gate, n, s.selecting.value);
    }
  }

  lemma CalmUnrivalled(g: Gate, n: Gate, s: Selection)
    requires Calmer(g, n) && Unrivalled(g, s)
    ensures Unrivalled(n, s)
  {
    forall i | 0 <= i < |s.attempt| && s.attempt[i].aliases != []
      ensures !Overtakes(n.requests, Canon(n.aliases, s.attempt[i].aliases[0]), s.id, s.sequence, s.now)
    {
      CalmerNoOvertaking(g, n, Canon(g.aliases, s.attempt[i].aliases[0]), s.id, s.sequence, s.now);
    }
  }

  lemma FinishInv(limit: nat, s: System, id: RequestId)
    requires Inv(limit, s)
    ensures Inv(limit, s.(gate := Release(s.gate, id)))
  {
    ReleaseIsCalmer(s.gate, id);
    ReleaseKeepsBooks(s.gate, id);
    RememberKeepsRequests(s.gate, id);
    CalmInv(limit, s, Release(s.gate, id));
  }

  lemma StopWaitInv(limit: nat, s: System, id: RequestId)
    requires Inv(limit, s) && Allowed(s, StopWait(id))
    ensures Inv(limit, s.(gate := EndWait(s.gate, id)))
  {
    var n := EndWait(s.gate, id);
    if n != s.gate {
      TouchIsCalm(s.gate, n, id, s.gate.requests[id].(sequence := 0, waitKeys := {}));
    }
    CalmInv(limit, s, n);
  }

  lemma ReturnInv(limit: nat, s: System, id: RequestId)
    requires Inv(limit, s)
    ensures Inv(limit, s.(gate := FreeAttempt(s.gate, id)))
  {
    var n := FreeAttempt(s.gate, id);
    if n != s.gate {
      TouchIsCalm(s.gate, n, id, Detached(s.gate.requests[id]));
    }
    CalmInv(limit, s, n);
  }

  lemma MarkInv(limit: nat, s: System, id: RequestId, native: bool)
    requires Inv(limit, s)
    ensures Inv(limit, s.(gate := MarkNative(s.gate, id, native)))
  {
    var n := MarkNative(s.gate, id, native);
    if n != s.gate {
      TouchIsCalm(s.gate, n, id, s.gate.requests[id].(native := native));
    }
    CalmInv(limit, s, n);
  }

  // --------------------------------------------------------------- learning steps

  // Keys of known aliases survive a lookup that merges nothing.
  lemma NoMergeKeepsKeys(g: Gate, list: seq<Alias>, a: Alias)
    requires CanonicalKeys(g) && AliasList(list) && !Merges(g.aliases, list) && a in g.aliases
    ensures Canon(KeyFor(g, list).0.aliases, a) == Canon(g.aliases, a)
  {
    KeyAfter(g, list, a);
  }

  lemma ObserveInv(limit: nat, s: System, list: seq<Alias>)
    requires Inv(limit, s) && AliasList(list)
    ensures Inv(limit, Observed(s, list))
  {
    var n := KeyFor(s.gate, list).0;
    KeyForKeeps(s.gate, list, limit, Promised(s));
    KeyForRenames(s.gate, list);
    if s.selecting.Some? {
      var sel := s.selecting.value;
      forall i | 0 <= i < |sel.attempt| ensures Learned(n.aliases, sel.attempt[i].aliases) {
        LearnedStays(s.gate.aliases, n.aliases, sel.attempt[i].aliases);
      }
      assert sel.id in n.requests ==> sel.id in s.gate.requests.Keys;
      if !Observed(s, list).selecting.value.merged {
        ObserveUnrivalled(s.gate, list, sel);
      }
    }
  }

  lemma ObserveUnrivalled(g: Gate, list: seq<Alias>, s: Selection)
    requires CanonicalKeys(g) && AliasList(list) && !Merges(g.aliases, list)
    requires AllLearned(g.aliases, s.attempt) && Unrivalled(g, s)
    ensures Unrivalled(KeyFor(g, list).0, s)
  {
    var n := KeyFor(g, list).0;
    NoMergeKeepsRequests(g, list);
    forall i | 0 <= i < |s.attempt| && s.attempt[i].aliases != []
      ensures !Overtakes(n.requests, Canon(n.aliases, s.attempt[i].aliases[0]), s.id, s.sequence, s.now)
    {
      assert Learned(g.aliases, s.attempt[i].aliases) && s.attempt[i].aliases[0] in s.attempt[i].aliases;
      NoMergeKeepsKeys(g, list, s.attempt[i].aliases[0]);
    }
  }

  // ------------------------------------------------------------------- the pick

  lemma OpenInv(limit: nat, g: Gate, pick: Pick)
    requires Sound(g, limit, {}) && Candidates(pick.candidates)
    ensures var (n, selecting) := BeginPick(g, pick, limit); Inv(limit, System(n, selecting))
  {
    if pick.token !in g.tokens || g.tokens[pick.token] !in g.requests {
      EvaluateKeeps(g, "", pick.candidates, limit, pick.now, {});
      var (n, busy) := Evaluate(g, "", pick.candidates, limit, pick.now);
      SoundFewer(n, limit, {} + Spare(Free(pick.candidates, busy)));
    } else {
      var id := g.tokens[pick.token];
      var r := g.requests[id];
      if r.rejected {
      } else if Expired(r, pick.deadline, pick.now) {
        TouchSound(g, Reject(g, id), id, r.(rejected := true), limit, {});
      } else {
        var detached := Detach(g, id);
        if r.key != "" {
          TouchSound(g, detached, id, Detached(r), limit, {});
        }
        OpenJudged(limit, detached, pick, id);
      }
    }
  }

  lemma OpenJudged(limit: nat, g: Gate, pick: Pick, id: RequestId)
    requires Sound(g, limit, {}) && Candidates(pick.candidates) && id in g.requests && g.requests[id].key == ""
    ensures var (n, busy) := Evaluate(g, id, pick.candidates, limit, pick.now);
            && id in n.requests
            && (MustWait(pick.candidates, busy, pick.preferred) ==>
                  var (w, keys) := WaitKeys(n, pick.candidates, pick.preferred, {});
                  w == n && Sound(Queue(n, id, keys, pick.deadline, pick.later), limit, {}))
            && var sel := Selection(id, n.requests[id].sequence, pick.now, Free(pick.candidates, busy), LoopMerges(g, pick.candidates));
               Inv(limit, System(n, Some(sel)))
  {
    var (n, busy) := Evaluate(g, id, pick.candidates, limit, pick.now);
    OpenSound(limit, g, pick, id);
    OpenHolds(limit, g, pick, id);
    OpenWaits(limit, n, pick, id, Spare(Free(pick.candidates, busy)));
    SelectionInv(limit, n, Selection(id, n.requests[id].sequence, pick.now, Free(pick.candidates, busy), LoopMerges(g, pick.candidates)));
  }

  lemma SelectionInv(limit: nat, n: Gate, sel: Selection)
    requires Sound(n, limit, Spare(sel.attempt)) && Holds(n, sel)
    ensures Inv(limit, System(n, Some(sel)))
  {
  }

  lemma OpenSound(limit: nat, g: Gate, pick: Pick, id: RequestId)
    requires Sound(g, limit, {}) && Candidates(pick.candidates)
    ensures var (n, busy) := Evaluate(g, id, pick.candidates, limit, pick.now);
            Sound(n, limit, Spare(Free(pick.candidates, busy))) && AllLearned(n.aliases, pick.candidates)
  {
    var (n, busy) := Evaluate(g, id, pick.candidates, limit, pick.now);
    var free := Free(pick.candidates, busy);
    EvaluateKeeps(g, id, pick.candidates, limit, pick.now, {});
    EvaluateRenames(g, id, pick.candidates, limit, pick.now);
    SameSpare({} + Spare(free), Spare(free), n, limit);
  }

  lemma OpenWaits(limit: nat, n: Gate, pick: Pick, id: RequestId, spare: set<Alias>)
    requires Sound(n, limit, spare) && Candidates(pick.candidates) && AllLearned(n.aliases, pick.candidates) && id in n.requests
    ensures var (w, keys) := WaitKeys(n, pick.candidates, pick.preferred, {});
            w == n && Sound(Queue(n, id, keys, pick.deadline, pick.later), limit, {})
  {
    WaitKeysAreKnown(n, pick.candidates, pick.preferred, {});
    SoundFewer(n, limit, spare);
    QueueKeeps(n, id, WaitKeys(n, pick.candidates, pick.preferred, {}).1, pick.deadline, pick.later, limit, {});
  }

  lemma OpenHolds(limit: nat, g: Gate, pick: Pick, id: RequestId)
    requires CanonicalKeys(g) && Candidates(pick.candidates) && id in g.requests && g.requests[id].key == ""
    ensures var (n, busy) := Evaluate(g, id, pick.candidates, limit, pick.now);
            id in n.requests
            && Holds(n, Selection(id, n.requests[id].sequence, pick.now, Free(pick.candidates, busy), LoopMerges(g, pick.candidates)))
  {
    var (n, busy) := Evaluate(g, id, pick.candidates, limit, pick.now);
    var free := Free(pick.candidates, busy);
    EvaluateRenames(g, id, pick.candidates, limit, pick.now);
    assert id in n.requests.Keys && n.requests[id].key == "";
    forall i | 0 <= i < |free| ensures AliasList(free[i].aliases) && Learned(n.aliases, free[i].aliases) {
      assert free[i] in free;
    }
    if !LoopMerges(g, pick.candidates) {
      OpenUnrivalled(limit, g, pick, id);
    }
  }

  lemma OpenUnrivalled(limit: nat, g: Gate, pick: Pick, id: RequestId)
    requires CanonicalKeys(g) && Candidates(pick.candidates) && id in g.requests && !LoopMerges(g, pick.candidates)
    ensures var (n, busy) := Evaluate(g, id, pick.candidates, limit, pick.now);
            n.requests == g.requests
            && Unrivalled(n, Selection(id, n.requests[id].sequence, pick.now, Free(pick.candidates, busy), false))
  {
    var (n, busy) := Evaluate(g, id, pick.candidates, limit, pick.now);
    EvaluateUnmerged(g, id, pick.candidates, limit, pick.now);
    var free := Free(pick.candidates, busy);
    forall i | 0 <= i < |free| && free[i].aliases != []
      ensures !Overtakes(n.requests, Canon(n.aliases, free[i].aliases[0]), id, n.requests[id].sequence, pick.now)
    {
      assert free[i] in free;
      var j :| 0 <= j < |pick.candidates| && pick.candidates[j] == free[i] && !busy[j];
      assert !Blocked(g.requests, Canon(n.aliases, pick.candidates[j].aliases[0]), id, limit, pick.now);
    }
  }

  lemma CloseInv(limit: nat, s: System, choice: Option<nat>)
    requires Inv(limit, s) && s.selecting.Some? && (choice.Some? ==> choice.value < |s.selecting.value.attempt|)
    ensures Sound(CommitPick(s.gate, s.selecting.value, choice), limit, {})
  {
    var g, sel := s.gate, s.selecting.value;
    SoundFewer(g, limit, Promised(s));
    if choice.Some? && sel.id in g.requests {
      var c := sel.attempt[choice.value];
      LearnedIsNoop(g, c.aliases);
      assert c.aliases[0] in Spare(sel.attempt);
      OccupyKeeps(g, CommitPick(g, sel, choice), sel.id, limit, Spare(sel.attempt), c.aliases[0]);
    }
  }

  // ------------------------------------------------- native admission and warmups

  lemma NativeKeeps(limit: nat, g: Gate, a: Arrival)
    requires Sound(g, limit, {}) && a.selected.Some? && AliasList(a.selected.value) && a.id in g.requests
    ensures Sound(NativeAdmit(g, a, limit).0, limit, {})
  {
    var list := a.selected.value;
    var n := KeyFor(g, list).0;
    KeyForKeeps(g, list, limit, {});
    KeyForRenames(g, list);
    assert n.requests.Keys == g.requests.Keys && list[0] in list;
    if n.requests[a.id].key != KeyFor(g, list).1 {
      GrantKeeps(limit, n, a, list[0]);
    }
  }

  // A request without the slot of the alias's credential queues for it or takes it.
  lemma GrantKeeps(limit: nat, n: Gate, a: Arrival, first: Alias)
    requires Sound(n, limit, {}) && a.id in n.requests && first in n.aliases
    ensures var key := Canon(n.aliases, first);
            var m := n.(requests := n.requests[a.id := n.requests[a.id].(key := "")]);
            && (Blocked(m.requests, key, a.id, limit, a.now) ==> Sound(Queue(m, a.id, {key}, a.deadline, a.now), limit, {}))
            && (!Blocked(m.requests, key, a.id, limit, a.now) ==> Sound(Occupy(m, a.id, key), limit, {}))
  {
    var key := Canon(n.aliases, first);
    var m := n.(requests := n.requests[a.id := n.requests[a.id].(key := "")]);
    TouchSound(n, m, a.id, n.requests[a.id].(key := ""), limit, {});
    QueueKeeps(m, a.id, {key}, a.deadline, a.now, limit, {});
    if !Blocked(m.requests, key, a.id, limit, a.now) {
      PromiseSlot(m, limit, {}, first);
      OccupyKeeps(m, Occupy(m, a.id, key), a.id, limit, {} + {first}, first);
    }
  }

  lemma DispatchKeeps(limit: nat, g: Gate, a: Arrival)
    requires Sound(g, limit, {}) && (a.selected.Some? ==> AliasList(a.selected.value))
    ensures Sound(Dispatch(g, a), limit, {})
  {
    if a.id in g.requests {
      if g.requests[a.id].key == "" {
        TouchSound(g, Reject(g, a.id), a.id, g.requests[a.id].(rejected := true), limit, {});
      } else {
        var (n, key) := if a.selected.Some? then KeyFor(g, a.selected.value) else (g, g.requests[a.id].key);
        if a.selected.Some? {
          KeyForKeeps(g, a.selected.value, limit, {});
        }
        if a.id in n.requests {
          if n.requests[a.id].key != key {
            TouchSound(n, Reject(n, a.id), a.id, n.requests[a.id].(rejected := true), limit, {});
          } else if a.admitted {
            TouchSound(n, Dispatch(g, a), a.id, n.requests[a.id].(dispatched := true), limit, {});
          }
        }
      }
    }
  }

  lemma ArriveInv(limit: nat, g: Gate, a: Arrival)
    requires Sound(g, limit, {}) && a.issued != "" && a.issued !in g.tokens
    requires a.selected.Some? ==> AliasList(a.selected.value)
    ensures Sound(After(g, a, limit), limit, {})
  {
    RegisterKeeps(g, a.id, a.now, a.issued, limit, {});
    AdmitKeeps(limit, Arrived(g, a), a);
  }

  lemma AdmitKeeps(limit: nat, n: Gate, a: Arrival)
    requires Sound(n, limit, {}) && (a.selected.Some? ==> AliasList(a.selected.value))
    ensures Sound(Admit(n, a, limit), limit, {})
  {
    if a.id in n.requests {
      var r := n.requests[a.id];
      if !a.codex {
        if r.key != "" { TouchSound(n, Detach(n, a.id), a.id, Detached(r), limit, {}); }
      } else if r.rejected {
      } else if Expired(r, a.deadline, a.now) {
        TouchSound(n, Reject(n, a.id), a.id, r.(rejected := true), limit, {});
      } else if a.selected.None? {
        DispatchKeeps(limit, n, a);
      } else {
        SelectedKeeps(limit, n, a);
      }
    }
  }

  lemma SelectedKeeps(limit: nat, n: Gate, a: Arrival)
    requires Sound(n, limit, {}) && a.id in n.requests && a.selected.Some? && AliasList(a.selected.value)
    ensures var marked := if n.requests[a.id].key == "" then MarkNative(n, a.id, true) else n;
            && Sound(Dispatch(marked, a), limit, {})
            && Sound(NativeAdmit(marked, a, limit).0, limit, {})
            && Sound(Dispatch(NativeAdmit(marked, a, limit).0, a), limit, {})
  {
    TouchSound(n, MarkNative(n, a.id, true), a.id, n.requests[a.id].(native := true), limit, {});
    var marked := if n.requests[a.id].key == "" then MarkNative(n, a.id, true) else n;
    DispatchKeeps(limit, marked, a);
    NativeKeeps(limit, marked, a);
    DispatchKeeps(limit, NativeAdmit(marked, a, limit).0, a);
  }

  lemma WarmInv(limit: nat, g: Gate, id: RequestId, list: seq<Alias>, now: nat)
    requires limit >= 1 && Sound(g, limit, {}) && AliasList(list)
    requires id != "" && id !in g.requests && id !in g.completed
    ensures Sound(BeginWarmup(g, id, list, now).0, limit, {})
  {
    var n := KeyFor(g, list).0;
    KeyForKeeps(g, list, limit, {});
    KeyForRenames(g, list);
    assert n.requests.Keys == g.requests.Keys && list[0] in list;
    if !Blocked(n.requests, KeyFor(g, list).1, "", 1, now) {
      WarmGrant(limit, n, id, list[0], now);
    }
  }

  lemma WarmGrant(limit: nat, n: Gate, id: RequestId, first: Alias, now: nat)
    requires limit >= 1 && Sound(n, limit, {}) && first in n.aliases && Count(n.requests, Canon(n.aliases, first)) == 0
    requires id != "" && id !in n.requests && id !in n.completed
    ensures Sound(n.(requests := n.requests[id := NewWarmup(Canon(n.aliases, first), now)]), limit, {})
  {
    var m := n.(requests := n.requests[id := NewWarmup(Canon(n.aliases, first), now)]);
    PromiseSlot(n, limit, {}, first);
    TakeSlot(n, m, id, limit, {} + {first}, first);
    WarmBooks(n, m, id, Canon(n.aliases, first), now);
  }

  lemma WarmBooks(n: Gate, m: Gate, id: RequestId, key: Key, now: nat)
    requires CanonicalKeys(n) && Order(n) && Books(n) && id != "" && id !in n.requests && id !in n.completed
    requires key != "" && Canon(n.aliases, key) == key
    requires m == n.(requests := n.requests[id := NewWarmup(key, now)])
    ensures CanonicalKeys(m) && Order(m) && Books(m)
  {
    forall x, k | x in m.requests && k in m.requests[x].waitKeys ensures k != "" && Canon(m.aliases, k) == k {
      assert x != id && k in n.requests[x].waitKeys;
    }
  }

  // ------------------------------------------------------------------------- runs

  lemma StepInv(limit: nat, s: System, step: Step)
    requires limit >= 1 && Inv(limit, s)
    ensures Inv(limit, Next(limit, s, step))
  {
    if Allowed(s, step) {
      match step {
        case Enter(id, at, token) => RegisterKeeps(s.gate, id, at, token, limit, {});
        case Finish(id) => FinishInv(limit, s, id);
        case StopWait(id) => StopWaitInv(limit, s, id);
        case Return(id) => ReturnInv(limit, s, id);
        case Observe(list) => ObserveInv(limit, s, list);
        case Mark(id, native) => MarkInv(limit, s, id, native);
        case Open(pick) => OpenInv(limit, s.gate, pick);
        case Close(choice, _) => CloseInv(limit, s, choice);
        case Arrive(a) => ArriveInv(limit, s.gate, a);
        case Warm(id, list, at) => WarmInv(limit, s.gate, id, list, at);
      }
    }
  }

  lemma StartInv(limit: nat)
    ensures Inv(limit, START)
  {
    forall k | k != "" ensures Room(EMPTY, limit, {}, k) {
      assert Holders(EMPTY.requests, k) == {};
    }
  }

  lemma {:induction false} RunInv(limit: nat, steps: seq<Step>)
    requires limit >= 1
    ensures Inv(limit, Run(limit, steps))
    decreases |steps|
  {
    if steps == [] {
      StartInv(limit);
    } else {
      RunInv(limit, steps[..|steps| - 1]);
      StepInv(limit, Run(limit, steps[..|steps| - 1]), steps[|steps| - 1]);
    }
  }
}
