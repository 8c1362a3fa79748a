/**
 What the concurrency gate promises over whole runs: the slot cap, and first come
 first served per credential. GatePicks has the exact condition for picks that merge
 keys, GateOvertaking a run that breaks it.
 */
module GateTheorems {
  import opened CredentialAliases
  import opened ConcurrencyGate
  import opened GateAdmission
  import opened GateCap
  import opened GateSteps
  import opened GateRuns

  // ------------------------------------------------------------------------ the cap

  /** In every reachable state, whatever merges happened and even in the middle of a
      pick, a credential holds at most `limit` slots per identity merged into it. */
  lemma CapOverRuns(limit: nat, steps: seq<Step>, k: Key)
    requires limit >= 1 && k != ""
    ensures var g := Run(limit, steps).gate; Count(g.requests, k) <= limit * |Founders(g, k)|
  {
    RunInv(limit, steps);
    assert Room(Run(limit, steps).gate, limit, Promised(Run(limit, steps)), k);
  }

  /** So a credential that was never merged holds at most `limit` slots. */
  lemma CapWithoutMerges(limit: nat, steps: seq<Step>, k: Key)
    requires limit >= 1 && k != "" && Founders(Run(limit, steps).gate, k) <= {k}
    ensures Count(Run(limit, steps).gate.requests, k) <= limit
  {
    CapOverRuns(limit, steps, k);
    var founders := Founders(Run(limit, steps).gate, k);
    SetSize(founders, {k});
    Grows(limit, |founders|, 1);
  }

  // ------------------------------------------------------------------- queue order

  // `id` gets a slot of `k` that it did not have before under another name.
  ghost predicate TakesSlot(g: Gate, n: Gate, id: RequestId, k: Key) {
    && k != "" && id in n.requests && n.requests[id].key == k
    && (id in g.requests ==> Canon(n.aliases, g.requests[id].key) != k)
  }

  // Everybody still waiting for `k` came to the queue later.
  ghost predicate FirstInLine(g: Gate, n: Gate, id: RequestId, k: Key, now: nat) {
    forall x | x in n.requests && x != id && LiveWaiter(n.requests[x], k, now) ::
      0 < SequenceOf(g.requests, id) < n.requests[x].sequence
  }

  lemma NotOvertakingIsFirst(g: Gate, n: Gate, m: Gate, id: RequestId, k: Key, now: nat)
    requires Order(n) && id in n.requests && !Overtakes(n.requests, k, id, n.requests[id].sequence, now)
    requires SequenceOf(g.requests, id) == n.requests[id].sequence
    requires m.requests.Keys == n.requests.Keys && forall x | x in n.requests && x != id :: m.requests[x] == n.requests[x]
    ensures FirstInLine(g, m, id, k, now)
  {
    forall x | x in m.requests && x != id && LiveWaiter(m.requests[x], k, now)
      ensures 0 < SequenceOf(g.requests, id) < m.requests[x].sequence
    {
      assert x in n.requests.Keys && LiveWaiter(n.requests[x], k, now);
    }
  }

  /** A pick's slot: nobody who queued earlier for that credential is still waiting
      when it is granted, unless the pick merged keys while it was under way. */
  lemma CommitIsFifo(limit: nat, steps: seq<Step>, choice: Option<nat>, at: nat, k: Key)
    requires limit >= 1 && Allowed(Run(limit, steps), Close(choice, at))
    requires var s := Run(limit, steps);
             !s.selecting.value.merged
             && TakesSlot(s.gate, Next(limit, s, Close(choice, at)).gate, s.selecting.value.id, k)
    ensures var s := Run(limit, steps);
            FirstInLine(s.gate, Next(limit, s, Close(choice, at)).gate, s.selecting.value.id, k, at)
  {
    RunInv(limit, steps);
    var s := Run(limit, steps);
    var g, sel := s.gate, s.selecting.value;
    var n := CommitPick(g, sel, choice);
    if choice.Some? && sel.id in g.requests {
      var c := sel.attempt[choice.value];
      LearnedIsNoop(g, c.aliases);
      assert n.requests.Keys == g.requests.Keys;
      assert k == Canon(g.aliases, c.aliases[0]);
      LaterIsEarlier(g.requests, k, sel.id, sel.sequence, sel.now, at);
      NotOvertakingIsFirst(g, g, n, sel.id, k, at);
    } else {
      CanonicalIsFixed(g, sel.id);
    }
  }

  // A waiter alive later was alive earlier.
  lemma LaterIsEarlier(requests: Requests, k: Key, id: RequestId, sequence: nat, now: nat, later: nat)
    requires now <= later && !Overtakes(requests, k, id, sequence, now)
    ensures !Overtakes(requests, k, id, sequence, later)
  {
  }

  lemma CanonicalIsFixed(g: Gate, id: RequestId)
    requires CanonicalKeys(g)
    ensures id in g.requests ==> Canon(g.aliases, g.requests[id].key) == g.requests[id].key
  {
  }

  // The slot granted by native admission.
  lemma NativeIsFifo(limit: nat, g: Gate, a: Arrival)
    requires Sound(g, limit, {}) && a.selected.Some? && AliasList(a.selected.value) && a.id in g.requests
    requires NativeAdmit(g, a, limit).1
    ensures var (n, _) := NativeAdmit(g, a, limit);
            && a.id in n.requests && Learned(n.aliases, a.selected.value) && n.requests.Keys == g.requests.Keys
            && n.requests[a.id].key == Canon(n.aliases, a.selected.value[0])
            && (TakesSlot(g, n, a.id, n.requests[a.id].key) ==> FirstInLine(g, n, a.id, n.requests[a.id].key, a.now))
  {
    var list := a.selected.value;
    var n := KeyFor(g, list).0;
    KeyForKeeps(g, list, limit, {});
    KeyForRenames(g, list);
    var key := KeyFor(g, list).1;
    assert n.requests.Keys == g.requests.Keys && a.id in n.requests.Keys;
    if n.requests[a.id].key != key {
      var m := n.(requests := n.requests[a.id := n.requests[a.id].(key := "")]);
      TouchSound(n, m, a.id, n.requests[a.id].(key := ""), limit, {});
      GrantIsFifo(limit, g, m, a, key);
    }
  }

  lemma GrantIsFifo(limit: nat, g: Gate, m: Gate, a: Arrival, key: Key)
    requires Order(m) && m.requests.Keys == g.requests.Keys && a.id in m.requests
    requires a.id in g.requests && m.requests[a.id].sequence == g.requests[a.id].sequence
    requires !Blocked(m.requests, key, a.id, limit, a.now)
    ensures var o := Occupy(m, a.id, key);
            && o.aliases == m.aliases && o.requests.Keys == g.requests.Keys && o.requests[a.id].key == key
            && FirstInLine(g, o, a.id, key, a.now)
  {
    var o := Occupy(m, a.id, key);
    assert o.requests.Keys == m.requests.Keys;
    NotOvertakingIsFirst(g, m, o, a.id, key, a.now);
  }

  // Sending adds no slot and moves no waiter.
  lemma DispatchAddsNothing(g: Gate, a: Arrival)
    requires CanonicalKeys(g) && a.selected.Some? && AliasList(a.selected.value) && a.id in g.requests
    requires Learned(g.aliases, a.selected.value)
    ensures var n := Dispatch(g, a);
            && n.aliases == g.aliases && n.requests.Keys == g.requests.Keys
            && n.requests[a.id].key == g.requests[a.id].key
            && forall x | x in g.requests && x != a.id :: n.requests[x] == g.requests[x]
  {
    LearnedIsNoop(g, a.selected.value);
    TouchedOne(g, Dispatch(g, a), a.id);
  }

  lemma TouchedOne(g: Gate, n: Gate, id: RequestId)
    requires id in g.requests
    requires n == g || exists q: Request :: q.key == g.requests[id].key && n == g.(requests := g.requests[id := q])
    ensures n.aliases == g.aliases && n.requests.Keys == g.requests.Keys && n.requests[id].key == g.requests[id].key
    ensures forall x | x in g.requests && x != id :: n.requests[x] == g.requests[x]
  {
    if n != g {
      var q: Request :| q.key == g.requests[id].key && n == g.(requests := g.requests[id := q]);
      assert n.requests.Keys == g.requests.Keys;
    }
  }

  // Every key in `n` is what its holder's key in `g` has become.
  ghost predicate KeysFollow(g: Gate, n: Gate) {
    forall x | x in n.requests && n.requests[x].key != "" ::
      x in g.requests && n.requests[x].key == Canon(n.aliases, g.requests[x].key)
  }

  lemma FollowTakesNothing(g: Gate, n: Gate, id: RequestId, k: Key)
    requires KeysFollow(g, n)
    ensures !TakesSlot(g, n, id, k)
  {
  }

  lemma DispatchFollows(limit: nat, g: Gate, a: Arrival)
    requires Sound(g, limit, {}) && (a.selected.Some? ==> AliasList(a.selected.value))
    ensures KeysFollow(g, Dispatch(g, a))
  {
    CanonicalIsFixed(g, a.id);
    if a.id in g.requests && g.requests[a.id].key != "" && a.selected.Some? {
      var n := KeyFor(g, a.selected.value).0;
      KeyForRenames(g, a.selected.value);
      DispatchCases(g, a, n);
      DispatchShape(n, Dispatch(g, a), a);
      RenamedThenSame(g, n, Dispatch(g, a));
    } else {
      DispatchCases(g, a, g);
      DispatchShape(g, Dispatch(g, a), a);
      SameKeysFollow(g, Dispatch(g, a));
    }
  }

  // A dispatch touches its own request at most, and not its key.
  lemma DispatchCases(g: Gate, a: Arrival, n: Gate)
    requires n == if a.id in g.requests && g.requests[a.id].key != "" && a.selected.Some? then KeyFor(g, a.selected.value).0 else g
    ensures var m := Dispatch(g, a);
            m == n || (a.id in n.requests && a.id in m.requests && m.requests[a.id].key == n.requests[a.id].key
                       && m == n.(requests := n.requests[a.id := m.requests[a.id]]))
  {
  }

  lemma RenamedThenSame(g: Gate, n: Gate, m: Gate)
    requires Renamed(g, n) && m.aliases == n.aliases
    requires forall x | x in m.requests :: x in n.requests && m.requests[x].key == n.requests[x].key
    ensures KeysFollow(g, m)
  {
    assert forall x :: x in n.requests.Keys <==> x in g.requests.Keys;
  }

  lemma SameKeysFollow(g: Gate, m: Gate)
    requires CanonicalKeys(g) && m.aliases == g.aliases
    requires forall x | x in m.requests :: x in g.requests && m.requests[x].key == g.requests[x].key
    ensures KeysFollow(g, m)
  {
  }

  lemma DispatchShape(n: Gate, m: Gate, a: Arrival)
    requires m == n || (a.id in n.requests && a.id in m.requests && m.requests[a.id].key == n.requests[a.id].key
                        && m == n.(requests := n.requests[a.id := m.requests[a.id]]))
    ensures m.aliases == n.aliases && m.requests.Keys == n.requests.Keys
    ensures forall x | x in m.requests :: x in n.requests && m.requests[x].key == n.requests[x].key
  {
    assert m.requests.Keys == n.requests.Keys;
  }

  /** A native admission after routing takes its slot in queue order, merges or not. */
  lemma ArrivalIsFifo(limit: nat, steps: seq<Step>, a: Arrival, k: Key)
    requires limit >= 1 && Allowed(Run(limit, steps), Arrive(a))
    requires var s := Run(limit, steps); TakesSlot(s.gate, Next(limit, s, Arrive(a)).gate, a.id, k)
    ensures var s := Run(limit, steps); FirstInLine(s.gate, Next(limit, s, Arrive(a)).gate, a.id, k, a.now)
  {
    RunInv(limit, steps);
    var g := Run(limit, steps).gate;
    var n := Arrived(g, a);
    RegisterKeeps(g, a.id, a.now, a.issued, limit, {});
    RegisterEnters(g, a.id, a.now, a.issued);
    AdmitIsFifo(limit, n, a, k);
    EmptyKeyStays(limit, n, a);
    EnteredIsFifo(g, n, Admit(n, a, limit), a, k);
  }

  lemma EmptyKeyStays(limit: nat, n: Gate, a: Arrival)
    requires Sound(n, limit, {}) && (a.selected.Some? ==> AliasList(a.selected.value))
    ensures "" !in Admit(n, a, limit).aliases
  {
    AdmitKeeps(limit, n, a);
  }

  lemma EnteredIsFifo(g: Gate, n: Gate, m: Gate, a: Arrival, k: Key)
    requires Entered(g, n, a.id) && (a.id in g.requests ==> n == g) && "" !in m.aliases
    requires TakesSlot(n, m, a.id, k) ==> FirstInLine(n, m, a.id, k, a.now)
    ensures TakesSlot(g, m, a.id, k) ==> FirstInLine(g, m, a.id, k, a.now)
  {
  }

  lemma AdmitIsFifo(limit: nat, n: Gate, a: Arrival, k: Key)
    requires Sound(n, limit, {}) && (a.selected.Some? ==> AliasList(a.selected.value))
    ensures TakesSlot(n, Admit(n, a, limit), a.id, k) ==> FirstInLine(n, Admit(n, a, limit), a.id, k, a.now)
  {
    if a.id in n.requests {
      var r := n.requests[a.id];
      CanonicalIsFixed(n, a.id);
      if !a.codex || r.rejected || Expired(r, a.deadline, a.now) {
      } else if a.selected.None? {
        DispatchFollows(limit, n, a);
        FollowTakesNothing(n, Dispatch(n, a), a.id, k);
      } else {
        SelectedIsFifo(limit, n, a, k);
      }
    }
  }

  lemma SelectedIsFifo(limit: nat, n: Gate, a: Arrival, k: Key)
    requires Sound(n, limit, {}) && a.selected.Some? && AliasList(a.selected.value) && a.id in n.requests
    ensures var marked := if n.requests[a.id].key == "" then MarkNative(n, a.id, true) else n;
            && marked.requests.Keys == n.requests.Keys
            && !TakesSlot(n, Dispatch(marked, a), a.id, k)
            && var (m, holds) := NativeAdmit(marked, a, limit);
               && (!holds ==> !TakesSlot(n, m, a.id, k))
               && (holds && TakesSlot(n, Dispatch(m, a), a.id, k) ==> FirstInLine(n, Dispatch(m, a), a.id, k, a.now))
  {
    var marked := if n.requests[a.id].key == "" then MarkNative(n, a.id, true) else n;
    assert marked.requests.Keys == n.requests.Keys;
    TouchSound(n, MarkNative(n, a.id, true), a.id, n.requests[a.id].(native := true), limit, {});
    DispatchFollows(limit, marked, a);
    var (m, holds) := NativeAdmit(marked, a, limit);
    NativeKeeps(limit, marked, a);
    if holds {
      NativeIsFifo(limit, marked, a);
      DispatchAddsNothing(m, a);
    } else {
      RefusedHoldsNothing(limit, marked, a);
    }
  }

  lemma RefusedHoldsNothing(limit: nat, g: Gate, a: Arrival)
    requires CanonicalKeys(g) && a.selected.Some? && AliasList(a.selected.value) && a.id in g.requests
    requires !NativeAdmit(g, a, limit).1
    ensures var m := NativeAdmit(g, a, limit).0; a.id in m.requests && m.requests[a.id].key == ""
  {
    KeyForRenames(g, a.selected.value);
    assert a.id in KeyFor(g, a.selected.value).0.requests.Keys;
  }

  /** A warmup is admitted only to a credential without any slot or live waiter. */
  lemma WarmupYields(limit: nat, steps: seq<Step>, id: RequestId, list: seq<Alias>, at: nat)
    requires limit >= 1 && Allowed(Run(limit, steps), Warm(id, list, at))
    requires id in Next(limit, Run(limit, steps), Warm(id, list, at)).gate.requests
    ensures var n := Next(limit, Run(limit, steps), Warm(id, list, at)).gate;
            var k := n.requests[id].key;
            k != "" && forall x | x in n.requests && x != id :: n.requests[x].key != k && !LiveWaiter(n.requests[x], k, at)
  {
    RunInv(limit, steps);
    var g := Run(limit, steps).gate;
    KeyForRenames(g, list);
    KeyForKeepsCanonical(g, list);
    var (n, key) := KeyFor(g, list);
    assert id !in n.requests.Keys;
    var m := BeginWarmup(g, id, list, at).0;
    assert Count(n.requests, key) == 0;
    forall x | x in m.requests && x != id ensures m.requests[x].key != key && !LiveWaiter(m.requests[x], key, at) {
      assert n.requests[x].key == key ==> x in Holders(n.requests, key);
    }
  }

  /** No other step grants a slot. */
  lemma OthersTakeNothing(limit: nat, steps: seq<Step>, step: Step, id: RequestId, k: Key)
    requires limit >= 1 && !step.Close? && !step.Arrive? && !step.Warm?
    ensures !TakesSlot(Run(limit, steps).gate, Next(limit, Run(limit, steps), step).gate, id, k)
  {
    RunInv(limit, steps);
    var s := Run(limit, steps);
    var g := s.gate;
    if Allowed(s, step) {
      match step {
        case Enter(x, at, token) => EnterTakesNothing(g, x, at, token, id, k);
        case Finish(x) =>
          ReleaseIsCalmer(g, x);
          CalmTakesNothing(g, Release(g, x), id, k);
        case StopWait(x) => SameKeyTakesNothing(g, EndWait(g, x), id, k);
        case Return(x) => SameKeyTakesNothing(g, FreeAttempt(g, x), id, k);
        case Observe(list) => ObserveTakesNothing(g, list, id, k);
        case Mark(x, native) => SameKeyTakesNothing(g, MarkNative(g, x, native), id, k);
        case Open(pick) => OpenTakesNothing(limit, g, pick, id, k);
      }
    } else {
      SameKeyTakesNothing(g, g, id, k);
    }
  }

  lemma SameKeyTakesNothing(g: Gate, n: Gate, id: RequestId, k: Key)
    requires CanonicalKeys(g) && n.aliases == g.aliases
    requires id in n.requests ==> id in g.requests && (n.requests[id].key == g.requests[id].key || n.requests[id].key == "")
    ensures !TakesSlot(g, n, id, k)
  {
    CanonicalIsFixed(g, id);
  }

  lemma CalmTakesNothing(g: Gate, n: Gate, id: RequestId, k: Key)
    requires CanonicalKeys(g) && Calmer(g, n)
    ensures !TakesSlot(g, n, id, k)
  {
    SameKeyTakesNothing(g, n, id, k);
  }

  lemma EnterTakesNothing(g: Gate, x: RequestId, at: nat, token: Token, id: RequestId, k: Key)
    requires CanonicalKeys(g)
    ensures !TakesSlot(g, Register(g, x, at, token).0, id, k)
  {
    RegisterEnters(g, x, at, token);
    CanonicalIsFixed(g, id);
  }

  lemma ObserveTakesNothing(g: Gate, list: seq<Alias>, id: RequestId, k: Key)
    requires CanonicalKeys(g) && AliasList(list)
    ensures !TakesSlot(g, KeyFor(g, list).0, id, k)
  {
    KeyForRenames(g, list);
    assert KeyFor(g, list).0.requests.Keys == g.requests.Keys;
  }

  lemma OpenTakesNothing(limit: nat, g: Gate, pick: Pick, id: RequestId, k: Key)
    requires Sound(g, limit, {}) && Candidates(pick.candidates)
    ensures !TakesSlot(g, BeginPick(g, pick, limit).0, id, k)
  {
    CanonicalIsFixed(g, id);
    if pick.token !in g.tokens || g.tokens[pick.token] !in g.requests {
      EvaluateRenames(g, "", pick.candidates, limit, pick.now);
      assert Evaluate(g, "", pick.candidates, limit, pick.now).0.requests.Keys == g.requests.Keys;
    } else {
      var x := g.tokens[pick.token];
      if !g.requests[x].rejected && !Expired(g.requests[x], pick.deadline, pick.now) {
        var d := Detach(g, x);
        if d != g {
          TouchSound(g, d, x, Detached(g.requests[x]), limit, {});
        }
        EvaluateRenames(d, x, pick.candidates, limit, pick.now);
        var (n, busy) := Evaluate(d, x, pick.candidates, limit, pick.now);
        assert n.requests.Keys == d.requests.Keys == g.requests.Keys;
        RenamedFollows(g, d, n, x);
        FollowTakesNothing(g, n, id, k);
        WaitKeysAreKnown(n, pick.candidates, pick.preferred, {});
        var keys := WaitKeys(n, pick.candidates, pick.preferred, {}).1;
        QueueFrame(n, x, keys, pick.deadline, pick.later);
        QueueFollows(g, n, Queue(n, x, keys, pick.deadline, pick.later), x);
        FollowTakesNothing(g, Queue(n, x, keys, pick.deadline, pick.later), id, k);
        OpenOutcome(limit, g, d, pick, x);
      }
    }
  }

  // What the section leaves behind: the judged state, or that state with the queue.
  lemma OpenOutcome(limit: nat, g: Gate, d: Gate, pick: Pick, x: RequestId)
    requires pick.token in g.tokens && x == g.tokens[pick.token] && x in g.requests && d == Detach(g, x)
    requires !g.requests[x].rejected && !Expired(g.requests[x], pick.deadline, pick.now)
    requires var n := Evaluate(d, x, pick.candidates, limit, pick.now).0;
             x in n.requests && WaitKeys(n, pick.candidates, pick.preferred, {}).0 == n
    ensures var n, m := Evaluate(d, x, pick.candidates, limit, pick.now).0, BeginPick(g, pick, limit).0;
            m == n || m == Queue(n, x, WaitKeys(n, pick.candidates, pick.preferred, {}).1, pick.deadline, pick.later)
  {
  }

  lemma RenamedFollows(g: Gate, d: Gate, n: Gate, x: RequestId)
    requires x in g.requests && (d == g || d == g.(requests := g.requests[x := Detached(g.requests[x])]))
    requires Renamed(d, n) && "" !in n.aliases && n.requests.Keys == g.requests.Keys
    ensures KeysFollow(g, n)
  {
    forall y | y in n.requests && n.requests[y].key != "" ensures y in g.requests && n.requests[y].key == Canon(n.aliases, g.requests[y].key) {
      assert y in d.requests.Keys;
      assert n.requests[y].key == Canon(n.aliases, d.requests[y].key);
    }
  }

  lemma QueueFollows(g: Gate, n: Gate, m: Gate, x: RequestId)
    requires KeysFollow(g, n) && SameBooks(n, m) && m.aliases == n.aliases && x in n.requests && x in m.requests
    requires m.requests[x].key == n.requests[x].key
    requires forall y | y in n.requests && y != x :: m.requests[y] == n.requests[y]
    ensures KeysFollow(g, m)
  {
    assert forall y :: y in m.requests.Keys <==> y in n.requests.Keys;
  }

  /** Queue places are distinct in every reachable state, a new place is larger than
      all given before, and no remembered execution is registered. */
  lemma BooksOverRuns(limit: nat, steps: seq<Step>)
    requires limit >= 1
    ensures Order(Run(limit, steps).gate) && Books(Run(limit, steps).gate) && CanonicalKeys(Run(limit, steps).gate)
  {
    RunInv(limit, steps);
  }
}
