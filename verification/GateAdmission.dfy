/**
 Admission to the concurrency gate (the locked sections of schedulerPick,
 concurrencyAfter and beginWarmupConcurrency) and what every run keeps: the slot
 cap, queue order, token and completion bookkeeping.
 */
module GateAdmission {
  import opened CredentialAliases
  import opened ConcurrencyGate

  datatype Option<T> = None | Some(value: T)

  // A candidate credential with its known aliases; `eligible` is the mode's own test.
  datatype Candidate = Candidate(id: string, aliases: seq<Alias>, eligible: bool)

  // ------------------------------------------------------------------- the pick

  // The candidate loop: each key is looked up, and judged busy, in turn.
  function Evaluate(g: Gate, id: RequestId, candidates: seq<Candidate>, limit: nat, now: nat): (r: (Gate, seq<bool>))
    ensures |r.1| == |candidates|
    decreases |candidates|
  {
    if candidates == [] then (g, [])
    else
      var (n, key) := KeyFor(g, candidates[0].aliases);
      var (m, rest) := Evaluate(n, id, candidates[1..], limit, now);
      (m, [Blocked(n.requests, key, id, limit, now)] + rest)
  }

  predicate Waitable(c: Candidate, preferred: string) {
    if preferred == "" then c.eligible else c.id == preferred
  }

  function WaitKeys(g: Gate, candidates: seq<Candidate>, preferred: string, keys: set<Key>): (Gate, set<Key>)
    decreases |candidates|
  {
    if candidates == [] then (g, keys)
    else if Waitable(candidates[0], preferred) then
      var (n, key) := KeyFor(g, candidates[0].aliases);
      WaitKeys(n, candidates[1..], preferred, keys + {key})
    else WaitKeys(g, candidates[1..], preferred, keys)
  }

  function Free(candidates: seq<Candidate>, busy: seq<bool>): (free: seq<Candidate>)
    requires |candidates| == |busy|
    ensures forall c <- free :: exists i :: 0 <= i < |candidates| && candidates[i] == c && !busy[i]
    decreases |candidates|
  {
    if candidates == [] then []
    else if busy[0] then Free(candidates[1..], busy[1..])
    else [candidates[0]] + Free(candidates[1..], busy[1..])
  }

  predicate MustWait(candidates: seq<Candidate>, busy: seq<bool>, preferred: string)
    requires |candidates| == |busy|
  {
    || (exists i :: 0 <= i < |candidates| && candidates[i].id == preferred && busy[i])
    || ((exists i :: 0 <= i < |candidates| && candidates[i].eligible)
        && forall i :: 0 <= i < |candidates| && candidates[i].eligible ==> busy[i])
    || Free(candidates, busy) == []
  }

  function DeadlineOf(r: Request, deadline: nat): nat {
    if r.deadline != 0 then r.deadline else deadline
  }

  predicate Expired(r: Request, deadline: nat, now: nat) {
    r.sequence != 0 && now >= DeadlineOf(r, deadline)
  }

  // Queue a request behind `keys`; it keeps a place it already has, and it is
  // rejected at once if its deadline has passed.
  function Queue(g: Gate, id: RequestId, keys: set<Key>, deadline: nat, now: nat): Gate
    requires id in g.requests
  {
    var r := g.requests[id];
    var due := DeadlineOf(r, deadline);
    var last := if r.sequence == 0 then g.lastSequence + 1 else g.lastSequence;
    g.(lastSequence := last,
       requests := g.requests[id := r.(deadline := due, waitKeys := keys, rejected := r.rejected || now >= due,
                                       sequence := if r.sequence == 0 then last else r.sequence)])
  }

  // A pick runs in two sections of the gate's own lock with the selection in between;
  // this is what it remembers. The selection lock keeps out everything but
  // completions, ended waits, freed attempts, status reads and native marks.
  datatype Selection = Selection(id: RequestId, sequence: nat, now: nat, attempt: seq<Candidate>, merged: bool)

  datatype Pick = Pick(token: Token, candidates: seq<Candidate>, preferred: string, now: nat, later: nat, deadline: nat)

  // Does the candidate loop itself merge keys?
  predicate LoopMerges(g: Gate, candidates: seq<Candidate>)
    decreases |candidates|
  {
    candidates != [] && (Merges(g.aliases, candidates[0].aliases)
                         || LoopMerges(KeyFor(g, candidates[0].aliases).0, candidates[1..]))
  }

  lemma EvaluateUnfolds(g: Gate, id: RequestId, candidates: seq<Candidate>, limit: nat, now: nat)
    requires candidates != []
    ensures var (n, key) := KeyFor(g, candidates[0].aliases);
            && Evaluate(g, id, candidates, limit, now)
               == (Evaluate(n, id, candidates[1..], limit, now).0,
                   [Blocked(n.requests, key, id, limit, now)] + Evaluate(n, id, candidates[1..], limit, now).1)
            && LoopMerges(g, candidates) == (Merges(g.aliases, candidates[0].aliases) || LoopMerges(n, candidates[1..]))
  {
  }

  function BeginPick(g: Gate, pick: Pick, limit: nat): (Gate, Option<Selection>) {
    if pick.token !in g.tokens || g.tokens[pick.token] !in g.requests then
      // enforced: left to native selection; otherwise candidates are only learned
      (if g.supported then g else Evaluate(g, "", pick.candidates, limit, pick.now).0, None)
    else
      var id := g.tokens[pick.token];
      if g.requests[id].rejected then (g, None)
      else if Expired(g.requests[id], pick.deadline, pick.now) then (Reject(g, id), None)
      else
        var detached := Detach(g, id);
        var (n, busy) := Evaluate(detached, id, pick.candidates, limit, pick.now);
        if id !in n.requests then (n, None)
        else if MustWait(pick.candidates, busy, pick.preferred) then
          var (w, keys) := WaitKeys(n, pick.candidates, pick.preferred, {});
          (if id in w.requests then Queue(w, id, keys, pick.deadline, pick.later) else w, None)
        else
          (n, Some(Selection(id, n.requests[id].sequence, pick.now, Free(pick.candidates, busy),
                             LoopMerges(detached, pick.candidates))))
  }

  // The chosen candidate gets the slot unless the request ended meanwhile.
  function CommitPick(g: Gate, selection: Selection, choice: Option<nat>): Gate
    requires choice.Some? ==> choice.value < |selection.attempt|
  {
    if choice.None? || selection.id !in g.requests then g
    else
      var (n, key) := KeyFor(g, selection.attempt[choice.value].aliases);
      Occupy(n, selection.id, key)
  }

  // -------------------------------------------------------------- after selection

  // `selected` are the aliases of the credential the host selected; `admitted` is
  // the verdict of recovery and bans. `first` marks the call's first round.
  datatype Arrival = Arrival(id: RequestId, selected: Option<seq<Alias>>, codex: bool, first: bool,
                             issued: Token, now: nat, deadline: nat, admitted: bool)

  function Arrived(g: Gate, a: Arrival): Gate {
    if a.first && a.codex && a.id !in g.requests && a.selected.Some? then Register(g, a.id, a.now, a.issued).0 else g
  }

  function MarkNative(g: Gate, id: RequestId, native: bool): Gate {
    if id in g.requests then g.(requests := g.requests[id := g.requests[id].(native := native)]) else g
  }

  // A native route: counted once the exact credential is known. The flag says
  // whether the request now holds the key's slot.
  function NativeAdmit(g: Gate, a: Arrival, limit: nat): (Gate, bool)
    requires a.selected.Some? && a.id in g.requests
  {
    var (n, key) := KeyFor(g, a.selected.value);
    if a.id !in n.requests then (n, false)
    else if n.requests[a.id].key == key then (n, true)
    else
      var m := n.(requests := n.requests[a.id := n.requests[a.id].(key := "")]);
      if Blocked(m.requests, key, a.id, limit, a.now) then (Queue(m, a.id, {key}, a.deadline, a.now), false)
      else (Occupy(m, a.id, key), true)
  }

  // The slot must belong to the selected credential before anything is sent.
  function Dispatch(g: Gate, a: Arrival): Gate {
    if a.id !in g.requests then g
    else if g.requests[a.id].key == "" then Reject(g, a.id)
    else
      var (n, key) := if a.selected.Some? then KeyFor(g, a.selected.value) else (g, g.requests[a.id].key);
      if a.id !in n.requests then n
      else if n.requests[a.id].key != key then Reject(n, a.id)
      else if a.admitted then n.(requests := n.requests[a.id := n.requests[a.id].(dispatched := true)])
      else n
  }

  function After(g: Gate, a: Arrival, limit: nat): Gate {
    Admit(Arrived(g, a), a, limit)
  }

  function Admit(n: Gate, a: Arrival, limit: nat): Gate {
    if !a.codex then Detach(n, a.id)
    else if a.id !in n.requests || n.requests[a.id].rejected then n
    else if Expired(n.requests[a.id], a.deadline, a.now) then Reject(n, a.id)
    else if a.selected.None? then Dispatch(n, a)
    else
      var marked := if n.requests[a.id].key == "" then MarkNative(n, a.id, true) else n;
      if !marked.requests[a.id].native then Dispatch(marked, a)
      else
        var (m, holds) := NativeAdmit(marked, a, limit);
        if holds then Dispatch(m, a) else m
  }

  // ------------------------------------------------------------------- warmups

  function NewWarmup(key: Key, now: nat): Request {
    Request("", key, now, true, false, false, false, 0, 0, {})
  }

  function BeginWarmup(g: Gate, id: RequestId, list: seq<Alias>, now: nat): (Gate, bool) {
    var (n, key) := KeyFor(g, list);
    if Blocked(n.requests, key, "", 1, now) then (n, false)
    else (n.(requests := n.requests[id := NewWarmup(key, now)]), true)
  }

  // A rejected attempt gives its slot back but keeps its registration.
  function FreeAttempt(g: Gate, id: RequestId): Gate {
    if id in g.requests && g.requests[id].dispatched
    then g.(requests := g.requests[id := Detached(g.requests[id])]) else g
  }
}
