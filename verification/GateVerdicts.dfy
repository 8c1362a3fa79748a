/**
 What the first section of a pick decides, said with slots and queue places: when it
 selects among the free candidates, and when it queues the request, behind whom.
 */
module GateVerdicts {
  import opened CredentialAliases
  import opened ConcurrencyGate
  import opened GateAdmission
  import opened GateCap
  import opened GateSteps
  import opened GatePicks

  // The gate after these candidates were looked up, one after the other.
  function Looked(g: Gate, candidates: seq<Candidate>): Gate
    decreases |candidates|
  {
    if candidates == [] then g else Looked(KeyFor(g, candidates[0].aliases).0, candidates[1..])
  }

  // A request with an earlier place, or with any place if `id` has none, still waits for the key.
  ghost predicate Ahead(requests: Requests, x: RequestId, k: Key, id: RequestId, now: nat) {
    && x in requests && x != id
    && requests[x].sequence > 0 && k in requests[x].waitKeys && !requests[x].rejected
    && (requests[x].deadline == 0 || now < requests[x].deadline)
    && (id in requests && requests[id].sequence > 0 ==> requests[x].sequence < requests[id].sequence)
  }

  // At the i-th turn of the loop the candidate's slots are taken or wanted by an earlier waiter.
  ghost predicate Busy(d: Gate, id: RequestId, candidates: seq<Candidate>, i: nat, limit: nat, now: nat)
    requires i < |candidates| && candidates[i].aliases != []
  {
    var turn := Looked(d, candidates[..i + 1]);
    var k := Canon(turn.aliases, candidates[i].aliases[0]);
    || |set x | x in turn.requests && turn.requests[x].key == k| >= limit
    || exists x :: Ahead(turn.requests, x, k, id, now)
  }

  lemma BlockedIsBusy(g: Gate, list: seq<Alias>, id: RequestId, limit: nat, now: nat)
    requires CanonicalKeys(g) && AliasList(list)
    ensures var (n, key) := KeyFor(g, list);
            && key == Canon(n.aliases, list[0])
            && (Blocked(n.requests, key, id, limit, now)
                <==> |set x | x in n.requests && n.requests[x].key == key| >= limit || exists x :: Ahead(n.requests, x, key, id, now))
  {
    KeyForRenames(g, list);
    MergedKeys(g.aliases, list, "");
    var (n, key) := KeyFor(g, list);
    assert Holders(n.requests, key) == set x | x in n.requests && n.requests[x].key == key;
    forall x ensures Ahead(n.requests, x, key, id, now)
              <==> x in n.requests && x != id && LiveWaiter(n.requests[x], key, now)
                   && (SequenceOf(n.requests, id) == 0 || n.requests[x].sequence < SequenceOf(n.requests, id)) {
    }
  }

  lemma {:induction false} EvaluateIsBusy(g: Gate, id: RequestId, candidates: seq<Candidate>, limit: nat, now: nat)
    requires CanonicalKeys(g) && Candidates(candidates)
    ensures var (n, busy) := Evaluate(g, id, candidates, limit, now);
            && n == Looked(g, candidates)
            && forall i | 0 <= i < |candidates| :: busy[i] == Busy(g, id, candidates, i, limit, now)
    decreases |candidates|
  {
    if candidates != [] {
      var c, rest := candidates[0], candidates[1..];
      var n := KeyFor(g, c.aliases).0;
      KeyForKeepsCanonical(g, c.aliases);
      EvaluateIsBusy(n, id, rest, limit, now);
      BlockedIsBusy(g, c.aliases, id, limit, now);
      var busy := Evaluate(g, id, candidates, limit, now).1;
      forall i | 0 <= i < |candidates| ensures busy[i] == Busy(g, id, candidates, i, limit, now) {
        assert candidates[..i + 1][1..] == rest[..i];
        assert Looked(g, candidates[..i + 1]) == Looked(n, rest[..i]);
        if i > 0 {
          assert candidates[i] == rest[i - 1] && busy[i] == Evaluate(n, id, rest, limit, now).1[i - 1];
        } else {
          assert Looked(n, rest[..0]) == n;
        }
      }
    }
  }

  // These are the places from `from` on, in order, of the candidates that are not busy.
  ghost predicate FreePlaces(places: seq<nat>, busy: seq<bool>, from: nat) {
    && (forall j | 0 <= j < |places| :: from <= places[j] < |busy| && !busy[places[j]])
    && (forall j, k | 0 <= j < k < |places| :: places[j] < places[k])
    && (forall i | from <= i < |busy| && !busy[i] :: i in places)
  }

  // `attempt` lists the candidates at those places.
  ghost predicate TakenFrom(attempt: seq<Candidate>, candidates: seq<Candidate>, places: seq<nat>) {
    && |attempt| == |places|
    && forall j | 0 <= j < |places| :: places[j] < |candidates| && attempt[j] == candidates[places[j]]
  }

  lemma OneMorePlace(busy: seq<bool>, from: nat, later: seq<nat>)
    requires from < |busy| && FreePlaces(later, busy, from + 1)
    ensures FreePlaces(if busy[from] then later else [from] + later, busy, from)
  {
    var places := if busy[from] then later else [from] + later;
    forall i | from <= i < |busy| && !busy[i] ensures i in places {
      if i > from { assert i in later; }
    }
  }

  lemma FreeUnfolds(candidates: seq<Candidate>, busy: seq<bool>, from: nat)
    requires from < |candidates| == |busy|
    ensures Free(candidates[from..], busy[from..])
         == (if busy[from] then [] else [candidates[from]]) + Free(candidates[from + 1..], busy[from + 1..])
  {
    assert candidates[from..][1..] == candidates[from + 1..] && busy[from..][1..] == busy[from + 1..];
  }

  lemma OneMoreTaken(rest: seq<Candidate>, candidates: seq<Candidate>, later: seq<nat>, from: nat)
    requires from < |candidates| && TakenFrom(rest, candidates, later)
    ensures TakenFrom([candidates[from]] + rest, candidates, [from] + later)
  {
  }

  lemma {:induction false} FreeInOrder(candidates: seq<Candidate>, busy: seq<bool>, from: nat)
    requires from <= |candidates| == |busy|
    ensures exists places :: FreePlaces(places, busy, from) && TakenFrom(Free(candidates[from..], busy[from..]), candidates, places)
    decreases |candidates| - from
  {
    if from == |candidates| {
      assert FreePlaces([], busy, from) && TakenFrom(Free([], []), candidates, []);
    } else {
      FreeInOrder(candidates, busy, from + 1);
      var rest := Free(candidates[from + 1..], busy[from + 1..]);
      var later :| FreePlaces(later, busy, from + 1) && TakenFrom(rest, candidates, later);
      FreeUnfolds(candidates, busy, from);
      OneMorePlace(busy, from, later);
      if !busy[from] {
        OneMoreTaken(rest, candidates, later, from);
      } else {
        assert [] + rest == rest;
      }
    }
  }

  lemma {:induction false} WaitKeysAre(g: Gate, candidates: seq<Candidate>, preferred: string, keys: set<Key>)
    requires CanonicalKeys(g) && Candidates(candidates) && AllLearned(g.aliases, candidates)
    ensures WaitKeys(g, candidates, preferred, keys) == (g, keys + WantedKeys(g.aliases, candidates, preferred))
    decreases |candidates|
  {
    if candidates != [] {
      var c, rest := candidates[0], candidates[1..];
      var wanted := if Waitable(c, preferred) then {Canon(g.aliases, c.aliases[0])} else {};
      LearnedIsNoop(g, c.aliases);
      WaitKeysAre(g, rest, preferred, keys + wanted);
      WantedUnfolds(g.aliases, candidates, preferred);
      assert keys + {} == keys;
      assert keys + wanted + WantedKeys(g.aliases, rest, preferred) == keys + WantedKeys(g.aliases, candidates, preferred);
    } else {
      assert keys + WantedKeys(g.aliases, candidates, preferred) == keys;
    }
  }

  // The keys of the preferred credential, or of every eligible one without a preference.
  function WantedKeys(m: AliasMap, candidates: seq<Candidate>, preferred: string): set<Key> {
    set i | 0 <= i < |candidates| && candidates[i].aliases != [] && (if preferred == "" then candidates[i].eligible else candidates[i].id == preferred) ::
      Canon(m, candidates[i].aliases[0])
  }

  lemma WantedUnfolds(m: AliasMap, candidates: seq<Candidate>, preferred: string)
    requires Candidates(candidates) && candidates != []
    ensures WantedKeys(m, candidates, preferred)
         == (if Waitable(candidates[0], preferred) then {Canon(m, candidates[0].aliases[0])} else {}) + WantedKeys(m, candidates[1..], preferred)
  {
    var rest := candidates[1..];
    var all := (if Waitable(candidates[0], preferred) then {Canon(m, candidates[0].aliases[0])} else {}) + WantedKeys(m, rest, preferred);
    forall k ensures k in WantedKeys(m, candidates, preferred) <==> k in all {
      if k in WantedKeys(m, candidates, preferred) {
        var i :| 0 <= i < |candidates| && candidates[i].aliases != [] && Canon(m, candidates[i].aliases[0]) == k
                 && (if preferred == "" then candidates[i].eligible else candidates[i].id == preferred);
        if i > 0 { assert rest[i - 1] == candidates[i]; }
      }
      if k in WantedKeys(m, rest, preferred) {
        var i :| 0 <= i < |rest| && rest[i].aliases != [] && Canon(m, rest[i].aliases[0]) == k
                 && (if preferred == "" then rest[i].eligible else rest[i].id == preferred);
        assert candidates[i + 1] == rest[i];
      }
    }
  }

  // --------------------------------------------------------------- the verdict

  // The request is registered, not rejected, and not past the end of its wait.
  ghost predicate Asks(g: Gate, pick: Pick) {
    && pick.token in g.tokens && g.tokens[pick.token] in g.requests
    && var r := g.requests[g.tokens[pick.token]];
       && !r.rejected
       && (r.sequence > 0 ==> pick.now < if r.deadline > 0 then r.deadline else pick.deadline)
  }

  // The asking request gave up its slot; nobody else changed.
  ghost predicate GaveUp(g: Gate, d: Gate, id: RequestId) {
    && id in g.requests && d.requests.Keys == g.requests.Keys && d.aliases == g.aliases && d.lastSequence == g.lastSequence
    && d.requests[id] == g.requests[id].(key := "", dispatched := g.requests[id].key == "" && g.requests[id].dispatched)
    && forall x | x in g.requests && x != id :: d.requests[x] == g.requests[x]
  }

  lemma BeforeGivesUp(g: Gate, pick: Pick)
    requires CanonicalKeys(g) && Asks(g, pick)
    ensures CanonicalKeys(BeforePick(g, pick)) && GaveUp(g, BeforePick(g, pick), g.tokens[pick.token])
  {
    var d, id := BeforePick(g, pick), g.tokens[pick.token];
    assert d.requests.Keys == g.requests.Keys;
    forall x, k | x in d.requests && k in d.requests[x].waitKeys ensures k != "" && Canon(d.aliases, k) == k {
      assert k in g.requests[x].waitKeys;
    }
  }

  // The request queues behind exactly these keys: it keeps its place or takes a new
  // last one, and it is rejected if its deadline has passed meanwhile.
  ghost predicate Queued(d: Gate, n: Gate, id: RequestId, keys: set<Key>, deadline: nat, now: nat) {
    && id in n.requests && id in d.requests
    && var r, q := d.requests[id], n.requests[id];
       && q.waitKeys == keys && q.key == ""
       && q.sequence == (if r.sequence > 0 then r.sequence else d.lastSequence + 1)
       && n.lastSequence == (if r.sequence > 0 then d.lastSequence else d.lastSequence + 1)
       && q.deadline == (if r.deadline > 0 then r.deadline else deadline)
       && (q.rejected <==> now >= q.deadline)
  }

  // A pick selects: nobody preferred is busy, somebody is free, and somebody eligible
  // is if anybody is eligible.
  ghost predicate Selects(d: Gate, id: RequestId, pick: Pick, limit: nat)
    requires Candidates(pick.candidates)
  {
    var cs := pick.candidates;
    && (forall i | 0 <= i < |cs| && cs[i].id == pick.preferred :: !Busy(d, id, cs, i, limit, pick.now))
    && (exists i :: 0 <= i < |cs| && !Busy(d, id, cs, i, limit, pick.now))
    && ((exists i :: 0 <= i < |cs| && cs[i].eligible) ==> exists i :: 0 <= i < |cs| && cs[i].eligible && !Busy(d, id, cs, i, limit, pick.now))
  }

  lemma {:induction false} NoneFree(candidates: seq<Candidate>, busy: seq<bool>, from: nat)
    requires from <= |candidates| == |busy|
    ensures Free(candidates[from..], busy[from..]) == [] <==> forall i | from <= i < |busy| :: busy[i]
    decreases |candidates| - from
  {
    if from < |candidates| {
      NoneFree(candidates, busy, from + 1);
      FreeUnfolds(candidates, busy, from);
    }
  }

  lemma MustWaitFlags(candidates: seq<Candidate>, busy: seq<bool>, preferred: string)
    requires |candidates| == |busy|
    ensures !MustWait(candidates, busy, preferred) <==>
              && (forall i | 0 <= i < |busy| && candidates[i].id == preferred :: !busy[i])
              && (exists i :: 0 <= i < |busy| && !busy[i])
              && ((exists i :: 0 <= i < |busy| && candidates[i].eligible) ==> exists i :: 0 <= i < |busy| && candidates[i].eligible && !busy[i])
  {
    NoneFree(candidates, busy, 0);
    assert candidates[0..] == candidates && busy[0..] == busy;
  }

  lemma MustWaitIff(d: Gate, id: RequestId, pick: Pick, limit: nat, busy: seq<bool>)
    requires Candidates(pick.candidates) && |busy| == |pick.candidates|
    requires forall i | 0 <= i < |busy| :: busy[i] == Busy(d, id, pick.candidates, i, limit, pick.now)
    ensures MustWait(pick.candidates, busy, pick.preferred) <==> !Selects(d, id, pick, limit)
  {
    MustWaitFlags(pick.candidates, busy, pick.preferred);
  }

  // The selection goes on among exactly the free candidates, in order.
  ghost predicate Selected(d: Gate, id: RequestId, pick: Pick, limit: nat, attempt: seq<Candidate>)
    requires Candidates(pick.candidates)
  {
    exists busy: seq<bool>, places ::
      && |busy| == |pick.candidates| && (forall i | 0 <= i < |busy| :: busy[i] == Busy(d, id, pick.candidates, i, limit, pick.now))
      && FreePlaces(places, busy, 0) && TakenFrom(attempt, pick.candidates, places)
  }

  lemma SelectedFree(d: Gate, id: RequestId, pick: Pick, limit: nat, busy: seq<bool>)
    requires Candidates(pick.candidates) && |busy| == |pick.candidates|
    requires forall i | 0 <= i < |busy| :: busy[i] == Busy(d, id, pick.candidates, i, limit, pick.now)
    ensures Selected(d, id, pick, limit, Free(pick.candidates, busy))
  {
    assert pick.candidates[0..] == pick.candidates && busy[0..] == busy;
    FreeInOrder(pick.candidates, busy, 0);
  }

  lemma QueuedBehind(d: Gate, g: Gate, id: RequestId, keys: set<Key>, pick: Pick)
    requires Renamed(d, g) && id in d.requests && d.requests[id].key == "" && !d.requests[id].rejected && "" !in g.aliases
    ensures id in g.requests
    ensures var n := Queue(g, id, keys, pick.deadline, pick.later);
            && Queued(d, n, id, keys, pick.deadline, pick.later) && OnlyOne(g, n, id)
  {
    assert id in g.requests.Keys;
    assert g.requests[id].key == Canon(g.aliases, "");
    QueueFrame(g, id, keys, pick.deadline, pick.later);
  }

  ghost predicate OnlyOne(g: Gate, n: Gate, id: RequestId) {
    && n.aliases == g.aliases && n.requests.Keys == g.requests.Keys
    && forall x | x in g.requests && x != id :: n.requests[x] == g.requests[x]
  }

  /** The verdict of a pick. It selects exactly when no preferred candidate is busy,
      some candidate is free, and an eligible one is free if any is eligible; the attempt
      is then exactly the free candidates, in order. Otherwise the request is queued for
      the preferred credential alone, or for every eligible one without a preference. */
  lemma PickSelectsIff(g: Gate, pick: Pick, limit: nat)
    requires CanonicalKeys(g) && Candidates(pick.candidates) && Asks(g, pick)
    ensures var id, d, (n, selecting) := g.tokens[pick.token], BeforePick(g, pick), BeginPick(g, pick, limit);
            var looked := Looked(d, pick.candidates);
            && GaveUp(g, d, id)
            && (selecting.Some? <==> Selects(d, id, pick, limit))
            && (selecting.Some? ==> n == looked && selecting.value.id == id && Selected(d, id, pick, limit, selecting.value.attempt))
            && (selecting.None? ==>
                  Queued(d, n, id, WantedKeys(looked.aliases, pick.candidates, pick.preferred), pick.deadline, pick.later) && OnlyOne(looked, n, id))
  {
    var id, d := g.tokens[pick.token], BeforePick(g, pick);
    BeforeGivesUp(g, pick);
    AfterLoop(g, pick, limit);
    LoopVerdict(d, id, pick, limit);
    LoopQueues(d, id, pick, limit);
  }

  lemma LoopVerdict(d: Gate, id: RequestId, pick: Pick, limit: nat)
    requires CanonicalKeys(d) && Candidates(pick.candidates)
    ensures var (n, busy) := Evaluate(d, id, pick.candidates, limit, pick.now);
            && n == Looked(d, pick.candidates)
            && (MustWait(pick.candidates, busy, pick.preferred) <==> !Selects(d, id, pick, limit))
            && Selected(d, id, pick, limit, Free(pick.candidates, busy))
  {
    EvaluateIsBusy(d, id, pick.candidates, limit, pick.now);
    var busy := Evaluate(d, id, pick.candidates, limit, pick.now).1;
    MustWaitIff(d, id, pick, limit, busy);
    SelectedFree(d, id, pick, limit, busy);
  }

  lemma LoopQueues(d: Gate, id: RequestId, pick: Pick, limit: nat)
    requires CanonicalKeys(d) && Candidates(pick.candidates) && id in d.requests && d.requests[id].key == "" && !d.requests[id].rejected
    ensures var n := Evaluate(d, id, pick.candidates, limit, pick.now).0;
            var keys := WantedKeys(n.aliases, pick.candidates, pick.preferred);
            && id in n.requests
            && WaitKeys(n, pick.candidates, pick.preferred, {}) == (n, keys)
            && Queued(d, Queue(n, id, keys, pick.deadline, pick.later), id, keys, pick.deadline, pick.later)
            && OnlyOne(n, Queue(n, id, keys, pick.deadline, pick.later), id)
  {
    EvaluateRenames(d, id, pick.candidates, limit, pick.now);
    var n := Evaluate(d, id, pick.candidates, limit, pick.now).0;
    var keys := WantedKeys(n.aliases, pick.candidates, pick.preferred);
    QueuedBehind(d, n, id, keys, pick);
    WaitKeysAre(n, pick.candidates, pick.preferred, {});
    assert {} + keys == keys;
  }

  // What follows the candidate loop.
  lemma AfterLoop(g: Gate, pick: Pick, limit: nat)
    requires Asks(g, pick)
    ensures var id, d := g.tokens[pick.token], BeforePick(g, pick);
            var (n, busy) := Evaluate(d, id, pick.candidates, limit, pick.now);
            id in n.requests ==>
              var (w, keys) := WaitKeys(n, pick.candidates, pick.preferred, {});
              BeginPick(g, pick, limit)
              == if !MustWait(pick.candidates, busy, pick.preferred)
                 then (n, Some(Selection(id, n.requests[id].sequence, pick.now, Free(pick.candidates, busy), LoopMerges(d, pick.candidates))))
                 else (if id in w.requests then Queue(w, id, keys, pick.deadline, pick.later) else w, None)
  {
  }

  /** A conversation that prefers a busy credential waits for that credential and moves
      nowhere else, however many others are idle. */
  lemma PreferredWaits(g: Gate, pick: Pick, limit: nat, i: nat)
    requires CanonicalKeys(g) && Candidates(pick.candidates) && Asks(g, pick)
    requires i < |pick.candidates| && pick.candidates[i].id == pick.preferred != ""
    requires Busy(BeforePick(g, pick), g.tokens[pick.token], pick.candidates, i, limit, pick.now)
    requires forall j | 0 <= j < |pick.candidates| && pick.candidates[j].id == pick.preferred :: pick.candidates[j].aliases == pick.candidates[i].aliases
    ensures var (n, selecting) := BeginPick(g, pick, limit);
            && selecting.None? && g.tokens[pick.token] in n.requests
            && n.requests[g.tokens[pick.token]].sequence > 0
            && n.requests[g.tokens[pick.token]].waitKeys == {Canon(n.aliases, pick.candidates[i].aliases[0])}
  {
    PickSelectsIff(g, pick, limit);
    var k := Canon(BeginPick(g, pick, limit).0.aliases, pick.candidates[i].aliases[0]);
    assert k in WantedKeys(BeginPick(g, pick, limit).0.aliases, pick.candidates, pick.preferred);
  }

  /** Before the loop: a rejected execution stays rejected, one past the end of its wait
      becomes so, and an unknown token is left to native selection. */
  lemma PickRefuses(g: Gate, pick: Pick, limit: nat)
    requires !Asks(g, pick) && g.supported
    ensures var (n, selecting) := BeginPick(g, pick, limit);
            && selecting.None? && n.aliases == g.aliases && n.requests.Keys == g.requests.Keys
            && if pick.token !in g.tokens || g.tokens[pick.token] !in g.requests then n == g
               else
                 && (forall x | x in g.requests && x != g.tokens[pick.token] :: n.requests[x] == g.requests[x])
                 && n.requests[g.tokens[pick.token]] == g.requests[g.tokens[pick.token]].(rejected := true)
  {
  }
}
