/**
 What the other sections of the gate decide, said with slots and queue places: native
 routes, dispatches, warmups and registrations.

 A section is described by the gate after its lookups and by one request: whether the
 credential is full or wanted by somebody earlier, and what the request then holds.
 Everybody else is shown to be left alone.
 */
module GateArrivals {
  import opened CredentialAliases
  import opened ConcurrencyGate
  import opened GateAdmission
  import opened GateSteps
  import opened GateVerdicts

  // What a lookup tells its section.
  lemma LookedUp(g: Gate, list: seq<Alias>)
    requires CanonicalKeys(g) && AliasList(list)
    ensures var (n, key) := KeyFor(g, list);
            key != "" && key == Canon(n.aliases, list[0]) && n.requests.Keys == g.requests.Keys
            && forall x | x in g.requests :: n.requests[x] == g.requests[x].(key := n.requests[x].key, waitKeys := n.requests[x].waitKeys)
  {
    KeyForRenames(g, list);
    MergedKeys(g.aliases, list, "");
  }

  // The credential's slots are taken, or somebody else still waits for it with an
  // earlier place than `id`.
  ghost predicate Taken(n: Gate, key: Key, id: RequestId, limit: nat, now: nat) {
    |set x | x in n.requests && n.requests[x].key == key| >= limit || exists x :: Ahead(n.requests, x, key, id, now)
  }

  /** A native route that is not in the selected credential's slot gives up any other
      slot; it takes one exactly when the credential is not taken, and queues for that
      credential alone otherwise. */
  lemma NativeSlotIff(g: Gate, a: Arrival, limit: nat)
    requires CanonicalKeys(g) && a.selected.Some? && AliasList(a.selected.value) && a.id in g.requests && !g.requests[a.id].rejected
    ensures var (n, key) := KeyFor(g, a.selected.value);
            var (m, holds) := NativeAdmit(g, a, limit);
            && a.id in n.requests && a.id in m.requests && OnlyOne(n, m, a.id) && m.founded == n.founded
            && (n.requests[a.id].key == key ==> holds && m == n)
            && (n.requests[a.id].key != key ==>
                  var idle := n.(requests := n.requests[a.id := n.requests[a.id].(key := "")]);
                  && (holds <==> !Taken(idle, key, a.id, limit, a.now))
                  && (holds ==> m.requests[a.id] == n.requests[a.id].(key := key))
                  && (!holds ==> Queued(idle, m, a.id, {key}, a.deadline, a.now)))
  {
    LookedUp(g, a.selected.value);
    var (n, key) := KeyFor(g, a.selected.value);
    assert a.id in n.requests.Keys;
    if n.requests[a.id].key != key {
      var idle := n.(requests := n.requests[a.id := n.requests[a.id].(key := "")]);
      assert OnlyOne(n, idle, a.id);
      NativeAt(g, a, limit);
      IdleAdmits(n, idle, a, key, limit);
    }
  }

  lemma NativeAt(g: Gate, a: Arrival, limit: nat)
    requires a.selected.Some? && a.id in g.requests
    ensures var (n, key) := KeyFor(g, a.selected.value);
            a.id in n.requests && n.requests[a.id].key != key ==>
              var idle := n.(requests := n.requests[a.id := n.requests[a.id].(key := "")]);
              NativeAdmit(g, a, limit) == if Blocked(idle.requests, key, a.id, limit, a.now) then (Queue(idle, a.id, {key}, a.deadline, a.now), false)
                                          else (Occupy(idle, a.id, key), true)
  {
  }

  lemma IdleAdmits(n: Gate, idle: Gate, a: Arrival, key: Key, limit: nat)
    requires key != "" && a.id in n.requests && !n.requests[a.id].rejected
    requires idle == n.(requests := n.requests[a.id := n.requests[a.id].(key := "")])
    ensures Blocked(idle.requests, key, a.id, limit, a.now) <==> Taken(idle, key, a.id, limit, a.now)
    ensures var m := Queue(idle, a.id, {key}, a.deadline, a.now);
            Queued(idle, m, a.id, {key}, a.deadline, a.now) && OnlyOne(n, m, a.id)
    ensures var m := Occupy(idle, a.id, key);
            a.id in m.requests && m.requests[a.id] == n.requests[a.id].(key := key) && OnlyOne(n, m, a.id)
  {
    assert idle.requests.Keys == n.requests.Keys && Occupy(idle, a.id, key).requests.Keys == n.requests.Keys;
    BlockedIsTaken(idle, key, a.id, limit, a.now);
    QueuedAtOnce(idle, a.id, {key}, a.deadline, a.now);
  }

  lemma BlockedIsTaken(n: Gate, key: Key, id: RequestId, limit: nat, now: nat)
    requires key != "" && id in n.requests
    ensures Blocked(n.requests, key, id, limit, now) <==> Taken(n, key, id, limit, now)
  {
    assert Holders(n.requests, key) == set x | x in n.requests && n.requests[x].key == key;
    forall x ensures Ahead(n.requests, x, key, id, now)
              <==> x in n.requests && x != id && LiveWaiter(n.requests[x], key, now)
                   && (SequenceOf(n.requests, id) == 0 || n.requests[x].sequence < SequenceOf(n.requests, id)) {
    }
  }

  lemma QueuedAtOnce(d: Gate, id: RequestId, keys: set<Key>, deadline: nat, now: nat)
    requires id in d.requests && d.requests[id].key == "" && !d.requests[id].rejected
    ensures var n := Queue(d, id, keys, deadline, now); Queued(d, n, id, keys, deadline, now) && OnlyOne(d, n, id)
  {
    QueueFrame(d, id, keys, deadline, now);
  }

  /** A warmup starts exactly when nobody holds a slot of the credential and nobody live
      waits for it, whatever the limit; it then holds one itself. */
  lemma WarmupStartsIff(g: Gate, id: RequestId, list: seq<Alias>, now: nat)
    requires CanonicalKeys(g) && AliasList(list) && "" !in g.requests
    ensures var (n, started) := BeginWarmup(g, id, list, now);
            var (looked, key) := KeyFor(g, list);
            && key == Canon(looked.aliases, list[0])
            && (started <==> forall x | x in looked.requests :: looked.requests[x].key != key && !Waits(looked.requests[x], key, now))
            && (!started ==> n == looked)
            && (started ==> id in n.requests && n.requests[id].key == key && n.requests[id].warmup && n.requests[id].at == now
                            && forall x | x in looked.requests && x != id :: x in n.requests && n.requests[x] == looked.requests[x])
  {
    LookedUp(g, list);
    var (looked, key) := KeyFor(g, list);
    assert "" !in looked.requests.Keys;
    FreeForWarmup(looked, key, now);
  }

  // Still in the queue for the credential.
  predicate Waits(r: Request, key: Key, now: nat) {
    r.sequence > 0 && key in r.waitKeys && !r.rejected && (r.deadline == 0 || now < r.deadline)
  }

  lemma FreeForWarmup(n: Gate, key: Key, now: nat)
    requires key != "" && "" !in n.requests
    ensures !Blocked(n.requests, key, "", 1, now)
            <==> forall x | x in n.requests :: n.requests[x].key != key && !Waits(n.requests[x], key, now)
  {
    if x :| x in n.requests && n.requests[x].key == key {
      assert x in Holders(n.requests, key);
    }
    if x :| x in n.requests && Waits(n.requests[x], key, now) {
      assert LiveWaiter(n.requests[x], key, now);
    }
    if Holders(n.requests, key) != {} {
      var x :| x in Holders(n.requests, key);
    }
  }

  /** What is sent: an execution is marked dispatched exactly when it holds the slot of
      the selected credential, or any slot if none is named, and recovery and bans admit
      it; one without its slot is rejected, and one that is not admitted stays. */
  lemma DispatchIs(g: Gate, a: Arrival)
    requires CanonicalKeys(g) && (a.selected.Some? ==> AliasList(a.selected.value)) && a.id in g.requests
    ensures var n := Dispatch(g, a);
            var looked := if a.selected.Some? && g.requests[a.id].key != "" then KeyFor(g, a.selected.value).0 else g;
            && a.id in looked.requests && OnlyOne(looked, n, a.id)
            && var r := looked.requests[a.id];
               var right := g.requests[a.id].key != "" && (a.selected.Some? ==> r.key == Canon(looked.aliases, a.selected.value[0]));
               n.requests[a.id] == if !right then r.(rejected := true) else if a.admitted then r.(dispatched := true) else r
  {
    if a.selected.Some? {
      LookedUp(g, a.selected.value);
    }
    var looked := if a.selected.Some? && g.requests[a.id].key != "" then KeyFor(g, a.selected.value).0 else g;
    assert a.id in looked.requests.Keys;
    DispatchAt(g, a, looked);
  }

  lemma DispatchAt(g: Gate, a: Arrival, looked: Gate)
    requires a.id in g.requests && looked == if a.selected.Some? && g.requests[a.id].key != "" then KeyFor(g, a.selected.value).0 else g
    requires a.id in looked.requests
    ensures var n := Dispatch(g, a);
            var r := looked.requests[a.id];
            var right := g.requests[a.id].key != "" && (a.selected.Some? ==> r.key == KeyFor(g, a.selected.value).1);
            OnlyOne(looked, n, a.id) && n.requests[a.id] == if !right then r.(rejected := true) else if a.admitted then r.(dispatched := true) else r
  {
    assert Dispatch(g, a).requests.Keys == looked.requests.Keys;
  }

  // A terminal request: rejected, or past the deadline of the wait it is in.
  predicate Over(r: Request, a: Arrival) {
    r.rejected || (r.sequence > 0 && a.now >= if r.deadline > 0 then r.deadline else a.deadline)
  }

  /** A request whose wait is over is rejected for good: an arrival gives it no slot and
      sends nothing, whatever credential the host selected. */
  lemma OverStaysRejected(g: Gate, a: Arrival, limit: nat)
    requires a.codex && a.id in g.requests && Over(g.requests[a.id], a)
    ensures After(g, a, limit).requests == g.requests[a.id := g.requests[a.id].(rejected := true)]
    ensures After(g, a, limit).aliases == g.aliases && After(g, a, limit).tokens == g.tokens
  {
    if g.requests[a.id].rejected {
      assert g.requests[a.id := g.requests[a.id].(rejected := true)] == g.requests;
    }
  }

  /** Nothing is sent without the slot: an arrival dispatches a request exactly when it is
      admitted and then holds the slot of the very credential that was selected. */
  lemma SentIffHolding(g: Gate, a: Arrival, limit: nat)
    requires CanonicalKeys(g) && a.codex && a.selected.Some? && AliasList(a.selected.value)
    requires a.id in g.requests && !Over(g.requests[a.id], a) && !g.requests[a.id].dispatched
    ensures var n := After(g, a, limit);
            && a.id in n.requests
            && (n.requests[a.id].dispatched <==>
                  a.admitted && n.requests[a.id].key != "" && n.requests[a.id].key == Canon(n.aliases, a.selected.value[0]))
  {
    var r := g.requests[a.id];
    if !r.native && r.key != "" {
      DispatchIs(g, a);
      assert After(g, a, limit) == Dispatch(g, a);
      LookedUp(g, a.selected.value);
    } else {
      var marked := g.(requests := g.requests[a.id := r.(native := true)]);
      MarkedArrival(g, a, limit, marked);
      NativeArrival(marked, a, limit);
    }
  }

  lemma MarkedArrival(g: Gate, a: Arrival, limit: nat, marked: Gate)
    requires CanonicalKeys(g) && a.codex && a.selected.Some? && a.id in g.requests && !Over(g.requests[a.id], a)
    requires g.requests[a.id].native || g.requests[a.id].key == ""
    requires marked == g.(requests := g.requests[a.id := g.requests[a.id].(native := true)])
    ensures CanonicalKeys(marked)
    ensures var (m, holds) := NativeAdmit(marked, a, limit);
            After(g, a, limit) == if holds then Dispatch(m, a) else m
  {
    assert marked.requests.Keys == g.requests.Keys;
    forall x, k | x in marked.requests && k in marked.requests[x].waitKeys ensures k != "" && Canon(marked.aliases, k) == k {
      assert k in g.requests[x].waitKeys;
    }
    if g.requests[a.id].native {
      assert g.requests[a.id := g.requests[a.id].(native := true)] == g.requests;
    }
  }

  lemma NativeArrival(g: Gate, a: Arrival, limit: nat)
    requires CanonicalKeys(g) && a.selected.Some? && AliasList(a.selected.value)
    requires a.id in g.requests && !g.requests[a.id].rejected && !g.requests[a.id].dispatched
    ensures var (m, holds) := NativeAdmit(g, a, limit);
            var n := if holds then Dispatch(m, a) else m;
            && a.id in n.requests
            && (n.requests[a.id].dispatched <==>
                  a.admitted && n.requests[a.id].key != "" && n.requests[a.id].key == Canon(n.aliases, a.selected.value[0]))
  {
    var list := a.selected.value;
    var (n, key) := KeyFor(g, list);
    var (m, holds) := NativeAdmit(g, a, limit);
    LookedUp(g, list);
    KeyForKeepsCanonical(g, list);
    NativeSlotIff(g, a, limit);
    if holds {
      HoldingIsCanonical(n, m, a.id, key);
      KeyForRenames(g, list);
      assert m.aliases == n.aliases;
      LearnedIsNoop(m, list);
      DispatchIs(m, a);
    }
  }

  lemma HoldingIsCanonical(n: Gate, m: Gate, id: RequestId, key: Key)
    requires CanonicalKeys(n) && id in n.requests && OnlyOne(n, m, id) && m.founded == n.founded
    requires Canon(n.aliases, key) == key
    requires m.requests[id] == n.requests[id].(key := key)
    ensures CanonicalKeys(m)
  {
    forall x | x in m.requests ensures x in n.requests { assert x in n.requests.Keys; }
    forall x, k | x in m.requests && k in m.requests[x].waitKeys ensures k != "" && Canon(m.aliases, k) == k {
      assert k in n.requests[x].waitKeys;
    }
  }

  /** Only the first call for a Codex credential that the host named registers an unknown
      request; any other arrival of one changes nothing. */
  lemma UnknownArrival(g: Gate, a: Arrival, limit: nat)
    requires a.id !in g.requests && !(a.first && a.codex && a.selected.Some?)
    ensures After(g, a, limit) == g
  {
  }

  /** An attempt at another kind of credential gives the slot up and nothing else. */
  lemma OtherKindGivesUp(g: Gate, a: Arrival, limit: nat)
    requires !a.codex && a.id in g.requests
    ensures var n := After(g, a, limit);
            && n.aliases == g.aliases && n.requests.Keys == g.requests.Keys
            && (forall x | x in g.requests && x != a.id :: n.requests[x] == g.requests[x])
            && n.requests[a.id].key == "" && (g.requests[a.id].key != "" ==> !n.requests[a.id].dispatched)
            && n.requests[a.id] == g.requests[a.id].(key := "", dispatched := n.requests[a.id].dispatched)
  {
    assert After(g, a, limit).requests.Keys == g.requests.Keys;
  }

  // ------------------------------------------------------------------ giving back

  lemma OneSlotLess(before: Requests, after: Requests, id: RequestId, k: Key)
    requires k != "" && id in before && before[id].key != ""
    requires id in after ==> after[id].key == ""
    requires forall x | x != id :: (x in after <==> x in before) && (x in after ==> after[x].key == before[x].key)
    ensures Count(after, k) == Count(before, k) - if before[id].key == k then 1 else 0
  {
    var held, left := Holders(before, k), Holders(after, k);
    assert left == held - {id};
  }

  /** A failed attempt that was sent gives exactly its own slot back and stays registered;
      one that was not sent changes nothing. */
  lemma AttemptGivesBack(g: Gate, id: RequestId, k: Key)
    requires k != "" && id in g.requests
    ensures var n := FreeAttempt(g, id);
            && OnlyOne(g, n, id) && (!g.requests[id].dispatched ==> n == g)
            && (g.requests[id].dispatched ==> n.requests[id].key == "" && !n.requests[id].dispatched)
            && Count(n.requests, k) == Count(g.requests, k) - if g.requests[id].dispatched && g.requests[id].key == k then 1 else 0
  {
    var n := FreeAttempt(g, id);
    assert n.requests.Keys == g.requests.Keys;
    if g.requests[id].dispatched && g.requests[id].key != "" {
      OneSlotLess(g.requests, n.requests, id, k);
    } else {
      assert Holders(n.requests, k) == Holders(g.requests, k);
    }
  }

  /** A finished execution gives its slot back, leaves no token behind, and is remembered
      if its id is usable. */
  lemma FinishGivesBack(g: Gate, id: RequestId, k: Key)
    requires k != "" && TokensMatch(g) && Ring(g) && g.completedNext <= |g.completedIDs|
    ensures var n := Release(g, id);
            && id !in n.requests && (forall x | x != id :: (x in n.requests <==> x in g.requests) && (x in n.requests ==> n.requests[x] == g.requests[x]))
            && (forall t | t in n.tokens :: n.tokens[t] != id)
            && (id != "" && |id| <= 512 ==> id in n.completed)
            && Count(n.requests, k) == Count(g.requests, k) - if id in g.requests && g.requests[id].key == k then 1 else 0
  {
    var n := Release(g, id);
    RememberKeepsRequests(g, id);
    ReleaseKeepsTokens(g, id);
    RememberStep(g, id, Remembered(g));
    if id in g.requests && g.requests[id].key != "" {
      OneSlotLess(g.requests, n.requests, id, k);
    } else {
      assert Holders(n.requests, k) == Holders(g.requests, k);
    }
  }

  /** A request that stops waiting leaves the queue, so it holds nobody back any more, and
      keeps its slot. */
  lemma StopWaitingLeaves(g: Gate, id: RequestId)
    requires id in g.requests
    ensures var n := EndWait(g, id);
            && OnlyOne(g, n, id) && n.requests[id].key == g.requests[id].key && n.requests[id].rejected == g.requests[id].rejected
            && n.requests[id].sequence == 0
            && forall k, x, other, now :: Ahead(n.requests, x, k, other, now) ==> x != id
  {
    assert EndWait(g, id).requests.Keys == g.requests.Keys;
  }

  // ------------------------------------------------------------------ registration

  /** An unusable or remembered id gets no token, a registered one its old token. */
  lemma RegisteredAlready(g: Gate, id: RequestId, now: nat, token: Token)
    requires id == "" || |id| > 512 || id in g.completed || id in g.requests
    ensures var (n, t) := Register(g, id, now, token);
            if id == "" || |id| > 512 || id in g.completed then n == g && t == "" else n == g.(supported := true) && t == g.requests[id].token
  {
  }

  // Requests with a slot, and those registered within the last half hour.
  function Lasting(g: Gate, now: nat): set<RequestId> {
    set x | x in g.requests && (g.requests[x].key != "" || now <= g.requests[x].at + 1800)
  }

  /** A new id: every request without a slot that is older than half an hour is dropped
      with its token, and the id enters, idle, exactly if fewer than 8192 remain. */
  lemma RegistrationIs(g: Gate, id: RequestId, now: nat, token: Token)
    requires token != "" && id != "" && |id| <= 512 && id !in g.completed && id !in g.requests
    ensures var (n, t) := Register(g, id, now, token);
            && n.supported && n.aliases == g.aliases && n.lastSequence == g.lastSequence
            && t == (if |Lasting(g, now)| < 8192 then token else "")
            && Became(g.requests, n.requests, Lasting(g, now), if t == token then {id} else {})
            && (t == token ==> Idle(n.requests[id], token, now))
  {
    LastingStay(g, now);
    NewIdShape(g, id, now, token);
    OneEnters(g.requests, Unstale(g.requests, now), Lasting(g, now), id, NewRequest(token, now));
  }

  // Exactly these stay as they are, and exactly those are new.
  predicate Became(before: Requests, after: Requests, stay: set<RequestId>, enter: set<RequestId>) {
    after.Keys == stay + enter && forall x | x in stay && x in after :: x in before && after[x] == before[x]
  }

  lemma LastingStay(g: Gate, now: nat)
    ensures Became(g.requests, Unstale(g.requests, now), Lasting(g, now), {}) && |Unstale(g.requests, now)| == |Lasting(g, now)|
  {
    assert Unstale(g.requests, now).Keys == Lasting(g, now);
    assert |Unstale(g.requests, now)| == |Unstale(g.requests, now).Keys|;
  }

  lemma OneEnters(before: Requests, left: Requests, stay: set<RequestId>, id: RequestId, r: Request)
    requires Became(before, left, stay, {}) && id !in before && stay <= before.Keys
    ensures Became(before, left[id := r], stay, {id})
  {
    assert left[id := r].Keys == stay + {id};
  }

  /** Its tokens: the new one names the new id, and an old one stays unless it was that of
      a dropped request. */
  lemma RegistrationTokens(g: Gate, id: RequestId, now: nat, token: Token, k: Token)
    requires token != "" && id != "" && |id| <= 512 && id !in g.completed && id !in g.requests
    ensures var (n, t) := Register(g, id, now, token);
            && (t == token ==> token in n.tokens && n.tokens[token] == id)
            && (k != token ==>
                  && (k in n.tokens <==> k in g.tokens && forall x | x in g.requests && x !in Lasting(g, now) :: g.requests[x].token != k)
                  && (k in n.tokens ==> n.tokens[k] == g.tokens[k]))
  {
    TokensLeft(g, now, Lasting(g, now));
    NewIdShape(g, id, now, token);
  }

  lemma NewIdShape(g: Gate, id: RequestId, now: nat, token: Token)
    requires id != "" && |id| <= 512 && id !in g.completed && id !in g.requests
    ensures var (n, t) := Register(g, id, now, token);
            var requests, tokens := Unstale(g.requests, now), UnstaleTokens(g, now);
            && n.supported && n.aliases == g.aliases && n.lastSequence == g.lastSequence
            && if |requests| < 8192 then t == token && n.requests == requests[id := NewRequest(token, now)] && n.tokens == tokens[token := id]
               else t == "" && n.requests == requests && n.tokens == tokens
  {
  }

  lemma TokensLeft(g: Gate, now: nat, kept: set<RequestId>)
    requires kept == set x | x in g.requests && (g.requests[x].key != "" || now <= g.requests[x].at + 1800)
    ensures forall k | k in UnstaleTokens(g, now) :: k in g.tokens && UnstaleTokens(g, now)[k] == g.tokens[k]
    ensures forall k | k in g.tokens :: k in UnstaleTokens(g, now) <==> forall x | x in g.requests && x !in kept :: g.requests[x].token != k
  {
  }

  predicate Idle(r: Request, token: Token, now: nat) {
    && r.token == token && r.key == "" && r.at == now && !r.warmup && !r.native && !r.dispatched && !r.rejected
    && r.deadline == 0 && r.sequence == 0 && r.waitKeys == {}
  }
}
