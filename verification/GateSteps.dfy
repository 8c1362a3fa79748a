/**
 What single sections of the concurrency gate keep: canonical keys, the slot cap,
 distinct queue places, and the token and completion books.

 Three relations between the gate before and after a section carry the proofs.
 Calmer: no request gained a slot or a queue place and no key changed, so every
 promise survives (releases, cancelled waits, marks). Entered: one idle
 request joined. Renamed: keys may have merged, nothing else happened
 (every alias lookup); a chain of lookups is again a renaming, which is how the
 candidate loop of a pick is handled. Only granting a slot to a free key needs
 the guard of its section.
 */
module GateSteps {
  import opened CredentialAliases
  import opened ConcurrencyGate
  import opened GateAdmission
  import opened GateCap

  /** No two waiters share a queue place, and a new place is larger than all. */
  ghost predicate Order(g: Gate) {
    && (forall x | x in g.requests :: g.requests[x].sequence <= g.lastSequence)
    && (forall x, y | x in g.requests && y in g.requests && x != y && g.requests[x].sequence != 0 ::
          g.requests[x].sequence != g.requests[y].sequence)
  }

  /** Tokens, completion memory, and no registration of a remembered execution. */
  ghost predicate Books(g: Gate) {
    && TokensMatch(g)
    && Ring(g)
    && g.completedNext <= |g.completedIDs|
    && "" !in g.requests
    && forall id | id in g.completed :: id !in g.requests
  }

  ghost predicate Sound(g: Gate, limit: nat, spare: set<Alias>) {
    CanonicalKeys(g) && Cap(g, limit, spare) && Order(g) && Books(g)
  }

  // Requests only leave, lose slots, wait for less, or are rejected.
  ghost predicate Calmer(g: Gate, n: Gate) {
    && n.aliases == g.aliases && n.founded == g.founded && n.lastSequence == g.lastSequence
    && forall x | x in n.requests ::
         && x in g.requests
         && (n.requests[x].key == "" || n.requests[x].key == g.requests[x].key)
         && n.requests[x].waitKeys <= g.requests[x].waitKeys
         && (n.requests[x].sequence == 0 || n.requests[x].sequence == g.requests[x].sequence)
         && (g.requests[x].rejected ==> n.requests[x].rejected)
         && n.requests[x].deadline == g.requests[x].deadline
  }

  ghost predicate SameBooks(g: Gate, n: Gate) {
    && n.tokens == g.tokens && n.completed == g.completed
    && n.completedIDs == g.completedIDs && n.completedNext == g.completedNext
    && n.requests.Keys == g.requests.Keys
    && forall x | x in g.requests :: n.requests[x].token == g.requests[x].token && n.requests[x].warmup == g.requests[x].warmup
  }

  lemma CalmerKeeps(g: Gate, n: Gate, limit: nat, spare: set<Alias>)
    requires CanonicalKeys(g) && Cap(g, limit, spare) && Order(g) && Calmer(g, n)
    ensures CanonicalKeys(n) && Cap(n, limit, spare) && Order(n)
  {
    FewerSlots(g, n, limit, spare);
    forall x, k | x in n.requests && k in n.requests[x].waitKeys ensures k != "" && Canon(n.aliases, k) == k {
      assert k in g.requests[x].waitKeys;
    }
  }

  lemma BooksKept(g: Gate, n: Gate)
    requires Books(g) && SameBooks(g, n)
    ensures Books(n)
  {
    assert forall x :: x in n.requests.Keys <==> x in g.requests.Keys;
  }

  predicate CalmerRequest(r: Request, q: Request) {
    && (q.key == "" || q.key == r.key) && q.waitKeys <= r.waitKeys
    && (q.sequence == 0 || q.sequence == r.sequence)
    && (r.rejected ==> q.rejected) && q.deadline == r.deadline
    && q.token == r.token && q.warmup == r.warmup
  }

  // Changing one request for the calmer.
  lemma TouchIsCalm(g: Gate, n: Gate, id: RequestId, q: Request)
    requires id in g.requests && CalmerRequest(g.requests[id], q) && n == g.(requests := g.requests[id := q])
    requires Books(g)
    ensures Calmer(g, n) && Books(n) && n.requests.Keys == g.requests.Keys
  {
    assert n.requests.Keys == g.requests.Keys;
    BooksKept(g, n);
  }

  lemma CalmerNoOvertaking(g: Gate, n: Gate, key: Key, id: RequestId, sequence: nat, now: nat)
    requires Calmer(g, n) && !Overtakes(g.requests, key, id, sequence, now)
    ensures !Overtakes(n.requests, key, id, sequence, now)
  {
  }

  // ------------------------------------------------------------------ registration

  // Requests only leave, but for one that enters idle.
  ghost predicate Entered(g: Gate, n: Gate, id: RequestId) {
    && n.aliases == g.aliases && n.founded == g.founded && n.lastSequence == g.lastSequence
    && forall x | x in n.requests ::
         if x in g.requests then n.requests[x] == g.requests[x]
         else x == id && n.requests[x].key == "" && n.requests[x].waitKeys == {} && n.requests[x].sequence == 0
  }

  lemma EnteredKeeps(g: Gate, n: Gate, id: RequestId, limit: nat, spare: set<Alias>)
    requires CanonicalKeys(g) && Cap(g, limit, spare) && Order(g) && Entered(g, n, id)
    ensures CanonicalKeys(n) && Cap(n, limit, spare) && Order(n)
  {
    FewerSlots(g, n, limit, spare);
    forall x, k | x in n.requests && k in n.requests[x].waitKeys ensures k != "" && Canon(n.aliases, k) == k {
      assert x in g.requests && k in g.requests[x].waitKeys;
    }
  }

  lemma RegisterEnters(g: Gate, id: RequestId, now: nat, token: Token)
    ensures Entered(g, Register(g, id, now, token).0, id)
  {
  }

  lemma RegisterFrame(g: Gate, id: RequestId, now: nat, token: Token)
    ensures var n := Register(g, id, now, token).0;
            && n.completed == g.completed && n.completedIDs == g.completedIDs && n.completedNext == g.completedNext
            && forall x | x in n.requests :: x in g.requests || (x == id && UsableId(id) && id !in g.completed)
  {
  }

  lemma BooksAfterEntering(g: Gate, n: Gate)
    requires Books(g) && TokensMatch(n)
    requires n.completed == g.completed && n.completedIDs == g.completedIDs && n.completedNext == g.completedNext
    requires forall x | x in n.requests :: x in g.requests || (x != "" && x !in g.completed)
    ensures Books(n)
  {
  }

  lemma RegisterKeepsBooks(g: Gate, id: RequestId, now: nat, token: Token)
    requires Books(g) && token != "" && token !in g.tokens
    ensures Books(Register(g, id, now, token).0)
  {
    RegisterKeepsTokens(g, id, now, token);
    RegisterFrame(g, id, now, token);
    BooksAfterEntering(g, Register(g, id, now, token).0);
  }

  lemma RegisterKeeps(g: Gate, id: RequestId, now: nat, token: Token, limit: nat, spare: set<Alias>)
    requires Sound(g, limit, spare) && token != "" && token !in g.tokens
    ensures Sound(Register(g, id, now, token).0, limit, spare)
  {
    RegisterEnters(g, id, now, token);
    EnteredKeeps(g, Register(g, id, now, token).0, id, limit, spare);
    RegisterKeepsBooks(g, id, now, token);
  }

  lemma ReleaseIsCalmer(g: Gate, id: RequestId)
    ensures Calmer(g, Release(g, id))
  {
    RememberKeepsRequests(g, id);
  }

  lemma ReleaseKeepsBooks(g: Gate, id: RequestId)
    requires Books(g)
    ensures Books(Release(g, id)) && id !in Release(g, id).requests
  {
    var n := Release(g, id);
    RememberKeepsRequests(g, id);
    ReleaseKeepsTokens(g, id);
    RememberStep(g, id, Remembered(g));
    assert Ring(n) && n.completedNext <= |n.completedIDs|;
    forall x | x in n.completed ensures x !in n.requests {
      assert x in g.completed || x == id;
    }
  }

  // ------------------------------------------------------------------------ keys

  // Aliases that share a key share it for ever.
  ghost predicate StillShared(m: AliasMap, n: AliasMap) {
    && m.Keys <= n.Keys
    && forall a, b | a in m && b in m && m[a] == m[b] :: n[a] == n[b]
  }

  // Requests keep everything but the names of their keys.
  ghost predicate Renamed(g: Gate, n: Gate) {
    && SameBooks(g, n)
    && n.supported == g.supported && n.lastSequence == g.lastSequence
    && StillShared(g.aliases, n.aliases)
    && forall x | x in g.requests ::
         && n.requests[x] == g.requests[x].(key := n.requests[x].key, waitKeys := n.requests[x].waitKeys)
         && n.requests[x].key == Canon(n.aliases, g.requests[x].key)
  }

  predicate Learned(m: AliasMap, list: seq<Alias>) {
    list != [] && forall a <- list :: a in m && m[a] == Canon(m, list[0])
  }

  lemma KeyForRenames(g: Gate, list: seq<Alias>)
    requires CanonicalKeys(g) && AliasList(list)
    ensures Renamed(g, KeyFor(g, list).0) && Learned(KeyFor(g, list).0.aliases, list)
    ensures KeyFor(g, list).1 == Canon(KeyFor(g, list).0.aliases, list[0])
  {
    var (n, key) := KeyFor(g, list);
    LearnKeepsIdempotent(g.aliases, list);
    MergedKeys(g.aliases, list, "");
    assert list[0] in list;
    forall x | x in g.requests ensures n.requests[x].key == Canon(n.aliases, g.requests[x].key) {
      var k := g.requests[x].key;
      MergedKeys(g.aliases, list, k);
      assert "" !in n.aliases;
    }
    forall a, b | a in g.aliases && b in g.aliases && g.aliases[a] == g.aliases[b] ensures n.aliases[a] == n.aliases[b] {
      KeyAfter(g, list, a);
      KeyAfter(g, list, b);
    }
  }

  lemma RenamedKeepsOrder(g: Gate, n: Gate)
    requires Renamed(g, n) && Order(g)
    ensures Order(n)
  {
    assert forall x :: x in n.requests.Keys <==> x in g.requests.Keys;
  }

  lemma KeyForKeeps(g: Gate, list: seq<Alias>, limit: nat, spare: set<Alias>)
    requires Sound(g, limit, spare) && AliasList(list)
    ensures Sound(KeyFor(g, list).0, limit, spare)
  {
    var n := KeyFor(g, list).0;
    KeyForKeepsCanonical(g, list);
    KeyForKeepsCap(g, list, limit, spare);
    KeyForRenames(g, list);
    BooksKept(g, n);
    RenamedKeepsOrder(g, n);
  }

  lemma RenamedReflexive(g: Gate)
    requires CanonicalKeys(g)
    ensures Renamed(g, g)
  {
  }

  lemma RenamedTransitive(a: Gate, b: Gate, c: Gate)
    requires Renamed(a, b) && Renamed(b, c) && CanonicalKeys(a) && CanonicalKeys(b) && CanonicalKeys(c)
    ensures Renamed(a, c)
  {
    forall x | x in a.requests ensures c.requests[x].key == Canon(c.aliases, a.requests[x].key) {
      assert x in b.requests.Keys;
      var k := a.requests[x].key;
      assert b.requests[x].key == Canon(b.aliases, k);
      assert c.requests[x].key == Canon(c.aliases, Canon(b.aliases, k));
      SharedCanon(b.aliases, c.aliases, k);
    }
    forall x | x in a.requests
      ensures c.requests[x] == a.requests[x].(key := c.requests[x].key, waitKeys := c.requests[x].waitKeys)
    {
      assert x in b.requests.Keys;
    }
  }

  lemma SharedCanon(m: AliasMap, n: AliasMap, k: Key)
    requires StillShared(m, n) && Idempotent(m) && "" !in m && "" !in n && (k == "" || k in m)
    ensures Canon(n, Canon(m, k)) == Canon(n, k)
  {
  }

  lemma LearnedStays(m: AliasMap, n: AliasMap, list: seq<Alias>)
    requires Learned(m, list) && StillShared(m, n)
    ensures Learned(n, list)
  {
    assert list[0] in list;
  }

  // Looking a learned list up again changes nothing.
  lemma LearnedIsNoop(g: Gate, list: seq<Alias>)
    requires CanonicalKeys(g) && AliasList(list) && Learned(g.aliases, list)
    ensures KeyFor(g, list) == (g, Canon(g.aliases, list[0]))
  {
    var key := ChosenKey(g.aliases, list);
    assert list[0] in list;
    ChosenKeyCases(g.aliases, list);
    assert key == Canon(g.aliases, list[0]);
    assert OldKeys(g.aliases, list, key) == {};
    assert Learn(g.aliases, list) == g.aliases;
    assert !Merges(g.aliases, list);
    NoMergeKeepsRequests(g, list);
    assert key in g.founded;
    assert g.founded + {key} == g.founded;
  }

  // --------------------------------------------------------------- candidate loop

  ghost predicate Candidates(candidates: seq<Candidate>) {
    forall i | 0 <= i < |candidates| :: AliasList(candidates[i].aliases)
  }

  ghost predicate AllLearned(m: AliasMap, candidates: seq<Candidate>) {
    forall i | 0 <= i < |candidates| :: Learned(m, candidates[i].aliases)
  }

  // The first alias of every candidate: the credentials a pick may admit to.
  ghost function Spare(candidates: seq<Candidate>): set<Alias> {
    set i | 0 <= i < |candidates| && candidates[i].aliases != [] :: candidates[i].aliases[0]
  }

  lemma {:induction false} EvaluateRenames(g: Gate, id: RequestId, candidates: seq<Candidate>, limit: nat, now: nat)
    requires CanonicalKeys(g) && Candidates(candidates)
    ensures var n := Evaluate(g, id, candidates, limit, now).0;
            CanonicalKeys(n) && Renamed(g, n) && AllLearned(n.aliases, candidates)
    decreases |candidates|
  {
    if candidates == [] {
      RenamedReflexive(g);
    } else {
      var n := KeyFor(g, candidates[0].aliases).0;
      KeyForKeepsCanonical(g, candidates[0].aliases);
      KeyForRenames(g, candidates[0].aliases);
      EvaluateRenames(n, id, candidates[1..], limit, now);
      EvaluateJoins(g, n, Evaluate(n, id, candidates[1..], limit, now).0, candidates);
    }
  }

  lemma {:induction false} EvaluateKeeps(g: Gate, id: RequestId, candidates: seq<Candidate>, limit: nat, now: nat, spare: set<Alias>)
    requires Sound(g, limit, spare) && Candidates(candidates)
    ensures var (n, busy) := Evaluate(g, id, candidates, limit, now);
            Sound(n, limit, spare + Spare(Free(candidates, busy)))
    decreases |candidates|
  {
    if candidates == [] {
      assert spare + Spare([]) == spare;
    } else {
      var rest := candidates[1..];
      var n := KeyFor(g, candidates[0].aliases).0;
      var next := LookupKeeps(g, id, candidates[0], limit, now, spare);
      EvaluateKeeps(n, id, rest, limit, now, next);
      var busy, flags := Evaluate(g, id, candidates, limit, now).1, Evaluate(n, id, rest, limit, now).1;
      SpareOfFree(candidates, busy);
      SameSpare(next + Spare(Free(rest, flags)), spare + Spare(Free(candidates, busy)),
                Evaluate(n, id, rest, limit, now).0, limit);
    }
  }

  lemma SameSpare(a: set<Alias>, b: set<Alias>, g: Gate, limit: nat)
    requires forall x :: x in a <==> x in b
    requires Sound(g, limit, a)
    ensures Sound(g, limit, b)
  {
    assert a == b;
  }

  // One round of the loop; a free credential is promised one more slot.
  lemma LookupKeeps(g: Gate, id: RequestId, c: Candidate, limit: nat, now: nat, spare: set<Alias>) returns (next: set<Alias>)
    requires Sound(g, limit, spare) && AliasList(c.aliases)
    ensures var (n, key) := KeyFor(g, c.aliases);
            && Renamed(g, n) && Learned(n.aliases, c.aliases) && Sound(n, limit, next)
            && next == spare + if Blocked(n.requests, key, id, limit, now) then {} else {c.aliases[0]}
  {
    var (n, key) := KeyFor(g, c.aliases);
    KeyForKeeps(g, c.aliases, limit, spare);
    KeyForRenames(g, c.aliases);
    next := spare;
    assert spare + {} == spare;
    if !Blocked(n.requests, key, id, limit, now) {
      assert c.aliases[0] in c.aliases;
      PromiseSlot(n, limit, spare, c.aliases[0]);
      next := spare + {c.aliases[0]};
    }
  }

  lemma EvaluateJoins(g: Gate, n: Gate, m: Gate, candidates: seq<Candidate>)
    requires candidates != [] && CanonicalKeys(g) && CanonicalKeys(n) && CanonicalKeys(m)
    requires Renamed(g, n) && Renamed(n, m) && Learned(n.aliases, candidates[0].aliases) && AllLearned(m.aliases, candidates[1..])
    ensures Renamed(g, m) && AllLearned(m.aliases, candidates)
  {
    RenamedTransitive(g, n, m);
    LearnedStays(n.aliases, m.aliases, candidates[0].aliases);
    forall i | 0 <= i < |candidates| ensures Learned(m.aliases, candidates[i].aliases) {
      if i > 0 { assert candidates[i] == candidates[1..][i - 1]; }
    }
  }

  lemma SpareOfFree(candidates: seq<Candidate>, busy: seq<bool>)
    requires Candidates(candidates) && candidates != [] && |busy| == |candidates|
    ensures Spare(Free(candidates, busy))
         == Spare(Free(candidates[1..], busy[1..])) + if busy[0] then {} else {candidates[0].aliases[0]}
  {
    if !busy[0] {
      var rest := Free(candidates[1..], busy[1..]);
      var all := [candidates[0]] + rest;
      assert Free(candidates, busy) == all;
      forall a ensures a in Spare(all) <==> a in Spare(rest) + {candidates[0].aliases[0]} {
        if a in Spare(rest) {
          var i :| 0 <= i < |rest| && rest[i].aliases != [] && rest[i].aliases[0] == a;
          assert all[i + 1] == rest[i];
        }
        if a in Spare(all) {
          var i :| 0 <= i < |all| && all[i].aliases != [] && all[i].aliases[0] == a;
          assert i > 0 ==> all[i] == rest[i - 1];
        }
        assert all[0] == candidates[0];
      }
    }
  }

  lemma {:induction false} WaitKeysAreKnown(g: Gate, candidates: seq<Candidate>, preferred: string, keys: set<Key>)
    requires CanonicalKeys(g) && Candidates(candidates) && AllLearned(g.aliases, candidates)
    requires forall k | k in keys :: k != "" && Canon(g.aliases, k) == k
    ensures var (n, out) := WaitKeys(g, candidates, preferred, keys);
            && n == g && forall k | k in out :: k != "" && Canon(g.aliases, k) == k
    decreases |candidates|
  {
    if candidates != [] {
      var c, rest := candidates[0], candidates[1..];
      if Waitable(c, preferred) {
        LearnedIsNoop(g, c.aliases);
        KeyForKeepsCanonical(g, c.aliases);
        WaitKeysAreKnown(g, rest, preferred, keys + {KeyFor(g, c.aliases).1});
      } else {
        WaitKeysAreKnown(g, rest, preferred, keys);
      }
    }
  }

  // Queueing takes a fresh, larger place unless the request already has one.
  lemma QueueKeeps(g: Gate, id: RequestId, keys: set<Key>, deadline: nat, now: nat, limit: nat, spare: set<Alias>)
    requires Sound(g, limit, spare) && id in g.requests
    requires forall k | k in keys :: k != "" && Canon(g.aliases, k) == k
    ensures var n := Queue(g, id, keys, deadline, now);
            && Sound(n, limit, spare)
            && n.requests[id].sequence == (if g.requests[id].sequence == 0 then g.lastSequence + 1 else g.requests[id].sequence)
            && n.requests[id].waitKeys == keys
            && forall x | x in g.requests && x != id :: n.requests[x] == g.requests[x]
  {
    QueueFrame(g, id, keys, deadline, now);
    var n := Queue(g, id, keys, deadline, now);
    BooksKept(g, n);
    FewerSlots(g, n, limit, spare);
    QueueOrder(g, n, id);
    QueueCanonical(g, n, id);
  }

  lemma QueueFrame(g: Gate, id: RequestId, keys: set<Key>, deadline: nat, now: nat)
    requires id in g.requests
    ensures var n, r := Queue(g, id, keys, deadline, now), g.requests[id];
            && SameBooks(g, n) && n.aliases == g.aliases && n.founded == g.founded
            && n.requests[id].waitKeys == keys && n.requests[id].key == r.key
            && (if r.sequence == 0 then n.lastSequence == g.lastSequence + 1 && n.requests[id].sequence == n.lastSequence
                else n.lastSequence == g.lastSequence && n.requests[id].sequence == r.sequence)
            && forall x | x in g.requests && x != id :: n.requests[x] == g.requests[x]
  {
    assert Queue(g, id, keys, deadline, now).requests.Keys == g.requests.Keys;
  }

  lemma QueueCanonical(g: Gate, n: Gate, id: RequestId)
    requires CanonicalKeys(g) && id in g.requests && n.requests.Keys == g.requests.Keys
    requires n.aliases == g.aliases && n.founded == g.founded
    requires n.requests[id].key == g.requests[id].key
    requires forall k | k in n.requests[id].waitKeys :: k != "" && Canon(g.aliases, k) == k
    requires forall x | x in g.requests && x != id :: n.requests[x] == g.requests[x]
    ensures CanonicalKeys(n)
  {
    assert forall x :: x in n.requests.Keys <==> x in g.requests.Keys;
    forall x, k | x in n.requests && k in n.requests[x].waitKeys ensures k != "" && Canon(n.aliases, k) == k {
      if x != id {
        assert k in g.requests[x].waitKeys;
      }
    }
  }

  lemma QueueOrder(g: Gate, n: Gate, id: RequestId)
    requires Order(g) && id in g.requests && n.requests.Keys == g.requests.Keys
    requires forall x | x in g.requests && x != id :: n.requests[x] == g.requests[x]
    requires if g.requests[id].sequence == 0
             then n.lastSequence == g.lastSequence + 1 && n.requests[id].sequence == n.lastSequence
             else n.lastSequence == g.lastSequence && n.requests[id].sequence == g.requests[id].sequence
    ensures Order(n)
  {
    assert forall x :: x in n.requests.Keys <==> x in g.requests.Keys;
  }

  // ------------------------------------------------------------ admitting sections

  lemma SoundFewer(g: Gate, limit: nat, spare: set<Alias>)
    requires Sound(g, limit, spare)
    ensures Sound(g, limit, {})
  {
    FewerPromises(g, limit, spare, {});
  }

  lemma TouchSound(g: Gate, n: Gate, id: RequestId, q: Request, limit: nat, spare: set<Alias>)
    requires Sound(g, limit, spare) && id in g.requests && CalmerRequest(g.requests[id], q)
    requires n == g.(requests := g.requests[id := q])
    ensures Sound(n, limit, spare) && n.requests.Keys == g.requests.Keys
  {
    TouchIsCalm(g, n, id, q);
    CalmerKeeps(g, n, limit, spare);
  }

  lemma OccupyKeeps(g: Gate, n: Gate, id: RequestId, limit: nat, spare: set<Alias>, a: Alias)
    requires Sound(g, limit, spare) && a in spare && id in g.requests && g.requests[id].key == ""
    requires n == g.(requests := g.requests[id := g.requests[id].(key := Canon(g.aliases, a))])
    ensures Sound(n, limit, {})
  {
    assert n.requests.Keys == g.requests.Keys + {id};
    TakeSlot(g, n, id, limit, spare, a);
    OccupyCanonical(g, n, id, a);
    OccupyBooks(g, n, id);
  }

  lemma OccupyBooks(g: Gate, n: Gate, id: RequestId)
    requires Order(g) && Books(g) && id in g.requests
    requires id in n.requests && n == g.(requests := g.requests[id := g.requests[id].(key := n.requests[id].key)])
    ensures Order(n) && Books(n)
  {
    assert n.requests.Keys == g.requests.Keys;
    assert SameBooks(g, n);
    BooksKept(g, n);
    OccupyOrder(g, n, id);
  }

  lemma OccupyOrder(g: Gate, n: Gate, id: RequestId)
    requires Order(g) && n.lastSequence == g.lastSequence && n.requests.Keys == g.requests.Keys
    requires forall x | x in g.requests :: x in n.requests && n.requests[x].sequence == g.requests[x].sequence
    ensures Order(n)
  {
    forall x | x in n.requests ensures x in g.requests { assert x in n.requests.Keys; }
  }

  lemma OccupyCanonical(g: Gate, n: Gate, id: RequestId, a: Alias)
    requires CanonicalKeys(g) && id in g.requests && a in g.aliases
    requires n == g.(requests := g.requests[id := g.requests[id].(key := Canon(g.aliases, a))])
    ensures CanonicalKeys(n)
  {
    forall x, k | x in n.requests && k in n.requests[x].waitKeys ensures k != "" && Canon(n.aliases, k) == k {
      assert k in g.requests[x].waitKeys;
    }
  }

  // Without merges the loop judges every candidate on the same requests and keys.
  lemma {:induction false} EvaluateUnmerged(g: Gate, id: RequestId, candidates: seq<Candidate>, limit: nat, now: nat)
    requires CanonicalKeys(g) && Candidates(candidates) && !LoopMerges(g, candidates)
    ensures var (n, busy) := Evaluate(g, id, candidates, limit, now);
            && n.requests == g.requests
            && (forall a | a in g.aliases :: Canon(n.aliases, a) == Canon(g.aliases, a))
            && forall i | 0 <= i < |candidates| :: busy[i] == Blocked(g.requests, Canon(n.aliases, candidates[i].aliases[0]), id, limit, now)
    decreases |candidates|
  {
    if candidates != [] {
      var c, rest := candidates[0], candidates[1..];
      var (n, key) := KeyFor(g, c.aliases);
      KeyForKeepsCanonical(g, c.aliases);
      KeyForRenames(g, c.aliases);
      NoMergeKeepsRequests(g, c.aliases);
      assert c.aliases[0] in c.aliases;
      EvaluateUnmerged(n, id, rest, limit, now);
      var (m, flags) := Evaluate(n, id, rest, limit, now);
      forall a | a in g.aliases ensures Canon(m.aliases, a) == Canon(g.aliases, a) {
        KeyAfter(g, c.aliases, a);
      }
      var busy := Evaluate(g, id, candidates, limit, now).1;
      assert busy == [Blocked(n.requests, key, id, limit, now)] + flags;
      forall i | 0 <= i < |candidates|
        ensures busy[i] == Blocked(g.requests, Canon(m.aliases, candidates[i].aliases[0]), id, limit, now)
      {
        if i > 0 { assert candidates[i] == rest[i - 1] && busy[i] == flags[i - 1]; }
      }
    }
  }
}
