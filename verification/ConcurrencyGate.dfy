/**
 The credential concurrency gate (concurrency.go) as a value, its critical sections as
 functions on it, and what single sections keep; GateObject is the mutable gate.
 */
module ConcurrencyGate {
  import opened CredentialAliases
  import Text

  type RequestId = string
  type Token = string

  const REGISTRATION_LIMIT: nat := 8192
  const ID_LIMIT: nat := 512
  const REGISTRATION_AGE: nat := 30 * 60

  // A deadline of 0 is Go's zero time: no deadline yet.
  datatype Request = Request(
    token: Token,
    key: Key,
    at: nat,
    warmup: bool,
    native: bool,
    dispatched: bool,
    rejected: bool,
    deadline: nat,
    sequence: nat,
    waitKeys: set<Key>)

  type Requests = map<RequestId, Request>

  datatype Gate = Gate(
    requests: Requests,
    tokens: map<Token, RequestId>,
    completed: set<RequestId>,
    completedIDs: seq<RequestId>,
    completedNext: nat,
    aliases: AliasMap,
    lastSequence: nat,
    supported: bool,
    // history, not part of the program's state: every alias ever chosen as a key
    founded: set<Key>)

  const EMPTY := Gate(map[], map[], {}, [], 0, map[], 0, false, {})

  predicate UsableId(id: RequestId) {
    id != "" && |id| <= ID_LIMIT
  }

  // ------------------------------------------------------------- registration

  function NewRequest(token: Token, now: nat): Request {
    Request(token, "", now, false, false, false, false, 0, 0, {})
  }

  predicate Stale(r: Request, now: nat) {
    r.key == "" && now > r.at + REGISTRATION_AGE
  }

  function Unstale(requests: Requests, now: nat): Requests {
    map id | id in requests && !Stale(requests[id], now) :: requests[id]
  }

  // The tokens left after the stale requests' tokens were deleted.
  function UnstaleTokens(g: Gate, now: nat): map<Token, RequestId> {
    g.tokens - set id | id in g.requests && Stale(g.requests[id], now) :: g.requests[id].token
  }

  function Register(g: Gate, id: RequestId, now: nat, token: Token): (Gate, Token) {
    if !UsableId(id) || id in g.completed then (g, "")
    else if id in g.requests then (g.(supported := true), g.requests[id].token)
    else
      var requests, tokens := Unstale(g.requests, now), UnstaleTokens(g, now);
      var pruned := g.(supported := true, requests := requests, tokens := tokens);
      if |requests| >= REGISTRATION_LIMIT then (pruned, "")
      else (pruned.(requests := requests[id := NewRequest(token, now)], tokens := tokens[token := id]), token)
  }

  function Remember(g: Gate, id: RequestId): Gate {
    if !UsableId(id) || id in g.completed then g
    else if |g.completedIDs| < REGISTRATION_LIMIT then
      g.(completed := g.completed + {id}, completedIDs := g.completedIDs + [id])
    else if g.completedNext < |g.completedIDs| then
      g.(completed := g.completed + {id} - {g.completedIDs[g.completedNext]},
         completedIDs := g.completedIDs[g.completedNext := id],
         completedNext := (g.completedNext + 1) % REGISTRATION_LIMIT)
    else g
  }

  function Release(g: Gate, id: RequestId): Gate {
    var n := Remember(g, id);
    if id in n.requests
    then n.(requests := n.requests - {id}, tokens := n.tokens - {n.requests[id].token})
    else n
  }

  // ------------------------------------------------------------------- keys

  function Redirect(r: Request, merged: set<Key>, key: Key): Request {
    r.(waitKeys := if r.waitKeys * merged != {} then r.waitKeys - merged + {key} else r.waitKeys,
       key := if r.key in merged then key else r.key)
  }

  function Redirected(requests: Requests, merged: set<Key>, key: Key): Requests {
    map id | id in requests :: Redirect(requests[id], merged, key)
  }

  function KeyFor(g: Gate, list: seq<Alias>): (Gate, Key) {
    var key := ChosenKey(g.aliases, list);
    if key == "" then (g, "")
    else
      (g.(aliases := Learn(g.aliases, list),
         requests := Redirected(g.requests, OldKeys(g.aliases, list, key), key),
         founded := g.founded + {key}), key)
  }

  function Holders(requests: Requests, key: Key): set<RequestId> {
    set id | id in requests && requests[id].key == key
  }

  function Count(requests: Requests, key: Key): nat {
    if key == "" then 0 else |Holders(requests, key)|
  }

  // Requests that occupy a slot of any credential.
  function Active(requests: Requests): set<RequestId> {
    set id | id in requests && requests[id].key != ""
  }

  predicate LiveWaiter(r: Request, key: Key, now: nat) {
    r.sequence != 0 && key in r.waitKeys && !r.rejected && (r.deadline == 0 || now < r.deadline)
  }

  // `id` is the asking request ("" for none) and `sequence` its place in the queue.
  predicate Overtakes(requests: Requests, key: Key, id: RequestId, sequence: nat, now: nat) {
    exists other :: other in requests && other != id && LiveWaiter(requests[other], key, now)
      && (sequence == 0 || requests[other].sequence < sequence)
  }

  function SequenceOf(requests: Requests, id: RequestId): nat {
    if id in requests then requests[id].sequence else 0
  }

  predicate Blocked(requests: Requests, key: Key, id: RequestId, limit: nat, now: nat) {
    Count(requests, key) >= limit || Overtakes(requests, key, id, SequenceOf(requests, id), now)
  }

  // ---------------------------------------------------------------- queueing

  function EndWait(g: Gate, id: RequestId): Gate {
    if id in g.requests && g.requests[id].sequence != 0
    then g.(requests := g.requests[id := g.requests[id].(sequence := 0, waitKeys := {})])
    else g
  }

  function Reject(g: Gate, id: RequestId): Gate {
    if id in g.requests then g.(requests := g.requests[id := g.requests[id].(rejected := true)]) else g
  }

  function Detached(r: Request): Request {
    r.(key := "", dispatched := false)
  }

  function Detach(g: Gate, id: RequestId): Gate {
    if id in g.requests && g.requests[id].key != ""
    then g.(requests := g.requests[id := Detached(g.requests[id])]) else g
  }

  function Occupy(g: Gate, id: RequestId, key: Key): Gate {
    if id in g.requests then g.(requests := g.requests[id := g.requests[id].(key := key)]) else g
  }

  // ------------------------------------------------------ tokens and requests

  /** Tokens and non-warmup requests are mutual inverses; warmups have no token. */
  ghost predicate TokensMatch(g: Gate) {
    && (forall t | t in g.tokens :: t != "" && g.tokens[t] in g.requests && g.requests[g.tokens[t]].token == t && !g.requests[g.tokens[t]].warmup)
    && (forall id | id in g.requests && !g.requests[id].warmup :: g.requests[id].token in g.tokens && g.tokens[g.requests[id].token] == id)
    && (forall id | id in g.requests && g.requests[id].warmup :: g.requests[id].token == "")
  }

  lemma RegisterKeepsTokens(g: Gate, id: RequestId, now: nat, token: Token)
    requires TokensMatch(g) && token != "" && token !in g.tokens
    ensures TokensMatch(Register(g, id, now, token).0)
    ensures var (n, t) := Register(g, id, now, token);
            && (t != "" ==> t in n.tokens && n.tokens[t] == id && id !in g.completed)
            && (id in g.completed ==> n == g && t == "")
  {
    var n := Register(g, id, now, token).0;
    var stale := set x | x in g.requests && Stale(g.requests[x], now) :: g.requests[x].token;
    if UsableId(id) && id !in g.completed && id !in g.requests {
      forall x | x in g.requests && !Stale(g.requests[x], now) && !g.requests[x].warmup ensures g.requests[x].token !in stale {
        assert g.tokens[g.requests[x].token] == x;
      }
      forall t | t in UnstaleTokens(g, now) ensures g.tokens[t] in Unstale(g.requests, now) {
        assert t !in stale;
      }
    }
  }

  lemma ReleaseKeepsTokens(g: Gate, id: RequestId)
    requires TokensMatch(g)
    ensures TokensMatch(Release(g, id)) && id !in Release(g, id).requests
  {
    RememberKeepsRequests(g, id);
    if id in g.requests {
      DropKeepsTokens(g, Release(g, id), id);
    }
  }

  lemma RememberKeepsRequests(g: Gate, id: RequestId)
    ensures Remember(g, id).(completed := g.completed, completedIDs := g.completedIDs, completedNext := g.completedNext) == g
  {
  }

  lemma DropKeepsTokens(g: Gate, n: Gate, id: RequestId)
    requires TokensMatch(g) && id in g.requests
    requires n.requests == g.requests - {id} && n.tokens == g.tokens - {g.requests[id].token}
    ensures TokensMatch(n)
  {
  }

  // --------------------------------------------------------- completion memory

  ghost predicate Ring(g: Gate) {
    && |g.completedIDs| <= REGISTRATION_LIMIT
    && g.completedNext < REGISTRATION_LIMIT
    && (|g.completedIDs| < REGISTRATION_LIMIT ==> g.completedNext == 0)
    && (forall i, j | 0 <= i < j < |g.completedIDs| :: g.completedIDs[i] != g.completedIDs[j])
    && (forall id :: id in g.completed <==> id in g.completedIDs)
  }

  // Remembered ids, oldest first.
  function Remembered(g: Gate): seq<RequestId>
    requires g.completedNext <= |g.completedIDs|
  {
    g.completedIDs[g.completedNext..] + g.completedIDs[..g.completedNext]
  }

  function Recent(log: seq<RequestId>): seq<RequestId> {
    if |log| <= REGISTRATION_LIMIT then log else log[|log| - REGISTRATION_LIMIT..]
  }

  // Ids in the order in which they were first remembered (or remembered again
  // after having been forgotten).
  function CompletionLog(ids: seq<RequestId>): (log: seq<RequestId>)
    decreases |ids|
  {
    if ids == [] then []
    else
      var log := CompletionLog(ids[..|ids| - 1]);
      var id := ids[|ids| - 1];
      if !UsableId(id) || id in Recent(log) then log else log + [id]
  }

  function RememberAll(g: Gate, ids: seq<RequestId>): Gate
    decreases |ids|
  {
    if ids == [] then g else Remember(RememberAll(g, ids[..|ids| - 1]), ids[|ids| - 1])
  }

  lemma RememberStep(g: Gate, id: RequestId, log: seq<RequestId>)
    requires Ring(g) && g.completedNext <= |g.completedIDs| && Remembered(g) == Recent(log)
    ensures var n := Remember(g, id);
            && Ring(n) && n.completedNext <= |n.completedIDs|
            && Remembered(n) == if !UsableId(id) || id in Recent(log) then Recent(log) else Recent(log + [id])
  {
    RememberedElements(g);
    assert id in g.completed <==> id in Recent(log);
    if UsableId(id) && id !in g.completed {
      var n := Remember(g, id);
      if |g.completedIDs| < REGISTRATION_LIMIT {
        RingAppended(g, n, id);
        assert Recent(log + [id]) == log + [id];
      } else {
        RingReplaced(g, n, id);
        RotatedReplaced(g, n, id);
        RecentShifts(log, id);
      }
    }
  }

  lemma RecentShifts(log: seq<RequestId>, id: RequestId)
    requires |log| >= REGISTRATION_LIMIT
    ensures Recent(log + [id]) == Recent(log)[1..] + [id]
  {
  }

  lemma RotatedReplaced(g: Gate, n: Gate, id: RequestId)
    requires |g.completedIDs| == REGISTRATION_LIMIT && g.completedNext < REGISTRATION_LIMIT
    requires n.completedIDs == g.completedIDs[g.completedNext := id]
    requires n.completedNext == (g.completedNext + 1) % REGISTRATION_LIMIT
    ensures n.completedNext <= |n.completedIDs| && Remembered(n) == Remembered(g)[1..] + [id]
  {
    var ids, k := g.completedIDs, g.completedNext;
    RotationShift(ids, k, id);
    if k + 1 == REGISTRATION_LIMIT {
      assert n.completedNext == 0;
      assert Remembered(n) == ids[k := id];
    } else {
      assert n.completedNext == k + 1;
    }
  }

  lemma RotationShift(ids: seq<RequestId>, k: nat, id: RequestId)
    requires k < |ids|
    ensures ids[k := id][k + 1..] + ids[k := id][..k + 1] == (ids[k..] + ids[..k])[1..] + [id]
    ensures k + 1 == |ids| ==> ids[k := id] == (ids[k..] + ids[..k])[1..] + [id]
  {
    assert ids[k := id][..k + 1] == ids[..k] + [id];
    assert ids[k := id][k + 1..] == ids[k + 1..];
    assert (ids[k..] + ids[..k])[1..] == ids[k + 1..] + ids[..k];
  }

  lemma RememberedElements(g: Gate)
    requires g.completedNext <= |g.completedIDs|
    ensures forall id :: id in Remembered(g) <==> id in g.completedIDs
  {
    forall id ensures id in Remembered(g) <==> id in g.completedIDs {
      assert g.completedIDs == g.completedIDs[..g.completedNext] + g.completedIDs[g.completedNext..];
    }
  }

  lemma RingAppended(g: Gate, n: Gate, id: RequestId)
    requires Ring(g) && |g.completedIDs| < REGISTRATION_LIMIT && id !in g.completed
    requires n == g.(completed := g.completed + {id}, completedIDs := g.completedIDs + [id])
    ensures Ring(n) && n.completedNext <= |n.completedIDs| && Remembered(n) == Remembered(g) + [id]
  {
    assert Remembered(g) == g.completedIDs && Remembered(n) == n.completedIDs;
  }

  lemma RingReplaced(g: Gate, n: Gate, id: RequestId)
    requires Ring(g) && |g.completedIDs| == REGISTRATION_LIMIT && id !in g.completed
    requires n == g.(completed := g.completed + {id} - {g.completedIDs[g.completedNext]},
                     completedIDs := g.completedIDs[g.completedNext := id],
                     completedNext := (g.completedNext + 1) % REGISTRATION_LIMIT)
    ensures Ring(n)
  {
    var k := g.completedNext;
    forall x ensures x in n.completed <==> x in n.completedIDs {
      if x in g.completedIDs && x != g.completedIDs[k] {
        var i :| 0 <= i < |g.completedIDs| && g.completedIDs[i] == x;
        assert n.completedIDs[i] == x;
      }
      if x in n.completedIDs {
        var i :| 0 <= i < |n.completedIDs| && n.completedIDs[i] == x;
        if i != k {
          assert g.completedIDs[i] == x && x != g.completedIDs[k];
        }
      }
      assert n.completedIDs[k] == id;
    }
  }

  /** The ring and its set hold exactly the most recent 8192 distinct completed ids
      in insertion order, whatever ids complete. */
  lemma {:induction false} RingIsRecentHistory(ids: seq<RequestId>)
    ensures var g := RememberAll(EMPTY, ids);
            && Ring(g) && g.completedNext <= |g.completedIDs|
            && Remembered(g) == Recent(CompletionLog(ids))
    decreases |ids|
  {
    if ids != [] {
      var prior := ids[..|ids| - 1];
      RingIsRecentHistory(prior);
      RememberStep(RememberAll(EMPTY, prior), ids[|ids| - 1], CompletionLog(prior));
    }
  }

  /** Registration never revives a remembered id: among the last 8192 distinct
      completions, none can be registered. */
  lemma CompletedIsNotRevived(g: Gate, ids: seq<RequestId>, id: RequestId, now: nat, token: Token)
    requires RememberAll(EMPTY, ids).completed == g.completed && id in Recent(CompletionLog(ids))
    ensures Register(g, id, now, token) == (g, "")
  {
    RingIsRecentHistory(ids);
    RememberedElements(RememberAll(EMPTY, ids));
  }

  // ------------------------------------------------------------ alias merges

  // Every slot key and wait key in use is a canonical credential key.
  ghost predicate CanonicalKeys(g: Gate) {
    && Idempotent(g.aliases)
    && "" !in g.aliases
    && (forall a | a in g.aliases :: g.aliases[a] in g.founded)
    && (forall id | id in g.requests :: g.requests[id].key != "" ==> Canon(g.aliases, g.requests[id].key) == g.requests[id].key)
    && (forall id, k {:trigger k in g.requests[id].waitKeys} | id in g.requests && k in g.requests[id].waitKeys :: k != "" && Canon(g.aliases, k) == k)
  }

  // What one call does to the keys themselves.
  lemma MergedKeys(m: AliasMap, list: seq<Alias>, k: Key)
    requires Idempotent(m) && AliasList(list)
    ensures var key, n := ChosenKey(m, list), Learn(m, list);
            && Idempotent(n) && key != "" && key !in OldKeys(m, list, key)
            && Canon(n, key) == key
            && (k != "" && Canon(m, k) == k ==> Canon(n, k) == if k in OldKeys(m, list, key) then key else k)
  {
    ChosenKeyCases(m, list);
    LearnKeepsIdempotent(m, list);
    assert list[0] in list;
    assert Canon(Learn(m, list), list[0]) == ChosenKey(m, list);
  }

  lemma KeptWaitKey(r: Request, merged: set<Key>, key: Key, k: Key)
    requires k in Redirect(r, merged, key).waitKeys && k != key
    ensures k in r.waitKeys && k !in merged
  {
    assert r.waitKeys * merged == {} ==> k !in merged by {
      assert k in r.waitKeys && k in merged ==> k in r.waitKeys * merged;
    }
  }

  lemma KeyForKeepsCanonical(g: Gate, list: seq<Alias>)
    requires CanonicalKeys(g) && AliasList(list)
    ensures CanonicalKeys(KeyFor(g, list).0)
    ensures var (n, key) := KeyFor(g, list); key != "" && Canon(n.aliases, key) == key && forall a <- list :: Canon(n.aliases, a) == key
  {
    LearnKeepsIdempotent(g.aliases, list);
    var (n, key) := KeyFor(g, list);
    MergedKeys(g.aliases, list, "");
    forall id | id in n.requests && n.requests[id].key != "" ensures Canon(n.aliases, n.requests[id].key) == n.requests[id].key {
      MergedKeys(g.aliases, list, g.requests[id].key);
    }
    forall id, k | id in n.requests && k in n.requests[id].waitKeys ensures k != "" && Canon(n.aliases, k) == k {
      if k != key {
        KeptWaitKey(g.requests[id], OldKeys(g.aliases, list, key), key, k);
        MergedKeys(g.aliases, list, k);
        assert k in g.requests[id].waitKeys && k != "" && Canon(g.aliases, k) == k;
      }
    }
  }

  // Slots of several keys together.
  function SumCounts(requests: Requests, keys: set<Key>): set<RequestId> {
    set id | id in requests && requests[id].key in keys
  }

  lemma {:induction false} SumOfCounts(requests: Requests, keys: set<Key>, k: Key)
    requires k !in keys && k != ""
    ensures |SumCounts(requests, keys + {k})| == |SumCounts(requests, keys)| + Count(requests, k)
  {
    assert SumCounts(requests, keys + {k}) == SumCounts(requests, keys) + Holders(requests, k);
    assert SumCounts(requests, keys) !! Holders(requests, k);
  }

  /** A merge moves slots, it neither makes nor loses any: the surviving key holds
      exactly the slots of all merged keys and its own, every other key keeps its
      slots, and the set of active requests is unchanged. */
  lemma MergeMovesSlots(g: Gate, list: seq<Alias>)
    requires CanonicalKeys(g) && AliasList(list)
    ensures var (n, key) := KeyFor(g, list);
            var merged := OldKeys(g.aliases, list, key);
            && Holders(n.requests, key) == SumCounts(g.requests, merged + {key})
            && Count(n.requests, key) == |SumCounts(g.requests, merged)| + Count(g.requests, key)
            && (forall k | k != key && k !in merged :: Holders(n.requests, k) == Holders(g.requests, k))
            && (forall k | k in merged :: Holders(n.requests, k) == {})
            && Active(n.requests) == Active(g.requests)
  {
    ChosenKeyCases(g.aliases, list);
    var (n, key) := KeyFor(g, list);
    var merged := OldKeys(g.aliases, list, key);
    assert key !in merged;
    SumOfCounts(g.requests, merged, key);
    assert Holders(n.requests, key) == SumCounts(g.requests, merged + {key});
  }

  /** Waiting survives merges in terms of credentials: after the call a request
      waits on the key of credential `a` iff before it waited on some credential
      that now has the same key. */
  lemma MergePreservesWaiting(g: Gate, list: seq<Alias>, id: RequestId, a: Alias)
    requires CanonicalKeys(g) && AliasList(list) && id in g.requests && a in g.aliases
    ensures var n := KeyFor(g, list).0;
            (Canon(n.aliases, a) in n.requests[id].waitKeys
             <==> exists b :: b in g.aliases && Canon(n.aliases, b) == Canon(n.aliases, a) && Canon(g.aliases, b) in g.requests[id].waitKeys)
  {
    var n := KeyFor(g, list).0;
    if Canon(n.aliases, a) in n.requests[id].waitKeys {
      var b := WaitSource(g, list, id, Canon(n.aliases, a));
    }
    if b :| b in g.aliases && Canon(n.aliases, b) == Canon(n.aliases, a) && Canon(g.aliases, b) in g.requests[id].waitKeys {
      WaitTarget(g, list, id, b);
    }
  }

  // A key waited on afterwards comes from one waited on before.
  lemma WaitSource(g: Gate, list: seq<Alias>, id: RequestId, k: Key) returns (b: Alias)
    requires CanonicalKeys(g) && AliasList(list) && id in g.requests && k in KeyFor(g, list).0.requests[id].waitKeys
    ensures b in g.aliases && Canon(KeyFor(g, list).0.aliases, b) == k && Canon(g.aliases, b) == b && b in g.requests[id].waitKeys
  {
    var (n, key) := KeyFor(g, list);
    var merged := OldKeys(g.aliases, list, key);
    var before := g.requests[id].waitKeys;
    MergedKeys(g.aliases, list, "");
    if k != key {
      b := k;
      KeptWaitKey(g.requests[id], merged, key, k);
      MergedKeys(g.aliases, list, b);
    } else if before * merged == {} {
      b := k;
      MergedKeys(g.aliases, list, b);
    } else {
      b :| b in before * merged;
      MergedKeys(g.aliases, list, b);
    }
  }

  lemma WaitTarget(g: Gate, list: seq<Alias>, id: RequestId, b: Alias)
    requires CanonicalKeys(g) && AliasList(list) && id in g.requests && b in g.aliases && Canon(g.aliases, b) in g.requests[id].waitKeys
    ensures var n := KeyFor(g, list).0; Canon(n.aliases, b) in n.requests[id].waitKeys
  {
    LearnKeepsIdempotent(g.aliases, list);
    MergedKeys(g.aliases, list, "");
    var key := ChosenKey(g.aliases, list);
    RedirectedWait(g.requests[id], OldKeys(g.aliases, list, key), key, Canon(g.aliases, b));
  }

  lemma RedirectedWait(r: Request, merged: set<Key>, key: Key, k: Key)
    requires k in r.waitKeys
    ensures (if k in merged then key else k) in Redirect(r, merged, key).waitKeys
  {
    assert k in merged ==> k in r.waitKeys * merged;
  }

  /** Without a merge the call only adds aliases: requests are untouched. */
  lemma NoMergeKeepsRequests(g: Gate, list: seq<Alias>)
    requires !Merges(g.aliases, list)
    ensures KeyFor(g, list).0.requests == g.requests
  {
    var key := ChosenKey(g.aliases, list);
    forall id | id in g.requests ensures Redirect(g.requests[id], {}, key) == g.requests[id] {
      assert g.requests[id].waitKeys * {} == {};
    }
  }
}
