/**
 The mutable gate (accountConcurrencyGate in concurrency.go): its fields, and its
 methods with their loops, each proved to do exactly what the state functions say.
 */
module GateObject {
  import opened CredentialAliases
  import opened ConcurrencyGate
  import opened GateAdmission
  import Text

  class AccountConcurrencyGate {
    var requests: Requests
    var tokens: map<Token, RequestId>
    var completed: set<RequestId>
    var completedIDs: seq<RequestId>
    var completedNext: nat
    var aliases: AliasMap
    var lastSequence: nat
    var supported: bool
    ghost var founded: set<Key>

    ghost function View(): Gate
      reads this
    {
      Gate(requests, tokens, completed, completedIDs, completedNext, aliases, lastSequence, supported, founded)
    }

    constructor ()
      ensures View() == EMPTY
    {
      requests, tokens, aliases := map[], map[], map[];
      completed, completedIDs, completedNext := {}, [], 0;
      lastSequence, supported, founded := 0, false, {};
    }

    // Requests that never got a slot expire, with their tokens.
    method PruneStale(now: nat)
      modifies this`requests, this`tokens
      ensures requests == Unstale(old(requests), now) && tokens == UnstaleTokens(old(View()), now)
    {
      ghost var start := requests;
      var left := requests.Keys;
      while left != {}
        invariant left <= start.Keys
        invariant requests == map x | x in start && (x in left || !Stale(start[x], now)) :: start[x]
        invariant tokens == old(tokens) - set x | x in start && x !in left && Stale(start[x], now) :: start[x].token
        decreases left
      {
        var x :| x in left;
        if Stale(requests[x], now) {
          tokens := tokens - {requests[x].token};
          requests := requests - {x};
        }
        left := left - {x};
      }
      assert requests == Unstale(start, now);
      assert tokens == UnstaleTokens(old(View()), now);
    }

    // `issued` is the fresh random token.
    method Register(id: RequestId, now: nat, issued: Token) returns (token: Token)
      modifies this
      ensures (View(), token) == ConcurrencyGate.Register(old(View()), id, now, issued)
    {
      if !UsableId(id) || id in completed {
        return "";
      }
      supported := true;
      if id in requests {
        return requests[id].token;
      }
      PruneStale(now);
      if |requests| >= REGISTRATION_LIMIT {
        return "";
      }
      requests := requests[id := NewRequest(issued, now)];
      tokens := tokens[issued := id];
      return issued;
    }

    method RememberCompleted(id: RequestId)
      modifies this
      ensures View() == Remember(old(View()), id)
    {
      if !UsableId(id) || id in completed {
        return;
      }
      if |completedIDs| < REGISTRATION_LIMIT {
        completed, completedIDs := completed + {id}, completedIDs + [id];
        return;
      }
      if completedNext < |completedIDs| {
        completed := completed + {id} - {completedIDs[completedNext]};
        completedIDs := completedIDs[completedNext := id];
        completedNext := (completedNext + 1) % REGISTRATION_LIMIT;
      }
    }

    method Release(id: RequestId) returns (released: Option<Request>)
      modifies this
      ensures View() == ConcurrencyGate.Release(old(View()), id)
      ensures released == if id in old(requests) then Some(old(requests)[id]) else None
    {
      RememberCompleted(id);
      if id in requests {
        released := Some(requests[id]);
        tokens := tokens - {requests[id].token};
        requests := requests - {id};
      } else {
        released := None;
      }
    }

    // The smallest known key among the aliases, else the first alias.
    method PickKey(list: seq<Alias>) returns (key: Key)
      ensures key == ChosenKey(aliases, list)
    {
      key := "";
      for i := 0 to |list|
        invariant BestKey(aliases, list, "") == BestKey(aliases, list[i..], key)
      {
        var existing := Canon(aliases, list[i]);
        assert list[i..][1..] == list[i + 1..];
        if existing != "" && (key == "" || Text.Less(existing, key)) {
          key := existing;
        }
      }
      if key == "" && |list| > 0 {
        key := list[0];
      }
    }

    method OtherKeys(list: seq<Alias>, key: Key) returns (merged: set<Key>)
      ensures merged == OldKeys(aliases, list, key)
    {
      merged := {};
      for i := 0 to |list|
        invariant merged == OldKeys(aliases, list[..i], key)
      {
        assert list[..i + 1] == list[..i] + [list[i]];
        var existing := Canon(aliases, list[i]);
        if existing != "" && existing != key {
          merged := merged + {existing};
        }
      }
      assert list[..|list|] == list;
    }

    method RedirectAliases(merged: set<Key>, key: Key)
      modifies this`aliases
      ensures aliases == map a | a in old(aliases) :: if old(aliases)[a] in merged then key else old(aliases)[a]
    {
      ghost var start := aliases;
      var left := aliases.Keys;
      while left != {}
        invariant left <= start.Keys && aliases == RedirectedBut(start, left, merged, key)
        decreases left
      {
        var a :| a in left;
        RedirectOne(start, left, a, merged, key);
        if aliases[a] in merged {
          aliases := aliases[a := key];
        }
        left := left - {a};
      }
    }

    // The aliases with all but `left` redirected.
    static ghost function RedirectedBut(m: AliasMap, left: set<Alias>, merged: set<Key>, key: Key): AliasMap {
      map a | a in m :: if a !in left && m[a] in merged then key else m[a]
    }

    static lemma RedirectOne(m: AliasMap, left: set<Alias>, a: Alias, merged: set<Key>, key: Key)
      requires a in left && left <= m.Keys
      ensures RedirectedBut(m, left, merged, key)[a] == m[a]
      ensures RedirectedBut(m, left - {a}, merged, key)
           == if m[a] in merged then RedirectedBut(m, left, merged, key)[a := key] else RedirectedBut(m, left, merged, key)
    {
    }

    static method RedirectRequest(r: Request, merged: set<Key>, key: Key) returns (q: Request)
      requires key !in merged
      ensures q == Redirect(r, merged, key)
    {
      q := r;
      var left := merged;
      while left != {}
        invariant left <= merged
        invariant q.waitKeys == if r.waitKeys * (merged - left) != {} then r.waitKeys - (merged - left) + {key} else r.waitKeys
        invariant q == r.(waitKeys := q.waitKeys)
        decreases left
      {
        var k :| k in left;
        assert merged - (left - {k}) == (merged - left) + {k};
        assert r.waitKeys * ((merged - left) + {k}) == r.waitKeys * (merged - left) + r.waitKeys * {k};
        if k in q.waitKeys {
          assert k in r.waitKeys * {k};
          q := q.(waitKeys := q.waitKeys - {k} + {key});
        }
        left := left - {k};
      }
      assert merged - left == merged;
      if q.key in merged {
        q := q.(key := key);
      }
    }

    method RedirectRequests(merged: set<Key>, key: Key)
      requires key !in merged
      modifies this`requests
      ensures requests == Redirected(old(requests), merged, key)
    {
      ghost var start := requests;
      var left := requests.Keys;
      while left != {}
        invariant left <= start.Keys
        invariant requests == map x | x in start :: if x in left then start[x] else Redirect(start[x], merged, key)
        decreases left
      {
        var x :| x in left;
        var q := RedirectRequest(requests[x], merged, key);
        requests := requests[x := q];
        left := left - {x};
      }
    }

    method KeyFor(list: seq<Alias>) returns (key: Key)
      modifies this
      ensures (View(), key) == ConcurrencyGate.KeyFor(old(View()), list)
    {
      key := PickKey(list);
      if key == "" {
        return;
      }
      var merged := OtherKeys(list, key);
      ghost var start := aliases;
      MergeKeys(merged, key);
      ghost var redirected := aliases;
      AssignAliases(list, key);
      founded := founded + {key};
      LearnInSteps(start, list, redirected, aliases);
    }

    method MergeKeys(merged: set<Key>, key: Key)
      requires key !in merged
      modifies this`aliases, this`requests
      ensures aliases == map a | a in old(aliases) :: if old(aliases)[a] in merged then key else old(aliases)[a]
      ensures requests == Redirected(old(requests), merged, key)
    {
      if merged != {} {
        RedirectAliases(merged, key);
        RedirectRequests(merged, key);
      } else {
        UnmergedRequests(requests, key);
      }
    }

    static lemma LearnInSteps(m: AliasMap, list: seq<Alias>, r: AliasMap, n: AliasMap)
      requires ChosenKey(m, list) != ""
      requires r == map a | a in m :: if m[a] in OldKeys(m, list, ChosenKey(m, list)) then ChosenKey(m, list) else m[a]
      requires n == map a | a in r.Keys + (set b | b in list) :: if a in list then ChosenKey(m, list) else r[a]
      ensures n == Learn(m, list)
    {
      assert r.Keys == m.Keys;
    }

    method AssignAliases(list: seq<Alias>, key: Key)
      modifies this`aliases
      ensures aliases == map a | a in old(aliases).Keys + (set b | b in list) :: if a in list then key else old(aliases)[a]
    {
      for i := 0 to |list|
        invariant aliases == map a | a in old(aliases).Keys + (set b | b in list[..i]) :: if a in list[..i] then key else old(aliases)[a]
      {
        assert list[..i + 1] == list[..i] + [list[i]];
        aliases := aliases[list[i] := key];
      }
      assert list[..|list|] == list;
    }

    static lemma UnmergedRequests(requests: Requests, key: Key)
      ensures Redirected(requests, {}, key) == requests
    {
      forall x | x in requests ensures Redirect(requests[x], {}, key) == requests[x] {
        assert requests[x].waitKeys * {} == {};
      }
    }

    method Count(key: Key) returns (active: nat)
      ensures active == ConcurrencyGate.Count(requests, key)
    {
      active := 0;
      if key == "" {
        return;
      }
      var left := requests.Keys;
      ghost var counted: set<RequestId> := {};
      while left != {}
        invariant left <= requests.Keys
        invariant counted == set x | x in requests && x !in left && requests[x].key == key
        invariant active == |counted|
        decreases left
      {
        var x :| x in left;
        if requests[x].key == key {
          counted := counted + {x};
          active := active + 1;
        }
        left := left - {x};
      }
      assert counted == Holders(requests, key);
    }

    // `id` is the asking request, "" for none.
    method Blocked(key: Key, id: RequestId, limit: nat, now: nat) returns (blocked: bool)
      ensures blocked == ConcurrencyGate.Blocked(requests, key, id, limit, now)
    {
      var active := Count(key);
      if active >= limit {
        return true;
      }
      var sequence := SequenceOf(requests, id);
      var left := requests.Keys;
      while left != {}
        invariant left <= requests.Keys
        invariant forall x | x in requests && x !in left && x != id && LiveWaiter(requests[x], key, now) ::
          sequence != 0 && requests[x].sequence >= sequence
        decreases left
      {
        var x :| x in left;
        left := left - {x};
        if x != id && LiveWaiter(requests[x], key, now) && (sequence == 0 || requests[x].sequence < sequence) {
          return true;
        }
      }
      return false;
    }

    method EndWait(id: RequestId)
      modifies this
      ensures View() == ConcurrencyGate.EndWait(old(View()), id)
    {
      if id in requests && requests[id].sequence != 0 {
        requests := requests[id := requests[id].(sequence := 0, waitKeys := {})];
      }
    }

    method Reject(id: RequestId)
      modifies this
      ensures View() == ConcurrencyGate.Reject(old(View()), id)
    {
      if id in requests {
        requests := requests[id := requests[id].(rejected := true)];
      }
    }

    // Wait behind `keys` until `due`; too late is rejected at once.
    method Enqueue(id: RequestId, keys: set<Key>, deadline: nat, now: nat)
      requires id in requests
      modifies this
      ensures View() == Queue(old(View()), id, keys, deadline, now)
    {
      var r := requests[id];
      var due := DeadlineOf(r, deadline);
      if r.deadline == 0 {
        r := r.(deadline := deadline);
      }
      if r.sequence == 0 {
        lastSequence := lastSequence + 1;
        r := r.(sequence := lastSequence);
      }
      r := r.(waitKeys := keys);
      if now >= due {
        r := r.(rejected := true);
      }
      requests := requests[id := r];
    }

    // The candidate loop of a pick.
    method Judge(id: RequestId, candidates: seq<Candidate>, limit: nat, now: nat) returns (busy: seq<bool>)
      modifies this
      ensures (View(), busy) == Evaluate(old(View()), id, candidates, limit, now)
    {
      busy := [];
      ghost var goal := Evaluate(View(), id, candidates, limit, now);
      for i := 0 to |candidates|
        invariant |busy| == i
        invariant goal.0 == Evaluate(View(), id, candidates[i..], limit, now).0
        invariant goal.1 == busy + Evaluate(View(), id, candidates[i..], limit, now).1
      {
        ghost var before := View();
        var b := JudgeOne(id, candidates[i].aliases, limit, now);
        JudgeStep(before, View(), id, candidates, i, limit, now, busy, b);
        busy := busy + [b];
      }
      assert candidates[|candidates|..] == [];
      assert Evaluate(View(), id, [], limit, now) == (View(), []);
      assert busy + [] == busy;
    }

    static lemma JudgeStep(g: Gate, n: Gate, id: RequestId, candidates: seq<Candidate>, i: nat, limit: nat, now: nat,
                           busy: seq<bool>, b: bool)
      requires i < |candidates| && n == ConcurrencyGate.KeyFor(g, candidates[i].aliases).0
      requires b == ConcurrencyGate.Blocked(n.requests, ConcurrencyGate.KeyFor(g, candidates[i].aliases).1, id, limit, now)
      ensures Evaluate(g, id, candidates[i..], limit, now).0 == Evaluate(n, id, candidates[i + 1..], limit, now).0
      ensures busy + Evaluate(g, id, candidates[i..], limit, now).1
           == (busy + [b]) + Evaluate(n, id, candidates[i + 1..], limit, now).1
    {
      assert candidates[i..][0] == candidates[i] && candidates[i..][1..] == candidates[i + 1..];
      EvaluateUnfolds(g, id, candidates[i..], limit, now);
      OneFlagMore(busy, b, Evaluate(n, id, candidates[i + 1..], limit, now).1);
    }

    static lemma OneFlagMore(busy: seq<bool>, b: bool, rest: seq<bool>)
      ensures busy + ([b] + rest) == (busy + [b]) + rest
    {
    }

    method JudgeOne(id: RequestId, list: seq<Alias>, limit: nat, now: nat) returns (busy: bool)
      modifies this
      ensures View() == ConcurrencyGate.KeyFor(old(View()), list).0
      ensures busy == ConcurrencyGate.Blocked(View().requests, ConcurrencyGate.KeyFor(old(View()), list).1, id, limit, now)
    {
      var key := KeyFor(list);
      busy := Blocked(key, id, limit, now);
    }

    method CollectWaitKeys(candidates: seq<Candidate>, preferred: string) returns (keys: set<Key>)
      modifies this
      ensures (View(), keys) == WaitKeys(old(View()), candidates, preferred, {})
    {
      keys := {};
      for i := 0 to |candidates|
        invariant WaitKeys(old(View()), candidates, preferred, {}) == WaitKeys(View(), candidates[i..], preferred, keys)
      {
        assert candidates[i..][0] == candidates[i] && candidates[i..][1..] == candidates[i + 1..];
        if Waitable(candidates[i], preferred) {
          var key := KeyFor(candidates[i].aliases);
          keys := keys + {key};
        }
      }
    }

    // The first section of a pick: what may be selected, if anything.
    method OpenPick(pick: Pick, limit: nat) returns (attempt: Option<seq<Candidate>>)
      modifies this
      ensures var (n, selecting) := BeginPick(old(View()), pick, limit);
              View() == n && attempt == if selecting.Some? then Some(selecting.value.attempt) else None
    {
      if pick.token !in tokens || tokens[pick.token] !in requests {
        if !supported {
          var busy := Judge("", pick.candidates, limit, pick.now);
        }
        return None;
      }
      var id := tokens[pick.token];
      if requests[id].rejected {
        return None;
      }
      if Expired(requests[id], pick.deadline, pick.now) {
        Reject(id);
        return None;
      }
      if requests[id].key != "" {
        requests := requests[id := Detached(requests[id])];
      }
      assert View() == Detach(old(View()), id);
      var busy := Judge(id, pick.candidates, limit, pick.now);
      if id !in requests {
        return None;
      }
      if MustWait(pick.candidates, busy, pick.preferred) {
        var keys := CollectWaitKeys(pick.candidates, pick.preferred);
        if id in requests {
          Enqueue(id, keys, pick.deadline, pick.later);
        }
        return None;
      }
      return Some(Free(pick.candidates, busy));
    }

    // The second section: the choice takes the slot if the request is still there.
    method ClosePick(selection: Selection, choice: Option<nat>)
      requires choice.Some? ==> choice.value < |selection.attempt|
      modifies this
      ensures View() == CommitPick(old(View()), selection, choice)
    {
      if choice.Some? && selection.id in requests {
        var key := KeyFor(selection.attempt[choice.value].aliases);
        if selection.id in requests {
          requests := requests[selection.id := requests[selection.id].(key := key)];
        }
      }
    }

    method BeginWarmup(id: RequestId, list: seq<Alias>, now: nat) returns (ok: bool)
      modifies this
      ensures (View(), ok) == GateAdmission.BeginWarmup(old(View()), id, list, now)
    {
      var key := KeyFor(list);
      var busy := Blocked(key, "", 1, now);
      if busy {
        return false;
      }
      requests := requests[id := NewWarmup(key, now)];
      return true;
    }

    method AdmitNative(a: Arrival, limit: nat) returns (holds: bool)
      requires a.selected.Some? && a.id in requests
      modifies this
      ensures (View(), holds) == NativeAdmit(old(View()), a, limit)
    {
      var key := KeyFor(a.selected.value);
      if a.id !in requests {
        return false;
      }
      if requests[a.id].key != key {
        requests := requests[a.id := requests[a.id].(key := "")];
        var busy := Blocked(key, a.id, limit, a.now);
        if busy {
          Enqueue(a.id, {key}, a.deadline, a.now);
          return false;
        }
      } else {
        assert requests[a.id := requests[a.id].(key := key)] == requests;
      }
      requests := requests[a.id := requests[a.id].(key := key)];
      return true;
    }

    method ConfirmSlot(a: Arrival)
      modifies this
      ensures View() == Dispatch(old(View()), a)
    {
      if a.id !in requests {
        return;
      }
      if requests[a.id].key == "" {
        Reject(a.id);
        return;
      }
      if a.selected.Some? {
        var key := KeyFor(a.selected.value);
        if a.id !in requests {
          return;
        }
        if requests[a.id].key != key {
          Reject(a.id);
          return;
        }
      }
      if a.admitted {
        requests := requests[a.id := requests[a.id].(dispatched := true)];
      }
    }

    // One round of the after-selection callback.
    method After(a: Arrival, limit: nat)
      modifies this
      ensures View() == GateAdmission.After(old(View()), a, limit)
    {
      if a.first && a.codex && a.id !in requests && a.selected.Some? {
        var token := Register(a.id, a.now, a.issued);
      }
      if !a.codex {
        if a.id in requests && requests[a.id].key != "" {
          requests := requests[a.id := Detached(requests[a.id])];
        }
        return;
      }
      if a.id !in requests || requests[a.id].rejected {
        return;
      }
      if Expired(requests[a.id], a.deadline, a.now) {
        Reject(a.id);
        return;
      }
      if a.selected.Some? {
        if requests[a.id].key == "" {
          requests := requests[a.id := requests[a.id].(native := true)];
        }
        if requests[a.id].native {
          var holds := AdmitNative(a, limit);
          if !holds {
            return;
          }
        }
      }
      ConfirmSlot(a);
    }

    method ReleaseRejected(id: RequestId)
      modifies this
      ensures View() == FreeAttempt(old(View()), id)
    {
      if id in requests && requests[id].dispatched {
        requests := requests[id := Detached(requests[id])];
      }
    }
  }
}
