/**
 When a pick, which judges its candidates while it still learns their aliases, keeps the
 limit and the queue: it depends on the old keys that became the chosen one.
 */
module GatePicks {
  import opened CredentialAliases
  import opened ConcurrencyGate
  import opened GateAdmission
  import opened GateCap
  import opened GateSteps
  import opened GateRuns
  import opened GateTheorems

  // ------------------------------------------------ the same request under new keys

  function NewNames(m: AliasMap, keys: set<Key>): set<Key> {
    set k | k in keys :: Canon(m, k)
  }

  // `q` is `r` after lookups, and perhaps without its slot or its place.
  predicate MovedRequest(m: AliasMap, r: Request, q: Request) {
    && (q.key == "" || q.key == Canon(m, r.key))
    && (q.sequence == 0 || (q.sequence == r.sequence && q.waitKeys == NewNames(m, r.waitKeys)))
    && q.deadline == r.deadline && q.rejected == r.rejected
  }

  ghost predicate Moved(d: Gate, n: Gate) {
    && CanonicalKeys(n) && StillShared(d.aliases, n.aliases)
    && forall x | x in n.requests :: x in d.requests && MovedRequest(n.aliases, d.requests[x], n.requests[x])
  }

  lemma MovedReflexive(d: Gate)
    requires CanonicalKeys(d)
    ensures Moved(d, d)
  {
    forall x | x in d.requests ensures MovedRequest(d.aliases, d.requests[x], d.requests[x]) {
      assert forall k | k in d.requests[x].waitKeys :: Canon(d.aliases, k) == k;
      assert NewNames(d.aliases, d.requests[x].waitKeys) == d.requests[x].waitKeys;
    }
  }

  // One lookup gives every key its new name.
  lemma LookupNames(g: Gate, list: seq<Alias>, x: RequestId)
    requires CanonicalKeys(g) && AliasList(list) && x in g.requests
    ensures var n := KeyFor(g, list).0;
            && x in n.requests
            && n.requests[x].key == Canon(n.aliases, g.requests[x].key)
            && n.requests[x].waitKeys == NewNames(n.aliases, g.requests[x].waitKeys)
  {
    KeyForRenames(g, list);
    var (n, key) := KeyFor(g, list);
    var before, after := g.requests[x].waitKeys, n.requests[x].waitKeys;
    forall k | k in after ensures k in NewNames(n.aliases, before) {
      var b := WaitSource(g, list, x, k);
      assert Canon(n.aliases, b) == k;
    }
    forall k | k in before ensures Canon(n.aliases, k) in after {
      assert Canon(g.aliases, k) == k && k != "";
      WaitTarget(g, list, x, k);
    }
    assert after == NewNames(n.aliases, before);
  }

  lemma NamesOfNames(m: AliasMap, n: AliasMap, keys: set<Key>)
    requires StillShared(m, n) && Idempotent(m) && "" !in m && "" !in n && forall k | k in keys :: k in m
    ensures NewNames(n, NewNames(m, keys)) == NewNames(n, keys)
  {
    forall k | k in keys ensures Canon(n, Canon(m, k)) == Canon(n, k) {
      SharedCanon(m, n, k);
    }
    forall x ensures x in NewNames(n, NewNames(m, keys)) <==> x in NewNames(n, keys) {
      if x in NewNames(n, keys) {
        var k :| k in keys && Canon(n, k) == x;
        assert Canon(m, k) in NewNames(m, keys);
      }
    }
  }

  lemma LookupMoves(d: Gate, n: Gate, list: seq<Alias>)
    requires CanonicalKeys(d) && Moved(d, n) && AliasList(list)
    ensures Moved(d, KeyFor(n, list).0)
  {
    var m := KeyFor(n, list).0;
    KeyForKeepsCanonical(n, list);
    KeyForRenames(n, list);
    assert m.requests.Keys == n.requests.Keys;
    forall x | x in m.requests ensures x in d.requests && MovedRequest(m.aliases, d.requests[x], m.requests[x]) {
      assert x in n.requests.Keys;
      LookupNames(n, list, x);
      RequestMoves(d, n, m, x);
    }
  }

  lemma RequestMoves(d: Gate, n: Gate, m: Gate, x: RequestId)
    requires CanonicalKeys(d) && Moved(d, n) && Renamed(n, m) && "" !in m.aliases && x in n.requests && x in m.requests
    requires m.requests[x].key == Canon(m.aliases, n.requests[x].key)
    requires m.requests[x].waitKeys == NewNames(m.aliases, n.requests[x].waitKeys)
    ensures MovedRequest(m.aliases, d.requests[x], m.requests[x])
  {
    var r := d.requests[x];
    SharedCanon(n.aliases, m.aliases, r.key);
    forall k | k in r.waitKeys ensures k in n.aliases {
      assert Canon(d.aliases, k) == k && k != "";
    }
    NamesOfNames(n.aliases, m.aliases, r.waitKeys);
  }

  lemma {:induction false} EvaluateMoves(d: Gate, n: Gate, id: RequestId, candidates: seq<Candidate>, limit: nat, now: nat)
    requires CanonicalKeys(d) && Moved(d, n) && Candidates(candidates)
    ensures Moved(d, Evaluate(n, id, candidates, limit, now).0)
    decreases |candidates|
  {
    if candidates != [] {
      LookupMoves(d, n, candidates[0].aliases);
      EvaluateMoves(d, KeyFor(n, candidates[0].aliases).0, id, candidates[1..], limit, now);
    }
  }

  // ------------------------------------------------------------ what may come between

  // Everything else that happens to a single request while a pick is open.
  lemma TouchMoves(d: Gate, n: Gate, m: Gate, x: RequestId, q: Request)
    requires Moved(d, n) && x in n.requests && m == n.(requests := n.requests[x := q])
    requires var r := n.requests[x];
             && (q.key == "" || q.key == r.key)
             && (if q.sequence == 0 then q.waitKeys <= r.waitKeys else q.sequence == r.sequence && q.waitKeys == r.waitKeys)
             && q.deadline == r.deadline && q.rejected == r.rejected
    ensures Moved(d, m)
  {
    assert forall y :: y in m.requests.Keys <==> y in n.requests.Keys;
    forall y, k | y in m.requests && k in m.requests[y].waitKeys ensures k != "" && Canon(m.aliases, k) == k {
      assert k in n.requests[y].waitKeys;
    }
  }

  lemma ReleaseMoves(d: Gate, n: Gate, x: RequestId)
    requires Moved(d, n)
    ensures Moved(d, Release(n, x))
  {
    RememberKeepsRequests(n, x);
    var m := Release(n, x);
    forall y, k | y in m.requests && k in m.requests[y].waitKeys ensures k != "" && Canon(m.aliases, k) == k {
      assert k in n.requests[y].waitKeys;
    }
  }

  // The pick stays open, and the gate is still the old one under new keys.
  lemma GapStep(limit: nat, d: Gate, s: System, step: Step)
    requires CanonicalKeys(d) && Moved(d, s.gate) && s.selecting.Some? && !step.Close?
    ensures var n := Next(limit, s, step);
            && Moved(d, n.gate) && n.selecting.Some?
            && n.selecting.value.(merged := s.selecting.value.merged) == s.selecting.value
  {
    if Allowed(s, step) {
      var g := s.gate;
      match step {
        case Finish(x) => ReleaseMoves(d, g, x);
        case StopWait(x) =>
          if EndWait(g, x) != g { TouchMoves(d, g, EndWait(g, x), x, g.requests[x].(sequence := 0, waitKeys := {})); }
        case Return(x) =>
          if FreeAttempt(g, x) != g { TouchMoves(d, g, FreeAttempt(g, x), x, Detached(g.requests[x])); }
        case Mark(x, native) =>
          if MarkNative(g, x, native) != g { TouchMoves(d, g, MarkNative(g, x, native), x, g.requests[x].(native := native)); }
        case Observe(list) => LookupMoves(d, g, list);
        case _ =>
      }
    }
  }

  // ------------------------------------------------------------------ the pick itself

  // The gate that the candidate loop starts from: the request's last attempt is over.
  function BeforePick(g: Gate, pick: Pick): Gate {
    if pick.token in g.tokens then Detach(g, g.tokens[pick.token]) else g
  }

  // A section that selects has run the candidate loop on that gate.
  lemma BeginShape(limit: nat, g: Gate, pick: Pick)
    requires BeginPick(g, pick, limit).1.Some?
    ensures pick.token in g.tokens && g.tokens[pick.token] in g.requests
    ensures var id, d, (n, selecting) := g.tokens[pick.token], BeforePick(g, pick), BeginPick(g, pick, limit);
            && n == Evaluate(d, id, pick.candidates, limit, pick.now).0
            && id in n.requests && selecting.value.id == id && selecting.value.sequence == n.requests[id].sequence
  {
  }

  lemma BeforeKeeps(limit: nat, g: Gate, pick: Pick)
    requires Sound(g, limit, {}) && pick.token in g.tokens && g.tokens[pick.token] in g.requests
    ensures var d := BeforePick(g, pick); CanonicalKeys(d) && d.requests.Keys == g.requests.Keys
  {
    var id := g.tokens[pick.token];
    if BeforePick(g, pick) != g {
      TouchSound(g, BeforePick(g, pick), id, Detached(g.requests[id]), limit, {});
    }
  }

  lemma OpenMoves(limit: nat, g: Gate, pick: Pick)
    requires Sound(g, limit, {}) && Candidates(pick.candidates) && BeginPick(g, pick, limit).1.Some?
    ensures var d, (n, selecting) := BeforePick(g, pick), BeginPick(g, pick, limit);
            && CanonicalKeys(d) && Moved(d, n) && Renamed(d, n)
            && pick.token in g.tokens && selecting.value.id == g.tokens[pick.token] && selecting.value.id in d.requests
            && d.requests[selecting.value.id].sequence == selecting.value.sequence
  {
    BeginShape(limit, g, pick);
    BeforeKeeps(limit, g, pick);
    var id, d := g.tokens[pick.token], BeforePick(g, pick);
    MovedReflexive(d);
    EvaluateMoves(d, d, id, pick.candidates, limit, pick.now);
    EvaluateRenames(d, id, pick.candidates, limit, pick.now);
    assert id in d.requests.Keys;
  }

  // The system when the pick commits, after `gap` other steps.
  ghost function Gap(limit: nat, before: seq<Step>, pick: Pick, gap: seq<Step>): System {
    Run(limit, before + [Open(pick)] + gap)
  }

  ghost predicate Picking(limit: nat, before: seq<Step>, pick: Pick, gap: seq<Step>) {
    && limit >= 1 && Run(limit, before).selecting.None?
    && Next(limit, Run(limit, before), Open(pick)).selecting.Some?
    && forall step <- gap :: !step.Close?
  }

  // The open pick of `s` began in the gate `g`.
  ghost predicate Began(g: Gate, pick: Pick, s: System) {
    && var d := BeforePick(g, pick);
       && CanonicalKeys(d) && Moved(d, s.gate) && s.selecting.Some? && pick.token in g.tokens
       && var sel := s.selecting.value;
          sel.id == g.tokens[pick.token] && sel.id in d.requests && d.requests[sel.id].sequence == sel.sequence
  }

  lemma OpenBegan(limit: nat, s: System, pick: Pick)
    requires Sound(s.gate, limit, {}) && Next(limit, s, Open(pick)).selecting.Some? && s.selecting.None?
    ensures Began(s.gate, pick, Next(limit, s, Open(pick)))
  {
    if Candidates(pick.candidates) {
      OpenMoves(limit, s.gate, pick);
    }
  }

  lemma StillBegan(limit: nat, g: Gate, pick: Pick, s: System, step: Step)
    requires Began(g, pick, s) && !step.Close?
    ensures Began(g, pick, Next(limit, s, step))
  {
    GapStep(limit, BeforePick(g, pick), s, step);
  }

  lemma GapSplits(before: seq<Step>, pick: Pick, gap: seq<Step>)
    requires gap != []
    ensures before + [Open(pick)] + gap == (before + [Open(pick)] + gap[..|gap| - 1]) + [gap[|gap| - 1]]
  {
    assert gap == gap[..|gap| - 1] + [gap[|gap| - 1]];
  }

  lemma GapUnfolds(limit: nat, before: seq<Step>, pick: Pick, gap: seq<Step>)
    ensures Gap(limit, before, pick, []) == Next(limit, Run(limit, before), Open(pick))
    ensures gap != [] ==>
              Gap(limit, before, pick, gap) == Next(limit, Gap(limit, before, pick, gap[..|gap| - 1]), gap[|gap| - 1])
  {
    assert before + [Open(pick)] + [] == before + [Open(pick)];
    RunLast(limit, before, Open(pick));
    if gap != [] {
      GapSplits(before, pick, gap);
      RunLast(limit, before + [Open(pick)] + gap[..|gap| - 1], gap[|gap| - 1]);
    }
  }

  lemma {:induction false} GapMoves(limit: nat, before: seq<Step>, pick: Pick, gap: seq<Step>)
    requires Picking(limit, before, pick, gap)
    ensures Began(Run(limit, before).gate, pick, Gap(limit, before, pick, gap))
    decreases |gap|
  {
    GapUnfolds(limit, before, pick, gap);
    if gap == [] {
      RunInv(limit, before);
      OpenBegan(limit, Run(limit, before), pick);
    } else {
      GapMoves(limit, before, pick, gap[..|gap| - 1]);
      StillBegan(limit, Run(limit, before).gate, pick, Gap(limit, before, pick, gap[..|gap| - 1]), gap[|gap| - 1]);
    }
  }

  // ------------------------------------------------------------ the exact condition

  // The old keys that are `k` now.
  function Joined(m: AliasMap, n: AliasMap, k: Key): set<Key> {
    set c | c in m && m[c] == c && Canon(n, c) == k
  }

  // Slots of the old keys that nobody has given back since.
  function StillHeld(d: Gate, n: Gate, keys: set<Key>): set<RequestId> {
    set x | x in d.requests && d.requests[x].key in keys && x in n.requests && n.requests[x].key != ""
  }

  // An earlier waiter of an old key that has not left the queue since.
  predicate StillAhead(d: Gate, n: Gate, x: RequestId, keys: set<Key>, sequence: nat, now: nat) {
    && x in d.requests && x in n.requests && n.requests[x].sequence != 0
    && (exists k :: k in keys && LiveWaiter(d.requests[x], k, now))
    && (sequence == 0 || d.requests[x].sequence < sequence)
  }

  lemma HoldersWere(d: Gate, n: Gate, k: Key)
    requires CanonicalKeys(d) && Moved(d, n) && k != ""
    ensures Holders(n.requests, k) == StillHeld(d, n, Joined(d.aliases, n.aliases, k))
  {
    forall x | x in n.requests && n.requests[x].key != ""
      ensures n.requests[x].key == k <==> d.requests[x].key in Joined(d.aliases, n.aliases, k)
    {
      assert n.requests[x].key == Canon(n.aliases, d.requests[x].key);
      assert d.requests[x].key != "" by { assert "" !in n.aliases; }
    }
  }

  lemma WaitersWere(d: Gate, n: Gate, k: Key, x: RequestId, now: nat)
    requires CanonicalKeys(d) && Moved(d, n) && k != "" && x in n.requests
    ensures LiveWaiter(n.requests[x], k, now)
            <==> n.requests[x].sequence != 0 && exists c :: c in Joined(d.aliases, n.aliases, k) && LiveWaiter(d.requests[x], c, now)
  {
    var r, q := d.requests[x], n.requests[x];
    if q.sequence != 0 {
      if k in q.waitKeys {
        var c :| c in r.waitKeys && Canon(n.aliases, c) == k;
        assert Canon(d.aliases, c) == c && c != "";
        assert c in Joined(d.aliases, n.aliases, k);
      }
      if c :| c in Joined(d.aliases, n.aliases, k) && c in r.waitKeys {
        assert Canon(n.aliases, c) == k;
      }
    }
  }

  // What the commit does: the request, which held nothing, gets one slot.
  lemma CommitGrants(limit: nat, s: System, choice: nat, at: nat) returns (k: Key)
    requires Inv(limit, s) && Allowed(s, Close(Some(choice), at)) && s.selecting.value.id in s.gate.requests
    ensures var n, id := s.gate, s.selecting.value.id;
            && k != "" && Order(n) && n.requests[id].key == "" && n.requests[id].sequence == s.selecting.value.sequence
            && Next(limit, s, Close(Some(choice), at)).gate == n.(requests := n.requests[id := n.requests[id].(key := k)])
  {
    var c := s.selecting.value.attempt[choice];
    LearnedIsNoop(s.gate, c.aliases);
    KeyForKeepsCanonical(s.gate, c.aliases);
    k := KeyFor(s.gate, c.aliases).1;
  }

  lemma FifoAtCommit(d: Gate, n: Gate, m: Gate, id: RequestId, k: Key, at: nat)
    requires CanonicalKeys(d) && Moved(d, n) && Order(n) && k != "" && id in n.requests
    requires m == n.(requests := n.requests[id := n.requests[id].(key := k)])
    requires d.requests[id].sequence == n.requests[id].sequence
    ensures FirstInLine(n, m, id, k, at)
            <==> NobodyAhead(d, n, id, Joined(d.aliases, n.aliases, k), n.requests[id].sequence, at)
  {
    assert m.requests.Keys == n.requests.Keys;
    forall x | x in n.requests && x != id
      ensures LiveWaiter(m.requests[x], k, at) && !(0 < n.requests[id].sequence < m.requests[x].sequence)
              <==> StillAhead(d, n, x, Joined(d.aliases, n.aliases, k), n.requests[id].sequence, at)
    {
      assert m.requests[x] == n.requests[x];
      WaitersWere(d, n, k, x, at);
    }
    forall x | x in m.requests ensures x in n.requests {
      assert x in n.requests.Keys;
    }
  }

  // Nobody is overtaken: no waiter of these old keys is still ahead.
  ghost predicate NobodyAhead(d: Gate, n: Gate, id: RequestId, keys: set<Key>, sequence: nat, now: nat) {
    forall x | x in d.requests && x != id :: !StillAhead(d, n, x, keys, sequence, now)
  }

  lemma CommitIff(limit: nat, g: Gate, pick: Pick, s: System, choice: nat, at: nat)
    requires Inv(limit, s) && Began(g, pick, s)
    requires Allowed(s, Close(Some(choice), at)) && s.selecting.value.id in s.gate.requests
    ensures var d, sel, m := BeforePick(g, pick), s.selecting.value, Next(limit, s, Close(Some(choice), at)).gate;
            && sel.id in m.requests && m.requests[sel.id].key != ""
            && var k := m.requests[sel.id].key;
               var joined := Joined(d.aliases, s.gate.aliases, k);
               && (Count(m.requests, k) <= limit <==> |StillHeld(d, s.gate, joined)| < limit)
               && (FirstInLine(s.gate, m, sel.id, k, at) <==> NobodyAhead(d, s.gate, sel.id, joined, sel.sequence, at))
  {
    var d, sel := BeforePick(g, pick), s.selecting.value;
    var k := CommitGrants(limit, s, choice, at);
    HoldersWere(d, s.gate, k);
    SlotTaken(s.gate.requests, sel.id, k);
    FifoAtCommit(d, s.gate, Next(limit, s, Close(Some(choice), at)).gate, sel.id, k, at);
  }

  /** The slot cap, exactly. Taking its slot, a pick keeps the credential within the
      limit iff the old keys that its lookups (and status reads meanwhile) joined into
      that credential had, together, fewer than `limit` slots that are still held. */
  lemma PickKeepsCapIff(limit: nat, before: seq<Step>, pick: Pick, gap: seq<Step>, choice: nat, at: nat)
    requires Picking(limit, before, pick, gap) && Allowed(Gap(limit, before, pick, gap), Close(Some(choice), at))
    requires Gap(limit, before, pick, gap).selecting.value.id in Gap(limit, before, pick, gap).gate.requests
    ensures var d, s := BeforePick(Run(limit, before).gate, pick), Gap(limit, before, pick, gap);
            var id, m := s.selecting.value.id, Next(limit, s, Close(Some(choice), at)).gate;
            && id in m.requests && m.requests[id].key != ""
            && var k := m.requests[id].key;
               (Count(m.requests, k) <= limit <==> |StillHeld(d, s.gate, Joined(d.aliases, s.gate.aliases, k))| < limit)
  {
    GapMoves(limit, before, pick, gap);
    RunInv(limit, before + [Open(pick)] + gap);
    CommitIff(limit, Run(limit, before).gate, pick, Gap(limit, before, pick, gap), choice, at);
  }

  /** Queue order, exactly. The slot overtakes nobody iff none of those old keys had a
      live waiter with an earlier place who is still waiting. */
  lemma PickIsFifoIff(limit: nat, before: seq<Step>, pick: Pick, gap: seq<Step>, choice: nat, at: nat)
    requires Picking(limit, before, pick, gap) && Allowed(Gap(limit, before, pick, gap), Close(Some(choice), at))
    requires Gap(limit, before, pick, gap).selecting.value.id in Gap(limit, before, pick, gap).gate.requests
    ensures var d, s := BeforePick(Run(limit, before).gate, pick), Gap(limit, before, pick, gap);
            var sel, m := s.selecting.value, Next(limit, s, Close(Some(choice), at)).gate;
            && sel.id in m.requests && m.requests[sel.id].key != ""
            && var k := m.requests[sel.id].key;
               (FirstInLine(s.gate, m, sel.id, k, at)
                <==> NobodyAhead(d, s.gate, sel.id, Joined(d.aliases, s.gate.aliases, k), sel.sequence, at))
  {
    GapMoves(limit, before, pick, gap);
    RunInv(limit, before + [Open(pick)] + gap);
    CommitIff(limit, Run(limit, before).gate, pick, Gap(limit, before, pick, gap), choice, at);
  }

  /** When nothing comes in between, both conditions can be read off before the pick:
      the joined keys' slots, all together, and their live waiters. */
  lemma UninterruptedPick(limit: nat, before: seq<Step>, pick: Pick, choice: nat, at: nat)
    requires Picking(limit, before, pick, []) && Allowed(Gap(limit, before, pick, []), Close(Some(choice), at))
    ensures var d, s := BeforePick(Run(limit, before).gate, pick), Gap(limit, before, pick, []);
            var id, m := s.selecting.value.id, Next(limit, s, Close(Some(choice), at)).gate;
            && id in d.requests && id in m.requests && m.requests[id].key != ""
            && var k := m.requests[id].key;
               var joined := Joined(d.aliases, s.gate.aliases, k);
               && (Count(m.requests, k) <= limit <==> |SumCounts(d.requests, joined)| < limit)
               && (FirstInLine(s.gate, m, id, k, at)
                   <==> forall x, c | x in d.requests && x != id && c in joined && LiveWaiter(d.requests[x], c, at) ::
                          0 < d.requests[id].sequence < d.requests[x].sequence)
  {
    var g := Run(limit, before).gate;
    var d, s := BeforePick(g, pick), Gap(limit, before, pick, []);
    GapMoves(limit, before, pick, []);
    RunInv(limit, before);
    RunInv(limit, before + [Open(pick)] + []);
    GapUnfolds(limit, before, pick, []);
    OpenRenames(limit, Run(limit, before), pick);
    CommitIff(limit, g, pick, s, choice, at);
    SameHeld(d, s.gate, Joined(d.aliases, s.gate.aliases, KeyOf(Next(limit, s, Close(Some(choice), at)).gate, s.selecting.value.id)),
             s.selecting.value.id, at);
  }

  function KeyOf(g: Gate, id: RequestId): Key {
    if id in g.requests then g.requests[id].key else ""
  }

  lemma OpenRenames(limit: nat, s: System, pick: Pick)
    requires Sound(s.gate, limit, {}) && Next(limit, s, Open(pick)).selecting.Some? && s.selecting.None?
    ensures Renamed(BeforePick(s.gate, pick), Next(limit, s, Open(pick)).gate)
  {
    if Candidates(pick.candidates) {
      OpenMoves(limit, s.gate, pick);
    }
  }

  lemma SameHeld(d: Gate, n: Gate, keys: set<Key>, id: RequestId, now: nat)
    requires CanonicalKeys(d) && CanonicalKeys(n) && Renamed(d, n) && id in d.requests && "" !in keys
    requires forall k | k in keys :: k in d.aliases && d.aliases[k] == k
    requires Order(n)
    ensures StillHeld(d, n, keys) == SumCounts(d.requests, keys)
    ensures NobodyAhead(d, n, id, keys, n.requests[id].sequence, now)
            <==> forall x, c | x in d.requests && x != id && c in keys && LiveWaiter(d.requests[x], c, now) ::
                   0 < d.requests[id].sequence < d.requests[x].sequence
  {
    assert forall x :: x in n.requests.Keys <==> x in d.requests.Keys;
    forall x | x in d.requests && d.requests[x].key in keys ensures x in n.requests && n.requests[x].key != "" {
      assert n.requests[x].key == Canon(n.aliases, d.requests[x].key);
    }
    forall x | x in d.requests && x != id
      ensures StillAhead(d, n, x, keys, n.requests[id].sequence, now)
              <==> exists c :: c in keys && LiveWaiter(d.requests[x], c, now) && !(0 < d.requests[id].sequence < d.requests[x].sequence)
    {
      assert n.requests[x].sequence == d.requests[x].sequence && n.requests[id].sequence == d.requests[id].sequence;
    }
  }
}
