/**
 A pick that breaks the slot cap and the queue. Its first candidate is new to the
 gate and so free; the second shares the first one's auth_index and turns out to be
 a credential that is full. The pick then admits to the first candidate, which has
 become the full credential. Shown for every gate and such a pick, and on a run
 from the empty gate.

 The auth_index is what the two have in common: the scheduler knows a candidate by the
 credential it is canonically, by its own identifier, and by its index if it has one.
 A credential that was first seen without its index has a key of its own until a
 candidate list gives both.
 */
module GateOvertaking {
  import opened CredentialAliases
  import opened ConcurrencyGate
  import opened GateAdmission
  import opened GateCap
  import opened GateSteps
  import opened GateRuns
  import opened GateTheorems

  // What the scheduler knows a candidate by; an empty index is left out.
  function AliasesOf(id: string, canonical: string, index: string): seq<Alias> {
    ["auth:" + canonical]
    + (if id != "" && id != canonical then ["auth:" + id] else [])
    + (if index != "" then ["index:" + index] else [])
  }

  // `y` may choose between `b`, unknown so far, and `a`; both give the index `i`.
  predicate JoiningPick(g: Gate, pick: Pick, y: RequestId, a: Alias, b: Alias, i: Alias) {
    && pick.token in g.tokens && g.tokens[pick.token] == y && y in g.requests
    && g.requests[y].key == "" && g.requests[y].sequence == 0 && !g.requests[y].rejected
    && Strangers(g, a, b, i)
    && |pick.candidates| == 2
    && pick.candidates[0].aliases == [b, i] && pick.candidates[0].eligible
    && pick.candidates[1].aliases == [a, i]
    && pick.preferred !in {pick.candidates[0].id, pick.candidates[1].id}
  }

  // `a` is a key in use, `b` and `i` have never been heard of.
  predicate Strangers(g: Gate, a: Alias, b: Alias, i: Alias) {
    && a in g.aliases && g.aliases[a] == a
    && b !in g.aliases && i !in g.aliases && b != "" && i != "" && b != i
  }

  /** With `a` full, such a pick gets a slot beyond the limit, past everybody who waits. */
  lemma MergeDuringPickOvertakes(g: Gate, limit: nat, pick: Pick, y: RequestId, a: Alias, b: Alias, i: Alias)
    requires limit >= 1 && Sound(g, limit, {}) && JoiningPick(g, pick, y, a, b, i)
    requires Count(g.requests, a) == limit
    ensures var (n, selecting) := BeginPick(g, pick, limit);
            && selecting.Some? && selecting.value.merged && selecting.value.id == y && selecting.value.attempt == [pick.candidates[0]]
            && selecting.value.now == pick.now
            && var m := CommitPick(n, selecting.value, Some(0));
               var k := Canon(m.aliases, a);
               && k != "" && y in m.requests && m.requests[y].key == k && Count(m.requests, k) == limit + 1
               && forall w | w in g.requests && w != y && LiveWaiter(g.requests[w], a, pick.now) ::
                    w in m.requests && LiveWaiter(m.requests[w], k, pick.now) && !FirstInLine(n, m, y, k, pick.now)
  {
    var n := JoiningOutcome(g, limit, pick, y, a, b, i);
    JoiningLookups(g, KeyFor(g, [b, i]).0, n, limit, pick.now, y, a, b, i);
    assert y in n.requests.Keys;
    var selecting := BeginPick(g, pick, limit).1;
    CommitJoined(n, selecting.value, limit, y, [b, i]);
    var m := CommitPick(n, selecting.value, Some(0));
    forall w | w in g.requests && w != y && LiveWaiter(g.requests[w], a, pick.now)
      ensures w in m.requests && LiveWaiter(m.requests[w], Canon(m.aliases, a), pick.now)
      ensures !FirstInLine(n, m, y, Canon(m.aliases, a), pick.now)
    {
      assert w in n.requests.Keys && w in m.requests.Keys;
    }
  }

  lemma JoiningOutcome(g: Gate, limit: nat, pick: Pick, y: RequestId, a: Alias, b: Alias, i: Alias) returns (n: Gate)
    requires limit >= 1 && Sound(g, limit, {}) && JoiningPick(g, pick, y, a, b, i) && Count(g.requests, a) == limit
    ensures BeginPick(g, pick, limit) == (n, Some(Selection(y, 0, pick.now, [pick.candidates[0]], true)))
    ensures n == KeyFor(KeyFor(g, [b, i]).0, [a, i]).0
  {
    var g1 := KeyFor(g, [b, i]).0;
    n := KeyFor(g1, [a, i]).0;
    JoiningLookups(g, g1, n, limit, pick.now, y, a, b, i);
    JoiningLoop(g, g1, n, limit, pick, y, a, b, i);
    assert y in n.requests.Keys && n.requests[y].sequence == 0;
    JoiningSelection(g, n, limit, pick, y);
  }

  lemma JoiningLookups(g: Gate, g1: Gate, g2: Gate, limit: nat, now: nat, y: RequestId, a: Alias, b: Alias, i: Alias)
    requires limit >= 1 && Sound(g, limit, {}) && Strangers(g, a, b, i) && Count(g.requests, a) == limit
    requires g1 == KeyFor(g, [b, i]).0 && g2 == KeyFor(g1, [a, i]).0
    ensures Sound(g2, limit, {}) && Learned(g2.aliases, [b, i]) && Canon(g2.aliases, a) == Canon(g2.aliases, b)
    ensures Count(g2.requests, Canon(g2.aliases, b)) == limit
    ensures !Blocked(g1.requests, KeyFor(g, [b, i]).1, y, limit, now) && Blocked(g2.requests, KeyFor(g1, [a, i]).1, y, limit, now)
    ensures Merges(g1.aliases, [a, i])
    ensures g2.requests.Keys == g.requests.Keys
    ensures forall x | x in g.requests :: g2.requests[x].sequence == g.requests[x].sequence && (g.requests[x].key == "" ==> g2.requests[x].key == "")
    ensures forall w | w in g.requests && LiveWaiter(g.requests[w], a, now) :: LiveWaiter(g2.requests[w], Canon(g2.aliases, a), now)
  {
    LookupUnknown(g, limit, y, b, i, now);
    LookupJoining(g1, limit, a, i, b);
    LearnedStays(g1.aliases, g2.aliases, [b, i]);
    assert g2.requests.Keys == g1.requests.Keys;
    assert [b, i][0] in [b, i] && [b, i][1] in [b, i];
    forall w | w in g.requests && LiveWaiter(g.requests[w], a, now)
      ensures LiveWaiter(g2.requests[w], Canon(g2.aliases, a), now)
    {
      WaitTarget(g1, [a, i], w, a);
    }
  }

  lemma LookupUnknown(g: Gate, limit: nat, y: RequestId, b: Alias, i: Alias, now: nat)
    requires limit >= 1 && Sound(g, limit, {}) && b !in g.aliases && i !in g.aliases && b != "" && i != ""
    ensures var (n, key) := KeyFor(g, [b, i]);
            && key == b && n.requests == g.requests && Sound(n, limit, {}) && Learned(n.aliases, [b, i])
            && Canon(n.aliases, b) == b && Canon(n.aliases, i) == b
            && (forall x | x in g.aliases :: Canon(n.aliases, x) == Canon(g.aliases, x))
            && !Blocked(n.requests, key, y, limit, now)
            && Count(n.requests, b) == 0
  {
    var list := [b, i];
    KeyForKeeps(g, list, limit, {});
    KeyForRenames(g, list);
    ChosenKeyCases(g.aliases, list);
    var (n, key) := KeyFor(g, list);
    assert list[0] in list && list[1] in list;
    assert forall x <- list :: Canon(g.aliases, x) == "";
    assert OldKeys(g.aliases, list, key) == {};
    NoMergeKeepsRequests(g, list);
    forall x | x in g.aliases ensures Canon(n.aliases, x) == Canon(g.aliases, x) {
      NoMergeKeepsKeys(g, list, x);
    }
    UnknownIsUnused(g, b, y, limit, now);
  }

  lemma UnknownIsUnused(g: Gate, b: Alias, y: RequestId, limit: nat, now: nat)
    requires CanonicalKeys(g) && b !in g.aliases && b != "" && limit >= 1
    ensures Count(g.requests, b) == 0 && !Blocked(g.requests, b, y, limit, now)
  {
    forall x | x in g.requests ensures g.requests[x].key != b && b !in g.requests[x].waitKeys {
      CanonicalIsFixed(g, x);
    }
    assert Holders(g.requests, b) == {};
  }

  lemma LookupJoining(g: Gate, limit: nat, a: Alias, i: Alias, b: Key)
    requires Sound(g, limit, {}) && a in g.aliases && i in g.aliases && b in g.aliases && a != b
    requires Canon(g.aliases, a) == a && Canon(g.aliases, i) == b && Canon(g.aliases, b) == b
    requires Count(g.requests, a) == limit && Count(g.requests, b) == 0
    ensures var (n, key) := KeyFor(g, [a, i]);
            && Merges(g.aliases, [a, i]) && Sound(n, limit, {}) && Renamed(g, n)
            && Canon(n.aliases, a) == key && Canon(n.aliases, b) == key && Count(n.requests, key) == limit
  {
    var list := [a, i];
    KeyForKeeps(g, list, limit, {});
    KeyForRenames(g, list);
    var (n, key) := KeyFor(g, list);
    assert list[0] in list;
    JoinedKeys(g.aliases, a, i, b);
    KeyAfter(g, list, b);
    JoinedCount(g, a, i, b);
  }

  lemma JoinedCount(g: Gate, a: Alias, i: Alias, b: Key)
    requires CanonicalKeys(g) && a in g.aliases && i in g.aliases && b in g.aliases && a != b
    requires Canon(g.aliases, a) == a && Canon(g.aliases, i) == b && Canon(g.aliases, b) == b && Count(g.requests, b) == 0
    ensures var (n, key) := KeyFor(g, [a, i]); Count(n.requests, key) == Count(g.requests, a)
  {
    JoinedKeys(g.aliases, a, i, b);
    MergeMovesSlots(g, [a, i]);
    var key := KeyFor(g, [a, i]).1;
    var merged := OldKeys(g.aliases, [a, i], key);
    assert merged + {key} == {a} + {b};
    SumOfCounts(g.requests, {a}, b);
    assert SumCounts(g.requests, {a}) == Holders(g.requests, a);
  }

  lemma JoinedKeys(m: AliasMap, a: Alias, i: Alias, b: Key)
    requires Idempotent(m) && "" !in m && a in m && i in m && b in m && a != b
    requires Canon(m, a) == a && Canon(m, i) == b && Canon(m, b) == b
    ensures var key := ChosenKey(m, [a, i]);
            key in {a, b} && OldKeys(m, [a, i], key) == {a, b} - {key}
  {
    var list := [a, i];
    ChosenKeyCases(m, list);
    assert list[0] in list && list[1] in list;
  }

  lemma JoiningLoop(g: Gate, g1: Gate, g2: Gate, limit: nat, pick: Pick, y: RequestId, a: Alias, b: Alias, i: Alias)
    requires |pick.candidates| == 2 && pick.candidates[0].aliases == [b, i] && pick.candidates[1].aliases == [a, i]
    requires g1 == KeyFor(g, [b, i]).0 && g2 == KeyFor(g1, [a, i]).0
    requires !Blocked(g1.requests, KeyFor(g, [b, i]).1, y, limit, pick.now)
    requires Blocked(g2.requests, KeyFor(g1, [a, i]).1, y, limit, pick.now) && Merges(g1.aliases, [a, i])
    ensures Evaluate(g, y, pick.candidates, limit, pick.now) == (g2, [false, true])
    ensures LoopMerges(g, pick.candidates)
  {
    LastRound(g1, y, pick.candidates[1..], limit, pick.now);
    EvaluateUnfolds(g, y, pick.candidates, limit, pick.now);
    assert [false] + [true] == [false, true];
  }

  lemma LastRound(g: Gate, id: RequestId, candidates: seq<Candidate>, limit: nat, now: nat)
    requires |candidates| == 1
    ensures var (n, key) := KeyFor(g, candidates[0].aliases);
            && Evaluate(g, id, candidates, limit, now) == (n, [Blocked(n.requests, key, id, limit, now)])
            && LoopMerges(g, candidates) == Merges(g.aliases, candidates[0].aliases)
  {
    EvaluateUnfolds(g, id, candidates, limit, now);
    assert candidates[1..] == [];
    var (n, key) := KeyFor(g, candidates[0].aliases);
    assert Evaluate(n, id, candidates[1..], limit, now) == (n, []);
    assert [Blocked(n.requests, key, id, limit, now)] + [] == [Blocked(n.requests, key, id, limit, now)];
  }

  lemma JoiningSelection(g: Gate, g2: Gate, limit: nat, pick: Pick, y: RequestId)
    requires pick.token in g.tokens && g.tokens[pick.token] == y && y in g.requests
    requires g.requests[y].key == "" && g.requests[y].sequence == 0 && !g.requests[y].rejected
    requires y in g2.requests && g2.requests[y].sequence == 0 && |pick.candidates| == 2 && pick.candidates[0].eligible
    requires pick.preferred !in {pick.candidates[0].id, pick.candidates[1].id}
    requires Evaluate(g, y, pick.candidates, limit, pick.now) == (g2, [false, true]) && LoopMerges(g, pick.candidates)
    ensures BeginPick(g, pick, limit) == (g2, Some(Selection(y, 0, pick.now, [pick.candidates[0]], true)))
  {
    assert Detach(g, y) == g;
    FreeOfPair(pick.candidates);
    assert !MustWait(pick.candidates, [false, true], pick.preferred) by {
      assert pick.candidates[0].eligible && ![false, true][0];
    }
  }

  lemma FreeOfPair(candidates: seq<Candidate>)
    requires |candidates| == 2
    ensures Free(candidates, [false, true]) == [candidates[0]]
  {
    var rest := candidates[1..];
    assert [false, true][1..] == [true] && rest[1..] == [] && [true][1..] == [];
    assert Free(rest, [true]) == Free(rest[1..], [true][1..]) == [];
  }

  lemma CommitJoined(g: Gate, s: Selection, limit: nat, y: RequestId, list: seq<Alias>)
    requires Sound(g, limit, {}) && AliasList(list) && Learned(g.aliases, list) && s.id == y && |s.attempt| == 1 && s.attempt[0].aliases == list
    requires y in g.requests && g.requests[y].key == "" && Count(g.requests, Canon(g.aliases, list[0])) == limit
    ensures var m, k := CommitPick(g, s, Some(0)), Canon(g.aliases, list[0]);
            && m.aliases == g.aliases && m.requests.Keys == g.requests.Keys
            && m.requests[y].key == k && Count(m.requests, k) == limit + 1
            && forall x | x in g.requests && x != y :: m.requests[x] == g.requests[x]
  {
    LearnedIsNoop(g, list);
    assert list[0] in list;
    SlotTaken(g.requests, y, Canon(g.aliases, list[0]));
  }

  // -------------------------------------------------------------- from the empty gate

  // A limit of one. `r1` takes Y's slot, `r3` queues for it; then `r2` may choose
  // between X and Y, which both turn out to have the auth_index I.
  const OLD_Y := Candidate("Y", AliasesOf("Y", "Y", ""), true)
  const NEW_X := Candidate("X", AliasesOf("X", "X", "I"), true)
  const NEW_Y := Candidate("Y", AliasesOf("Y", "Y", "I"), true)

  const ENTER1 := Enter("r1", 0, "t1")
  const OPEN1 := Open(Pick("t1", [OLD_Y], "", 1, 1, 100))
  const CLOSE := Close(Some(0), 1)
  const ENTER3 := Enter("r3", 1, "t3")
  const OPEN3 := Open(Pick("t3", [OLD_Y], "", 2, 2, 100))
  const ENTER2 := Enter("r2", 2, "t2")
  const PICK2 := Pick("t2", [NEW_X, NEW_Y], "", 3, 3, 100)

  const HOLDING := NewRequest("t1", 0).(key := "auth:Y")
  const QUEUED := NewRequest("t3", 1).(deadline := 100, sequence := 1, waitKeys := {"auth:Y"})
  const ONE_KEY: AliasMap := map["auth:Y" := "auth:Y"]

  const G1 := Gate(map["r1" := NewRequest("t1", 0)], map["t1" := "r1"], {}, [], 0, map[], 0, true, {})
  const G2 := G1.(aliases := ONE_KEY, founded := {"auth:Y"})
  const G3 := G2.(requests := map["r1" := HOLDING])
  const G4 := G3.(requests := map["r1" := HOLDING, "r3" := NewRequest("t3", 1)], tokens := map["t1" := "r1", "t3" := "r3"])
  const G5 := G4.(requests := map["r1" := HOLDING, "r3" := QUEUED], lastSequence := 1)
  const G6 := G5.(requests := map["r1" := HOLDING, "r3" := QUEUED, "r2" := NewRequest("t2", 2)],
                  tokens := map["t1" := "r1", "t3" := "r3", "t2" := "r2"])

  const SLOT_TAKEN: seq<Step> := [ENTER1] + [OPEN1] + [CLOSE]
  const PRELUDE: seq<Step> := SLOT_TAKEN + [ENTER3] + [OPEN3] + [ENTER2]

  lemma Reaches(limit: nat, steps: seq<Step>, step: Step, n: System)
    requires Next(limit, Run(limit, steps), step) == n
    ensures Run(limit, steps + [step]) == n
  {
    RunLast(limit, steps, step);
  }

  lemma Enters(limit: nat, steps: seq<Step>, g: Gate, id: RequestId, at: nat, token: Token, n: Gate)
    requires Run(limit, steps) == System(g, None) && token != "" && token !in g.tokens && Register(g, id, at, token).0 == n
    ensures Run(limit, steps + [Enter(id, at, token)]) == System(n, None)
  {
    Reaches(limit, steps, Enter(id, at, token), System(n, None));
  }

  lemma Opens(limit: nat, steps: seq<Step>, g: Gate, pick: Pick, n: Gate, selecting: Option<Selection>)
    requires Run(limit, steps) == System(g, None) && Candidates(pick.candidates) && BeginPick(g, pick, limit) == (n, selecting)
    ensures Run(limit, steps + [Open(pick)]) == System(n, selecting)
  {
    Reaches(limit, steps, Open(pick), System(n, selecting));
  }

  lemma Commits(limit: nat, steps: seq<Step>, g: Gate, sel: Selection, choice: nat, at: nat, n: Gate)
    requires Run(limit, steps) == System(g, Some(sel)) && at >= sel.now && choice < |sel.attempt|
    requires CommitPick(g, sel, Some(choice)) == n
    ensures Run(limit, steps + [Close(Some(choice), at)]) == System(n, None)
  {
    Reaches(limit, steps, Close(Some(choice), at), System(n, None));
  }

  lemma KnownAliases()
    ensures OLD_Y.aliases == ["auth:Y"] && NEW_X.aliases == ["auth:X", "index:I"] && NEW_Y.aliases == ["auth:Y", "index:I"]
    ensures Candidates([OLD_Y]) && Candidates([NEW_X, NEW_Y])
  {
    assert "auth:" + "Y" == "auth:Y" && "auth:" + "X" == "auth:X" && "index:" + "I" == "index:I";
  }

  lemma LearnFirst()
    ensures Learn(map[], ["auth:Y"]) == ONE_KEY && ChosenKey(map[], ["auth:Y"]) == "auth:Y"
    ensures Learn(ONE_KEY, ["auth:Y"]) == ONE_KEY && ChosenKey(ONE_KEY, ["auth:Y"]) == "auth:Y"
    ensures OldKeys(map[], ["auth:Y"], "auth:Y") == {} && OldKeys(ONE_KEY, ["auth:Y"], "auth:Y") == {}
  {
    assert ["auth:Y"][0] == "auth:Y" && ["auth:Y"][1..] == [];
  }

  lemma LookupY(g: Gate)
    requires g.aliases in {map[], ONE_KEY} && "auth:Y" in g.founded + {"auth:Y"}
    ensures KeyFor(g, ["auth:Y"]) == (g.(aliases := ONE_KEY, founded := g.founded + {"auth:Y"}), "auth:Y")
    ensures !Merges(g.aliases, ["auth:Y"])
  {
    LearnFirst();
    assert !Merges(g.aliases, ["auth:Y"]);
    NoMergeKeepsRequests(g, ["auth:Y"]);
  }

  lemma FirstEnters()
    ensures Next(1, START, ENTER1) == System(G1, None)
  {
    assert Unstale(EMPTY.requests, 0) == map[];
  }

  // A pick by an idle request that holds no slot, with one candidate.
  lemma OpensFree(g: Gate, n: Gate, pick: Pick, limit: nat, id: RequestId, c: Candidate)
    requires pick.token in g.tokens && g.tokens[pick.token] == id && id in g.requests && id in n.requests
    requires g.requests[id].key == "" && g.requests[id].sequence == 0 && !g.requests[id].rejected
    requires pick.candidates == [c] && c.eligible && c.id != pick.preferred
    requires Evaluate(g, id, [c], limit, pick.now) == (n, [false]) && !LoopMerges(g, [c])
    ensures BeginPick(g, pick, limit) == (n, Some(Selection(id, n.requests[id].sequence, pick.now, [c], false)))
  {
    assert Detach(g, id) == g;
    FreeOfOne(c);
    assert !MustWait([c], [false], pick.preferred) by { assert [c][0].eligible && ![false][0]; }
  }

  lemma FreeOfOne(c: Candidate)
    ensures Free([c], [false]) == [c]
  {
    var none: seq<Candidate> := [];
    assert [c][1..] == none && [false][1..] == [];
    assert Free([c], [false]) == [c] + Free(none, []);
  }

  lemma OpensBusy(g: Gate, pick: Pick, limit: nat, id: RequestId, c: Candidate, keys: set<Key>)
    requires pick.token in g.tokens && g.tokens[pick.token] == id && id in g.requests
    requires g.requests[id].key == "" && g.requests[id].sequence == 0 && !g.requests[id].rejected
    requires pick.candidates == [c] && c.eligible
    requires Evaluate(g, id, [c], limit, pick.now) == (g, [true]) && WaitKeys(g, [c], pick.preferred, {}) == (g, keys)
    ensures BeginPick(g, pick, limit) == (Queue(g, id, keys, pick.deadline, pick.later), None)
  {
    assert Detach(g, id) == g;
    assert MustWait([c], [true], pick.preferred) by { assert [c][0].eligible && [true][0]; }
  }

  lemma FirstOpens()
    ensures BeginPick(G1, OPEN1.pick, 1) == (G2, Some(Selection("r1", 0, 1, [OLD_Y], false)))
  {
    KnownAliases();
    LookupY(G1);
    LastRound(G1, "r1", [OLD_Y], 1, 1);
    assert Holders(G2.requests, "auth:Y") == {};
    OpensFree(G1, G2, OPEN1.pick, 1, "r1", OLD_Y);
  }

  lemma FirstCommits()
    ensures CommitPick(G2, Selection("r1", 0, 1, [OLD_Y], false), Some(0)) == G3
  {
    KnownAliases();
    LookupY(G2);
  }

  lemma RegistersNew(g: Gate, id: RequestId, now: nat, token: Token)
    requires UsableId(id) && id !in g.completed && id !in g.requests && |g.requests| < REGISTRATION_LIMIT
    requires forall x | x in g.requests :: !Stale(g.requests[x], now)
    ensures Register(g, id, now, token).0
         == g.(supported := true, requests := g.requests[id := NewRequest(token, now)], tokens := g.tokens[token := id])
  {
    NothingStale(g, now);
  }

  lemma NothingStale(g: Gate, now: nat)
    requires forall x | x in g.requests :: !Stale(g.requests[x], now)
    ensures Unstale(g.requests, now) == g.requests && UnstaleTokens(g, now) == g.tokens
  {
  }

  lemma ThirdEnters()
    ensures Register(G3, "r3", 1, "t3").0 == G4
  {
    assert G3.requests.Keys == {"r1"};
    assert |G3.requests| == |G3.requests.Keys|;
    RegistersNew(G3, "r3", 1, "t3");
  }

  lemma JudgedBusy(g: Gate, id: RequestId, c: Candidate, key: Key, limit: nat, now: nat)
    requires KeyFor(g, c.aliases) == (g, key) && Count(g.requests, key) >= limit
    ensures Evaluate(g, id, [c], limit, now) == (g, [true])
  {
    LastRound(g, id, [c], limit, now);
  }

  lemma ThirdIsBlocked()
    ensures Evaluate(G4, "r3", [OLD_Y], 1, 2) == (G4, [true])
  {
    KnownAliases();
    LookupY(G4);
    assert G4.founded + {"auth:Y"} == G4.founded;
    assert Holders(G4.requests, "auth:Y") == {"r1"};
    JudgedBusy(G4, "r3", OLD_Y, "auth:Y", 1, 2);
  }

  lemma ThirdWaitsForY()
    ensures WaitKeys(G4, [OLD_Y], "", {}) == (G4, {"auth:Y"})
  {
    KnownAliases();
    LookupY(G4);
    assert {} + {"auth:Y"} == {"auth:Y"};
    assert WaitKeys(G4, [], "", {"auth:Y"}) == (G4, {"auth:Y"});
    assert [OLD_Y][1..] == [];
  }

  lemma ThirdQueues()
    ensures BeginPick(G4, OPEN3.pick, 1) == (G5, None)
  {
    ThirdIsBlocked();
    ThirdWaitsForY();
    OpensBusy(G4, OPEN3.pick, 1, "r3", OLD_Y, {"auth:Y"});
    ThirdGetsAPlace();
  }

  lemma ThirdGetsAPlace()
    ensures Queue(G4, "r3", {"auth:Y"}, 100, 2) == G5
  {
  }

  lemma SecondEnters()
    ensures Register(G5, "r2", 2, "t2").0 == G6
  {
    assert G5.requests.Keys == {"r1", "r3"};
    assert |G5.requests| == |G5.requests.Keys|;
    RegistersNew(G5, "r2", 2, "t2");
  }

  lemma SlotTakenRun()
    ensures Run(1, SLOT_TAKEN) == System(G3, None)
  {
    KnownAliases();
    FirstEnters();
    assert [] + [ENTER1] == [ENTER1];
    Enters(1, [], EMPTY, "r1", 0, "t1", G1);
    FirstOpens();
    var first := Selection("r1", 0, 1, [OLD_Y], false);
    Opens(1, [ENTER1], G1, OPEN1.pick, G2, Some(first));
    FirstCommits();
    Commits(1, [ENTER1] + [OPEN1], G2, first, 0, 1, G3);
  }

  lemma QueuedRun()
    ensures Run(1, SLOT_TAKEN + [ENTER3] + [OPEN3]) == System(G5, None)
  {
    KnownAliases();
    SlotTakenRun();
    ThirdEnters();
    Enters(1, SLOT_TAKEN, G3, "r3", 1, "t3", G4);
    ThirdQueues();
    Opens(1, SLOT_TAKEN + [ENTER3], G4, OPEN3.pick, G5, None);
  }

  lemma PreludeRun()
    ensures Run(1, PRELUDE) == System(G6, None)
  {
    QueuedRun();
    SecondEnters();
    Enters(1, SLOT_TAKEN + [ENTER3] + [OPEN3], G5, "r2", 2, "t2", G6);
  }

  /** The cap and the queue order are broken in a reachable state: `r2` shares the one
      slot of its credential with `r1`, and `r3`, who queued for it, is still waiting. */
  lemma OvertakingRun()
    ensures var s := Run(1, PRELUDE + [Open(PICK2)]);
            var n := Run(1, PRELUDE + [Open(PICK2)] + [Close(Some(0), 3)]).gate;
            && s.selecting.Some? && "r2" in n.requests && "r3" in n.requests
            && var k := n.requests["r2"].key;
               k != "" && Count(n.requests, k) == 2 && LiveWaiter(n.requests["r3"], k, 3) && !FirstInLine(s.gate, n, "r2", k, 3)
  {
    PreludeRun();
    RunInv(1, PRELUDE);
    LastPick(G6);
    var (n, selecting) := BeginPick(G6, PICK2, 1);
    KnownAliases();
    Opens(1, PRELUDE, G6, PICK2, n, selecting);
    Commits(1, PRELUDE + [Open(PICK2)], n, selecting.value, 0, 3, CommitPick(n, selecting.value, Some(0)));
  }

  lemma LastPick(g: Gate)
    requires g == G6 && Sound(g, 1, {})
    ensures var (n, selecting) := BeginPick(g, PICK2, 1);
            && selecting.Some? && |selecting.value.attempt| == 1 && selecting.value.now == 3
            && var m := CommitPick(n, selecting.value, Some(0));
               && "r2" in m.requests && "r3" in m.requests
               && var k := m.requests["r2"].key;
                  k != "" && Count(m.requests, k) == 2 && LiveWaiter(m.requests["r3"], k, 3) && !FirstInLine(n, m, "r2", k, 3)
  {
    LastPickJoins(g);
    assert LiveWaiter(g.requests["r3"], "auth:Y", PICK2.now);
    MergeDuringPickOvertakes(g, 1, PICK2, "r2", "auth:Y", "auth:X", "index:I");
  }

  lemma LastPickJoins(g: Gate)
    requires g == G6
    ensures Count(g.requests, "auth:Y") == 1 && JoiningPick(g, PICK2, "r2", "auth:Y", "auth:X", "index:I")
    ensures "r3" in g.requests && LiveWaiter(g.requests["r3"], "auth:Y", PICK2.now)
  {
    assert Holders(g.requests, "auth:Y") == {"r1"};
    KnownAliases();
    assert "auth:X"[5] != "auth:Y"[5] && "index:I"[0] != "auth:Y"[0] && "index:I"[0] != "auth:X"[0];
  }
}
