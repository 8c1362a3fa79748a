/**
 Serial ranking (serial.go, quota_priority.go, serial_budget.go) as a strict total order
 that does not depend on how candidates arrive. Quota is exact; 0 is Go's zero time.
 */
module SerialRanking {
  import Text

  datatype Option<T> = None | Some(value: T)

  // How soon the candidate's quota runs out: confirmed reset 0, placeholder 1, unknown 2.
  datatype Priority = Priority(tier: int, windowRank: int, deadlineKind: int, resetAt: int, weeklyProtected: bool)

  datatype Candidate = Candidate(
    id: string, hostPriority: int, priority: Priority,
    windowClass: string, weeklyProtected: bool,
    weeklyKnown: bool, weeklyRemaining: real, budgetKnown: bool, budgetPerDay: real,
    cycleActive: bool, fiveHourActive: bool, fiveHourResetAt: int, headroom: real,
    fiveHourKnown: bool, fiveHourUsed: real, draining: bool, resetCredits: int,
    maxUsed: real, lastSelectedAt: int)

  datatype Settings = Settings(hysteresis: real, budgets: bool, preferCredits: bool, preferActive: bool, order: seq<string>)

  // A budget group: the window class, and whether the weekly reserve protects it.
  type Group = (string, bool)

  function GroupOf(c: Candidate): Group { (c.windowClass, c.weeklyProtected) }

  // The pool-wide maxima the tiers refer to, protected and available apart.
  datatype Context = Context(band: real, budgets: map<Group, real>, available: Option<real>, guarded: Option<real>)

  function Band(cfg: Settings): real { if cfg.hysteresis < 0.0 then 0.0 else cfg.hysteresis }

  // ----------------------------------------------------------------- the context

  predicate Budgets(c: Candidate, g: Group) {
    c.weeklyKnown && c.budgetKnown && GroupOf(c) == g && c.budgetPerDay > 0.0
  }

  ghost predicate IsBudget(choices: seq<Candidate>, g: Group, budget: real) {
    && (exists c :: c in choices && Budgets(c, g) && c.budgetPerDay == budget)
    && forall c :: c in choices && Budgets(c, g) ==> c.budgetPerDay <= budget
  }

  // The largest weekly remainder of the protected or of the available candidates.
  ghost predicate IsRemainder(choices: seq<Candidate>, guarded: bool, best: Option<real>) {
    match best
    case None => forall c :: c in choices && c.weeklyKnown ==> c.weeklyProtected != guarded
    case Some(r) =>
      && (exists c :: c in choices && c.weeklyKnown && c.weeklyProtected == guarded && c.weeklyRemaining == r)
      && forall c :: c in choices && c.weeklyKnown && c.weeklyProtected == guarded ==> c.weeklyRemaining <= r
  }

  ghost predicate IsContext(choices: seq<Candidate>, cfg: Settings, ctx: Context) {
    && ctx.band == Band(cfg)
    && (forall g :: g in ctx.budgets ==> IsBudget(choices, g, ctx.budgets[g]))
    && (forall c :: c in choices && c.weeklyKnown && c.budgetKnown && c.budgetPerDay > 0.0 ==> GroupOf(c) in ctx.budgets)
    && IsRemainder(choices, false, ctx.available) && IsRemainder(choices, true, ctx.guarded)
  }

  /** The context depends on which candidates there are, not on their order or number. */
  lemma ContextIsUnique(a: seq<Candidate>, b: seq<Candidate>, cfg: Settings, x: Context, y: Context)
    requires forall c :: c in a <==> c in b
    requires IsContext(a, cfg, x) && IsContext(b, cfg, y)
    ensures x == y
  {
    forall g ensures g in x.budgets <==> g in y.budgets {
      if g in x.budgets {
        var c :| c in a && Budgets(c, g) && c.budgetPerDay == x.budgets[g];
      }
      if g in y.budgets {
        var c :| c in b && Budgets(c, g) && c.budgetPerDay == y.budgets[g];
      }
    }
    forall g | g in x.budgets ensures x.budgets[g] == y.budgets[g] {
      BudgetIsUnique(a, b, g, x.budgets[g], y.budgets[g]);
    }
    RemainderIsUnique(a, b, false, x.available, y.available);
    RemainderIsUnique(a, b, true, x.guarded, y.guarded);
  }

  lemma BudgetIsUnique(a: seq<Candidate>, b: seq<Candidate>, g: Group, x: real, y: real)
    requires forall c :: c in a <==> c in b
    requires IsBudget(a, g, x) && IsBudget(b, g, y)
    ensures x == y
  {
  }

  lemma RemainderIsUnique(a: seq<Candidate>, b: seq<Candidate>, guarded: bool, x: Option<real>, y: Option<real>)
    requires forall c :: c in a <==> c in b
    requires IsRemainder(a, guarded, x) && IsRemainder(b, guarded, y)
    ensures x == y
  {
  }

  /** One pass over the candidates computes the context. */
  method NewSortContext(choices: seq<Candidate>, cfg: Settings) returns (ctx: Context)
    ensures IsContext(choices, cfg, ctx)
  {
    ctx := Context(Band(cfg), map[], None, None);
    for i := 0 to |choices|
      invariant IsContext(choices[..i], cfg, ctx)
    {
      ghost var before := ctx;
      ctx := GrowContext(ctx, choices[i]);
      ContextGrows(choices[..i], choices[i], cfg, before, ctx);
      assert choices[..i + 1] == choices[..i] + [choices[i]];
    }
    assert choices[..|choices|] == choices;
  }

  method GrowContext(before: Context, c: Candidate) returns (ctx: Context)
    ensures ctx == Grown(before, c)
  {
    ctx := before;
    if !c.weeklyKnown {
      return;
    }
    var g := GroupOf(c);
    var budget := if g in ctx.budgets then ctx.budgets[g] else 0.0;
    if c.budgetKnown && c.budgetPerDay > budget {
      ctx := ctx.(budgets := ctx.budgets[g := c.budgetPerDay]);
    }
    if c.weeklyProtected {
      if ctx.guarded.None? || c.weeklyRemaining > ctx.guarded.value {
        ctx := ctx.(guarded := Some(c.weeklyRemaining));
      }
    } else if ctx.available.None? || c.weeklyRemaining > ctx.available.value {
      ctx := ctx.(available := Some(c.weeklyRemaining));
    }
  }

  // The effect of one more candidate.
  function Grown(ctx: Context, c: Candidate): Context {
    if !c.weeklyKnown then ctx
    else
      var g := GroupOf(c);
      var budget := if g in ctx.budgets then ctx.budgets[g] else 0.0;
      var b := if c.budgetKnown && c.budgetPerDay > budget then ctx.budgets[g := c.budgetPerDay] else ctx.budgets;
      ctx.(budgets := b,
           guarded := if c.weeklyProtected then Larger(ctx.guarded, c.weeklyRemaining) else ctx.guarded,
           available := if c.weeklyProtected then ctx.available else Larger(ctx.available, c.weeklyRemaining))
  }

  function Larger(best: Option<real>, x: real): Option<real> {
    if best.None? || x > best.value then Some(x) else best
  }

  lemma ContextGrows(choices: seq<Candidate>, c: Candidate, cfg: Settings, ctx: Context, next: Context)
    requires IsContext(choices, cfg, ctx) && next == Grown(ctx, c)
    ensures IsContext(choices + [c], cfg, next)
  {
    var all := choices + [c];
    assert c in all && forall x :: x in all <==> x in choices || x == c;
    forall g | g in next.budgets ensures IsBudget(all, g, next.budgets[g]) {
      BudgetGrows(choices, c, ctx, g);
    }
    RemainderGrows(choices, c, false, ctx.available);
    RemainderGrows(choices, c, true, ctx.guarded);
  }

  lemma BudgetGrows(choices: seq<Candidate>, c: Candidate, ctx: Context, g: Group)
    requires g in Grown(ctx, c).budgets
    requires g in ctx.budgets ==> IsBudget(choices, g, ctx.budgets[g])
    requires g !in ctx.budgets ==> forall x :: x in choices ==> !Budgets(x, g)
    ensures IsBudget(choices + [c], g, Grown(ctx, c).budgets[g])
  {
    var all := choices + [c];
    assert c in all && forall x :: x in all <==> x in choices || x == c;
    if g in ctx.budgets {
      var w :| w in choices && Budgets(w, g) && w.budgetPerDay == ctx.budgets[g];
      assert w in all;
    }
  }

  lemma RemainderGrows(choices: seq<Candidate>, c: Candidate, guarded: bool, best: Option<real>)
    requires IsRemainder(choices, guarded, best)
    ensures IsRemainder(choices + [c], guarded,
                        if c.weeklyKnown && c.weeklyProtected == guarded then Larger(best, c.weeklyRemaining) else best)
  {
    var all := choices + [c];
    assert c in all && forall x :: x in all <==> x in choices || x == c;
    if best.Some? {
      var w :| w in choices && w.weeklyKnown && w.weeklyProtected == guarded && w.weeklyRemaining == best.value;
      assert w in all;
    }
  }

  // ----------------------------------------------------------------------- tiers

  const UNRANKED: int := 0x7fff_ffff_ffff_ffff

  function MaxR(a: real, b: real): real { if a >= b then a else b }

  function Ceil(x: real): int { -((-x).Floor) }

  function BestRemaining(c: Candidate, ctx: Context): real {
    var best := if c.weeklyProtected then ctx.guarded else ctx.available;
    if best.Some? then best.value else 0.0
  }

  function BalanceTier(c: Candidate, ctx: Context): int {
    if !c.weeklyKnown then UNRANKED
    else
      var delta := BestRemaining(c, ctx) - c.weeklyRemaining;
      if delta <= ctx.band then 0
      else if ctx.band <= 0.0 then Ceil(delta * 1000.0)
      else 1 + ((delta - ctx.band) / ctx.band).Floor
  }

  function BestBudget(c: Candidate, ctx: Context): real {
    if GroupOf(c) in ctx.budgets then ctx.budgets[GroupOf(c)] else 0.0
  }

  function BudgetTier(c: Candidate, ctx: Context): int {
    if !c.budgetKnown then UNRANKED
    else (MaxR(0.0, BestBudget(c, ctx) - c.budgetPerDay) / MaxR(BestBudget(c, ctx) * 0.05, 0.000001)).Floor
  }

  // A class's place in the configured order; classes not listed come well after.
  function Place(windowClass: string, order: seq<string>): (i: nat)
    ensures i <= |order|
    decreases |order|
  {
    if order == [] || order[0] == windowClass then 0 else 1 + Place(windowClass, order[1..])
  }

  function RankOf(windowClass: string, order: seq<string>): int {
    if Place(windowClass, order) < |order| then Place(windowClass, order) else |order| + 10
  }

  // ------------------------------------------------------------------- the comparator

  // Negative, zero or positive, as for the program's comparison.
  function ComparePriority(a: Priority, b: Priority): int {
    if a.tier != b.tier then (if a.tier < b.tier then -1 else 1)
    else if a.windowRank != b.windowRank then (if a.windowRank < b.windowRank then -1 else 1)
    else if a.deadlineKind != b.deadlineKind then (if a.deadlineKind < b.deadlineKind then -1 else 1)
    else if a.resetAt != b.resetAt then (if a.resetAt < b.resetAt then -1 else 1)
    else if a.weeklyProtected != b.weeklyProtected then (if !a.weeklyProtected then -1 else 1)
    else 0
  }

  // Level by level, as the program decides. Each stage hands ties to the next.
  function CandidateLess(a: Candidate, b: Candidate, cfg: Settings, ctx: Context): bool {
    if ComparePriority(a.priority, b.priority) != 0 then ComparePriority(a.priority, b.priority) < 0
    else if a.weeklyProtected != b.weeklyProtected then !a.weeklyProtected
    else if RankOf(a.windowClass, cfg.order) != RankOf(b.windowClass, cfg.order)
      then RankOf(a.windowClass, cfg.order) < RankOf(b.windowClass, cfg.order)
    else if a.weeklyKnown != b.weeklyKnown then a.weeklyKnown
    else WeeklyLess(a, b, cfg, ctx)
  }

  function WeeklyLess(a: Candidate, b: Candidate, cfg: Settings, ctx: Context): bool {
    if cfg.budgets && a.budgetKnown != b.budgetKnown then a.budgetKnown
    else if cfg.budgets && BudgetTier(a, ctx) != BudgetTier(b, ctx) then BudgetTier(a, ctx) < BudgetTier(b, ctx)
    else if !cfg.budgets && BalanceTier(a, ctx) != BalanceTier(b, ctx) then BalanceTier(a, ctx) < BalanceTier(b, ctx)
    else FiveHourLess(a, b, cfg)
  }

  function FiveHourLess(a: Candidate, b: Candidate, cfg: Settings): bool {
    if a.fiveHourActive != b.fiveHourActive then a.fiveHourActive
    else if a.fiveHourActive && a.fiveHourResetAt != b.fiveHourResetAt then a.fiveHourResetAt < b.fiveHourResetAt
    else if cfg.budgets && a.headroom != b.headroom then a.headroom > b.headroom
    else if a.fiveHourKnown != b.fiveHourKnown then a.fiveHourKnown
    else if a.fiveHourKnown && a.fiveHourUsed != b.fiveHourUsed then a.fiveHourUsed < b.fiveHourUsed
    else if a.draining != b.draining then a.draining
    else if cfg.preferCredits && a.resetCredits != b.resetCredits then a.resetCredits > b.resetCredits
    else RestLess(a, b, cfg)
  }

  function RestLess(a: Candidate, b: Candidate, cfg: Settings): bool {
    if a.weeklyKnown && b.weeklyKnown && a.weeklyRemaining != b.weeklyRemaining then a.weeklyRemaining > b.weeklyRemaining
    else if cfg.preferActive && a.cycleActive != b.cycleActive then a.cycleActive
    else if a.maxUsed != b.maxUsed then a.maxUsed < b.maxUsed
    else if (a.lastSelectedAt == 0) != (b.lastSelectedAt == 0) then a.lastSelectedAt == 0
    else if a.lastSelectedAt != 0 && b.lastSelectedAt != a.lastSelectedAt then a.lastSelectedAt < b.lastSelectedAt
    else if a.hostPriority != b.hostPriority then a.hostPriority > b.hostPriority
    else Text.Less(a.id, b.id)
  }

  // --------------------------------------------------------------- levels as numbers

  function Flag(first: bool): real { if first then 0.0 else 1.0 }

  // A candidate alone, in the context, as a row of numbers, smaller first.
  function Levels(c: Candidate, cfg: Settings, ctx: Context): (r: seq<real>)
    ensures |r| == 23
  {
    PriorityLevels(c.priority) + WeeklyLevels(c, cfg, ctx) + FiveHourLevels(c, cfg) + RestLevels(c, cfg)
  }

  function PriorityLevels(p: Priority): (r: seq<real>)
    ensures |r| == 5
  {
    [p.tier as real, p.windowRank as real, p.deadlineKind as real, p.resetAt as real, Flag(!p.weeklyProtected)]
  }

  function WeeklyLevels(c: Candidate, cfg: Settings, ctx: Context): (r: seq<real>)
    ensures |r| == 5
  {
    [Flag(!c.weeklyProtected), RankOf(c.windowClass, cfg.order) as real, Flag(c.weeklyKnown), Flag(!cfg.budgets || c.budgetKnown),
     (if cfg.budgets then BudgetTier(c, ctx) else BalanceTier(c, ctx)) as real]
  }

  function FiveHourLevels(c: Candidate, cfg: Settings): (r: seq<real>)
    ensures |r| == 7
  {
    [Flag(c.fiveHourActive), if c.fiveHourActive then c.fiveHourResetAt as real else 0.0, if cfg.budgets then -c.headroom else 0.0,
     Flag(c.fiveHourKnown), if c.fiveHourKnown then c.fiveHourUsed else 0.0, Flag(c.draining),
     if cfg.preferCredits then -(c.resetCredits as real) else 0.0]
  }

  function RestLevels(c: Candidate, cfg: Settings): (r: seq<real>)
    ensures |r| == 6
  {
    [if c.weeklyKnown then -c.weeklyRemaining else 0.0, Flag(!cfg.preferActive || c.cycleActive), c.maxUsed,
     Flag(c.lastSelectedAt == 0), c.lastSelectedAt as real, -(c.hostPriority as real)]
  }

  // Lexicographic comparison of rows from column i on; `tie` decides equal rows.
  predicate RowLess(a: seq<real>, b: seq<real>, i: nat, tie: bool)
    requires |a| == |b| && i <= |a|
    decreases |a| - i
  {
    if i == |a| then tie
    else if a[i] != b[i] then a[i] < b[i]
    else RowLess(a, b, i + 1, tie)
  }

  lemma {:induction false} RowIrreflexive(a: seq<real>, i: nat)
    requires i <= |a|
    ensures !RowLess(a, a, i, false)
    decreases |a| - i
  {
    if i < |a| { RowIrreflexive(a, i + 1); }
  }

  lemma {:induction false} RowTransitive(a: seq<real>, b: seq<real>, c: seq<real>, i: nat, ab: bool, bc: bool, ac: bool)
    requires |a| == |b| == |c| && i <= |a| && RowLess(a, b, i, ab) && RowLess(b, c, i, bc) && (ab && bc ==> ac)
    ensures RowLess(a, c, i, ac)
    decreases |a| - i
  {
    if i < |a| && a[i] == b[i] == c[i] {
      RowTransitive(a, b, c, i + 1, ab, bc, ac);
    }
  }

  lemma {:induction false} RowTotal(a: seq<real>, b: seq<real>, i: nat, ab: bool, ba: bool)
    requires |a| == |b| && i <= |a| && (ab || ba)
    ensures RowLess(a, b, i, ab) || RowLess(b, a, i, ba)
    decreases |a| - i
  {
    if i < |a| && a[i] == b[i] { RowTotal(a, b, i + 1, ab, ba); }
  }

  // Rows compare block by block.
  lemma {:induction false} RowSplits(a: seq<real>, b: seq<real>, x: seq<real>, y: seq<real>, i: nat, tie: bool)
    requires |a| == |b| && |x| == |y| && i <= |a|
    ensures RowLess(a + x, b + y, i, tie) == RowLess(a, b, i, RowLess(x, y, 0, tie))
    decreases |a| - i
  {
    if i == |a| {
      RowShifts(a, b, x, y, 0, tie);
    } else {
      RowSplits(a, b, x, y, i + 1, tie);
    }
  }

  lemma {:induction false} RowShifts(a: seq<real>, b: seq<real>, x: seq<real>, y: seq<real>, j: nat, tie: bool)
    requires |a| == |b| && |x| == |y| && j <= |x|
    ensures RowLess(a + x, b + y, |a| + j, tie) == RowLess(x, y, j, tie)
    decreases |x| - j
  {
    if j < |x| { RowShifts(a, b, x, y, j + 1, tie); }
  }

  // One column of a comparison.
  lemma Column(a: seq<real>, b: seq<real>, i: nat, tie: bool)
    requires |a| == |b| && i < |a|
    ensures RowLess(a, b, i, tie) == if a[i] != b[i] then a[i] < b[i] else RowLess(a, b, i + 1, tie)
  {
  }

  lemma RestIsRow(a: Candidate, b: Candidate, cfg: Settings)
    requires a.weeklyKnown == b.weeklyKnown
    ensures RestLess(a, b, cfg) == RowLess(RestLevels(a, cfg), RestLevels(b, cfg), 0, Text.Less(a.id, b.id))
  {
    var x, y, tie := RestLevels(a, cfg), RestLevels(b, cfg), Text.Less(a.id, b.id);
    Column(x, y, 0, tie); Column(x, y, 1, tie); Column(x, y, 2, tie);
    Column(x, y, 3, tie); Column(x, y, 4, tie); Column(x, y, 5, tie);
  }

  lemma FiveHourIsRow(a: Candidate, b: Candidate, cfg: Settings)
    requires a.weeklyKnown == b.weeklyKnown
    ensures FiveHourLess(a, b, cfg) == RowLess(FiveHourLevels(a, cfg), FiveHourLevels(b, cfg), 0, RestLess(a, b, cfg))
  {
    var x, y, tie := FiveHourLevels(a, cfg), FiveHourLevels(b, cfg), RestLess(a, b, cfg);
    Column(x, y, 0, tie); Column(x, y, 1, tie); Column(x, y, 2, tie); Column(x, y, 3, tie);
    Column(x, y, 4, tie); Column(x, y, 5, tie); Column(x, y, 6, tie);
  }

  // The comparator with its priority stage set aside.
  function AfterPriority(a: Candidate, b: Candidate, cfg: Settings, ctx: Context): bool {
    if a.weeklyProtected != b.weeklyProtected then !a.weeklyProtected
    else if RankOf(a.windowClass, cfg.order) != RankOf(b.windowClass, cfg.order)
      then RankOf(a.windowClass, cfg.order) < RankOf(b.windowClass, cfg.order)
    else if a.weeklyKnown != b.weeklyKnown then a.weeklyKnown
    else WeeklyLess(a, b, cfg, ctx)
  }

  lemma WeeklyIsRow(a: Candidate, b: Candidate, cfg: Settings, ctx: Context, tie: bool)
    requires a.weeklyKnown == b.weeklyKnown ==> tie == FiveHourLess(a, b, cfg)
    ensures AfterPriority(a, b, cfg, ctx) == RowLess(WeeklyLevels(a, cfg, ctx), WeeklyLevels(b, cfg, ctx), 0, tie)
  {
    var x, y := WeeklyLevels(a, cfg, ctx), WeeklyLevels(b, cfg, ctx);
    Column(x, y, 0, tie); Column(x, y, 1, tie); Column(x, y, 2, tie); Column(x, y, 3, tie); Column(x, y, 4, tie);
  }

  lemma PriorityIsRow(a: Priority, b: Priority, tie: bool)
    ensures (if ComparePriority(a, b) != 0 then ComparePriority(a, b) < 0 else tie) == RowLess(PriorityLevels(a), PriorityLevels(b), 0, tie)
  {
    var x, y := PriorityLevels(a), PriorityLevels(b);
    Column(x, y, 0, tie); Column(x, y, 1, tie); Column(x, y, 2, tie); Column(x, y, 3, tie); Column(x, y, 4, tie);
  }

  /** The whole cascade is a lexicographic order of rows, ties broken by id. */
  lemma LessIsRow(a: Candidate, b: Candidate, cfg: Settings, ctx: Context)
    ensures CandidateLess(a, b, cfg, ctx) == RowLess(Levels(a, cfg, ctx), Levels(b, cfg, ctx), 0, Text.Less(a.id, b.id))
  {
    var tie := Text.Less(a.id, b.id);
    var r := RowLess(RestLevels(a, cfg), RestLevels(b, cfg), 0, tie);
    var f := RowLess(FiveHourLevels(a, cfg), FiveHourLevels(b, cfg), 0, r);
    var w := RowLess(WeeklyLevels(a, cfg, ctx), WeeklyLevels(b, cfg, ctx), 0, f);
    RowSplits(PriorityLevels(a.priority) + WeeklyLevels(a, cfg, ctx) + FiveHourLevels(a, cfg),
              PriorityLevels(b.priority) + WeeklyLevels(b, cfg, ctx) + FiveHourLevels(b, cfg), RestLevels(a, cfg), RestLevels(b, cfg), 0, tie);
    RowSplits(PriorityLevels(a.priority) + WeeklyLevels(a, cfg, ctx), PriorityLevels(b.priority) + WeeklyLevels(b, cfg, ctx),
              FiveHourLevels(a, cfg), FiveHourLevels(b, cfg), 0, r);
    RowSplits(PriorityLevels(a.priority), PriorityLevels(b.priority), WeeklyLevels(a, cfg, ctx), WeeklyLevels(b, cfg, ctx), 0, f);
    PriorityIsRow(a.priority, b.priority, w);
    if a.weeklyKnown == b.weeklyKnown {
      RestIsRow(a, b, cfg);
      FiveHourIsRow(a, b, cfg);
    }
    WeeklyIsRow(a, b, cfg, ctx, f);
  }

  /** The comparator is a strict total order on candidates with distinct ids. */
  lemma LessIsStrict(a: Candidate, cfg: Settings, ctx: Context)
    ensures !CandidateLess(a, a, cfg, ctx)
  {
    LessIsRow(a, a, cfg, ctx);
    Text.Irreflexive(a.id);
    RowIrreflexive(Levels(a, cfg, ctx), 0);
  }

  lemma LessIsTransitive(a: Candidate, b: Candidate, c: Candidate, cfg: Settings, ctx: Context)
    requires CandidateLess(a, b, cfg, ctx) && CandidateLess(b, c, cfg, ctx)
    ensures CandidateLess(a, c, cfg, ctx)
  {
    LessIsRow(a, b, cfg, ctx);
    LessIsRow(b, c, cfg, ctx);
    LessIsRow(a, c, cfg, ctx);
    if Text.Less(a.id, b.id) && Text.Less(b.id, c.id) { Text.Transitive(a.id, b.id, c.id); }
    RowTransitive(Levels(a, cfg, ctx), Levels(b, cfg, ctx), Levels(c, cfg, ctx), 0,
                  Text.Less(a.id, b.id), Text.Less(b.id, c.id), Text.Less(a.id, c.id));
  }

  lemma LessIsTotal(a: Candidate, b: Candidate, cfg: Settings, ctx: Context)
    requires a.id != b.id
    ensures CandidateLess(a, b, cfg, ctx) || CandidateLess(b, a, cfg, ctx)
  {
    LessIsRow(a, b, cfg, ctx);
    LessIsRow(b, a, cfg, ctx);
    Text.Total(a.id, b.id);
    RowTotal(Levels(a, cfg, ctx), Levels(b, cfg, ctx), 0, Text.Less(a.id, b.id), Text.Less(b.id, a.id));
  }

  // ---------------------------------------------------------------------- sorting

  ghost predicate Ranked(s: seq<Candidate>, cfg: Settings, ctx: Context) {
    forall i, j | 0 <= i < j < |s| :: CandidateLess(s[i], s[j], cfg, ctx)
  }

  ghost predicate DistinctIds(s: seq<Candidate>) {
    forall i, j | 0 <= i < j < |s| :: s[i].id != s[j].id
  }

  lemma SameMembers<T>(a: seq<T>, b: seq<T>)
    requires multiset(a) == multiset(b)
    ensures forall c :: c in a <==> c in b
  {
    forall c ensures c in a <==> c in b {
      assert c in a <==> c in multiset(a);
      assert c in b <==> c in multiset(b);
    }
  }

  lemma {:induction false} AscendingIsUnique<T(!new)>(s: seq<T>, t: seq<T>, less: (T, T) -> bool)
    requires Ascending(s, less) && Ascending(t, less) && multiset(s) == multiset(t)
    requires Orders(less) && forall x :: !less(x, x)
    ensures s == t
    decreases |s|
  {
    assert |s| == |multiset(s)| == |multiset(t)| == |t|;
    if s != [] {
      SameMembers(s, t);
      FirstLeads(s, t[0], less);
      FirstLeads(t, s[0], less);
      assert s[0] == t[0];
      Tail(s);
      Tail(t);
      AscendingIsUnique(s[1..], t[1..], less);
    }
  }

  lemma Tail<T>(s: seq<T>)
    requires s != []
    ensures s == [s[0]] + s[1..] && multiset(s[1..]) == multiset(s) - multiset{s[0]}
  {
    assert s == [s[0]] + s[1..];
  }

  lemma FirstLeads<T>(s: seq<T>, c: T, less: (T, T) -> bool)
    requires Ascending(s, less) && c in s
    ensures s[0] == c || less(s[0], c)
  {
    var i :| 0 <= i < |s| && s[i] == c;
  }

  /** Two rankings of the same candidates are the same list. */
  lemma RankingIsUnique(s: seq<Candidate>, t: seq<Candidate>, cfg: Settings, ctx: Context)
    requires Ranked(s, cfg, ctx) && Ranked(t, cfg, ctx) && multiset(s) == multiset(t)
    ensures s == t
  {
    var less := (a, b) => CandidateLess(a, b, cfg, ctx);
    LessOrders(cfg, ctx);
    forall x ensures !less(x, x) {
      LessIsStrict(x, cfg, ctx);
    }
    assert Ascending(s, less) && Ascending(t, less);
    AscendingIsUnique(s, t, less);
  }

  ghost predicate Ascending<T>(s: seq<T>, less: (T, T) -> bool) {
    forall i, j | 0 <= i < j < |s| :: less(s[i], s[j])
  }

  ghost predicate Orders<T(!new)>(less: (T, T) -> bool) {
    forall x, y, z :: less(x, y) && less(y, z) ==> less(x, z)
  }

  // Any two of the members, at different places, compare.
  ghost predicate Compares<T(!new)>(m: multiset<T>, less: (T, T) -> bool) {
    forall x, y | x in m && y in m - multiset{x} :: less(x, y) || less(y, x)
  }

  lemma ComparesAt<T(!new)>(s: seq<T>, i: nat, j: nat, less: (T, T) -> bool)
    requires Compares(multiset(s), less) && i < j < |s|
    ensures less(s[i], s[j]) || less(s[j], s[i])
  {
    assert s == s[..i] + [s[i]] + s[i + 1..];
    assert s[j] in s[i + 1..] by { assert s[i + 1..][j - i - 1] == s[j]; }
    assert multiset(s) - multiset{s[i]} == multiset(s[..i]) + multiset(s[i + 1..]);
    assert s[j] in multiset(s) - multiset{s[i]};
  }

  // The first i + 1 elements ascend, but for the one sinking at j.
  ghost predicate Sinking<T>(s: seq<T>, i: nat, j: nat, less: (T, T) -> bool) {
    && j <= i < |s|
    && (forall p, q | 0 <= p < q <= i && p != j && q != j :: less(s[p], s[q]))
    && forall q | j < q <= i :: less(s[j], s[q])
  }

  function Swapped<T>(s: seq<T>, j: nat): seq<T>
    requires 0 < j < |s|
  {
    s[j := s[j - 1]][j - 1 := s[j]]
  }

  lemma SwapSinks<T>(s: seq<T>, i: nat, j: nat, less: (T, T) -> bool)
    requires Sinking(s, i, j, less) && j > 0 && less(s[j], s[j - 1])
    ensures Sinking(Swapped(s, j), i, j - 1, less) && multiset(Swapped(s, j)) == multiset(s)
  {
  }

  method SwapDown<T>(a: array<T>, j: nat)
    requires 0 < j < a.Length
    modifies a
    ensures a[..] == Swapped(old(a[..]), j)
  {
    a[j], a[j - 1] := a[j - 1], a[j];
  }

  lemma SunkAscends<T(!new)>(s: seq<T>, i: nat, j: nat, less: (T, T) -> bool)
    requires Sinking(s, i, j, less) && Orders(less) && Compares(multiset(s), less)
    requires j > 0 ==> !less(s[j], s[j - 1])
    ensures Ascending(s[..i + 1], less)
  {
    forall p | 0 <= p < j ensures less(s[p], s[j]) {
      ComparesAt(s, j - 1, j, less);
      if p < j - 1 {
        assert less(s[p], s[j - 1]) && less(s[j - 1], s[j]);
      }
    }
  }

  // Insert the i-th element into the ascending ones before it.
  method Sink<T(!new)>(a: array<T>, i: nat, less: (T, T) -> bool)
    requires i < a.Length && Orders(less) && Compares(multiset(a[..]), less) && Ascending(a[..i], less)
    modifies a
    ensures multiset(a[..]) == multiset(old(a[..])) && Ascending(a[..i + 1], less)
  {
    var j := i;
    assert Sinking(a[..], i, i, less) by {
      assert forall p, q | 0 <= p < q < i :: less(a[..i][p], a[..i][q]);
    }
    while j > 0 && less(a[j], a[j - 1])
      invariant 0 <= j <= i
      invariant multiset(a[..]) == multiset(old(a[..]))
      invariant Sinking(a[..], i, j, less)
    {
      ghost var s := a[..];
      SwapSinks(s, i, j, less);
      SwapDown(a, j);
      j := j - 1;
    }
    SunkAscends(a[..], i, j, less);
  }

  method InsertionSort<T(!new)>(a: array<T>, less: (T, T) -> bool)
    requires Orders(less) && Compares(multiset(a[..]), less)
    modifies a
    ensures multiset(a[..]) == multiset(old(a[..])) && Ascending(a[..], less)
  {
    var i := 0;
    while i < a.Length
      invariant 0 <= i <= a.Length
      invariant multiset(a[..]) == multiset(old(a[..])) && Ascending(a[..i], less)
    {
      Sink(a, i, less);
      i := i + 1;
    }
    assert a[..a.Length] == a[..];
  }

  lemma LessOrders(cfg: Settings, ctx: Context)
    ensures Orders((a, b) => CandidateLess(a, b, cfg, ctx))
  {
    forall x, y, z | CandidateLess(x, y, cfg, ctx) && CandidateLess(y, z, cfg, ctx) ensures CandidateLess(x, z, cfg, ctx) {
      LessIsTransitive(x, y, z, cfg, ctx);
    }
  }

  lemma LessCompares(s: seq<Candidate>, cfg: Settings, ctx: Context)
    requires DistinctIds(s)
    ensures Compares(multiset(s), (a, b) => CandidateLess(a, b, cfg, ctx))
  {
    forall x, y | x in multiset(s) && y in multiset(s) - multiset{x}
      ensures CandidateLess(x, y, cfg, ctx) || CandidateLess(y, x, cfg, ctx)
    {
      DistinctMembers(s, x, y);
      LessIsTotal(x, y, cfg, ctx);
    }
  }

  lemma DistinctMembers(s: seq<Candidate>, x: Candidate, y: Candidate)
    requires DistinctIds(s) && x in multiset(s) && y in multiset(s) - multiset{x}
    ensures x.id != y.id
  {
    var i :| 0 <= i < |s| && s[i] == x;
    assert s == s[..i] + [s[i]] + s[i + 1..];
    assert multiset(s) - multiset{x} == multiset(s[..i]) + multiset(s[i + 1..]);
    if y in multiset(s[..i]) {
      var j :| 0 <= j < i && s[j] == y;
    } else {
      assert y in s[i + 1..];
      var j :| 0 <= j < |s[i + 1..]| && s[i + 1..][j] == y;
      assert s[i + 1 + j] == y;
    }
  }

  /** Sorting in place: a ranking of exactly the given candidates, under the pool's own
      context. */
  method SortCandidates(choices: array<Candidate>, cfg: Settings) returns (ghost ctx: Context)
    requires DistinctIds(choices[..])
    modifies choices
    ensures multiset(choices[..]) == multiset(old(choices[..]))
    ensures IsContext(old(choices[..]), cfg, ctx) && Ranked(choices[..], cfg, ctx)
  {
    var c := NewSortContext(choices[..], cfg);
    LessOrders(cfg, c);
    LessCompares(choices[..], cfg, c);
    InsertionSort(choices, (a, b) => CandidateLess(a, b, cfg, c));
    ctx := c;
  }

  /** The input order is irrelevant: any two orders of the same candidates, with the
      contexts computed from each, rank to the same list. */
  lemma InputOrderIsIrrelevant(a: seq<Candidate>, b: seq<Candidate>, cfg: Settings, x: Context, y: Context,
                               s: seq<Candidate>, t: seq<Candidate>)
    requires multiset(a) == multiset(b)
    requires IsContext(a, cfg, x) && IsContext(b, cfg, y)
    requires multiset(s) == multiset(a) && Ranked(s, cfg, x)
    requires multiset(t) == multiset(b) && Ranked(t, cfg, y)
    ensures x == y && s == t
  {
    SameMembers(a, b);
    ContextIsUnique(a, b, cfg, x, y);
    RankingIsUnique(s, t, cfg, x);
  }

  // ------------------------------------------------------------------ priority groups

  function GroupAt(choices: seq<Candidate>, best: Priority): seq<Candidate>
    decreases |choices|
  {
    if choices == [] then []
    else
      var n := |choices| - 1;
      var rest := GroupAt(choices[..n], best);
      if ComparePriority(choices[n].priority, best) == 0 then rest + [choices[n]] else rest
  }

  function Others(choices: seq<Candidate>, best: Priority): seq<Candidate>
    decreases |choices|
  {
    if choices == [] then []
    else
      var n := |choices| - 1;
      var rest := Others(choices[..n], best);
      if ComparePriority(choices[n].priority, best) != 0 then rest + [choices[n]] else rest
  }

  /** Group and remainder split the candidates and keep their order. */
  lemma {:induction false} GroupsPartition(choices: seq<Candidate>, best: Priority)
    ensures multiset(GroupAt(choices, best)) + multiset(Others(choices, best)) == multiset(choices)
    ensures forall c :: c in GroupAt(choices, best) <==> c in choices && ComparePriority(c.priority, best) == 0
    ensures forall c :: c in Others(choices, best) <==> c in choices && ComparePriority(c.priority, best) != 0
    decreases |choices|
  {
    if choices != [] {
      var n := |choices| - 1;
      GroupsPartition(choices[..n], best);
      assert choices == choices[..n] + [choices[n]];
    }
  }

  lemma PriorityTransitive(a: Priority, b: Priority, c: Priority)
    ensures ComparePriority(a, b) <= 0 && ComparePriority(b, c) <= 0 ==> ComparePriority(a, c) <= 0
    ensures ComparePriority(a, b) == -ComparePriority(b, a)
    ensures ComparePriority(a, b) == 0 <==> a == b
  {
  }

  /** The next group: exactly the candidates of the best priority, in order; every
      candidate left is strictly worse, so repeated groups ascend and end. */
  method NextGroup(choices: seq<Candidate>) returns (group: seq<Candidate>, remaining: seq<Candidate>)
    ensures choices == [] ==> group == [] && remaining == []
    ensures choices != [] ==> exists best: Priority ::
      && group == GroupAt(choices, best) && remaining == Others(choices, best) && group != []
      && forall c :: c in choices ==> ComparePriority(best, c.priority) <= 0
    ensures forall c, d :: c in group && d in remaining ==> ComparePriority(d.priority, c.priority) > 0
    ensures choices != [] ==> |remaining| < |choices|
  {
    group, remaining := [], [];
    if choices == [] {
      return;
    }
    var best := choices[0].priority;
    for i := 1 to |choices|
      invariant exists k :: 0 <= k < i && choices[k].priority == best
      invariant forall k | 0 <= k < i :: ComparePriority(best, choices[k].priority) <= 0
    {
      if ComparePriority(choices[i].priority, best) < 0 {
        forall k | 0 <= k < i ensures ComparePriority(choices[i].priority, choices[k].priority) <= 0 {
          PriorityTransitive(choices[i].priority, best, choices[k].priority);
        }
        PriorityTransitive(choices[i].priority, choices[i].priority, best);
        best := choices[i].priority;
      } else {
        PriorityTransitive(choices[i].priority, best, best);
      }
    }
    for i := 0 to |choices|
      invariant group == GroupAt(choices[..i], best) && remaining == Others(choices[..i], best)
    {
      assert choices[..i + 1][..i] == choices[..i];
      if ComparePriority(choices[i].priority, best) == 0 {
        group := group + [choices[i]];
      } else {
        remaining := remaining + [choices[i]];
      }
    }
    assert choices[..|choices|] == choices;
    GroupsPartition(choices, best);
    SplitIsStrict(choices, best);
    forall c, d | c in group && d in remaining ensures ComparePriority(d.priority, c.priority) > 0 {
      PriorityTransitive(d.priority, c.priority, best);
      PriorityTransitive(best, d.priority, c.priority);
      PriorityTransitive(c.priority, best, best);
    }
  }

  lemma SplitIsStrict(choices: seq<Candidate>, best: Priority)
    requires exists k :: 0 <= k < |choices| && choices[k].priority == best
    ensures GroupAt(choices, best) != [] && |Others(choices, best)| < |choices|
  {
    GroupsPartition(choices, best);
    var k :| 0 <= k < |choices| && choices[k].priority == best;
    PriorityTransitive(best, best, best);
    assert choices[k] in GroupAt(choices, best);
    assert |multiset(choices)| == |GroupAt(choices, best)| + |Others(choices, best)|;
  }

  // --------------------------------------------------------------------- deadlines

  // A quota window: its reset may be a provider placeholder, its cycle may be running.
  datatype Window = Window(windowClass: string, resetAt: int, placeholder: bool, started: bool)

  predicate Open(w: Window, windowClass: string, now: int) {
    w.windowClass == windowClass && (w.resetAt == 0 || w.resetAt > now)
  }

  predicate Confirmed(w: Window, windowClass: string, now: int) {
    Open(w, windowClass, now) && !w.placeholder && w.resetAt != 0 && w.started
  }

  // Kind 0 with the earliest confirmed reset, else 1 for a placeholder, else 2.
  ghost predicate IsDeadline(windows: seq<Window>, windowClass: string, now: int, kind: int, resetAt: int) {
    if exists w :: w in windows && Confirmed(w, windowClass, now) then
      && kind == 0 && (exists w :: w in windows && Confirmed(w, windowClass, now) && w.resetAt == resetAt)
      && forall w :: w in windows && Confirmed(w, windowClass, now) ==> resetAt <= w.resetAt
    else
      && resetAt == 0
      && kind == if exists w :: w in windows && Open(w, windowClass, now) && w.placeholder then 1 else 2
  }

  /** A candidate's priority does not depend on the order of its windows. */
  method PriorityFor(c: Candidate, quotaKnown: bool, eligible: bool, windows: seq<Window>, cfg: Settings, now: int) returns (p: Priority)
    requires now > 0
    ensures var windowClass := if quotaKnown then c.windowClass else "unknown";
            && IsDeadline(windows, windowClass, now, p.deadlineKind, p.resetAt)
            && p.windowRank == RankOf(windowClass, cfg.order)
    ensures p.tier == (if !quotaKnown then 1 else if !eligible then 2 else 0) && p.weeklyProtected == c.weeklyProtected
  {
    var windowClass, tier := c.windowClass, 0;
    if !quotaKnown {
      tier, windowClass := 1, "unknown";
    } else if !eligible {
      tier := 2;
    }
    var kind, resetAt := 2, 0;
    for i := 0 to |windows|
      invariant IsDeadline(windows[..i], windowClass, now, kind, resetAt)
    {
      var w := windows[i];
      ghost var before, at := kind, resetAt;
      if Open(w, windowClass, now) {
        if w.placeholder {
          if kind > 1 {
            kind := 1;
          }
        } else if w.resetAt != 0 && w.started && (resetAt == 0 || w.resetAt < resetAt) {
          kind, resetAt := 0, w.resetAt;
        }
      }
      DeadlineGrows(windows[..i], w, windowClass, now, before, at, kind, resetAt);
      assert windows[..i + 1] == windows[..i] + [w];
    }
    assert windows[..|windows|] == windows;
    return Priority(tier, RankOf(windowClass, cfg.order), kind, resetAt, c.weeklyProtected);
  }

  lemma DeadlineGrows(windows: seq<Window>, w: Window, windowClass: string, now: int, kind: int, at: int, nextKind: int, nextAt: int)
    requires IsDeadline(windows, windowClass, now, kind, at) && now > 0
    requires if Confirmed(w, windowClass, now) && (at == 0 || w.resetAt < at) then nextKind == 0 && nextAt == w.resetAt
             else if Open(w, windowClass, now) && w.placeholder && kind > 1 then nextKind == 1 && nextAt == at
             else nextKind == kind && nextAt == at
    ensures IsDeadline(windows + [w], windowClass, now, nextKind, nextAt)
  {
    var all := windows + [w];
    assert w in all && forall x :: x in all <==> x in windows || x == w;
    if exists x :: x in windows && Confirmed(x, windowClass, now) {
      var x :| x in windows && Confirmed(x, windowClass, now) && x.resetAt == at;
      assert x in all;
    }
    if v :| v in windows && Open(v, windowClass, now) && v.placeholder {
      assert v in all;
    }
  }

  // A running window of the class with a known reset ahead, and a live placeholder.
  predicate Resets(w: Window, windowClass: string, now: int) {
    w.windowClass == windowClass && w.started && !w.placeholder && w.resetAt > now
  }

  predicate Stands(w: Window, windowClass: string, now: int) {
    w.windowClass == windowClass && w.placeholder && (w.resetAt == 0 || now < w.resetAt)
  }

  /** The deadline of a class: the soonest reset of its running windows that is known and
      still ahead; a placeholder ranks after every known one, and nothing known last. */
  lemma DeadlineMeans(windows: seq<Window>, windowClass: string, now: int, kind: int, resetAt: int)
    requires now > 0 && IsDeadline(windows, windowClass, now, kind, resetAt)
    ensures kind == 0 <==> exists w :: w in windows && Resets(w, windowClass, now)
    ensures kind == 0 ==> (exists w :: w in windows && Resets(w, windowClass, now) && w.resetAt == resetAt)
                          && forall w | w in windows && Resets(w, windowClass, now) :: resetAt <= w.resetAt
    ensures kind == 1 <==> (forall w | w in windows :: !Resets(w, windowClass, now)) && exists w :: w in windows && Stands(w, windowClass, now)
    ensures kind in {0, 1, 2} && (kind > 0 ==> resetAt == 0)
  {
    forall w | w in windows ensures Confirmed(w, windowClass, now) <==> Resets(w, windowClass, now) {
    }
    forall w | w in windows ensures Open(w, windowClass, now) && w.placeholder <==> Stands(w, windowClass, now) {
    }
  }

  lemma DeadlineIsUnique(a: seq<Window>, b: seq<Window>, windowClass: string, now: int, k: int, x: int, l: int, y: int)
    requires forall w :: w in a <==> w in b
    requires IsDeadline(a, windowClass, now, k, x) && IsDeadline(b, windowClass, now, l, y)
    ensures k == l && x == y
  {
  }
}
