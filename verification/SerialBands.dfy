/**
 What the tiers of the serial ranking mean for the pool: bands below its largest weekly
 remainder, or below the largest budget of a group, and their effect on the order.
 */
module SerialBands {
  import opened SerialRanking
  import Text

  // ------------------------------------------------------------------- arithmetic

  // The height of n bands.
  function Bands(n: int, band: real): real { n as real * band }

  // x lies between n and n + 1 whole bands.
  predicate InBand(n: int, x: real, band: real) { Bands(n, band) <= x < Bands(n + 1, band) }

  lemma MoreBands(m: int, n: int, band: real)
    requires band > 0.0 && m <= n
    ensures Bands(m, band) <= Bands(n, band)
  {
    assert ((n - m) as real) * band >= 0.0;
    assert n as real == m as real + (n - m) as real;
  }

  lemma OneMoreBand(n: int, band: real)
    ensures Bands(n + 1, band) == Bands(n, band) + band
    ensures Bands(0, band) == 0.0 && Bands(1, band) == band
  {
  }

  lemma UnderBands(q: real, n: int, band: real)
    requires band > 0.0
    ensures n as real <= q ==> Bands(n, band) <= q * band
    ensures q < n as real ==> q * band < Bands(n, band)
  {
    var r := n as real;
    if r <= q {
      assert (q - r) * band >= 0.0;
    } else {
      assert (r - q) * band > 0.0;
    }
  }

  lemma Quotient(x: real, band: real)
    requires band > 0.0
    ensures x / band * band == x
  {
  }

  // A floored quotient counts the whole bands.
  lemma FlooredBand(x: real, band: real)
    requires band > 0.0
    ensures InBand((x / band).Floor, x, band)
  {
    Quotient(x, band);
    UnderBands(x / band, (x / band).Floor, band);
    UnderBands(x / band, (x / band).Floor + 1, band);
  }

  lemma NextBand(n: int, x: real, band: real)
    requires InBand(n, x, band)
    ensures InBand(n + 1, x + band, band)
  {
    OneMoreBand(n, band);
    OneMoreBand(n + 1, band);
  }

  lemma BandsGrow(m: int, n: int, x: real, y: real, band: real)
    requires band > 0.0 && InBand(m, x, band) && InBand(n, y, band) && x <= y
    ensures m <= n
  {
    if n + 1 <= m {
      MoreBands(n + 1, m, band);
    }
  }

  lemma BandBoundary(m: int, n: int, x: real, y: real, band: real, at: int)
    requires band > 0.0 && InBand(m, x, band) && InBand(n, y, band) && x < Bands(at, band) <= y
    ensures m < at <= n
  {
    if at <= m {
      MoreBands(at, m, band);
    }
    if n + 1 <= at {
      MoreBands(n + 1, at, band);
    }
  }

  // ------------------------------------------------------------------ weekly bands

  // The largest remainder among the candidates of one protection.
  ghost predicate Fullest(choices: seq<Candidate>, guarded: bool, best: real) {
    && (exists c :: c in choices && c.weeklyKnown && c.weeklyProtected == guarded && c.weeklyRemaining == best)
    && forall c :: c in choices && c.weeklyKnown && c.weeklyProtected == guarded ==> c.weeklyRemaining <= best
  }

  function BandOf(cfg: Settings): real { if cfg.hysteresis > 0.0 then cfg.hysteresis else 0.0 }

  /** Every candidate within the band of the fullest of its protection is in the first
      tier; further down the tier counts the whole bands, or without a band the started
      thousandths, that it lies below. */
  lemma TierIsBand(choices: seq<Candidate>, cfg: Settings, ctx: Context, c: Candidate, best: real)
    requires IsContext(choices, cfg, ctx) && c in choices && c.weeklyKnown && Fullest(choices, c.weeklyProtected, best)
    ensures var n, below, band := BalanceTier(c, ctx), best - c.weeklyRemaining, BandOf(cfg);
            && (n == 0 <==> below <= band)
            && (below > band > 0.0 ==> n >= 1 && InBand(n, below, band))
            && (below > band == 0.0 ==> n >= 1 && (n - 1) as real < below * 1000.0 <= n as real)
  {
    var below, band := best - c.weeklyRemaining, BandOf(cfg);
    assert BestRemaining(c, ctx) == best && ctx.band == band;
    if below > band > 0.0 {
      FlooredBand(below - band, band);
      NextBand(((below - band) / band).Floor, below - band, band);
    }
  }

  /** Less left never gives a smaller tier. */
  lemma TierIsMonotone(choices: seq<Candidate>, cfg: Settings, ctx: Context, c: Candidate, d: Candidate, best: real)
    requires IsContext(choices, cfg, ctx) && c in choices && d in choices && c.weeklyKnown && d.weeklyKnown
    requires c.weeklyProtected == d.weeklyProtected && Fullest(choices, c.weeklyProtected, best)
    requires c.weeklyRemaining >= d.weeklyRemaining
    ensures BalanceTier(c, ctx) <= BalanceTier(d, ctx)
  {
    var band, m, n := BandOf(cfg), BalanceTier(c, ctx), BalanceTier(d, ctx);
    TierIsBand(choices, cfg, ctx, c, best);
    TierIsBand(choices, cfg, ctx, d, best);
    if m >= 1 && band > 0.0 {
      BandsGrow(m, n, best - c.weeklyRemaining, best - d.weeklyRemaining, band);
    }
  }

  // The boundary of a band lies between the two distances from the fullest.
  predicate Parted(x: real, y: real, band: real, n: nat) {
    if n <= 1 then x <= band < y else x < Bands(n, band) <= y // a distance of one band itself is in the first tier
  }

  lemma PartedTiers(choices: seq<Candidate>, cfg: Settings, ctx: Context, c: Candidate, d: Candidate, best: real, n: nat)
    requires IsContext(choices, cfg, ctx) && c in choices && d in choices && c.weeklyKnown && d.weeklyKnown
    requires c.weeklyProtected == d.weeklyProtected && Fullest(choices, c.weeklyProtected, best)
    requires BandOf(cfg) > 0.0 && Parted(best - c.weeklyRemaining, best - d.weeklyRemaining, BandOf(cfg), n)
    ensures BalanceTier(c, ctx) < BalanceTier(d, ctx)
  {
    TierIsBand(choices, cfg, ctx, c, best);
    TierIsBand(choices, cfg, ctx, d, best);
    PartedInts(BalanceTier(c, ctx), BalanceTier(d, ctx), best - c.weeklyRemaining, best - d.weeklyRemaining, BandOf(cfg), n);
  }

  lemma PartedInts(k: int, l: int, x: real, y: real, band: real, n: nat)
    requires band > 0.0 && 0.0 <= x && Parted(x, y, band, n)
    requires (k == 0 <==> x <= band) && (x > band ==> k >= 1 && InBand(k, x, band))
    requires (l == 0 <==> y <= band) && (y > band ==> l >= 1 && InBand(l, y, band))
    ensures k < l
  {
    if n > 1 {
      MoreBands(2, n, band);
      OneMoreBand(1, band);
      if x > band {
        BandBoundary(k, l, x, y, band, n);
      }
    }
  }

  // Everything the comparator looks at before the weekly tiers.
  predicate AlikeSoFar(c: Candidate, d: Candidate, cfg: Settings) {
    && c.priority == d.priority && c.weeklyProtected == d.weeklyProtected && c.weeklyKnown == d.weeklyKnown
    && RankOf(c.windowClass, cfg.order) == RankOf(d.windowClass, cfg.order)
  }

  lemma EarlierIfLess(s: seq<Candidate>, cfg: Settings, ctx: Context, i: nat, j: nat)
    requires Ranked(s, cfg, ctx) && i < |s| && j < |s| && CandidateLess(s[i], s[j], cfg, ctx)
    ensures i < j
  {
    if j < i {
      LessIsTransitive(s[j], s[i], s[j], cfg, ctx);
    }
    LessIsStrict(s[j], cfg, ctx);
  }

  /** Without budgets, of two candidates alike so far whose remainders lie in different
      bands below the fullest, the fuller one comes first in the ranking. */
  lemma FullerBandFirst(choices: seq<Candidate>, s: seq<Candidate>, cfg: Settings, ctx: Context, i: nat, j: nat, best: real, n: nat)
    requires IsContext(choices, cfg, ctx) && multiset(s) == multiset(choices) && Ranked(s, cfg, ctx) && !cfg.budgets
    requires i < |s| && j < |s| && AlikeSoFar(s[i], s[j], cfg) && s[i].weeklyKnown
    requires Fullest(choices, s[i].weeklyProtected, best) && BandOf(cfg) > 0.0
    requires Parted(best - s[i].weeklyRemaining, best - s[j].weeklyRemaining, BandOf(cfg), n)
    ensures i < j
  {
    SameMembers(s, choices);
    assert s[i] in choices && s[j] in choices;
    PartedTiers(choices, cfg, ctx, s[i], s[j], best, n);
    EarlierIfLess(s, cfg, ctx, i, j);
  }

  /** So a candidate with more than a whole band more left always comes first, and
      without a band one with a thousandth more. */
  lemma MuchFullerFirst(choices: seq<Candidate>, s: seq<Candidate>, cfg: Settings, ctx: Context, i: nat, j: nat)
    requires IsContext(choices, cfg, ctx) && multiset(s) == multiset(choices) && Ranked(s, cfg, ctx) && !cfg.budgets
    requires i < |s| && j < |s| && AlikeSoFar(s[i], s[j], cfg) && s[i].weeklyKnown
    requires var more := s[i].weeklyRemaining - s[j].weeklyRemaining;
             more > BandOf(cfg) && (BandOf(cfg) == 0.0 ==> more >= 0.001)
    ensures i < j
  {
    SameMembers(s, choices);
    assert s[i] in choices && s[j] in choices;
    var best := BestRemaining(s[i], ctx);
    assert Fullest(choices, s[i].weeklyProtected, best);
    TierIsBand(choices, cfg, ctx, s[i], best);
    TierIsBand(choices, cfg, ctx, s[j], best);
    var band, k, l := BandOf(cfg), BalanceTier(s[i], ctx), BalanceTier(s[j], ctx);
    if band > 0.0 && k >= 1 {
      NextBand(k, best - s[i].weeklyRemaining, band);
      BandsGrow(k + 1, l, best - s[i].weeklyRemaining + band, best - s[j].weeklyRemaining, band);
    }
    EarlierIfLess(s, cfg, ctx, i, j);
  }

  // ------------------------------------------------------------------ budget bands

  // The largest positive budget of a group, or zero.
  ghost predicate Richest(choices: seq<Candidate>, windowClass: string, guarded: bool, best: real) {
    && (forall c :: c in choices && c.weeklyKnown && c.budgetKnown && c.windowClass == windowClass && c.weeklyProtected == guarded ==>
                      c.budgetPerDay <= best)
    && (best == 0.0 || exists c :: c in choices && c.weeklyKnown && c.budgetKnown && c.windowClass == windowClass
                                   && c.weeklyProtected == guarded && c.budgetPerDay == best > 0.0)
  }

  function BudgetBand(best: real): real { if best > 0.00002 then best / 20.0 else 0.000001 }

  /** A budget tier counts the whole bands of 5% of the group's largest budget that the
      candidate lies below it. */
  lemma BudgetTierIsBand(choices: seq<Candidate>, cfg: Settings, ctx: Context, c: Candidate, best: real)
    requires IsContext(choices, cfg, ctx) && c in choices && c.weeklyKnown && c.budgetKnown
    requires Richest(choices, c.windowClass, c.weeklyProtected, best)
    ensures var n, band := BudgetTier(c, ctx), BudgetBand(best);
            n >= 0 && InBand(n, best - c.budgetPerDay, band)
  {
    RichestIsBest(choices, cfg, ctx, c, best);
    var band := BudgetBand(best);
    FlooredBand(best - c.budgetPerDay, band);
    OneMoreBand(0, band);
    BandsGrow(0, ((best - c.budgetPerDay) / band).Floor, 0.0, best - c.budgetPerDay, band);
  }

  lemma RichestIsBest(choices: seq<Candidate>, cfg: Settings, ctx: Context, c: Candidate, best: real)
    requires IsContext(choices, cfg, ctx) && c in choices && c.weeklyKnown && c.budgetKnown
    requires Richest(choices, c.windowClass, c.weeklyProtected, best)
    ensures BestBudget(c, ctx) == best && c.budgetPerDay <= best
  {
    var g := GroupOf(c);
    if best > 0.0 {
      var w :| w in choices && w.weeklyKnown && w.budgetKnown && w.windowClass == c.windowClass
               && w.weeklyProtected == c.weeklyProtected && w.budgetPerDay == best;
      assert Budgets(w, g) && GroupOf(w) in ctx.budgets;
    }
    if g in ctx.budgets {
      var v :| v in choices && Budgets(v, g) && v.budgetPerDay == ctx.budgets[g];
    }
  }

  /** With budgets, of two candidates alike so far in one group, the one whose budget is
      larger by at least a band comes first. */
  lemma RicherFirst(choices: seq<Candidate>, s: seq<Candidate>, cfg: Settings, ctx: Context, i: nat, j: nat, best: real)
    requires IsContext(choices, cfg, ctx) && multiset(s) == multiset(choices) && Ranked(s, cfg, ctx) && cfg.budgets
    requires i < |s| && j < |s| && AlikeSoFar(s[i], s[j], cfg) && s[i].windowClass == s[j].windowClass
    requires s[i].weeklyKnown && s[i].budgetKnown && s[j].budgetKnown
    requires Richest(choices, s[i].windowClass, s[i].weeklyProtected, best)
    requires s[i].budgetPerDay - s[j].budgetPerDay >= BudgetBand(best)
    ensures i < j
  {
    SameMembers(s, choices);
    assert s[i] in choices && s[j] in choices;
    BudgetTierIsBand(choices, cfg, ctx, s[i], best);
    BudgetTierIsBand(choices, cfg, ctx, s[j], best);
    var band, k, l := BudgetBand(best), BudgetTier(s[i], ctx), BudgetTier(s[j], ctx);
    NextBand(k, best - s[i].budgetPerDay, band);
    BandsGrow(k + 1, l, best - s[i].budgetPerDay + band, best - s[j].budgetPerDay, band);
    EarlierIfLess(s, cfg, ctx, i, j);
  }

  // ---------------------------------------------------------------- level by level

  /** What comes before the tiers: the better deadline, then the unprotected candidate,
      then the class that ranks first, then the one whose week is known. */
  lemma FirstLevels(a: Candidate, b: Candidate, cfg: Settings, ctx: Context)
    ensures Sooner(a.priority, b.priority) ==> CandidateLess(a, b, cfg, ctx)
    ensures a.priority == b.priority && !a.weeklyProtected && b.weeklyProtected ==> CandidateLess(a, b, cfg, ctx)
    ensures var before := a.priority == b.priority && a.weeklyProtected == b.weeklyProtected;
            before && RankOf(a.windowClass, cfg.order) < RankOf(b.windowClass, cfg.order) ==> CandidateLess(a, b, cfg, ctx)
    ensures AlikeSoFar(a, b.(weeklyKnown := a.weeklyKnown), cfg) && a.weeklyKnown && !b.weeklyKnown ==> CandidateLess(a, b, cfg, ctx)
    ensures AlikeSoFar(a, b, cfg) && cfg.budgets && a.budgetKnown && !b.budgetKnown ==> CandidateLess(a, b, cfg, ctx)
  {
  }

  // The smaller pool, then the class in front, then a known reset, the sooner one, and
  // no weekly protection.
  predicate Sooner(p: Priority, q: Priority) {
    || p.tier < q.tier
    || (p.tier == q.tier && p.windowRank < q.windowRank)
    || (p.tier == q.tier && p.windowRank == q.windowRank && p.deadlineKind < q.deadlineKind)
    || (p.tier == q.tier && p.windowRank == q.windowRank && p.deadlineKind == q.deadlineKind && p.resetAt < q.resetAt)
    || (p == q.(weeklyProtected := false) && q.weeklyProtected)
  }

  // Alike up to and with the tiers.
  predicate SameTier(a: Candidate, b: Candidate, cfg: Settings, ctx: Context) {
    && AlikeSoFar(a, b, cfg)
    && if cfg.budgets then a.budgetKnown == b.budgetKnown && BudgetTier(a, ctx) == BudgetTier(b, ctx)
       else BalanceTier(a, ctx) == BalanceTier(b, ctx)
  }

  predicate SameCycle(a: Candidate, b: Candidate, cfg: Settings) {
    && a.fiveHourActive == b.fiveHourActive && (a.fiveHourActive ==> a.fiveHourResetAt == b.fiveHourResetAt)
    && (cfg.budgets ==> a.headroom == b.headroom)
  }

  predicate SameUse(a: Candidate, b: Candidate, cfg: Settings) {
    && SameCycle(a, b, cfg) && a.fiveHourKnown == b.fiveHourKnown && (a.fiveHourKnown ==> a.fiveHourUsed == b.fiveHourUsed)
    && a.draining == b.draining
  }

  /** Within a tier: a running five-hour cycle, and of two the one that resets sooner; with
      budgets the one with more room; the one whose five hours are known, and less used;
      and one that drains. */
  lemma FiveHourLevelsAre(a: Candidate, b: Candidate, cfg: Settings, ctx: Context)
    requires SameTier(a, b, cfg, ctx)
    ensures a.fiveHourActive && !b.fiveHourActive ==> CandidateLess(a, b, cfg, ctx)
    ensures a.fiveHourActive && b.fiveHourActive && a.fiveHourResetAt < b.fiveHourResetAt ==> CandidateLess(a, b, cfg, ctx)
    ensures cfg.budgets && SameCycle(a, b.(headroom := a.headroom), cfg) && a.headroom > b.headroom ==> CandidateLess(a, b, cfg, ctx)
    ensures SameCycle(a, b, cfg) && a.fiveHourKnown && !b.fiveHourKnown ==> CandidateLess(a, b, cfg, ctx)
    ensures SameCycle(a, b, cfg) && a.fiveHourKnown && b.fiveHourKnown && a.fiveHourUsed < b.fiveHourUsed ==> CandidateLess(a, b, cfg, ctx)
    ensures SameUse(a, b.(draining := a.draining), cfg) && a.draining && !b.draining ==> CandidateLess(a, b, cfg, ctx)
  {
  }

  /** Among equals so far: more reset credits if they are preferred; more left of the
      week; a running cycle if that is preferred; the lower worst window; never selected,
      or longest ago; the host's higher priority; and at last the smaller name. */
  lemma LastLevelsAre(a: Candidate, b: Candidate, cfg: Settings, ctx: Context)
    requires SameTier(a, b, cfg, ctx) && SameUse(a, b, cfg)
    ensures var credits := cfg.preferCredits ==> a.resetCredits == b.resetCredits;
            var left := credits && (a.weeklyKnown ==> a.weeklyRemaining == b.weeklyRemaining);
            var active := left && (cfg.preferActive ==> a.cycleActive == b.cycleActive);
            var worst := active && a.maxUsed == b.maxUsed;
            var turn := worst && a.lastSelectedAt == b.lastSelectedAt;
            && (cfg.preferCredits && a.resetCredits > b.resetCredits ==> CandidateLess(a, b, cfg, ctx))
            && (credits && a.weeklyKnown && a.weeklyRemaining > b.weeklyRemaining ==> CandidateLess(a, b, cfg, ctx))
            && (left && cfg.preferActive && a.cycleActive && !b.cycleActive ==> CandidateLess(a, b, cfg, ctx))
            && (active && a.maxUsed < b.maxUsed ==> CandidateLess(a, b, cfg, ctx))
            && (worst && a.lastSelectedAt == 0 && b.lastSelectedAt != 0 ==> CandidateLess(a, b, cfg, ctx))
            && (worst && a.lastSelectedAt != 0 && b.lastSelectedAt != 0 && a.lastSelectedAt < b.lastSelectedAt ==> CandidateLess(a, b, cfg, ctx))
            && (turn && a.hostPriority > b.hostPriority ==> CandidateLess(a, b, cfg, ctx))
            && (turn && a.hostPriority == b.hostPriority ==> CandidateLess(a, b, cfg, ctx) == Text.Less(a.id, b.id))
  {
  }

  // ---------------------------------------------------------------- class ranks

  /** A class ranks by its first place in the configured order; all classes that are
      not listed rank alike, ten places after the last. */
  lemma {:induction false} RankIsFirstPlace(windowClass: string, order: seq<string>)
    ensures var n := RankOf(windowClass, order);
            if windowClass in order
            then 0 <= n < |order| && order[n] == windowClass && forall i | 0 <= i < n :: order[i] != windowClass
            else n == |order| + 10
    decreases |order|
  {
    if order != [] && order[0] != windowClass {
      RankIsFirstPlace(windowClass, order[1..]);
    }
  }
}
