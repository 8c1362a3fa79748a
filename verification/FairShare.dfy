/**
 Weighted fair share (balanced.go, adq_runtime.go): every round credits each account its
 share of the cost, and one with the most credit pays it. Weights and cost are exact.
 */
module FairShare {

  function Max(a: real, b: real): real { if a >= b then a else b }

  function Min(a: real, b: real): real { if a <= b then a else b }

  function Sum(s: seq<real>): real
    decreases |s|
  {
    if s == [] then 0.0 else Sum(s[..|s| - 1]) + s[|s| - 1]
  }

  function Limit(cost: real, k: nat): real {
    cost * Max(8.0, (k as real) * 2.0)
  }

  function Clamp(limit: real, x: real): real {
    Max(-limit, Min(limit, x))
  }

  ghost predicate Weights(weights: seq<real>) {
    weights != [] && forall i | 0 <= i < |weights| :: weights[i] > 0.0
  }

  function Gain(cost: real, weight: real, total: real): real
    requires total != 0.0
  {
    cost * weight / total
  }

  // Each account's share of one request's cost.
  function Gains(weights: seq<real>, cost: real): (r: seq<real>)
    requires Sum(weights) != 0.0
    ensures |r| == |weights|
  {
    seq(|weights|, i requires 0 <= i < |weights| => Gain(cost, weights[i], Sum(weights)))
  }

  // One round's credits, before anybody pays.
  function Fill(credit: seq<real>, gains: seq<real>, limit: real): (r: seq<real>)
    requires |credit| == |gains|
    ensures |r| == |credit|
  {
    seq(|credit|, i requires 0 <= i < |credit| => Clamp(limit, credit[i] + gains[i]))
  }

  ghost predicate Top(credit: seq<real>, p: nat) {
    p < |credit| && forall i | 0 <= i < |credit| :: credit[i] <= credit[p]
  }

  // The scan over the candidates: most credit, then least recently picked, then first.
  function Scan(credit: seq<real>, last: seq<int>, n: nat): (p: nat)
    requires 0 < n <= |credit| == |last|
    ensures p < n
  {
    if n == 1 then 0
    else
      var b := Scan(credit, last, n - 1);
      if credit[n - 1] > credit[b] || (credit[n - 1] == credit[b] && last[n - 1] < last[b]) then n - 1 else b
  }

  /** The scan picks an account of maximal credit, of those one picked least recently,
      and of those the first. */
  lemma {:induction false} ScanIsTop(credit: seq<real>, last: seq<int>, n: nat)
    requires 0 < n <= |credit| == |last|
    ensures var p := Scan(credit, last, n);
            forall i | 0 <= i < n ::
              && credit[i] <= credit[p]
              && (credit[i] == credit[p] ==> last[p] <= last[i])
              && (credit[i] == credit[p] && last[i] == last[p] ==> p <= i)
    decreases n
  {
    if n > 1 { ScanIsTop(credit, last, n - 1); }
  }

  // ------------------------------------------------------------------ linear facts

  // n * x as a repeated sum, which keeps the round-by-round argument linear.
  function Times(n: nat, x: real): real
    decreases n
  {
    if n == 0 then 0.0 else Times(n - 1, x) + x
  }

  lemma {:induction false} TimesIsProduct(n: nat, x: real)
    ensures Times(n, x) == n as real * x
    decreases n
  {
    if n > 0 {
      TimesIsProduct(n - 1, x);
      assert (n - 1) as real == n as real - 1.0;
    }
  }

  lemma {:induction false} TimesMono(n: nat, x: real, y: real)
    requires x <= y
    ensures Times(n, x) <= Times(n, y)
    decreases n
  {
    if n > 0 { TimesMono(n - 1, x, y); }
  }

  lemma {:induction false} TimesNegated(n: nat, x: real)
    ensures Times(n, -x) == -Times(n, x)
    decreases n
  {
    if n > 0 { TimesNegated(n - 1, x); }
  }

  lemma {:induction false} SumAtLeast(s: seq<real>, low: real)
    requires forall i | 0 <= i < |s| :: low <= s[i]
    ensures Times(|s|, low) <= Sum(s)
    decreases |s|
  {
    if s != [] { SumAtLeast(s[..|s| - 1], low); }
  }

  lemma {:induction false} SumAtMost(s: seq<real>, high: real)
    requires forall i | 0 <= i < |s| :: s[i] <= high
    ensures Sum(s) <= Times(|s|, high)
    decreases |s|
  {
    if s != [] { SumAtMost(s[..|s| - 1], high); }
  }

  lemma {:induction false} SumUpdate(s: seq<real>, i: nat, x: real)
    requires i < |s|
    ensures Sum(s[i := x]) == Sum(s) - s[i] + x
    decreases |s|
  {
    var last := |s| - 1;
    if i == last {
      assert s[i := x][..last] == s[..last];
    } else {
      SumUpdate(s[..last], i, x);
      assert s[i := x][..last] == s[..last][i := x];
    }
  }

  lemma {:induction false} SumAdds(a: seq<real>, b: seq<real>, c: seq<real>)
    requires |a| == |b| == |c| && forall i | 0 <= i < |a| :: c[i] == a[i] + b[i]
    ensures Sum(c) == Sum(a) + Sum(b)
    decreases |a|
  {
    if a != [] {
      var n := |a| - 1;
      SumAdds(a[..n], b[..n], c[..n]);
    }
  }

  lemma {:induction false} SumScales(a: seq<real>, b: seq<real>, factor: real)
    requires |a| == |b| && forall i | 0 <= i < |a| :: b[i] == factor * a[i]
    ensures Sum(b) == factor * Sum(a)
    decreases |a|
  {
    if a != [] {
      var n := |a| - 1;
      SumScales(a[..n], b[..n], factor);
      assert factor * (Sum(a[..n]) + a[n]) == factor * Sum(a[..n]) + factor * a[n];
    }
  }

  // In a zero sum nobody is richer than all others together are poor.
  lemma ZeroSumBound(s: seq<real>, low: real, i: nat)
    requires i < |s| && Sum(s) == 0.0 && forall j | 0 <= j < |s| :: low <= s[j]
    ensures s[i] <= -Times(|s| - 1, low)
  {
    var t := s[i := low];
    SumUpdate(s, i, low);
    SumAtLeast(t, low);
  }

  // ----------------------------------------------------------------------- rounds

  ghost predicate Indices(k: nat, chosen: seq<nat>) {
    forall i | 0 <= i < |chosen| :: chosen[i] < k
  }

  function Paid(filled: seq<real>, cost: real, p: nat): (r: seq<real>)
    requires p < |filled|
    ensures |r| == |filled|
  {
    filled[p := filled[p] - cost]
  }

  // Credits after the rounds that picked `chosen`, from zero.
  ghost function Credits(gains: seq<real>, cost: real, limit: real, chosen: seq<nat>): (r: seq<real>)
    requires Indices(|gains|, chosen)
    ensures |r| == |gains|
    decreases |chosen|
  {
    if chosen == [] then seq(|gains|, _ => 0.0)
    else
      var prior := Credits(gains, cost, limit, chosen[..|chosen| - 1]);
      Paid(Fill(prior, gains, limit), cost, chosen[|chosen| - 1])
  }

  // Every round picked an account with the most credit; ties go either way.
  ghost predicate Fair(gains: seq<real>, cost: real, limit: real, chosen: seq<nat>)
    decreases |chosen|
  {
    && Indices(|gains|, chosen)
    && (chosen != [] ==>
          var prior := chosen[..|chosen| - 1];
          && Fair(gains, cost, limit, prior)
          && Top(Fill(Credits(gains, cost, limit, prior), gains, limit), chosen[|chosen| - 1]))
  }

  function Picks(chosen: seq<nat>, i: nat): nat {
    multiset(chosen)[i]
  }

  // A round's gains share out exactly one cost.
  ghost predicate Shares(gains: seq<real>, cost: real) {
    && gains != [] && cost > 0.0 && Sum(gains) == cost
    && forall i | 0 <= i < |gains| :: 0.0 <= gains[i] <= cost
  }

  // The lowest credit a pick can leave: k times what it misses of the cost is the cost.
  ghost predicate Floor(low: real, cost: real, k: nat) {
    -cost <= low <= 0.0 && Times(k, low + cost) == cost
  }

  // Zero sum, and nobody below the floor.
  ghost predicate InBand(credit: seq<real>, low: real) {
    Sum(credit) == 0.0 && forall i | 0 <= i < |credit| :: low <= credit[i]
  }

  // Credit is what the account is owed: its gains less the costs it paid.
  ghost predicate Exact(gains: seq<real>, cost: real, chosen: seq<nat>, credit: seq<real>)
    requires |credit| == |gains|
  {
    forall i | 0 <= i < |credit| :: credit[i] == Times(|chosen|, gains[i]) - Times(Picks(chosen, i), cost)
  }

  lemma LimitIsWide(cost: real, k: nat)
    requires cost > 0.0 && k > 0
    ensures Limit(cost, k) >= Times(k, cost) && Limit(cost, k) >= cost
  {
    TimesIsProduct(k, cost);
    Scale(cost, k as real, Max(8.0, k as real * 2.0));
    Scale(cost, 1.0, Max(8.0, k as real * 2.0));
  }

  lemma Scale(k: real, a: real, b: real)
    requires k > 0.0 && a <= b
    ensures k * a <= k * b
  {
    var d := b - a;
    assert k * d >= 0.0;
  }

  // The clamp never binds.
  lemma FillIsExact(gains: seq<real>, cost: real, limit: real, low: real, credit: seq<real>, i: nat)
    requires Shares(gains, cost) && limit >= Limit(cost, |gains|) && Floor(low, cost, |gains|) && |credit| == |gains| && i < |credit|
    requires InBand(credit, low)
    ensures Fill(credit, gains, limit)[i] == credit[i] + gains[i]
  {
    var k := |gains|;
    ZeroSumBound(credit, low, i);
    TimesNegated(k - 1, low);
    TimesMono(k - 1, -low, cost);
    LimitIsWide(cost, k);
  }

  // The richest has at least the average, so paying leaves it above the floor.
  lemma PaidStaysAbove(filled: seq<real>, cost: real, low: real, p: nat)
    requires Top(filled, p) && Sum(filled) == cost && Floor(low, cost, |filled|)
    ensures filled[p] - cost >= low
  {
    SumAtMost(filled, filled[p]);
    TimesStrict(|filled|, low + cost, filled[p]);
  }

  lemma {:induction false} TimesStrict(n: nat, x: real, y: real)
    requires n > 0 && Times(n, x) <= Times(n, y)
    ensures x <= y
    decreases n
  {
    if n > 1 && Times(n - 1, x) <= Times(n - 1, y) {
      TimesStrict(n - 1, x, y);
    }
  }

  lemma RoundKeepsBand(gains: seq<real>, cost: real, limit: real, low: real, credit: seq<real>, p: nat)
    requires Shares(gains, cost) && limit >= Limit(cost, |gains|) && Floor(low, cost, |gains|) && |credit| == |gains| && InBand(credit, low)
    requires Top(Fill(credit, gains, limit), p)
    ensures InBand(Paid(Fill(credit, gains, limit), cost, p), low)
  {
    var filled := Fill(credit, gains, limit);
    forall i | 0 <= i < |credit| ensures filled[i] == credit[i] + gains[i] {
      FillIsExact(gains, cost, limit, low, credit, i);
    }
    SumAdds(credit, gains, filled);
    SumUpdate(filled, p, filled[p] - cost);
    PaidStaysAbove(filled, cost, low, p);
  }

  lemma RoundKeepsExact(gains: seq<real>, cost: real, limit: real, low: real, chosen: seq<nat>, credit: seq<real>, p: nat)
    requires Shares(gains, cost) && limit >= Limit(cost, |gains|) && Floor(low, cost, |gains|) && |credit| == |gains| && InBand(credit, low)
    requires Exact(gains, cost, chosen, credit) && p < |gains|
    ensures Exact(gains, cost, chosen + [p], Paid(Fill(credit, gains, limit), cost, p))
  {
    forall i | 0 <= i < |credit|
      ensures Paid(Fill(credit, gains, limit), cost, p)[i]
           == Times(|chosen| + 1, gains[i]) - Times(Picks(chosen + [p], i), cost)
    {
      FillIsExact(gains, cost, limit, low, credit, i);
      assert Picks(chosen + [p], i) == Picks(chosen, i) + if i == p then 1 else 0;
    }
  }

  lemma {:induction false} FairIsBalanced(gains: seq<real>, cost: real, limit: real, low: real, chosen: seq<nat>)
    requires Shares(gains, cost) && limit >= Limit(cost, |gains|) && Floor(low, cost, |gains|) && Fair(gains, cost, limit, chosen)
    ensures InBand(Credits(gains, cost, limit, chosen), low) && Exact(gains, cost, chosen, Credits(gains, cost, limit, chosen))
    decreases |chosen|
  {
    if chosen == [] {
      var credit := Credits(gains, cost, limit, chosen);
      SumAtLeast(credit, 0.0);
      SumAtMost(credit, 0.0);
      TimesIsProduct(|credit|, 0.0);
    } else {
      var prior, p := chosen[..|chosen| - 1], chosen[|chosen| - 1];
      assert prior + [p] == chosen;
      FairIsBalanced(gains, cost, limit, low, prior);
      RoundKeepsBand(gains, cost, limit, low, Credits(gains, cost, limit, prior), p);
      RoundKeepsExact(gains, cost, limit, low, prior, Credits(gains, cost, limit, prior), p);
    }
  }

  // ------------------------------------------------------------------ weights again

  lemma {:induction false} PositiveSum(weights: seq<real>)
    requires Weights(weights)
    ensures Sum(weights) > 0.0
    ensures forall i | 0 <= i < |weights| :: weights[i] <= Sum(weights)
    decreases |weights|
  {
    if |weights| > 1 {
      PositiveSum(weights[..|weights| - 1]);
    } else {
      assert weights[..0] == [];
    }
  }

  lemma Cancel(k: real, a: real, b: real)
    requires k > 0.0 && k * a <= k * b
    ensures a <= b
  {
    var d := b - a;
    assert k * d >= 0.0;
    assert d == k * d / k;
  }

  lemma GainOf(cost: real, w: real, total: real)
    requires cost > 0.0 && 0.0 < w <= total
    ensures cost * w / total == cost / total * w && cost * w / total == cost * (w / total)
    ensures 0.0 <= cost * w / total <= cost
  {
    var share := w / total;
    assert share * total == w;
    Cancel(total, share, 1.0);
    assert cost * share <= cost;
  }

  lemma GainBy(cost: real, w: real, total: real)
    requires cost > 0.0 && 0.0 < w <= total
    ensures var gain := Gain(cost, w, total); gain == cost / total * w && 0.0 <= gain <= cost && gain == cost * (w / total)
  {
    GainOf(cost, w, total);
  }

  lemma GainsAreShares(weights: seq<real>, cost: real)
    requires Weights(weights) && cost > 0.0 && Sum(weights) > 0.0
    ensures Shares(Gains(weights, cost), cost)
  {
    forall i | 0 <= i < |weights| ensures 0.0 <= Gains(weights, cost)[i] <= cost {
      PositiveSum(weights);
      GainBy(cost, weights[i], Sum(weights));
    }
    GainsSum(weights, cost);
  }

  lemma GainsSum(weights: seq<real>, cost: real)
    requires Weights(weights) && cost > 0.0 && Sum(weights) > 0.0
    ensures Sum(Gains(weights, cost)) == cost
  {
    PositiveSum(weights);
    var factor := Factors(weights, cost);
    SumScales(weights, Gains(weights, cost), factor);
  }

  lemma Factors(weights: seq<real>, cost: real) returns (factor: real)
    requires Weights(weights) && cost > 0.0 && Sum(weights) > 0.0
    ensures factor * Sum(weights) == cost
    ensures forall i | 0 <= i < |weights| :: Gains(weights, cost)[i] == factor * weights[i]
  {
    PositiveSum(weights);
    var total := Sum(weights);
    factor := cost / total;
    forall i | 0 <= i < |weights| ensures Gains(weights, cost)[i] == factor * weights[i] {
      GainBy(cost, weights[i], total);
    }
  }

  function Share(weights: seq<real>, i: nat): real
    requires i < |weights| && Sum(weights) != 0.0
  {
    weights[i] / Sum(weights)
  }

  function Low(cost: real, k: nat): real
    requires k > 0
  {
    cost / k as real - cost
  }

  lemma LowIsFloor(cost: real, k: nat)
    requires cost > 0.0 && k > 0
    ensures Floor(Low(cost, k), cost, k)
  {
    TimesIsProduct(k, Low(cost, k) + cost);
    assert k as real * (cost / k as real) == cost;
    assert cost * (k as real - 1.0) >= 0.0;
    Cancel(k as real, cost / k as real, cost);
  }

  // ------------------------------------------------------------------- main results

  /** Credits sum to zero and no round is ever cut by the clamp. */
  lemma ClampNeverBinds(weights: seq<real>, cost: real, limit: real, chosen: seq<nat>, i: nat)
    requires Weights(weights) && cost > 0.0 && limit >= Limit(cost, |weights|) && Sum(weights) > 0.0 && i < |weights|
    requires Fair(Gains(weights, cost), cost, limit, chosen)
    ensures var gains, credit := Gains(weights, cost), Credits(Gains(weights, cost), cost, limit, chosen);
            && Sum(credit) == 0.0
            && Fill(credit, gains, limit)[i] == credit[i] + gains[i]
  {
    var gains, low := Gains(weights, cost), Low(cost, |weights|);
    GainsAreShares(weights, cost);
    LowIsFloor(cost, |weights|);
    FairIsBalanced(gains, cost, limit, low, chosen);
    FillIsExact(gains, cost, limit, low, Credits(gains, cost, limit, chosen), i);
  }

  /** Credits left over from other pools or costs are cut: after a round's gains every
      credit lies within eight times the cost, or twice the cost for each of more than
      four accounts, and one that does so anyway is not touched. */
  lemma CreditsAreClamped(credit: seq<real>, gains: seq<real>, cost: real, i: nat)
    requires i < |credit| == |gains| && cost > 0.0
    ensures var k, x := |credit|, credit[i] + gains[i];
            var most := if k > 4 then cost * (2.0 * k as real) else cost * 8.0;
            var y := Fill(credit, gains, Limit(cost, k))[i];
            && most > 0.0 && -most <= y <= most
            && (-most <= x <= most ==> y == x) && (x > most ==> y == most) && (x < -most ==> y == -most)
  {
    LimitIsWide(cost, |credit|);
  }

  // Within 1 - 1/k picks above, and k-1 times that below, the share of n rounds.
  predicate NearShare(k: nat, share: real, n: nat, picks: nat)
    requires k > 0
  {
    var fair, over := n as real * share, 1.0 - 1.0 / k as real;
    fair - (k as real - 1.0) * over <= picks as real <= fair + over
  }

  // Less than one pick above the share of n rounds, and at most k-1 below.
  predicate WithinShare(k: nat, share: real, n: nat, picks: nat) {
    var fair := n as real * share;
    fair - (k as real - 1.0) <= picks as real < fair + 1.0
  }

  // Within k-1 picks of the share of n rounds, either way.
  predicate NearWindowShare(k: nat, share: real, n: nat, picks: nat) {
    var fair := n as real * share;
    fair - (k as real - 1.0) <= picks as real <= fair + (k as real - 1.0)
  }

  /** Proportional share: n rounds give an account at most 1 - 1/k picks more than its
      share w/W of them, and at most (k-1)(1 - 1/k) fewer. */
  lemma ProportionalShare(weights: seq<real>, cost: real, limit: real, chosen: seq<nat>, i: nat)
    requires Weights(weights) && cost > 0.0 && limit >= Limit(cost, |weights|) && Sum(weights) > 0.0 && i < |weights|
    requires Fair(Gains(weights, cost), cost, limit, chosen)
    ensures NearShare(|weights|, Share(weights, i), |chosen|, Picks(chosen, i))
  {
    var credit, share := CreditBounds(weights, cost, limit, chosen, i);
    InPicks(cost, |weights|, share, |chosen|, Picks(chosen, i), credit);
  }

  lemma CreditBounds(weights: seq<real>, cost: real, limit: real, chosen: seq<nat>, i: nat) returns (credit: real, share: real)
    requires Weights(weights) && cost > 0.0 && limit >= Limit(cost, |weights|) && Sum(weights) > 0.0 && i < |weights|
    requires Fair(Gains(weights, cost), cost, limit, chosen)
    ensures share == Share(weights, i)
    ensures credit == Times(|chosen|, cost * share) - Times(Picks(chosen, i), cost)
    ensures Low(cost, |weights|) <= credit <= -Times(|weights| - 1, Low(cost, |weights|))
  {
    GainsAreShares(weights, cost);
    LowIsFloor(cost, |weights|);
    credit := CreditInBand(Gains(weights, cost), cost, limit, Low(cost, |weights|), chosen, i);
    share := GainIsShare(weights, cost, i);
  }

  lemma CreditInBand(gains: seq<real>, cost: real, limit: real, low: real, chosen: seq<nat>, i: nat) returns (credit: real)
    requires Shares(gains, cost) && limit >= Limit(cost, |gains|) && Floor(low, cost, |gains|) && Fair(gains, cost, limit, chosen) && i < |gains|
    ensures credit == Times(|chosen|, gains[i]) - Times(Picks(chosen, i), cost)
    ensures low <= credit <= -Times(|gains| - 1, low)
  {
    FairIsBalanced(gains, cost, limit, low, chosen);
    credit := Credits(gains, cost, limit, chosen)[i];
    ZeroSumBound(Credits(gains, cost, limit, chosen), low, i);
  }

  lemma GainIsShare(weights: seq<real>, cost: real, i: nat) returns (share: real)
    requires Weights(weights) && cost > 0.0 && Sum(weights) > 0.0 && i < |weights|
    ensures share == Share(weights, i) && Gains(weights, cost)[i] == cost * share
  {
    PositiveSum(weights);
    GainBy(cost, weights[i], Sum(weights));
    share := weights[i] / Sum(weights);
  }

  lemma InPicks(cost: real, k: nat, share: real, n: nat, picks: nat, credit: real)
    requires cost > 0.0 && k > 0
    requires credit == Times(n, cost * share) - Times(picks, cost)
    requires Low(cost, k) <= credit <= -Times(k - 1, Low(cost, k))
    ensures NearShare(k, share, n, picks)
  {
    TimesIsProduct(n, cost * share);
    TimesIsProduct(picks, cost);
    TimesIsProduct(k - 1, Low(cost, k));
    assert (k - 1) as real == k as real - 1.0;
    LowInCosts(cost, k);
    BandInPicks(cost, k as real - 1.0, 1.0 - 1.0 / k as real, share, n as real, picks as real, Low(cost, k), credit);
  }

  lemma BandInPicks(cost: real, m: real, over: real, share: real, n: real, picks: real, low: real, credit: real)
    requires cost > 0.0 && low == cost * -over
    requires credit == n * (cost * share) - picks * cost && low <= credit <= -(m * low)
    ensures n * share - m * over <= picks <= n * share + over
  {
    var owed := n * share - picks;
    assert credit == cost * owed by { Factor(cost, n * share, picks); Swap(n, cost, share); }
    Regroup(cost, m, over, low);
    Cancel(cost, owed, m * over);
    Cancel(cost, -over, owed);
  }

  lemma Swap(a: real, b: real, c: real)
    ensures a * (b * c) == b * (a * c)
  {
  }

  lemma LowInCosts(cost: real, k: nat)
    requires k > 0
    ensures Low(cost, k) == cost * -(1.0 - 1.0 / k as real)
  {
    var r := 1.0 / k as real;
    assert cost / k as real == cost * r;
    assert cost * -(1.0 - r) == cost * r - cost;
  }

  lemma Factor(cost: real, a: real, b: real)
    ensures cost * a - cost * b == cost * (a - b)
  {
  }

  lemma Regroup(cost: real, m: real, over: real, low: real)
    requires low == cost * -over
    ensures -(m * low) == cost * (m * over)
  {
  }

  /** In whole rounds: fewer than n * w / W + 1 picks, and at least n * w / W - (k-1). */
  lemma WholeRounds(weights: seq<real>, cost: real, limit: real, chosen: seq<nat>, i: nat)
    requires Weights(weights) && cost > 0.0 && limit >= Limit(cost, |weights|) && Sum(weights) > 0.0 && i < |weights|
    requires Fair(Gains(weights, cost), cost, limit, chosen)
    ensures WithinShare(|weights|, Share(weights, i), |chosen|, Picks(chosen, i))
  {
    ProportionalShare(weights, cost, limit, chosen, i);
    OverIsSmall(|weights|);
  }

  lemma OverIsSmall(k: nat)
    requires k > 0
    ensures var over := 1.0 - 1.0 / k as real;
            0.0 <= over < 1.0 && (k as real - 1.0) * over <= k as real - 1.0 && (k as real - 1.0) * over + over == k as real - 1.0
  {
    var r := 1.0 / k as real;
    assert k as real * r == 1.0;
    assert r > 0.0;
    Cancel(k as real, r, 1.0);
    assert (k as real - 1.0) * (1.0 - r) + (1.0 - r) == k as real * (1.0 - r) == k as real - k as real * r;
  }

  /** No window starves an account: of any rounds in a row it gets its share to within
      k - 1, so at least one as soon as its share of them exceeds k - 1. */
  lemma WindowShare(weights: seq<real>, cost: real, limit: real, chosen: seq<nat>, start: nat, i: nat)
    requires Weights(weights) && cost > 0.0 && limit >= Limit(cost, |weights|) && Sum(weights) > 0.0 && i < |weights|
    requires Fair(Gains(weights, cost), cost, limit, chosen) && start <= |chosen|
    ensures NearWindowShare(|weights|, Share(weights, i), |chosen| - start, Picks(chosen[start..], i))
  {
    assert NearShare(|weights|, Share(weights, i), |chosen|, Picks(chosen, i)) by {
      ProportionalShare(weights, cost, limit, chosen, i);
    }
    assert NearShare(|weights|, Share(weights, i), start, Picks(chosen[..start], i)) by {
      PrefixIsFair(Gains(weights, cost), cost, limit, chosen, start);
      ProportionalShare(weights, cost, limit, chosen[..start], i);
    }
    SplitPicks(chosen, start, i);
    InWindow(|weights|, Share(weights, i), |chosen|, start, Picks(chosen, i), Picks(chosen[..start], i));
  }

  lemma SplitPicks(chosen: seq<nat>, start: nat, i: nat)
    requires start <= |chosen|
    ensures Picks(chosen, i) == Picks(chosen[..start], i) + Picks(chosen[start..], i)
  {
    assert chosen == chosen[..start] + chosen[start..];
  }

  lemma InWindow(k: nat, share: real, n: nat, start: nat, all: nat, before: nat)
    requires k > 0 && start <= n && before <= all
    requires NearShare(k, share, n, all) && NearShare(k, share, start, before)
    ensures NearWindowShare(k, share, n - start, all - before)
  {
    OverIsSmall(k);
    WindowAlgebra(k as real - 1.0, 1.0 - 1.0 / k as real, share, n as real, start as real, all as real, before as real);
    assert (n - start) as real == n as real - start as real;
    assert (all - before) as real == all as real - before as real;
  }

  lemma WindowAlgebra(m: real, over: real, share: real, n: real, start: real, all: real, before: real)
    requires m * over + over == m
    requires n * share - m * over <= all <= n * share + over
    requires start * share - m * over <= before <= start * share + over
    ensures (n - start) * share - m <= all - before <= (n - start) * share + m
  {
    assert (n - start) * share == n * share - start * share;
  }

  lemma {:induction false} PrefixIsFair(gains: seq<real>, cost: real, limit: real, chosen: seq<nat>, start: nat)
    requires Fair(gains, cost, limit, chosen) && start <= |chosen|
    ensures Fair(gains, cost, limit, chosen[..start])
    decreases |chosen|
  {
    if start == |chosen| {
      assert chosen[..start] == chosen;
    } else {
      PrefixIsFair(gains, cost, limit, chosen[..|chosen| - 1], start);
      assert chosen[..|chosen| - 1][..start] == chosen[..start];
    }
  }

  /** A round that picks by the scan extends a fair history, whatever the pick times. */
  lemma ScannedRoundIsFair(gains: seq<real>, cost: real, limit: real, chosen: seq<nat>, last: seq<int>)
    requires gains != [] && |last| == |gains| && Fair(gains, cost, limit, chosen)
    ensures var filled := Fill(Credits(gains, cost, limit, chosen), gains, limit);
            var p := Scan(filled, last, |gains|);
            && Fair(gains, cost, limit, chosen + [p])
            && Credits(gains, cost, limit, chosen + [p]) == Paid(filled, cost, p)
  {
    var filled := Fill(Credits(gains, cost, limit, chosen), gains, limit);
    var p := Scan(filled, last, |gains|);
    ScanIsTop(filled, last, |gains|);
    assert (chosen + [p])[..|chosen|] == chosen;
  }

  // ------------------------------------------------------------ n rounds of the scan

  // Everybody's credit and last pick, and the picks so far.
  datatype Board = Board(credit: seq<real>, last: seq<int>, chosen: seq<nat>)

  // One round: all gain, the scan picks, the picked account pays. This is what
  // BalancedAccounts.FallbackPick does to the accounts of its group.
  function ScanRound(gains: seq<real>, cost: real, limit: real, b: Board, now: int): (r: Board)
    requires gains != [] && |b.credit| == |b.last| == |gains|
    ensures |r.credit| == |r.last| == |gains|
  {
    var filled := Fill(b.credit, gains, limit);
    var p := Scan(filled, b.last, |gains|);
    Board(Paid(filled, cost, p), b.last[p := now], b.chosen + [p])
  }

  // Rounds at these times, from zero credit.
  function ScanRounds(gains: seq<real>, cost: real, limit: real, last: seq<int>, times: seq<int>): (r: Board)
    requires gains != [] && |last| == |gains|
    ensures |r.credit| == |r.last| == |gains|
    decreases |times|
  {
    if times == [] then Board(seq(|gains|, _ => 0.0), last, [])
    else ScanRound(gains, cost, limit, ScanRounds(gains, cost, limit, last, times[..|times| - 1]), times[|times| - 1])
  }

  lemma {:induction false} ScanRoundsAreFair(gains: seq<real>, cost: real, limit: real, last: seq<int>, times: seq<int>)
    requires gains != [] && |last| == |gains|
    ensures var r := ScanRounds(gains, cost, limit, last, times);
            && |r.chosen| == |times| && Fair(gains, cost, limit, r.chosen) && r.credit == Credits(gains, cost, limit, r.chosen)
    decreases |times|
  {
    if times != [] {
      var prior := ScanRounds(gains, cost, limit, last, times[..|times| - 1]);
      ScanRoundsAreFair(gains, cost, limit, last, times[..|times| - 1]);
      ScannedRoundIsFair(gains, cost, limit, prior.chosen, prior.last);
    }
  }

  /** Fair share of the program's own scan: from zero credit, after n rounds at whatever
      times, every account was picked less than its share plus one, and at least its
      share less k - 1. */
  lemma ScanSharesOut(weights: seq<real>, cost: real, limit: real, last: seq<int>, times: seq<int>, i: nat)
    requires Weights(weights) && cost > 0.0 && limit >= Limit(cost, |weights|) && Sum(weights) > 0.0
    requires i < |weights| == |last|
    ensures var chosen := ScanRounds(Gains(weights, cost), cost, limit, last, times).chosen;
            |chosen| == |times| && WithinShare(|weights|, Share(weights, i), |chosen|, Picks(chosen, i))
  {
    ScanRoundsAreFair(Gains(weights, cost), cost, limit, last, times);
    WholeRounds(weights, cost, limit, ScanRounds(Gains(weights, cost), cost, limit, last, times).chosen, i);
  }
}
