/**
 The mutable side of the fair share: the accounts of balanced.go with the fallback
 round, and the tentative round of adq_runtime.go, whose credits are kept only when a
 reservation is granted.
 */
module BalancedRounds {
  import opened FairShare

  datatype Option<T> = None | Some(value: T)

  datatype Choice = Choice(id: string, weight: real)

  function WeightsOf(group: seq<Choice>): (w: seq<real>)
    ensures |w| == |group|
  {
    seq(|group|, i requires 0 <= i < |group| => group[i].weight)
  }

  ghost predicate Distinct(group: seq<Choice>) {
    forall i, j | 0 <= i < j < |group| :: group[i].id != group[j].id
  }

  ghost predicate HasId(group: seq<Choice>, id: string) {
    id in Ids(group)
  }

  ghost function Ids(group: seq<Choice>): (ids: set<string>)
    ensures forall i | 0 <= i < |group| :: group[i].id in ids
  {
    set i | 0 <= i < |group| :: group[i].id
  }

  // The candidates whose reservation was not refused yet.
  function Available(group: seq<Choice>, refused: set<string>): (r: seq<Choice>)
    ensures forall c <- r :: c in group && c.id !in refused
    ensures forall c <- group :: c.id !in refused ==> c in r
    decreases |group|
  {
    if group == [] then []
    else
      var rest := Available(group[..|group| - 1], refused);
      var c := group[|group| - 1];
      if c.id in refused then rest else rest + [c]
  }

  lemma {:induction false} AvailableIsGroup(group: seq<Choice>, refused: set<string>)
    requires Distinct(group) && forall c <- group :: c.weight > 0.0
    ensures Distinct(Available(group, refused)) && forall c <- Available(group, refused) :: c.weight > 0.0
    decreases |group|
  {
    if group != [] {
      var rest := group[..|group| - 1];
      AvailableIsGroup(rest, refused);
      forall i, j | 0 <= i < j < |Available(group, refused)|
        ensures Available(group, refused)[i].id != Available(group, refused)[j].id
      {
        var r := Available(rest, refused);
        if j == |r| {
          assert r[i] in rest;
          var k :| 0 <= k < |rest| && rest[k] == r[i];
          assert group[k].id != group[|group| - 1].id;
        }
      }
    }
  }

  /** The candidates left keep the order of the group, so a tie goes to the same one. */
  lemma {:induction false} AvailableKeepsOrder(group: seq<Choice>, refused: set<string>, i: nat, j: nat)
    requires i < j < |Available(group, refused)|
    ensures exists p, q :: 0 <= p < q < |group| && group[p] == Available(group, refused)[i] && group[q] == Available(group, refused)[j]
    decreases |group|
  {
    var n := |group| - 1;
    var rest, r := Available(group[..n], refused), Available(group, refused);
    if j < |rest| {
      AvailableKeepsOrder(group[..n], refused, i, j);
      var p, q :| 0 <= p < q < n && group[..n][p] == rest[i] && group[..n][q] == rest[j];
      assert group[p] == r[i] && group[q] == r[j];
    } else {
      assert r[i] in group[..n] && r[j] == group[n];
      var p :| 0 <= p < n && group[..n][p] == r[i];
      assert group[p] == r[i];
    }
  }

  ghost predicate AllIn<T>(m: map<string, T>, group: seq<Choice>) {
    forall i | 0 <= i < |group| :: group[i].id in m
  }

  ghost function ValuesOf<T>(m: map<string, T>, group: seq<Choice>): (r: seq<T>)
    requires AllIn(m, group)
    ensures |r| == |group|
  {
    seq(|group|, i requires 0 <= i < |group| => m[group[i].id])
  }

  // One whole round over `group`, from the credits and times before it.
  ghost predicate GrantedRound(credit: map<string, real>, last: map<string, int>, after: map<string, real>,
                               group: seq<Choice>, cost: real, selected: string) {
    && group != [] && Sum(WeightsOf(group)) != 0.0
    && AllIn(credit, group) && AllIn(last, group) && AllIn(after, group)
    && (var filled := Fill(ValuesOf(credit, group), Gains(WeightsOf(group), cost), Limit(cost, |group|));
        var p := Scan(filled, ValuesOf(last, group), |group|);
        selected == group[p].id && ValuesOf(after, group) == Paid(filled, cost, p))
    && forall id | id in after && !HasId(group, id) :: id in credit && after[id] == credit[id]
  }

  class BalancedAccounts {
    var credit: map<string, real>
    var lastPicked: map<string, int>
    var picks: map<string, nat>

    constructor ()
      ensures credit == map[] && lastPicked == map[] && picks == map[]
    {
      credit, lastPicked, picks := map[], map[], map[];
    }

    ghost predicate Knows(group: seq<Choice>)
      reads this
    {
      AllIn(credit, group) && AllIn(lastPicked, group) && AllIn(picks, group)
    }

    ghost function CreditsOf(group: seq<Choice>): (r: seq<real>)
      requires Knows(group)
      reads this
      ensures |r| == |group|
    {
      ValuesOf(credit, group)
    }

    ghost function LastOf(group: seq<Choice>): (r: seq<int>)
      requires Knows(group)
      reads this
      ensures |r| == |group|
    {
      ValuesOf(lastPicked, group)
    }

    method TotalWeight(group: seq<Choice>) returns (total: real)
      ensures total == Sum(WeightsOf(group))
    {
      total := 0.0;
      for i := 0 to |group|
        invariant total == Sum(WeightsOf(group)[..i])
      {
        assert WeightsOf(group)[..i + 1] == WeightsOf(group)[..i] + [group[i].weight];
        total := total + group[i].weight;
      }
      assert WeightsOf(group)[..|group|] == WeightsOf(group);
    }

    // One fallback round without a sticky conversation. The result is the scan's
    // choice among the filled credits; it alone pays the cost.
    method FallbackPick(group: seq<Choice>, limit: real, cost: real, now: int) returns (selected: string)
      requires group != [] && Distinct(group) && Knows(group) && Sum(WeightsOf(group)) != 0.0
      modifies this
      ensures Knows(group) && HasId(group, selected)
      ensures var filled := Fill(old(CreditsOf(group)), Gains(WeightsOf(group), cost), limit);
              var p := Scan(filled, old(LastOf(group)), |group|);
              && selected == group[p].id
              && CreditsOf(group) == Paid(filled, cost, p)
              && LastOf(group) == old(LastOf(group))[p := now]
              && picks == old(picks)[selected := old(picks)[selected] + 1]
      ensures credit.Keys == old(credit).Keys
      ensures forall id | id in credit && !HasId(group, id) :: credit[id] == old(credit)[id]
    {
      var total := TotalWeight(group);
      ghost var filled := Fill(CreditsOf(group), Gains(WeightsOf(group), cost), limit);
      FilledForm(group, limit, cost, total);
      var best := FillAndScan(group, limit, cost, total, filled);
      selected := group[best].id;
      Pay(group, best, cost, now);
    }

    // The picked account pays the whole cost.
    method Pay(group: seq<Choice>, p: nat, cost: real, now: int)
      requires Distinct(group) && Knows(group) && p < |group|
      modifies this
      ensures Knows(group) && credit.Keys == old(credit).Keys && lastPicked.Keys == old(lastPicked).Keys
      ensures CreditsOf(group) == Paid(old(CreditsOf(group)), cost, p)
      ensures LastOf(group) == old(LastOf(group))[p := now]
      ensures picks == old(picks)[group[p].id := old(picks)[group[p].id] + 1]
      ensures forall id | id in credit && !HasId(group, id) :: credit[id] == old(credit)[id]
    {
      var id := group[p].id;
      PaidValues(credit, group, p, credit[id] - cost);
      PaidValues(lastPicked, group, p, now);
      credit := credit[id := credit[id] - cost];
      lastPicked := lastPicked[id := now];
      picks := picks[id := picks[id] + 1];
    }

    lemma FilledForm(group: seq<Choice>, limit: real, cost: real, total: real)
      requires Knows(group) && total == Sum(WeightsOf(group)) && total != 0.0
      ensures forall j | 0 <= j < |group| ::
        Fill(CreditsOf(group), Gains(WeightsOf(group), cost), limit)[j] == Filled(group[j], limit, cost, total)
    {
    }

    lemma PaidValues<T>(m: map<string, T>, group: seq<Choice>, p: nat, x: T)
      requires Distinct(group) && AllIn(m, group) && p < |group|
      ensures AllIn(m[group[p].id := x], group)
      ensures ValuesOf(m[group[p].id := x], group) == ValuesOf(m, group)[p := x]
    {
    }

    // Credit every account of the group and find the best on the way.
    method FillAndScan(group: seq<Choice>, limit: real, cost: real, total: real, ghost filled: seq<real>) returns (best: nat)
      requires group != [] && Distinct(group) && Knows(group) && |filled| == |group| && total != 0.0
      requires forall j | 0 <= j < |group| :: filled[j] == Filled(group[j], limit, cost, total)
      modifies this`credit
      ensures Knows(group) && credit.Keys == old(credit).Keys
      ensures CreditsOf(group) == filled
      ensures best < |group| && best == Scan(filled, LastOf(group), |group|)
      ensures forall id | id in credit && !HasId(group, id) :: credit[id] == old(credit)[id]
    {
      ghost var last := ValuesOf(lastPicked, group);
      best := 0;
      for i := 0 to |group|
        invariant credit.Keys == old(credit).Keys
        invariant best < |group|
        invariant forall j | 0 <= j < i :: credit[group[j].id] == filled[j]
        invariant forall j | i <= j < |group| :: credit[group[j].id] == old(credit)[group[j].id]
        invariant forall id | id in credit && !HasId(group, id) :: credit[id] == old(credit)[id]
        invariant i > 0 ==> best < i && best == Scan(filled, last, i)
      {
        assert filled[i] == old(Filled(group[i], limit, cost, total));
        CreditOne(group, i, limit, cost, total);
        best := Better(group, filled, last, i, best);
      }
      assert CreditsOf(group) == filled;
    }

    method CreditOne(group: seq<Choice>, i: nat, limit: real, cost: real, total: real)
      requires i < |group| && Distinct(group) && Knows(group) && total != 0.0
      modifies this`credit
      ensures credit.Keys == old(credit).Keys && credit[group[i].id] == old(Filled(group[i], limit, cost, total))
      ensures forall j | 0 <= j < |group| && j != i :: credit[group[j].id] == old(credit)[group[j].id]
      ensures forall id | id in credit && !HasId(group, id) :: credit[id] == old(credit)[id]
    {
      var id := group[i].id;
      credit := credit[id := Clamp(limit, credit[id] + Gain(cost, group[i].weight, total))];
    }

    ghost function Filled(c: Choice, limit: real, cost: real, total: real): real
      requires c.id in credit && total != 0.0
      reads this
    {
      Clamp(limit, credit[c.id] + Gain(cost, c.weight, total))
    }

    // Keep the best of the first i + 1.
    method Better(group: seq<Choice>, ghost filled: seq<real>, ghost last: seq<int>, i: nat, best: nat) returns (next: nat)
      requires i < |group| == |filled| == |last| && best < |group|
      requires i > 0 ==> best < i && best == Scan(filled, last, i)
      requires forall j | 0 <= j <= i :: group[j].id in credit && credit[group[j].id] == filled[j]
      requires forall j | 0 <= j <= i :: group[j].id in lastPicked && lastPicked[group[j].id] == last[j]
      ensures next <= i && next == Scan(filled, last, i + 1)
    {
      var c, b := group[i].id, group[best].id;
      if i == 0 {
        return 0;
      }
      if credit[c] > credit[b] || (credit[c] == credit[b] && lastPicked[c] < lastPicked[b]) {
        return i;
      }
      return best;
    }

    // The tentative round: the scores, and no change.
    method Tentative(group: seq<Choice>, limit: real, cost: real) returns (scores: seq<real>)
      requires Distinct(group) && Knows(group) && Sum(WeightsOf(group)) != 0.0
      ensures scores == Fill(CreditsOf(group), Gains(WeightsOf(group), cost), limit)
    {
      var total := TotalWeight(group);
      scores := [];
      for i := 0 to |group|
        invariant |scores| == i
        invariant forall j | 0 <= j < i :: scores[j] == Fill(CreditsOf(group), Gains(WeightsOf(group), cost), limit)[j]
      {
        scores := scores + [Clamp(limit, credit[group[i].id] + Gain(cost, group[i].weight, total))];
      }
    }

    method Best(group: seq<Choice>, scores: seq<real>) returns (p: nat)
      requires group != [] && Knows(group) && |scores| == |group|
      ensures p == Scan(scores, LastOf(group), |group|)
    {
      p := 0;
      for i := 1 to |group|
        invariant p < |group| && p == Scan(scores, LastOf(group), i)
      {
        if scores[i] > scores[p] || (scores[i] == scores[p] && lastPicked[group[i].id] < lastPicked[group[p].id]) {
          p := i;
        }
      }
    }

    method Commit(group: seq<Choice>, scores: seq<real>, p: nat, cost: real, now: int)
      requires Distinct(group) && Knows(group) && |scores| == |group| && p < |group|
      modifies this
      ensures Knows(group) && CreditsOf(group) == Paid(scores, cost, p)
      ensures LastOf(group) == old(LastOf(group))[p := now]
      ensures credit.Keys == old(credit).Keys && lastPicked.Keys == old(lastPicked).Keys && picks.Keys == old(picks).Keys
      ensures forall id | id in credit && !HasId(group, id) :: id in old(credit) && credit[id] == old(credit)[id]
    {
      for i := 0 to |group|
        invariant lastPicked == old(lastPicked) && picks == old(picks)
        invariant credit.Keys == old(credit).Keys && Knows(group)
        invariant forall j | 0 <= j < i :: credit[group[j].id] == scores[j]
        invariant forall id | id in credit && !HasId(group, id) :: credit[id] == old(credit)[id]
      {
        credit := credit[group[i].id := scores[i]];
      }
      assert CreditsOf(group) == scores;
      Pay(group, p, cost, now);
    }

    // The tentative round retried without the accounts whose reservation was refused.
    // `grants` are the accounts that can reserve. However many collisions came first,
    // the granted round starts from the old credits: collisions mint nothing.
    method ReservedPick(group: seq<Choice>, cost: real, now: int, grants: set<string>) returns (selected: Option<string>)
      requires Distinct(group) && Knows(group) && forall c <- group :: c.weight > 0.0
      modifies this
      ensures selected.None? ==> credit == old(credit) && lastPicked == old(lastPicked) && picks == old(picks)
      ensures selected.None? ==> forall c <- group :: c.id !in grants
      ensures selected.Some? ==> selected.value in grants
      ensures Knows(group)
      ensures selected.Some? ==> exists refused: set<string> ::
        refused !! grants
        && GrantedRound(old(credit), old(lastPicked), credit, Available(group, refused), cost, selected.value)
    {
      var refused: set<string> := {};
      ghost var left: set<string> := set c | c in group :: c.id;
      while true
        invariant credit == old(credit) && lastPicked == old(lastPicked) && picks == old(picks)
        invariant refused !! grants && Knows(group)
        invariant left == (set c | c in group :: c.id) - refused
        decreases left
      {
        var available := Available(group, refused);
        if available == [] {
          return None;
        }
        AvailableIsGroup(group, refused);
        AvailableKnown(group, refused);
        PositiveTotal(available);
        var limit := Limit(cost, |available|);
        var scores := Tentative(available, limit, cost);
        var p := Best(available, scores);
        var id := available[p].id;
        assert available[p] in available && id in left;
        if id in grants {
          Commit(available, scores, p, cost, now);
          assert GrantedRound(old(credit), old(lastPicked), credit, Available(group, refused), cost, id);
          return Some(id);
        }
        refused := refused + {id};
        left := left - {id};
      }
    }

    lemma AvailableKnown(group: seq<Choice>, refused: set<string>)
      requires Knows(group)
      ensures Knows(Available(group, refused))
    {
      forall i | 0 <= i < |Available(group, refused)|
        ensures Available(group, refused)[i].id in credit && Available(group, refused)[i].id in lastPicked && Available(group, refused)[i].id in picks
      {
        assert Available(group, refused)[i] in group;
      }
    }

    lemma PositiveTotal(group: seq<Choice>)
      requires group != [] && forall c <- group :: c.weight > 0.0
      ensures Sum(WeightsOf(group)) > 0.0
    {
      forall i | 0 <= i < |group| ensures WeightsOf(group)[i] > 0.0 {
        assert group[i] in group;
      }
      PositiveSum(WeightsOf(group));
    }
  }
}
