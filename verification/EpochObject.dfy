/**
 The scheduler's epoch state as the program updates it in place (quota_epoch.go), with
 its loops, each method proved to do exactly what the state functions say.
 */
module EpochObject {
  import opened QuotaEpoch

  class Scheduler {
    var quotaEpoch: State

    constructor ()
      ensures quotaEpoch == INITIAL
    {
      quotaEpoch := INITIAL;
    }

    method BeginSweepLocked(inventory: set<Auth>, reason: Reason, now: int) returns (ok: bool)
      modifies this
      ensures ok <==> inventory != {}
      ensures quotaEpoch == old(quotaEpoch).(sweep := BeginSweep(old(quotaEpoch.sweep), inventory, reason, now))
    {
      if inventory == {} {
        return false;
      }
      var sweep := quotaEpoch.sweep;
      if sweep.active {
        if reason == ProviderReset && sweep.reason != ProviderReset {
          sweep := sweep.(reason := ProviderReset, startedAt := now, deadline := now + SWEEP_WINDOW);
          sweep := sweep.(round := 1, roundStartedAt := now, nextRoundAt := 0, epoch := NoEpoch);
          var untried := ResetTargets(sweep.targets);
          sweep := sweep.(targets := untried);
        }
      } else {
        sweep := Opened(reason, now);
      }
      var targets := MatchInventory(sweep.targets, inventory);
      sweep := sweep.(targets := targets);
      sweep := sweep.(required := Quorum(|targets|));
      quotaEpoch := quotaEpoch.(sweep := sweep);
      return true;
    }

    static method ResetTargets(targets: map<Auth, Target>) returns (r: map<Auth, Target>)
      ensures r == map x | x in targets :: UNTRIED
    {
      r := targets;
      var left := targets.Keys;
      while left != {}
        invariant left <= targets.Keys
        invariant r == map x | x in targets :: if x in left then targets[x] else UNTRIED
        decreases left
      {
        var x :| x in left;
        left := left - {x};
        r := r[x := Target(0, 0, false)];
      }
    }

    // Targets that left the inventory go, new ones come untried.
    static method MatchInventory(targets: map<Auth, Target>, inventory: set<Auth>) returns (r: map<Auth, Target>)
      ensures r == map x | x in inventory :: if x in targets then targets[x] else UNTRIED
    {
      r := targets;
      var left := targets.Keys;
      while left != {}
        invariant left <= targets.Keys
        invariant r == map x | x in targets && (x in left || x in inventory) :: targets[x]
        decreases left
      {
        var x :| x in left;
        left := left - {x};
        if x !in inventory {
          r := r - {x};
        }
      }
      var missing := inventory;
      while missing != {}
        invariant missing <= inventory
        invariant r == map x | x in inventory && (x in targets || x !in missing) :: if x in targets then targets[x] else UNTRIED
        decreases missing
      {
        var x :| x in missing;
        missing := missing - {x};
        if x !in r {
          r := r[x := Target(0, 0, false)];
        }
      }
    }

    method ProbeReasonLocked(x: Auth, now: int) returns (reason: ProbeReason)
      ensures reason == ReasonFor(quotaEpoch, x, now)
    {
      var s := quotaEpoch.sweep;
      if s.active && now < s.deadline && (s.nextRoundAt == 0 || now >= s.nextRoundAt) {
        var start := s.roundStartedAt;
        if start == 0 {
          start := s.startedAt;
        }
        if x in s.targets && !s.targets[x].evidence && (s.targets[x].attemptedAt == 0 || s.targets[x].attemptedAt < start) {
          return SweepProbe;
        }
      }
      if x !in quotaEpoch.accounts {
        return NoProbe;
      }
      var a := quotaEpoch.accounts[x];
      if quotaEpoch.id.NoEpoch? || a.state != Pending || !NeedsObservation(a, now) {
        return NoProbe;
      }
      if a.attempts >= PENDING_LIMIT && !CatchUp(quotaEpoch, a, now) {
        return NoProbe;
      }
      if a.lastProbeAt != 0 && now < a.lastProbeAt + PENDING_DELAY {
        return NoProbe;
      }
      return PendingProbe;
    }

    method RecordAttemptLocked(x: Auth, reason: ProbeReason, now: int)
      modifies this
      ensures quotaEpoch == RecordProbe(old(quotaEpoch), x, reason, now)
    {
      if reason == SweepProbe {
        if x in quotaEpoch.sweep.targets {
          var t := quotaEpoch.sweep.targets[x].(attemptedAt := now);
          quotaEpoch := quotaEpoch.(sweep := quotaEpoch.sweep.(targets := quotaEpoch.sweep.targets[x := t]));
        }
        return;
      }
      if reason != PendingProbe || x !in quotaEpoch.accounts {
        return;
      }
      var a := quotaEpoch.accounts[x];
      if a.state == Pending && NeedsObservation(a, now) {
        quotaEpoch := quotaEpoch.(accounts := quotaEpoch.accounts[x := a.(attempts := a.attempts + 1, lastProbeAt := now)]);
      }
    }

    method ConfirmLocked(reason: Reason, f: Facts, now: int)
      modifies this
      ensures quotaEpoch == Confirm(old(quotaEpoch), reason, f, now)
    {
      var e := quotaEpoch.(sequence := quotaEpoch.sequence + 1);
      var id := Epoch((if f.anchor == 0 then now else f.anchor) / MINUTE, 0);
      if id == e.id {
        id := id.(suffix := e.sequence);
      }
      var accounts := ConfirmedAccounts(e.sweep, reason, f);
      quotaEpoch := e.(id := id, reason := reason, confirmedAt := now, resetAt := f.anchor, accounts := accounts,
                       sweep := e.sweep.(epoch := id));
    }

    static method ConfirmedAccounts(s: Sweep, reason: Reason, f: Facts) returns (accounts: map<Auth, Account>)
      ensures accounts == map x | x in s.targets :: Confirmed(s, x, reason, f)
    {
      accounts := map[];
      var left := s.targets.Keys;
      while left != {}
        invariant left <= s.targets.Keys
        invariant accounts == map x | x in s.targets && x !in left :: Confirmed(s, x, reason, f)
        decreases left
      {
        var x :| x in left;
        left := left - {x};
        accounts := accounts[x := Confirmed(s, x, reason, f)];
      }
    }

    static method CountsOf(s: Sweep) returns (observed: nat, evidence: nat)
      ensures observed == |Seen(s)| && evidence == |Evident(s.targets)|
    {
      observed, evidence := 0, 0;
      var left := s.targets.Keys;
      assert Seen(s) - left == {} && Evident(s.targets) - left == {};
      while left != {}
        invariant left <= s.targets.Keys
        invariant observed == |Seen(s) - left| && evidence == |Evident(s.targets) - left|
        decreases left
      {
        var x :| x in left;
        OneLess(Seen(s), left, x);
        OneLess(Evident(s.targets), left, x);
        left := left - {x};
        if s.targets[x].observedAt != 0 && s.targets[x].observedAt >= s.startedAt {
          observed := observed + 1;
        }
        if s.targets[x].evidence {
          evidence := evidence + 1;
        }
      }
      assert Seen(s) - left == Seen(s) && Evident(s.targets) - left == Evident(s.targets);
    }

    static lemma OneLess(a: set<Auth>, left: set<Auth>, x: Auth)
      requires x in left
      ensures |a - (left - {x})| == |a - left| + if x in a then 1 else 0
    {
      assert x in a ==> a - (left - {x}) == (a - left) + {x};
      assert x !in a ==> a - (left - {x}) == a - left;
    }

    // Tried and remaining targets of the round, of those without evidence.
    static method RoundProgress(s: Sweep) returns (attempted: nat, remaining: nat)
      ensures attempted <= remaining
      ensures remaining == 0 || attempted == remaining <==> RoundComplete(s)
    {
      attempted, remaining := 0, 0;
      var left := s.targets.Keys;
      while left != {}
        invariant left <= s.targets.Keys && attempted <= remaining
        invariant attempted == remaining <==>
          forall x :: x in s.targets && x !in left && !s.targets[x].evidence
                      ==> s.targets[x].attemptedAt != 0 && s.targets[x].attemptedAt >= RoundStart(s)
        invariant remaining == 0 ==> attempted == 0
        decreases left
      {
        var x :| x in left;
        left := left - {x};
        if !s.targets[x].evidence {
          remaining := remaining + 1;
          if s.targets[x].attemptedAt != 0 && s.targets[x].attemptedAt >= RoundStart(s) {
            attempted := attempted + 1;
          }
        }
      }
    }

    method ScheduleNextRoundLocked(now: int) returns (ok: bool)
      modifies this
      ensures ok == CanAdvance(old(quotaEpoch.sweep), now)
      ensures quotaEpoch == if ok then old(quotaEpoch).(sweep := Advanced(old(quotaEpoch.sweep), now)) else old(quotaEpoch)
    {
      var s := quotaEpoch.sweep;
      if !s.active || s.reason != ProviderReset || s.round >= MAX_ROUNDS {
        return false;
      }
      var next := now + ROUND_DELAY;
      if s.deadline != 0 && next >= s.deadline {
        return false;
      }
      quotaEpoch := quotaEpoch.(sweep := s.(round := s.round + 1, roundStartedAt := next, nextRoundAt := next));
      return true;
    }

    method AdoptNewcomers(f: Facts)
      modifies this
      ensures quotaEpoch == Adopted(old(quotaEpoch), f)
    {
      ghost var start := quotaEpoch;
      var targets := quotaEpoch.sweep.targets;
      var accounts := quotaEpoch.accounts;
      var left := targets.Keys;
      while left != {}
        invariant left <= targets.Keys && quotaEpoch == start && start.sweep.targets == targets
        invariant accounts == map x | x in start.accounts.Keys
                                          + (set y | y in targets && y !in left && y !in start.accounts && targets[y].observedAt != 0 && y in f.readings) ::
                                if x in start.accounts then start.accounts[x] else FromReading(f.readings[x])
        decreases left
      {
        var x :| x in left;
        left := left - {x};
        if x !in accounts && targets[x].observedAt != 0 && x in f.readings {
          accounts := accounts[x := FromReading(f.readings[x])];
        }
      }
      quotaEpoch := quotaEpoch.(accounts := accounts);
    }

    method FinalizeLocked(f: Facts, now: int) returns (confirmed: bool)
      modifies this
      ensures quotaEpoch == Finalize(old(quotaEpoch), f, now)
      ensures confirmed <==> old(quotaEpoch.sweep.active) && Confirms(old(quotaEpoch), now)
    {
      if !quotaEpoch.sweep.active {
        return false;
      }
      ghost var start := quotaEpoch;
      var observed, evidence := CountsOf(quotaEpoch.sweep);
      confirmed := DecideLocked(observed, evidence, f, now);
      var attempted, remaining := RoundProgress(quotaEpoch.sweep);
      if !confirmed && quotaEpoch.sweep.reason == ProviderReset && now < quotaEpoch.sweep.deadline
         && (remaining == 0 || attempted == remaining) {
        var next := ScheduleNextRoundLocked(now);
        if next {
          return;
        }
      }
      var s := quotaEpoch.sweep;
      if confirmed || now >= s.deadline || (s.reason != ProviderReset && observed == |s.targets|) {
        quotaEpoch := quotaEpoch.(sweep := s.(active := false, nextRoundAt := 0));
      }
    }

    method DecideLocked(observed: nat, evidence: nat, f: Facts, now: int) returns (confirmed: bool)
      requires quotaEpoch.sweep.active
      requires observed == |Seen(quotaEpoch.sweep)| && evidence == |Evident(quotaEpoch.sweep.targets)|
      modifies this
      ensures quotaEpoch == Decided(old(quotaEpoch), f, now)
      ensures confirmed <==> Confirms(old(quotaEpoch), now)
      ensures Seen(quotaEpoch.sweep) == Seen(old(quotaEpoch.sweep)) && quotaEpoch.sweep.targets == old(quotaEpoch.sweep.targets)
    {
      var s := quotaEpoch.sweep;
      confirmed := false;
      if s.reason == ProviderReset && s.epoch.NoEpoch? && s.required > 0 && evidence >= s.required {
        ConfirmLocked(ProviderReset, f, now);
        confirmed := true;
      } else if (s.reason == Bootstrap || s.reason == InventoryChange) && quotaEpoch.id.NoEpoch?
                && observed > 0 && (observed == |s.targets| || now >= s.deadline) {
        ConfirmLocked(Bootstrap, f, now);
        confirmed := true;
      } else if s.reason == InventoryChange && !quotaEpoch.id.NoEpoch? {
        AdoptNewcomers(f);
      }
    }

    // A probe's answer.
    method ObserveLocked(a: Answer, inventory: set<Auth>, f: Facts, now: int) returns (confirmed: bool)
      modifies this
      ensures quotaEpoch == Observe(old(quotaEpoch), a, inventory, f, now)
    {
      if a.evidence && (!quotaEpoch.sweep.active || quotaEpoch.sweep.reason != ProviderReset) {
        var ok := BeginSweepLocked(inventory, ProviderReset, now);
      }
      MarkLocked(a);
      confirmed := FinalizeLocked(f, now);
    }

    method MarkLocked(a: Answer)
      modifies this
      ensures var marked := old(quotaEpoch).(sweep := Marked(old(quotaEpoch.sweep), a));
              quotaEpoch == marked.(accounts := Updated(marked, a))
    {
      var s := quotaEpoch.sweep;
      if a.auth in s.targets {
        var t := s.targets[a.auth].(observedAt := a.refreshed);
        if a.evidence {
          t := t.(evidence := true);
        }
        quotaEpoch := quotaEpoch.(sweep := s.(targets := s.targets[a.auth := t]));
      }
      if a.auth in quotaEpoch.accounts && a.refreshed >= quotaEpoch.confirmedAt {
        var was := quotaEpoch.accounts[a.auth];
        var next := was.(observedAt := 0);
        if a.adopts {
          next := FromReading(a.reading).(attempts := was.attempts, lastProbeAt := was.lastProbeAt);
          if was.state == Warmed || was.state == Blocked {
            next := next.(state := was.state);
          }
        }
        quotaEpoch := quotaEpoch.(accounts := quotaEpoch.accounts[a.auth := next]);
      }
    }
  }
}
