/**
 Which reset credit to redeem now (resetCreditDue in reset_credits.go). Credits are
 listed by expiry; the provider consumes the earliest, so nothing may be skipped.
 Times are nanoseconds.
 */
module CreditDue {

  const MARGIN: int := 5 * 1000000000

  datatype Credit = Credit(key: string, expiresAt: int, supported: bool)

  datatype Listing = Listing(complete: bool, countKnown: bool, credits: seq<Credit>)

  datatype Verdict = DetailsIncomplete | PlanUnsupported | Scheduled | TooLate | NoneAvailable | Due(credit: Credit)

  ghost predicate ByExpiry(credits: seq<Credit>) {
    forall i, j | 0 <= i < j < |credits| :: credits[i].expiresAt <= credits[j].expiresAt
  }

  predicate Live(c: Credit, now: int) { c.expiresAt > now }

  predicate Redeemable(c: Credit, now: int, before: int) {
    c.supported && c.expiresAt <= now + before && c.expiresAt - now > MARGIN
  }

  // The first card that has not expired.
  ghost predicate FirstLive(credits: seq<Credit>, i: int, now: int) {
    0 <= i < |credits| && Live(credits[i], now) && forall j | 0 <= j < i :: !Live(credits[j], now)
  }

  function Judge(c: Credit, now: int, before: int): Verdict {
    if !c.supported then PlanUnsupported
    else if c.expiresAt > now + before then Scheduled
    else if c.expiresAt - now <= MARGIN then TooLate
    else Due(c)
  }

  /** A card is redeemed iff it is the first live one of a complete listing and is itself
      redeemable; an unsupported, early or late first card holds every later one back. */
  method ResetCreditDue(listing: Listing, now: int, before: int) returns (v: Verdict)
    ensures v == DetailsIncomplete <==> !listing.complete || !listing.countKnown
    ensures listing.complete && listing.countKnown ==>
      if exists c :: c in listing.credits && Live(c, now)
      then exists i :: FirstLive(listing.credits, i, now) && v == Judge(listing.credits[i], now, before)
      else v == NoneAvailable
    ensures v.Due? ==> listing.complete && listing.countKnown && Redeemable(v.credit, now, before)
                       && exists i :: FirstLive(listing.credits, i, now) && listing.credits[i] == v.credit
    ensures !v.Due? && listing.complete && listing.countKnown ==>
              forall i | FirstLive(listing.credits, i, now) :: !Redeemable(listing.credits[i], now, before)
  {
    if !listing.complete || !listing.countKnown {
      return DetailsIncomplete;
    }
    for i := 0 to |listing.credits|
      invariant forall j | 0 <= j < i :: !Live(listing.credits[j], now)
    {
      var c := listing.credits[i];
      if c.expiresAt > now {
        assert FirstLive(listing.credits, i, now) && c in listing.credits;
        if !c.supported {
          return PlanUnsupported;
        }
        if c.expiresAt > now + before {
          return Scheduled;
        }
        if c.expiresAt - now <= MARGIN {
          return TooLate;
        }
        return Due(c);
      }
    }
    return NoneAvailable;
  }

  /** In an ordered listing the redeemed card is one the provider will consume: no live
      card expires before it. */
  lemma DueIsEarliest(credits: seq<Credit>, i: int, now: int, before: int)
    requires ByExpiry(credits) && FirstLive(credits, i, now) && Judge(credits[i], now, before).Due?
    ensures Redeemable(credits[i], now, before)
    ensures forall c | c in credits && Live(c, now) :: credits[i].expiresAt <= c.expiresAt
  {
    forall c | c in credits && Live(c, now) ensures credits[i].expiresAt <= c.expiresAt {
      var j :| 0 <= j < |credits| && credits[j] == c;
    }
  }
}
