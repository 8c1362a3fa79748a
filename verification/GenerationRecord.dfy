/**
 The cross-instance ownership record and what the scheduler decides on it under the
 journal's exclusive lock (generation_owner.go): refuse, keep, or write a new record.
 */
module GenerationRecord {

  const RECORD_VERSION: int := 1
  const MAX_GENERATION: nat := 0xFFFF_FFFF_FFFF_FFFF

  datatype Record = Record(
    version: int,
    highestReserved: nat,
    activeGeneration: nat,
    activeOwner: string,
    active: bool,
    reservedAt: nat,
    claimedAt: nat,
    releasedAt: nat)

  const NO_RECORD := Record(RECORD_VERSION, 0, 0, "", false, 0, 0, 0)

  datatype Result<T> = Ok(value: T) | Err

  predicate IsSpace(c: char) {
    c == ' ' || c == '\t' || c == '\n' || c == '\r'
  }

  predicate Blank(s: string) {
    forall c <- s :: IsSpace(c)
  }

  predicate Valid(r: Record) {
    && (r.version == 0 || r.version == RECORD_VERSION)
    && r.activeGeneration <= r.highestReserved
    && (r.active ==> r.activeGeneration != 0 && !Blank(r.activeOwner))
  }

  // The reader's monotonicity check between two consecutive journal lines.
  predicate Follows(later: Record, earlier: Record) {
    later.highestReserved >= earlier.highestReserved && later.activeGeneration >= earlier.activeGeneration
  }

  predicate Holds(r: Record, ticket: nat, owner: string) {
    r.active && r.activeGeneration == ticket && r.activeOwner == owner
  }

  datatype Decision = Refuse | Keep | Write(record: Record)

  // What one caller does with the record under the lock. Commit and Check only
  // look; the shared-state write of a commit happens while the lock is held.
  datatype Request =
    | Look
    | Reserve(now: nat)
    | Claim(ticket: nat, owner: string, now: nat)
    | Release(ticket: nat, owner: string, now: nat)

  function NextTicket(r: Record): nat {
    (if r.activeGeneration > r.highestReserved then r.activeGeneration else r.highestReserved) + 1
  }

  predicate Superseded(r: Record, ticket: nat) {
    r.highestReserved > ticket || r.activeGeneration >= ticket
  }

  function Decide(req: Request, r: Record): Decision {
    match req
    case Look => Keep
    case Reserve(now) =>
      if NextTicket(r) > MAX_GENERATION then Refuse
      else Write(r.(highestReserved := NextTicket(r), reservedAt := now))
    case Claim(ticket, owner, now) =>
      if Superseded(r, ticket) then Keep
      else if r.highestReserved != ticket then Refuse
      else Write(r.(activeGeneration := ticket, activeOwner := owner, active := true, claimedAt := now, releasedAt := 0))
    case Release(ticket, owner, now) =>
      if !Holds(r, ticket, owner) then Keep
      else Write(r.(active := false, releasedAt := now))
  }

  // The record that an undisturbed update returns: what was read, or what was
  // written after the version stamp and the validity check.
  function Resolve(req: Request, r: Record): Result<Record> {
    match Decide(req, r)
    case Refuse => Err
    case Keep => Ok(r)
    case Write(w) =>
      var stamped := w.(version := RECORD_VERSION);
      if Valid(stamped) then Ok(stamped) else Err
  }

  // Any decision on a valid record resolves to a valid record that follows it,
  // and an active generation changes hands only by a claim of the newest
  // reservation, which is above every generation that was ever active.
  lemma ResolveFollows(req: Request, r: Record)
    requires Valid(r) && Resolve(req, r).Ok?
    ensures Valid(Resolve(req, r).value) && Follows(Resolve(req, r).value, r)
    ensures var w := Resolve(req, r).value;
            w.activeGeneration != r.activeGeneration ==>
              req.Claim? && w.active && w.activeGeneration == req.ticket == w.highestReserved > r.activeGeneration && w.activeOwner == req.owner
    ensures var w := Resolve(req, r).value;
            w.activeGeneration == r.activeGeneration ==> (w.active ==> r.active) && w.activeOwner == r.activeOwner
    ensures var w := Resolve(req, r).value;
            w.highestReserved != r.highestReserved ==>
              req.Reserve? && w.highestReserved == r.highestReserved + 1 && w.active == r.active
  {
    match Decide(req, r)
    case Refuse =>
    case Keep =>
    case Write(w) =>
  }

  /** A reservation takes the next number and leaves the owner alone; on a valid
      record only the last 64-bit number stops it. */
  lemma ReserveTakesNext(r: Record, now: nat)
    requires Valid(r)
    ensures Resolve(Reserve(now), r).Ok? <==> r.highestReserved < 0xFFFF_FFFF_FFFF_FFFF
    ensures Resolve(Reserve(now), r).Ok? ==>
              var w := Resolve(Reserve(now), r).value;
              && w.highestReserved == r.highestReserved + 1 && w.reservedAt == now
              && w.activeGeneration == r.activeGeneration && w.activeOwner == r.activeOwner && w.active == r.active
              && w.claimedAt == r.claimedAt && w.releasedAt == r.releasedAt
  {
  }

  /** A claim by the newest reservation makes its owner the active one, whoever was
      active before; a claim that a newer reservation or generation overtook changes
      nothing, and one by a number never reserved is refused. */
  lemma ClaimTakesOver(r: Record, ticket: nat, owner: string, now: nat)
    requires Valid(r)
    ensures var res := Resolve(Claim(ticket, owner, now), r);
            && (r.highestReserved > ticket || r.activeGeneration >= ticket ==> res == Ok(r))
            && (r.highestReserved < ticket ==> res.Err?)
            && (r.highestReserved == ticket > r.activeGeneration ==> (res.Ok? <==> exists c <- owner :: c !in {' ', '\t', '\n', '\r'}))
            && (r.highestReserved == ticket > r.activeGeneration && res.Ok? ==>
                  var w := res.value;
                  && w.active && w.activeGeneration == ticket && w.activeOwner == owner
                  && w.highestReserved == r.highestReserved && w.reservedAt == r.reservedAt
                  && w.claimedAt == now && w.releasedAt == 0)
  {
  }

  /** A release by the holder leaves a tombstone: the record keeps the generation and
      its owner and is no longer active. A release by anybody else changes nothing. */
  lemma ReleaseLeavesTombstone(r: Record, ticket: nat, owner: string, now: nat)
    requires Valid(r)
    ensures var res := Resolve(Release(ticket, owner, now), r);
            && res.Ok?
            && (r.active && r.activeGeneration == ticket && r.activeOwner == owner ==>
                  var w := res.value;
                  && !w.active && w.releasedAt == now
                  && w.activeGeneration == r.activeGeneration && w.activeOwner == r.activeOwner
                  && w.highestReserved == r.highestReserved && w.claimedAt == r.claimedAt)
            && (!(r.active && r.activeGeneration == ticket && r.activeOwner == owner) ==> res.value == r)
  {
  }
}
