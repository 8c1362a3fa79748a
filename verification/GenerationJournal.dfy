/**
 The append-only generation journal as bytes (generation_owner.go): a reader that
 tolerates exactly one torn line at the end, an appender that repairs a missing
 newline, and compaction before the callback.
 */
module GenerationJournal {
  import opened GenerationRecord

  newtype byte = b: int | 0 <= b < 256

  const NL: byte := 10
  const MAX_BYTES: nat := 0x10_0000         // 1 << 20
  const COMPACT_AT: nat := 0xC_0000         // 3 << 18
  const RECOVERY_MAX_BYTES: nat := 0x100_0000 // 16 << 20
  const LINE_MAX_BYTES: nat := 0x1_0000     // 64 << 10

  // bytes.TrimSpace on ASCII
  predicate SpaceByte(b: byte) {
    b == 32 || 9 <= b <= 13
  }

  // JSON text is a parameter: a Codec maps records to lines and lines to records.
  // Lawful says what the encoding must do; the module JournalText shows that a
  // concrete JSON object text obeys these laws.
  datatype Decoded = Decoded(record: Record) | Truncated | Malformed
  datatype Codec = Codec(marshal: Record -> seq<byte>, decode: seq<byte> -> Decoded)

  predicate OwnerChar(c: char) {
    'a' <= c <= 'z' || 'A' <= c <= 'Z' || '0' <= c <= '9' || c == '-' || c == '_'
  }

  // 24 random bytes in unpadded base64url
  const OWNER_LENGTH: nat := 32

  predicate OwnerText(s: string) {
    |s| == OWNER_LENGTH && forall c <- s :: OwnerChar(c)
  }

  // The records the protocol can write: uint64 counters and timestamps, and an
  // owner that is absent or a base64url token.
  predicate Encodable(r: Record) {
    && Valid(r) && r.version == RECORD_VERSION
    && r.highestReserved <= MAX_GENERATION
    && (r.activeOwner == "" || OwnerText(r.activeOwner))
    && r.reservedAt <= MAX_GENERATION && r.claimedAt <= MAX_GENERATION && r.releasedAt <= MAX_GENERATION
  }

  predicate EncodableRequest(req: Request) {
    match req
    case Look => true
    case Reserve(now) => now <= MAX_GENERATION
    case Claim(ticket, owner, now) => OwnerText(owner) && now <= MAX_GENERATION
    case Release(ticket, owner, now) => now <= MAX_GENERATION
  }

  ghost predicate LawfulAt(c: Codec, r: Record) {
    var line := c.marshal(r);
    && 0 < |line| <= LINE_MAX_BYTES
    && (forall b <- line :: !SpaceByte(b))
    && c.decode(line) == Decoded(r)
    && (forall k | 0 < k < |line| :: c.decode(line[..k]) == Truncated)
  }

  ghost predicate Lawful(c: Codec) {
    forall r | Encodable(r) :: LawfulAt(c, r)
  }

  // ---------------------------------------------------------------- reading

  function TrimLeft(s: seq<byte>): seq<byte> {
    if s != [] && SpaceByte(s[0]) then TrimLeft(s[1..]) else s
  }

  function TrimRight(s: seq<byte>): seq<byte> {
    if s != [] && SpaceByte(s[|s| - 1]) then TrimRight(s[..|s| - 1]) else s
  }

  function Trim(s: seq<byte>): seq<byte> {
    TrimRight(TrimLeft(s))
  }

  // bytes.Split(raw, "\n")
  function Split(s: seq<byte>): (lines: seq<seq<byte>>)
    ensures |lines| >= 1
  {
    if s == [] then [[]]
    else
      var rest := Split(s[1..]);
      if s[0] == NL then [[]] + rest else [[s[0]] + rest[0]] + rest[1..]
  }

  predicate EndsWithNewline(s: seq<byte>) {
    |s| > 0 && s[|s| - 1] == NL
  }

  datatype ReadState = ReadState(latest: Record, found: bool, truncatedTail: bool)

  const NOTHING_READ := ReadState(NO_RECORD, false, false)

  function ScanLine(c: Codec, raw: seq<byte>, incompleteTail: bool, st: ReadState): Result<ReadState> {
    var line := Trim(raw);
    if line == [] then Ok(st)
    else if |line| > LINE_MAX_BYTES then Err
    else
      match c.decode(line)
      case Truncated => if incompleteTail then Ok(st.(truncatedTail := true)) else Err
      case Malformed => Err
      case Decoded(r) =>
        if !Valid(r) then Err
        else if st.found && !Follows(r, st.latest) then Err
        else Ok(st.(latest := r, found := true))
  }

  function Scan(c: Codec, lines: seq<seq<byte>>, endsWithNewline: bool, st: ReadState): Result<ReadState> {
    if lines == [] then Ok(st)
    else
      match ScanLine(c, lines[0], |lines| == 1 && !endsWithNewline, st)
      case Err => Err
      case Ok(next) => Scan(c, lines[1..], endsWithNewline, next)
  }

  function Read(c: Codec, raw: seq<byte>): Result<ReadState> {
    if raw == [] then Ok(NOTHING_READ)
    else if |raw| > RECOVERY_MAX_BYTES then Err
    else
      match Scan(c, Split(raw), EndsWithNewline(raw), NOTHING_READ)
      case Err => Err
      case Ok(st) => if Trim(raw) != [] && !st.found then Err else Ok(st)
  }

  // ---------------------------------------------------------------- writing

  // What may go wrong while the lock is wanted or held. A cut append covers a
  // crash, a short write and a failed fsync: some prefix reached the file and the
  // caller sees an error (or is dead).
  datatype Fault =
    | NoFault
    | LockBusy
    | CompactionFails(renamed: bool)
    | AppendCut(written: nat)

  function LineOf(c: Codec, r: Record): seq<byte> {
    c.marshal(r) + [NL]
  }

  function Compact(c: Codec, f: seq<byte>, r: Record, fault: Fault): (seq<byte>, bool) {
    var stamped := r.(version := RECORD_VERSION);
    if !Valid(stamped) then (f, false)
    else if fault.CompactionFails? then (if fault.renamed then LineOf(c, stamped) else f, false)
    else (LineOf(c, stamped), true)
  }

  function Separator(f: seq<byte>): seq<byte> {
    if f != [] && !EndsWithNewline(f) then [NL] else []
  }

  function Append(c: Codec, f: seq<byte>, r: Record, fault: Fault): (seq<byte>, Result<Record>) {
    var chunk := Separator(f) + LineOf(c, r);
    if |f| + |chunk| > MAX_BYTES then (f, Err)
    else if fault.AppendCut? then (f + (if fault.written < |chunk| then chunk[..fault.written] else chunk), Err)
    else (f + chunk, Ok(r))
  }

  function Update(c: Codec, f: seq<byte>, req: Request, fault: Fault): (seq<byte>, Result<Record>) {
    if fault.LockBusy? then (f, Err)
    else
      match Read(c, f)
      case Err => (f, Err)
      case Ok(st) =>
        var (g, compacted) :=
          if st.truncatedTail || |f| >= COMPACT_AT then Compact(c, f, st.latest, fault) else (f, true);
        if !compacted then (g, Err)
        else
          match Decide(req, st.latest)
          case Refuse => (g, Err)
          case Keep => (g, Ok(st.latest))
          case Write(w) =>
            var stamped := w.(version := RECORD_VERSION);
            if !Valid(stamped) then (g, Err) else Append(c, g, stamped, fault)
  }

  // ------------------------------------------------------- the file as an object

  class JournalFile {
    const codec: Codec
    var bytes: seq<byte>

    constructor (codec: Codec)
      ensures this.codec == codec && bytes == []
    {
      this.codec := codec;
      bytes := [];
    }

    // readSchedulerGenerationRecordLocked
    method ReadLocked() returns (res: Result<ReadState>)
      ensures res == Read(codec, bytes)
    {
      if bytes == [] {
        return Ok(NOTHING_READ);
      }
      if |bytes| > RECOVERY_MAX_BYTES {
        return Err;
      }
      var lines := Split(bytes);
      var endsWithNewline := EndsWithNewline(bytes);
      var st := NOTHING_READ;
      var i := 0;
      while i < |lines|
        invariant 0 <= i <= |lines|
        invariant Scan(codec, lines, endsWithNewline, NOTHING_READ) == Scan(codec, lines[i..], endsWithNewline, st)
      {
        var step := ScanLine(codec, lines[i], i == |lines| - 1 && !endsWithNewline, st);
        assert lines[i..][1..] == lines[i + 1..];
        if step.Err? {
          return Err;
        }
        st := step.value;
        i := i + 1;
      }
      if Trim(bytes) != [] && !st.found {
        return Err;
      }
      return Ok(st);
    }

    // compactSchedulerGenerationRecord: a temporary file renamed over the journal
    method CompactTo(r: Record, fault: Fault) returns (ok: bool)
      modifies this`bytes
      ensures (bytes, ok) == Compact(codec, old(bytes), r, fault)
    {
      var stamped := r.(version := RECORD_VERSION);
      if !Valid(stamped) {
        return false;
      }
      if fault == CompactionFails(false) {
        return false;
      }
      bytes := LineOf(codec, stamped);
      ok := !fault.CompactionFails?;
    }

    // appendSchedulerGenerationRecordLocked
    method AppendLocked(r: Record, fault: Fault) returns (res: Result<Record>)
      modifies this`bytes
      ensures (bytes, res) == Append(codec, old(bytes), r, fault)
    {
      var separator: seq<byte> := [];
      if |bytes| > 0 && bytes[|bytes| - 1] != NL {
        separator := [NL];
      }
      var chunk := separator + LineOf(codec, r);
      if |bytes| + |chunk| > MAX_BYTES {
        return Err;
      }
      if fault.AppendCut? {
        bytes := bytes + (if fault.written < |chunk| then chunk[..fault.written] else chunk);
        return Err;
      }
      bytes := bytes + chunk;
      return Ok(r);
    }

    // updateSchedulerGenerationRecord
    // `seen` is the record the callback was given.
    method UpdateRecord(req: Request, fault: Fault) returns (res: Result<Record>, seen: Record)
      modifies this`bytes
      ensures (bytes, res) == Update(codec, old(bytes), req, fault)
      ensures res.Ok? ==> Read(codec, old(bytes)).Ok? && seen == Read(codec, old(bytes)).value.latest && Resolve(req, seen) == res
    {
      seen := NO_RECORD;
      if fault.LockBusy? {
        return Err, seen;
      }
      var read := ReadLocked();
      if read.Err? {
        return Err, seen;
      }
      var st := read.value;
      seen := st.latest;
      if st.truncatedTail || |bytes| >= COMPACT_AT {
        var compacted := CompactTo(st.latest, fault);
        if !compacted {
          return Err, seen;
        }
      }
      match Decide(req, st.latest)
      case Refuse => return Err, seen;
      case Keep => return Ok(st.latest), seen;
      case Write(w) =>
        var stamped := w.(version := RECORD_VERSION);
        if !Valid(stamped) {
          return Err, seen;
        }
        res := AppendLocked(stamped, fault);
    }
  }

  // ---------------------------------------------------------- journal shapes

  function Lines(c: Codec, rs: seq<Record>): seq<byte> {
    if rs == [] then [] else LineOf(c, rs[0]) + Lines(c, rs[1..])
  }

  ghost predicate Chain(rs: seq<Record>) {
    && (forall i | 0 <= i < |rs| :: Encodable(rs[i]))
    && (forall i, j | 0 <= i < j < |rs| :: Follows(rs[j], rs[i]))
  }

  // Complete durable lines `rs`, then the first `k` bytes of a line for `next`
  // (all but its newline when k is the full length).
  ghost predicate Shape(c: Codec, f: seq<byte>, rs: seq<Record>, next: Record, k: nat) {
    && |rs| >= 1
    && Chain(rs + [next])
    && k <= |c.marshal(next)|
    && f == Lines(c, rs) + c.marshal(next)[..k]
    && |f| <= MAX_BYTES
  }

  // The value a journal of this shape stands for.
  ghost function Current(c: Codec, rs: seq<Record>, next: Record, k: nat): Record
    requires |rs| >= 1
  {
    if k == |c.marshal(next)| then next else rs[|rs| - 1]
  }

  // A journal with at least one complete durable record, possibly followed by
  // one torn append, standing for the record `r`.
  ghost predicate Stands(c: Codec, f: seq<byte>, r: Record) {
    exists rs: seq<Record>, next: Record, k: nat :: Shape(c, f, rs, next, k) && r == Current(c, rs, next, k)
  }

  lemma {:induction false} SplitLine(m: seq<byte>, rest: seq<byte>)
    requires NL !in m
    ensures Split(m + [NL] + rest) == [m] + Split(rest)
    decreases m
  {
    if m == [] {
      assert m + [NL] + rest == [NL] + rest;
      assert ([NL] + rest)[1..] == rest;
    } else {
      SplitLine(m[1..], rest);
      assert (m + [NL] + rest)[1..] == m[1..] + [NL] + rest;
      assert [m[0]] + m[1..] == m;
    }
  }

  lemma {:induction false} SplitTail(m: seq<byte>)
    requires NL !in m
    ensures Split(m) == [m]
    decreases m
  {
    if m != [] {
      SplitTail(m[1..]);
      assert [m[0]] + m[1..] == m;
    }
  }

  function Marshalled(c: Codec, rs: seq<Record>): (lines: seq<seq<byte>>)
    ensures |lines| == |rs|
  {
    if rs == [] then [] else [c.marshal(rs[0])] + Marshalled(c, rs[1..])
  }

  lemma ChainTail(rs: seq<Record>, next: Record)
    requires |rs| >= 1 && Chain(rs + [next])
    ensures Encodable(rs[0]) && Encodable(next) && Chain(rs[1..] + [next]) && Chain(rs)
    ensures Follows((rs[1..] + [next])[0], rs[0])
  {
    var all := rs + [next];
    assert all[0] == rs[0] && all[|rs|] == next;
    assert rs[1..] + [next] == all[1..];
    forall i | 0 <= i < |rs| ensures Encodable(rs[i]) { assert rs[i] == all[i]; }
    forall i, j | 0 <= i < j < |rs| ensures Follows(rs[j], rs[i]) { assert rs[i] == all[i] && rs[j] == all[j]; }
    assert all[1..][0] == all[1];
  }

  lemma LineHasNoNewline(c: Codec, r: Record)
    requires Lawful(c) && Encodable(r)
    ensures NL !in c.marshal(r)
  {
    assert LawfulAt(c, r);
    if NL in c.marshal(r) {
      assert SpaceByte(NL);
    }
  }

  lemma {:induction false} SplitJournal(c: Codec, rs: seq<Record>, next: Record, k: nat)
    requires Lawful(c) && Chain(rs + [next]) && k <= |c.marshal(next)|
    ensures Split(Lines(c, rs) + c.marshal(next)[..k]) == Marshalled(c, rs) + [c.marshal(next)[..k]]
    decreases rs
  {
    var tail := c.marshal(next)[..k];
    if rs == [] {
      assert (rs + [next])[0] == next;
      LineHasNoNewline(c, next);
      SplitTail(tail);
      assert Lines(c, rs) + tail == tail;
    } else {
      ChainTail(rs, next);
      SplitJournal(c, rs[1..], next, k);
      LineHasNoNewline(c, rs[0]);
      SplitLine(c.marshal(rs[0]), Lines(c, rs[1..]) + tail);
      assert Lines(c, rs) + tail == c.marshal(rs[0]) + [NL] + (Lines(c, rs[1..]) + tail);
      assert Marshalled(c, rs) + [tail] == [c.marshal(rs[0])] + (Marshalled(c, rs[1..]) + [tail]);
    }
  }

  lemma TrimNoSpace(s: seq<byte>)
    requires forall b <- s :: !SpaceByte(b)
    ensures Trim(s) == s
  {
  }

  lemma ScanRecord(c: Codec, r: Record, incompleteTail: bool, st: ReadState)
    requires Lawful(c) && Encodable(r) && (st.found ==> Follows(r, st.latest))
    ensures ScanLine(c, c.marshal(r), incompleteTail, st) == Ok(ReadState(r, true, st.truncatedTail))
  {
    assert LawfulAt(c, r);
    TrimNoSpace(c.marshal(r));
  }

  lemma ScanTorn(c: Codec, r: Record, k: nat, st: ReadState)
    requires Lawful(c) && Encodable(r) && k < |c.marshal(r)|
    ensures ScanLine(c, c.marshal(r)[..k], true, st) == Ok(if k == 0 then st else st.(truncatedTail := true))
    ensures k > 0 ==> ScanLine(c, c.marshal(r)[..k], false, st) == Err
  {
    assert LawfulAt(c, r);
    var torn := c.marshal(r)[..k];
    forall b | b in torn ensures !SpaceByte(b) { assert b in c.marshal(r); }
    TrimNoSpace(torn);
  }

  lemma {:induction false} ScanJournal(c: Codec, rs: seq<Record>, next: Record, k: nat, endsWithNewline: bool, st: ReadState)
    requires Lawful(c) && Chain(rs + [next]) && k <= |c.marshal(next)|
    requires endsWithNewline ==> k == 0
    requires k == 0 || !endsWithNewline
    requires st.found ==> Follows((rs + [next])[0], st.latest)
    requires rs == [] ==> st.found
    requires !st.truncatedTail
    ensures var latest := if k == |c.marshal(next)| then next else if rs == [] then st.latest else rs[|rs| - 1];
            Scan(c, Marshalled(c, rs) + [c.marshal(next)[..k]], endsWithNewline, st)
              == Ok(ReadState(latest, true, 0 < k < |c.marshal(next)|))
    decreases rs
  {
    var tail := c.marshal(next)[..k];
    var lines := Marshalled(c, rs) + [tail];
    if rs == [] {
      assert (rs + [next])[0] == next && lines == [tail];
      assert LawfulAt(c, next);
      if k == |c.marshal(next)| {
        assert tail == c.marshal(next);
        ScanRecord(c, next, !endsWithNewline, st);
      } else {
        ScanTorn(c, next, k, st);
        if k == 0 { assert tail == []; }
      }
      assert lines[1..] == [];
    } else {
      ChainTail(rs, next);
      assert (rs + [next])[0] == rs[0];
      ScanRecord(c, rs[0], |lines| == 1 && !endsWithNewline, st);
      var after := ReadState(rs[0], true, false);
      ScanJournal(c, rs[1..], next, k, endsWithNewline, after);
      assert lines[0] == c.marshal(rs[0]);
      assert lines[1..] == Marshalled(c, rs[1..]) + [tail];
    }
  }

  lemma {:induction false} LinesEnd(c: Codec, rs: seq<Record>)
    requires |rs| >= 1
    ensures EndsWithNewline(Lines(c, rs)) && |Lines(c, rs)| > 0
    decreases rs
  {
    if |rs| > 1 {
      LinesEnd(c, rs[1..]);
    } else {
      assert Lines(c, rs[1..]) == [];
    }
  }

  lemma TrimNonempty(s: seq<byte>, i: nat)
    requires i < |s| && !SpaceByte(s[i])
    ensures Trim(s) != []
    decreases |s|
  {
    if SpaceByte(s[0]) {
      TrimNonempty(s[1..], i - 1);
    } else {
      TrimRightNonempty(s, 0);
    }
  }

  lemma TrimRightNonempty(s: seq<byte>, i: nat)
    requires i < |s| && !SpaceByte(s[i])
    ensures TrimRight(s) != []
    decreases |s|
  {
    if SpaceByte(s[|s| - 1]) {
      TrimRightNonempty(s[..|s| - 1], i);
    }
  }

  /** The reader returns exactly the value that the journal stands for, reports a
      torn tail exactly when there is one, and never fails. */
  lemma ReadShape(c: Codec, f: seq<byte>, rs: seq<Record>, next: Record, k: nat)
    requires Lawful(c) && Shape(c, f, rs, next, k)
    ensures Read(c, f) == Ok(ReadState(Current(c, rs, next, k), true, 0 < k < |c.marshal(next)|))
  {
    var tail := c.marshal(next)[..k];
    LinesEnd(c, rs);
    assert (rs + [next])[|rs|] == next;
    LineHasNoNewline(c, next);
    if k > 0 {
      assert f[|f| - 1] == tail[k - 1] == c.marshal(next)[k - 1];
      assert !EndsWithNewline(f);
    } else {
      assert f == Lines(c, rs);
    }
    SplitJournal(c, rs, next, k);
    ScanJournal(c, rs, next, k, EndsWithNewline(f), NOTHING_READ);
  }

  lemma StandsRead(c: Codec, f: seq<byte>, r: Record)
    requires Lawful(c) && Stands(c, f, r)
    ensures Encodable(r) && Read(c, f).Ok? && Read(c, f).value.latest == r && Read(c, f).value.found
    ensures |f| <= MAX_BYTES
  {
    var rs: seq<Record>, next: Record, k: nat :| Shape(c, f, rs, next, k) && r == Current(c, rs, next, k);
    ReadShape(c, f, rs, next, k);
    assert (rs + [next])[|rs|] == next && (rs + [next])[|rs| - 1] == rs[|rs| - 1];
  }

  lemma {:induction false} LinesAppend(c: Codec, rs: seq<Record>, r: Record)
    ensures Lines(c, rs + [r]) == Lines(c, rs) + LineOf(c, r)
    decreases rs
  {
    if rs == [] {
      assert rs + [r] == [r] && [r][1..] == [];
    } else {
      LinesAppend(c, rs[1..], r);
      assert (rs + [r])[1..] == rs[1..] + [r];
    }
  }

  // A single complete line stands for its record.
  lemma CompactedStands(c: Codec, r: Record)
    requires Lawful(c) && Encodable(r)
    ensures Stands(c, LineOf(c, r), r)
  {
    assert LawfulAt(c, r);
    assert Lines(c, [r]) == LineOf(c, r) by { assert [r][1..] == []; }
    assert LineOf(c, r) == Lines(c, [r]) + c.marshal(r)[..0];
    assert Shape(c, LineOf(c, r), [r], r, 0);
    assert Current(c, [r], r, 0) == r;
  }

  // The complete lines of a journal once the appender has repaired a missing newline.
  ghost function Complete(rs: seq<Record>, next: Record, k: nat): seq<Record> {
    if k == 0 then rs else rs + [next]
  }

  lemma SeparatorCompletes(c: Codec, f: seq<byte>, rs: seq<Record>, next: Record, k: nat)
    requires Lawful(c) && Shape(c, f, rs, next, k) && (k == 0 || k == |c.marshal(next)|)
    ensures f + Separator(f) == Lines(c, Complete(rs, next, k))
    ensures Chain(Complete(rs, next, k)) && |Complete(rs, next, k)| >= 1
    ensures Complete(rs, next, k)[|Complete(rs, next, k)| - 1] == Current(c, rs, next, k)
  {
    assert (rs + [next])[|rs|] == next;
    assert LawfulAt(c, next);
    LinesEnd(c, rs);
    ChainTail(rs, next);
    if k == 0 {
      assert f == Lines(c, rs);
    } else {
      LineHasNoNewline(c, next);
      assert f[|f| - 1] == c.marshal(next)[k - 1];
      LinesAppend(c, rs, next);
    }
  }

  // Complete lines followed by a prefix of one more line.
  lemma CutLineStands(c: Codec, done: seq<Record>, w: Record, j: nat)
    requires Lawful(c) && |done| >= 1 && Chain(done) && Encodable(w) && Follows(w, done[|done| - 1])
    requires j <= |LineOf(c, w)| && |Lines(c, done)| + j <= MAX_BYTES
    ensures var g := Lines(c, done) + LineOf(c, w)[..j];
            Stands(c, g, if j < |c.marshal(w)| then done[|done| - 1] else w)
  {
    var g := Lines(c, done) + LineOf(c, w)[..j];
    assert LawfulAt(c, w);
    ChainExtend(done, w);
    if j <= |c.marshal(w)| {
      assert LineOf(c, w)[..j] == c.marshal(w)[..j];
      assert Shape(c, g, done, w, j);
      assert Current(c, done, w, j) == if j < |c.marshal(w)| then done[|done| - 1] else w;
    } else {
      LinesAppend(c, done, w);
      ChainExtend(done + [w], w);
      assert LineOf(c, w)[..j] == LineOf(c, w);
      assert g == Lines(c, done + [w]) + c.marshal(w)[..0];
      assert Shape(c, g, done + [w], w, 0);
      assert Current(c, done + [w], w, 0) == w;
    }
  }

  lemma AppendedPrefix(c: Codec, f: seq<byte>, w: Record, fault: Fault) returns (j: nat)
    requires |f| + |Separator(f)| + |LineOf(c, w)| <= MAX_BYTES && Append(c, f, w, fault).0 != f
    ensures j <= |LineOf(c, w)| && (!fault.AppendCut? ==> j == |LineOf(c, w)|)
    ensures Append(c, f, w, fault).0 == (f + Separator(f)) + LineOf(c, w)[..j]
  {
    var separator, line := Separator(f), LineOf(c, w);
    var chunk := separator + line;
    var m := if fault.AppendCut? && fault.written < |chunk| then fault.written else |chunk|;
    assert chunk[..|chunk|] == chunk;
    assert Append(c, f, w, fault).0 == f + chunk[..m];
    assert f + chunk[..0] == f;
    assert m >= 1 >= |separator|;
    j := m - |separator|;
    PrefixOfJoin(f, separator, line, m);
  }

  lemma PrefixOfJoin(f: seq<byte>, a: seq<byte>, b: seq<byte>, m: nat)
    requires |a| <= m <= |a| + |b|
    ensures f + (a + b)[..m] == (f + a) + b[..m - |a|]
  {
    assert (a + b)[..m] == a + b[..m - |a|];
  }

  /** An append cut after any number of bytes leaves a journal that stands for the
      old record or for the new one, and an uncut append stands for the new one. */
  lemma AppendStands(c: Codec, f: seq<byte>, r: Record, done: seq<Record>, w: Record, fault: Fault)
    requires Lawful(c) && Stands(c, f, r)
    requires f + Separator(f) == Lines(c, done) && |done| >= 1 && Chain(done) && done[|done| - 1] == r
    requires Encodable(w) && Follows(w, r)
    requires |f| + |Separator(f)| + |LineOf(c, w)| <= MAX_BYTES
    ensures var (g, res) := Append(c, f, w, fault);
            && (Stands(c, g, w) || (fault.AppendCut? && Stands(c, g, r)))
            && (!fault.AppendCut? ==> res == Ok(w))
  {
    assert LawfulAt(c, w);
    var g := Append(c, f, w, fault).0;
    if g != f {
      var j := AppendedPrefix(c, f, w, fault);
      CutLineStands(c, done, w, j);
    }
  }

  lemma ChainExtend(rs: seq<Record>, w: Record)
    requires |rs| >= 1 && Chain(rs) && Encodable(w) && Follows(w, rs[|rs| - 1])
    ensures Chain(rs + [w])
  {
  }

  lemma ResolveEncodable(req: Request, r: Record)
    requires Encodable(r) && EncodableRequest(req) && Decide(req, r).Write?
    ensures var w := Decide(req, r).record.(version := RECORD_VERSION);
            Encodable(w) && Follows(w, r) && Resolve(req, r) == Ok(w)
  {
    match req
    case Look =>
    case Reserve(now) =>
    case Release(ticket, owner, now) =>
    case Claim(ticket, owner, now) =>
      assert owner[0] in owner;
      assert OwnerChar(owner[0]) && !IsSpace(owner[0]);
  }

  /** One update of a journal that stands for `r`, under any fault: the journal
      then stands for `r` or for the record the request resolves to; without a
      fault the update succeeds exactly when the request is not refused, and the
      journal stands for the returned record. The size limit is never hit. */
  lemma UpdateStands(c: Codec, f: seq<byte>, r: Record, req: Request, fault: Fault)
    requires Lawful(c) && Stands(c, f, r) && EncodableRequest(req)
    ensures var (g, res) := Update(c, f, req, fault);
            && (Stands(c, g, r) || (Resolve(req, r).Ok? && Stands(c, g, Resolve(req, r).value)))
            && (res.Ok? ==> res == Resolve(req, r) && Stands(c, g, res.value))
            && (fault.NoFault? ==> res == Resolve(req, r))
  {
    StandsRead(c, f, r);
    if !fault.LockBusy? {
      var g, done, compacted := PreparedStands(c, f, r, fault);
      if compacted && Decide(req, r).Write? {
        ResolveEncodable(req, r);
        var w := Decide(req, r).record.(version := RECORD_VERSION);
        assert LawfulAt(c, w);
        AppendStands(c, g, r, done, w, fault);
      }
    }
  }

  // The bytes just before the callback: compacted if the tail was torn or the
  // journal was long, and always short enough for one more line.
  lemma PreparedStands(c: Codec, f: seq<byte>, r: Record, fault: Fault)
    returns (g: seq<byte>, done: seq<Record>, ok: bool)
    requires Lawful(c) && Stands(c, f, r)
    ensures var torn := Read(c, f).Ok? && Read(c, f).value.truncatedTail;
            (g, ok) == if torn || |f| >= COMPACT_AT then Compact(c, f, r, fault) else (f, true)
    ensures Stands(c, g, r)
    ensures fault.NoFault? ==> ok
    ensures ok ==>
              && g + Separator(g) == Lines(c, done)
              && |done| >= 1 && Chain(done) && done[|done| - 1] == r
              && |g| + 1 + LINE_MAX_BYTES + 1 <= MAX_BYTES
  {
    StandsRead(c, f, r);
    var rs: seq<Record>, next: Record, k: nat :| Shape(c, f, rs, next, k) && r == Current(c, rs, next, k);
    ReadShape(c, f, rs, next, k);
    assert LawfulAt(c, r);
    assert r.(version := RECORD_VERSION) == r;
    if 0 < k < |c.marshal(next)| || |f| >= COMPACT_AT {
      CompactedStands(c, r);
      assert Lines(c, [r]) == LineOf(c, r) by { assert [r][1..] == []; }
      assert EndsWithNewline(LineOf(c, r));
      var compacted := Compact(c, f, r, fault);
      g, done, ok := compacted.0, [r], compacted.1;
    } else {
      SeparatorCompletes(c, f, rs, next, k);
      g, done, ok := f, Complete(rs, next, k), true;
    }
  }

  // --------------------------------------------------------- whole histories

  datatype Action = Action(req: Request, fault: Fault)

  function RunBytes(c: Codec, f: seq<byte>, history: seq<Action>): seq<byte>
    decreases |history|
  {
    if history == [] then f
    else Update(c, RunBytes(c, f, history[..|history| - 1]), history[|history| - 1].req, history[|history| - 1].fault).0
  }

  /** Crash recovery over any history of requests and faults: starting from a
      journal with one durable record, reading never fails, and the value read
      after the last action is the value read before it or the one it meant to
      write; the two counters never decrease. */
  lemma {:induction false} HistoryRecovers(c: Codec, f: seq<byte>, r: Record, history: seq<Action>)
    requires Lawful(c) && Stands(c, f, r)
    requires forall a <- history :: EncodableRequest(a.req)
    ensures Read(c, RunBytes(c, f, history)).Ok?
    ensures var now := Read(c, RunBytes(c, f, history)).value.latest;
            Stands(c, RunBytes(c, f, history), now) && Follows(now, r)
    ensures history != [] ==>
              var before := Read(c, RunBytes(c, f, history[..|history| - 1])).value.latest;
              var now := Read(c, RunBytes(c, f, history)).value.latest;
              && (now == before || Resolve(history[|history| - 1].req, before) == Ok(now))
              && Follows(now, before)
    ensures |RunBytes(c, f, history)| <= MAX_BYTES
    decreases |history|
  {
    if history == [] {
      StandsRead(c, f, r);
    } else {
      var prior := history[..|history| - 1];
      var last := history[|history| - 1];
      HistoryRecovers(c, f, r, prior);
      var g := RunBytes(c, f, prior);
      var before := Read(c, g).value.latest;
      StandsRead(c, g, before);
      UpdateStands(c, g, before, last.req, last.fault);
      var h := RunBytes(c, f, history);
      if Stands(c, h, before) {
        StandsRead(c, h, before);
      } else {
        StandsRead(c, h, Resolve(last.req, before).value);
        ResolveFollows(last.req, before);
      }
    }
  }

  /** The very first append is the exception: with no durable record, a journal
      holding the first k bytes of one line is unreadable exactly when the line is
      torn strictly inside. */
  lemma FirstAppendTorn(c: Codec, r: Record, k: nat)
    requires Lawful(c) && Encodable(r) && k <= |LineOf(c, r)|
    ensures Read(c, LineOf(c, r)[..k]).Err? <==> 0 < k < |c.marshal(r)|
  {
    assert LawfulAt(c, r);
    var f := LineOf(c, r)[..k];
    var line := c.marshal(r);
    LineHasNoNewline(c, r);
    if k == 0 {
      assert f == [];
    } else {
      assert f[0] == line[0] && line[0] in line;
      TrimNonempty(f, 0);
      if k <= |line| {
        assert f == line[..k];
        ScanOnlyLine(c, r, k);
      } else {
        assert f == LineOf(c, r);
        CompactedStands(c, r);
        StandsRead(c, f, r);
      }
    }
  }

  lemma ScanOnlyLine(c: Codec, r: Record, k: nat)
    requires Lawful(c) && Encodable(r) && 0 < k <= |c.marshal(r)|
    ensures var f := c.marshal(r)[..k];
            Scan(c, Split(f), EndsWithNewline(f), NOTHING_READ)
              == Ok(if k == |c.marshal(r)| then ReadState(r, true, false) else ReadState(NO_RECORD, false, true))
  {
    var f := c.marshal(r)[..k];
    LineHasNoNewline(c, r);
    forall b <- f ensures b != NL { assert b in c.marshal(r); }
    SplitTail(f);
    assert f[k - 1] == c.marshal(r)[k - 1];
    var lines: seq<seq<byte>> := [f];
    assert lines[1..] == [];
    if k == |c.marshal(r)| {
      assert f == c.marshal(r);
      ScanRecord(c, r, true, NOTHING_READ);
    } else {
      ScanTorn(c, r, k, NOTHING_READ);
    }
  }

  /** The non-monotonic check and compaction: compacting a readable journal keeps
      what it reads as. */
  lemma CompactionPreservesReading(c: Codec, f: seq<byte>, r: Record)
    requires Lawful(c) && Stands(c, f, r)
    ensures var (g, ok) := Compact(c, f, r, NoFault);
            ok && Stands(c, g, r) && Read(c, g) == Ok(ReadState(r, true, false)) && |g| <= LINE_MAX_BYTES + 1
  {
    StandsRead(c, f, r);
    assert r.(version := RECORD_VERSION) == r;
    CompactedStands(c, r);
    assert LawfulAt(c, r);
    assert Lines(c, [r]) == LineOf(c, r) by { assert [r][1..] == []; }
    assert Shape(c, LineOf(c, r), [r], r, 0) by { assert LineOf(c, r) == Lines(c, [r]) + c.marshal(r)[..0]; }
    ReadShape(c, LineOf(c, r), [r], r, 0);
  }
}
