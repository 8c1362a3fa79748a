/**
 Which files the generation journal's reader accepts at all, and what it reads from
 them: the other side of the recovery results, which are about files the program wrote.
 */
module JournalReading {
  import opened GenerationRecord
  import opened GenerationJournal

  // ----------------------------------------------------------------- lines

  // Lines put together again, with a newline between each two.
  function Joined(lines: seq<seq<byte>>): seq<byte>
    requires lines != []
    decreases |lines|
  {
    if |lines| == 1 then lines[0] else lines[0] + [NL] + Joined(lines[1..])
  }

  /** Splitting loses nothing: no line holds a newline and together they are the file. */
  lemma {:induction false} SplitIsExact(s: seq<byte>)
    ensures Joined(Split(s)) == s && forall line <- Split(s) :: NL !in line
    decreases |s|
  {
    if s != [] {
      var rest := Split(s[1..]);
      SplitIsExact(s[1..]);
      assert s == [s[0]] + s[1..];
      if s[0] == NL {
        JoinedEmpty(rest);
      } else {
        JoinedLonger(s[0], rest);
      }
    }
  }

  lemma JoinedEmpty(rest: seq<seq<byte>>)
    requires rest != []
    ensures Joined([[]] + rest) == [NL] + Joined(rest)
  {
    assert ([[]] + rest)[1..] == rest;
    assert [] + [NL] + Joined(rest) == [NL] + Joined(rest);
  }

  lemma JoinedLonger(b: byte, rest: seq<seq<byte>>)
    requires rest != []
    ensures Joined([[b] + rest[0]] + rest[1..]) == [b] + Joined(rest)
  {
    var longer := [[b] + rest[0]] + rest[1..];
    if |rest| > 1 {
      assert longer[1..] == rest[1..];
      assert [b] + rest[0] + [NL] + Joined(rest[1..]) == [b] + (rest[0] + [NL] + Joined(rest[1..]));
    }
  }

  predicate BlankByte(b: byte) { b == 32 || b == 9 || b == 10 || b == 11 || b == 12 || b == 13 }

  predicate Blank(s: seq<byte>) { forall b <- s :: BlankByte(b) }

  lemma {:induction false} TrimLeftIs(s: seq<byte>) returns (i: nat)
    ensures i <= |s| && TrimLeft(s) == s[i..] && Blank(s[..i]) && (i < |s| ==> !SpaceByte(s[i]))
    decreases |s|
  {
    if s != [] && SpaceByte(s[0]) {
      i := TrimLeftIs(s[1..]);
      i := i + 1;
      assert s[..i] == [s[0]] + s[1..][..i - 1];
    } else {
      i := 0;
    }
  }

  lemma {:induction false} TrimRightIs(s: seq<byte>) returns (j: nat)
    ensures j <= |s| && TrimRight(s) == s[..j] && Blank(s[j..]) && (j > 0 ==> !SpaceByte(s[j - 1]))
    decreases |s|
  {
    var n := |s|;
    if n > 0 && SpaceByte(s[n - 1]) {
      j := TrimRightIs(s[..n - 1]);
      assert s[j..] == s[..n - 1][j..] + [s[n - 1]];
    } else {
      j := n;
    }
  }

  /** Trimming takes blanks off both ends and nothing else. */
  lemma TrimIs(s: seq<byte>) returns (i: nat, j: nat)
    ensures i <= j <= |s| && Trim(s) == s[i..j] && Blank(s[..i]) && Blank(s[j..])
    ensures i < j ==> !BlankByte(s[i]) && !BlankByte(s[j - 1])
  {
    i := TrimLeftIs(s);
    var k := TrimRightIs(s[i..]);
    j := i + k;
    assert s[i..][..k] == s[i..j] && s[i..][k..] == s[j..];
  }

  lemma TrimEmptyIff(s: seq<byte>)
    ensures Trim(s) == [] <==> Blank(s)
  {
    var i, j := TrimIs(s);
    if i == j {
      assert s == s[..i] + s[j..];
    } else {
      assert s[i] in s;
    }
  }

  // ----------------------------------------------------------------- the reader

  // A record of a known version; who is active is known, by number and by name.
  predicate Sensible(r: Record) {
    && r.version in {0, 1} && r.activeGeneration <= r.highestReserved
    && (r.active ==> r.activeGeneration > 0 && exists x <- r.activeOwner :: x !in {' ', '\t', '\n', '\r'})
  }

  predicate IsRecord(c: Codec, line: seq<byte>) {
    !Blank(line) && |Trim(line)| <= 65536 && c.decode(Trim(line)).Decoded? && Sensible(c.decode(Trim(line)).record)
  }

  function RecordOf(c: Codec, line: seq<byte>): Record
    requires IsRecord(c, line)
  {
    c.decode(Trim(line)).record
  }

  predicate IsTorn(c: Codec, line: seq<byte>) {
    !Blank(line) && |Trim(line)| <= 65536 && c.decode(Trim(line)).Truncated?
  }

  // Every line is blank, a valid record, or a torn last line without its newline.
  predicate Readable(c: Codec, lines: seq<seq<byte>>, terminated: bool) {
    forall i | 0 <= i < |lines| ::
      Blank(lines[i]) || IsRecord(c, lines[i]) || (IsTorn(c, lines[i]) && i == |lines| - 1 && !terminated)
  }

  // No record has a smaller reservation or generation than an earlier one.
  predicate NeverBack(c: Codec, lines: seq<seq<byte>>) {
    forall i, j | 0 <= i < j < |lines| && IsRecord(c, lines[i]) && IsRecord(c, lines[j]) ::
      && RecordOf(c, lines[i]).highestReserved <= RecordOf(c, lines[j]).highestReserved
      && RecordOf(c, lines[i]).activeGeneration <= RecordOf(c, lines[j]).activeGeneration
  }

  predicate From(c: Codec, lines: seq<seq<byte>>, st: ReadState) {
    st.found ==> forall i | 0 <= i < |lines| && IsRecord(c, lines[i]) :: Follows(RecordOf(c, lines[i]), st.latest)
  }

  // What was read, the last record last.
  ghost predicate Latest(c: Codec, lines: seq<seq<byte>>, st: ReadState, n: ReadState) {
    || ((forall i | 0 <= i < |lines| :: !IsRecord(c, lines[i])) && n.found == st.found && n.latest == st.latest)
    || (n.found && exists i :: LastRecord(c, lines, i, n.latest))
  }

  predicate LastRecord(c: Codec, lines: seq<seq<byte>>, i: int, r: Record) {
    && 0 <= i < |lines| && IsRecord(c, lines[i]) && RecordOf(c, lines[i]) == r
    && forall j | i < j < |lines| :: !IsRecord(c, lines[j])
  }

  lemma ScanLineIs(c: Codec, line: seq<byte>, last: bool, st: ReadState)
    ensures var res := ScanLine(c, line, last, st);
            if Blank(line) then res == Ok(st)
            else if IsRecord(c, line) && (st.found ==> Follows(RecordOf(c, line), st.latest)) then res == Ok(ReadState(RecordOf(c, line), true, st.truncatedTail))
            else if IsTorn(c, line) && last then res == Ok(st.(truncatedTail := true))
            else res.Err?
  {
    TrimEmptyIff(line);
  }

  lemma {:induction false} ScanIff(c: Codec, lines: seq<seq<byte>>, terminated: bool, st: ReadState)
    ensures Scan(c, lines, terminated, st).Ok? <==> Readable(c, lines, terminated) && NeverBack(c, lines) && From(c, lines, st)
    ensures Scan(c, lines, terminated, st).Ok? ==>
              var n := Scan(c, lines, terminated, st).value;
              && Latest(c, lines, st, n)
              && (n.truncatedTail <==> st.truncatedTail || (lines != [] && IsTorn(c, lines[|lines| - 1])))
    decreases |lines|
  {
    if lines != [] {
      var last := |lines| == 1 && !terminated;
      ScanLineIs(c, lines[0], last, st);
      var step := ScanLine(c, lines[0], last, st);
      if step.Ok? {
        ScanIff(c, lines[1..], terminated, step.value);
        RestIff(c, lines, terminated, st, step.value);
        if Scan(c, lines, terminated, st).Ok? {
          LatestOfRest(c, lines, st, step.value, Scan(c, lines, terminated, st).value);
        }
      } else {
        FirstRejected(c, lines, terminated, st);
      }
    }
  }

  lemma FirstRejected(c: Codec, lines: seq<seq<byte>>, terminated: bool, st: ReadState)
    requires lines != [] && ScanLine(c, lines[0], |lines| == 1 && !terminated, st).Err?
    ensures !Readable(c, lines, terminated) || !From(c, lines, st)
  {
    ScanLineIs(c, lines[0], |lines| == 1 && !terminated, st);
  }

  lemma RestIff(c: Codec, lines: seq<seq<byte>>, terminated: bool, st: ReadState, n: ReadState)
    requires lines != [] && ScanLine(c, lines[0], |lines| == 1 && !terminated, st) == Ok(n)
    ensures Readable(c, lines, terminated) && NeverBack(c, lines) && From(c, lines, st)
            <==> Readable(c, lines[1..], terminated) && NeverBack(c, lines[1..]) && From(c, lines[1..], n)
  {
    var rest := lines[1..];
    ScanLineIs(c, lines[0], |lines| == 1 && !terminated, st);
    assert forall i | 0 < i < |lines| :: lines[i] == rest[i - 1];
    if Readable(c, rest, terminated) && NeverBack(c, rest) && From(c, rest, n) {
      RestToAll(c, lines, terminated, st, n);
    }
    if Readable(c, lines, terminated) && NeverBack(c, lines) && From(c, lines, st) {
      AllToRest(c, lines, terminated, st, n);
    }
  }

  lemma RestToAll(c: Codec, lines: seq<seq<byte>>, terminated: bool, st: ReadState, n: ReadState)
    requires lines != [] && ScanLine(c, lines[0], |lines| == 1 && !terminated, st) == Ok(n)
    requires var rest := lines[1..]; Readable(c, rest, terminated) && NeverBack(c, rest) && From(c, rest, n)
    ensures Readable(c, lines, terminated) && NeverBack(c, lines) && From(c, lines, st)
  {
    var rest := lines[1..];
    ScanLineIs(c, lines[0], |lines| == 1 && !terminated, st);
    forall i | 0 < i < |lines| ensures lines[i] == rest[i - 1] {}
    forall i, j | 0 <= i < j < |lines| && IsRecord(c, lines[i]) && IsRecord(c, lines[j])
      ensures RecordOf(c, lines[i]).highestReserved <= RecordOf(c, lines[j]).highestReserved
      ensures RecordOf(c, lines[i]).activeGeneration <= RecordOf(c, lines[j]).activeGeneration
    {
      assert lines[j] == rest[j - 1];
      if i > 0 { assert lines[i] == rest[i - 1]; }
    }
  }

  lemma AllToRest(c: Codec, lines: seq<seq<byte>>, terminated: bool, st: ReadState, n: ReadState)
    requires lines != [] && ScanLine(c, lines[0], |lines| == 1 && !terminated, st) == Ok(n)
    requires Readable(c, lines, terminated) && NeverBack(c, lines) && From(c, lines, st)
    ensures var rest := lines[1..]; Readable(c, rest, terminated) && NeverBack(c, rest) && From(c, rest, n)
  {
    var rest := lines[1..];
    ScanLineIs(c, lines[0], |lines| == 1 && !terminated, st);
    forall i | 0 <= i < |rest| ensures rest[i] == lines[i + 1] {}
    forall i | 0 <= i < |rest| && IsRecord(c, rest[i]) ensures n.found ==> Follows(RecordOf(c, rest[i]), n.latest) {
      assert rest[i] == lines[i + 1];
    }
  }

  lemma LatestOfRest(c: Codec, lines: seq<seq<byte>>, st: ReadState, mid: ReadState, n: ReadState)
    requires lines != [] && Latest(c, lines[1..], mid, n)
    requires if IsRecord(c, lines[0]) then mid.found && mid.latest == RecordOf(c, lines[0]) else mid.found == st.found && mid.latest == st.latest
    ensures Latest(c, lines, st, n)
  {
    var rest := lines[1..];
    forall i | 0 <= i < |rest| ensures rest[i] == lines[i + 1] {}
    if i :| LastRecord(c, rest, i, n.latest) && n.found {
      assert LastRecord(c, lines, i + 1, n.latest) by {
        forall j | i + 1 < j < |lines| ensures !IsRecord(c, lines[j]) { assert lines[j] == rest[j - 1]; }
      }
    } else if IsRecord(c, lines[0]) {
      assert LastRecord(c, lines, 0, n.latest) by {
        forall j | 0 < j < |lines| ensures !IsRecord(c, lines[j]) { assert lines[j] == rest[j - 1]; }
      }
    } else {
      forall j | 0 <= j < |lines| ensures !IsRecord(c, lines[j]) {
        if j > 0 { assert lines[j] == rest[j - 1]; }
      }
    }
  }

  ghost predicate HasRecord(c: Codec, lines: seq<seq<byte>>) {
    exists i :: 0 <= i < |lines| && IsRecord(c, lines[i])
  }

  // The answer: the last record, or none, and whether the tail was torn.
  ghost predicate Answers(c: Codec, lines: seq<seq<byte>>, st: ReadState) {
    && (st.truncatedTail <==> lines != [] && IsTorn(c, lines[|lines| - 1]))
    && if HasRecord(c, lines) then st.found && exists i :: LastRecord(c, lines, i, st.latest)
       else !st.found && st.latest == NO_RECORD
  }

  lemma LatestAnswers(c: Codec, lines: seq<seq<byte>>, n: ReadState)
    requires Latest(c, lines, NOTHING_READ, n)
    requires n.truncatedTail <==> lines != [] && IsTorn(c, lines[|lines| - 1])
    ensures Answers(c, lines, n) && (n.found <==> HasRecord(c, lines))
  {
  }

  /** The reader accepts a file exactly when it is not oversized, every line is blank or
      a valid record of at most 64 KiB, no record goes back behind an earlier one, only a
      last line without its newline is torn, and unless all is blank there is a record.
      It answers the last record, and whether the tail was torn. */
  lemma ReadIff(c: Codec, raw: seq<byte>)
    ensures var lines, terminated := Split(raw), raw != [] && raw[|raw| - 1] == NL;
            && (Read(c, raw).Ok? <==>
                  |raw| <= 16777216 && Readable(c, lines, terminated) && NeverBack(c, lines) && (Blank(raw) || HasRecord(c, lines)))
            && (Read(c, raw).Ok? ==> Answers(c, lines, Read(c, raw).value))
  {
    if raw == [] {
      assert Split(raw) == [[]];
    } else if |raw| <= 16777216 {
      TrimEmptyIff(raw);
      ReadScanned(c, raw);
      ReadLines(c, Split(raw), EndsWithNewline(raw));
    }
  }

  lemma ReadLines(c: Codec, lines: seq<seq<byte>>, terminated: bool)
    ensures var scanned := Scan(c, lines, terminated, NOTHING_READ);
            && (scanned.Ok? <==> Readable(c, lines, terminated) && NeverBack(c, lines))
            && (scanned.Ok? ==> Answers(c, lines, scanned.value) && (scanned.value.found <==> HasRecord(c, lines)))
  {
    ScanIff(c, lines, terminated, NOTHING_READ);
    if Scan(c, lines, terminated, NOTHING_READ).Ok? {
      LatestAnswers(c, lines, Scan(c, lines, terminated, NOTHING_READ).value);
    }
  }

  lemma ReadScanned(c: Codec, raw: seq<byte>)
    requires raw != [] && |raw| <= 16777216
    ensures var scanned := Scan(c, Split(raw), EndsWithNewline(raw), NOTHING_READ);
            && (Read(c, raw).Ok? <==> scanned.Ok? && (Trim(raw) == [] || scanned.value.found))
            && (Read(c, raw).Ok? ==> Read(c, raw) == scanned)
  {
  }

  /** An append without a fault is refused exactly when the file would outgrow 1 MiB, and
      then leaves it alone; otherwise the line follows on a line of its own. */
  lemma AppendFitsIff(c: Codec, f: seq<byte>, r: Record)
    ensures var (g, res) := Append(c, f, r, NoFault);
            var before := if f == [] || f[|f| - 1] == 10 then f else f + [10];
            && (res.Ok? <==> |before| + |c.marshal(r)| + 1 <= 1048576)
            && g == (if res.Ok? then before + c.marshal(r) + [10] else f)
            && (res.Ok? ==> res.value == r)
  {
    assert f + (Separator(f) + LineOf(c, r)) == (f + Separator(f)) + c.marshal(r) + [NL];
    assert f + [] == f;
  }
}
