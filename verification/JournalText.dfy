/**
 A concrete journal line: the JSON object with a record's fields under their names, in
 the order of the Go struct, an empty owner left out, timestamps as integers. It obeys
 the laws that GenerationJournal asks of an encoding, so the crash-recovery results
 there are about an encoding that exists.

 No field contains a blank, a comma or a closing brace, so a line is closed by its last
 byte and by no earlier one: a cut line is never a line. Two lines that agree agree
 field by field, up to the first comma each time, so a line has one record. The names
 of the fields play no part in this and are a parameter until the end.
 */
module JournalText {
  import opened GenerationRecord
  import opened GenerationJournal

  const COMMA: byte := 44
  const COLON: byte := 58
  const OPEN: byte := 123
  const CLOSE: byte := 125
  const QUOTE: byte := 34

  predicate PlainByte(b: byte) {
    !SpaceByte(b) && b != COMMA && b != CLOSE
  }

  predicate Plain(s: seq<byte>) {
    forall b <- s :: PlainByte(b)
  }

  function AsciiByte(c: char): byte {
    if c as int < 128 then c as int as byte else 63
  }

  function Ascii(s: string): (bs: seq<byte>)
    ensures |bs| == |s| && forall i | 0 <= i < |s| :: bs[i] == AsciiByte(s[i])
  {
    if s == [] then [] else [AsciiByte(s[0])] + Ascii(s[1..])
  }

  function Decimal(n: nat): (ds: seq<byte>)
    ensures |ds| >= 1 && (|ds| == 1 <==> n < 10)
    ensures forall d <- ds :: 48 <= d <= 57
  {
    if n < 10 then [(48 + n) as byte] else Decimal(n / 10) + [(48 + n % 10) as byte]
  }

  function Pow10(k: nat): nat {
    if k == 0 then 1 else 10 * Pow10(k - 1)
  }

  lemma {:induction false} DecimalLength(n: nat, k: nat)
    requires n < Pow10(k) && k >= 1
    ensures |Decimal(n)| <= k
    decreases k
  {
    if k > 1 && n >= 10 {
      DecimalLength(n / 10, k - 1);
    }
  }

  lemma {:induction false} DecimalInjective(m: nat, n: nat)
    requires Decimal(m) == Decimal(n)
    ensures m == n
    decreases m
  {
    if m < 10 {
      assert Decimal(n)[0] == (48 + m) as byte;
    } else {
      var last := |Decimal(m)| - 1;
      assert Decimal(m)[..last] == Decimal(m / 10) && Decimal(n)[..last] == Decimal(n / 10);
      assert Decimal(m)[last] == (48 + m % 10) as byte && Decimal(n)[last] == (48 + n % 10) as byte;
      DecimalInjective(m / 10, n / 10);
    }
  }

  // Fields separated by commas and closed by a brace.
  function Join(fields: seq<seq<byte>>): seq<byte>
    requires |fields| >= 1
  {
    if |fields| == 1 then fields[0] + [CLOSE] else fields[0] + [COMMA] + Join(fields[1..])
  }

  // Index of the first byte that ends a field.
  function StopAt(s: seq<byte>): (i: nat)
    ensures i <= |s|
  {
    if s == [] || !PlainByte(s[0]) then 0 else 1 + StopAt(s[1..])
  }

  lemma {:induction false} StopAtField(x: seq<byte>, stop: byte, rest: seq<byte>)
    requires Plain(x) && !PlainByte(stop)
    ensures StopAt(x + [stop] + rest) == |x|
    decreases x
  {
    if x == [] {
      assert x + [stop] + rest == [stop] + rest;
    } else {
      assert PlainByte(x[0]) by { assert x[0] in x; }
      StopAtField(x[1..], stop, rest);
      assert (x + [stop] + rest)[1..] == x[1..] + [stop] + rest;
    }
  }

  lemma FirstField(x: seq<byte>, y: seq<byte>, s: byte, t: byte, u: seq<byte>, v: seq<byte>)
    requires Plain(x) && Plain(y) && !PlainByte(s) && !PlainByte(t)
    requires x + [s] + u == y + [t] + v
    ensures x == y && s == t && u == v
  {
    StopAtField(x, s, u);
    StopAtField(y, t, v);
    var whole := x + [s] + u;
    assert x == whole[..|x|] && y == whole[..|x|];
    assert whole[|x|] == s && whole[|x|] == t;
    assert u == whole[|x| + 1..] && v == whole[|x| + 1..];
  }

  predicate PlainFields(fields: seq<seq<byte>>, width: nat) {
    forall i | 0 <= i < |fields| :: Plain(fields[i]) && |fields[i]| <= width
  }

  lemma {:induction false} JoinInjective(xs: seq<seq<byte>>, ys: seq<seq<byte>>, width: nat)
    requires |xs| >= 1 && |ys| >= 1
    requires PlainFields(xs, width) && PlainFields(ys, width)
    requires Join(xs) == Join(ys)
    ensures xs == ys
    decreases |xs|
  {
    var s, u := if |xs| == 1 then CLOSE else COMMA, if |xs| == 1 then [] else Join(xs[1..]);
    var t, v := if |ys| == 1 then CLOSE else COMMA, if |ys| == 1 then [] else Join(ys[1..]);
    assert Join(xs) == xs[0] + [s] + u && Join(ys) == ys[0] + [t] + v;
    FirstField(xs[0], ys[0], s, t, u, v);
    if |xs| > 1 {
      JoinInjective(xs[1..], ys[1..], width);
    }
    assert xs == [xs[0]] + xs[1..] && ys == [ys[0]] + ys[1..];
  }

  predicate Unspaced(s: seq<byte>) {
    forall i | 0 <= i < |s| :: !SpaceByte(s[i])
  }

  // The closing brace stands at the end and nowhere else.
  predicate ClosedOnce(s: seq<byte>) {
    |s| >= 1 && s[|s| - 1] == CLOSE && forall i | 0 <= i < |s| - 1 :: s[i] != CLOSE
  }

  lemma PlainHead(x: seq<byte>, stop: byte)
    requires Plain(x) && !SpaceByte(stop)
    ensures Unspaced(x + [stop])
    ensures forall i | 0 <= i < |x| :: (x + [stop])[i] != CLOSE
  {
    forall i | 0 <= i < |x| ensures PlainByte(x[i]) { assert x[i] in x; }
  }

  lemma {:induction false} JoinText(fields: seq<seq<byte>>, width: nat)
    requires |fields| >= 1 && PlainFields(fields, width)
    ensures Unspaced(Join(fields)) && ClosedOnce(Join(fields))
    ensures |Join(fields)| <= |fields| * (width + 1)
    decreases |fields|
  {
    if |fields| == 1 {
      PlainHead(fields[0], CLOSE);
    } else {
      JoinText(fields[1..], width);
      PlainHead(fields[0], COMMA);
      var head, tail := fields[0] + [COMMA], Join(fields[1..]);
      assert Join(fields) == head + tail;
      assert |fields| * (width + 1) == (|fields| - 1) * (width + 1) + (width + 1);
      forall i | 0 <= i < |Join(fields)| - 1 ensures Join(fields)[i] != CLOSE {
        assert Join(fields)[i] == if i < |head| then head[i] else tail[i - |head|];
      }
    }
  }

  function Flag(b: bool): seq<byte> {
    if b then Ascii("true") else Ascii("false")
  }

  function Quoted(s: string): seq<byte> {
    [QUOTE] + Ascii(s) + [QUOTE]
  }

  // The names of the eight fields, in order.
  type Keys = k: seq<string> | |k| == 8 witness ["", "", "", "", "", "", "", ""]

  const KEYS: Keys := ["version", "highest_reserved", "active_generation", "active_owner", "active", "reserved_at", "claimed_at", "released_at"]

  function Named(key: string, value: seq<byte>): seq<byte> {
    Quoted(key) + [COLON] + value
  }

  function Version(r: Record): seq<byte> {
    if r.version == 0 then [48] else [49]
  }

  function Owner(key: string, owner: string): (fs: seq<seq<byte>>) {
    if owner == "" then [] else [Named(key, Quoted(owner))]
  }

  function Counters(keys: Keys, r: Record): (fs: seq<seq<byte>>) {
    [ [OPEN] + Named(keys[0], Version(r)),
      Named(keys[1], Decimal(r.highestReserved)),
      Named(keys[2], Decimal(r.activeGeneration)) ]
  }

  function States(keys: Keys, r: Record): (fs: seq<seq<byte>>) {
    [ Named(keys[4], Flag(r.active)),
      Named(keys[5], Decimal(r.reservedAt)),
      Named(keys[6], Decimal(r.claimedAt)),
      Named(keys[7], Decimal(r.releasedAt)) ]
  }

  function Fields(keys: Keys, r: Record): (fs: seq<seq<byte>>)
    ensures |fs| == if r.activeOwner == "" then 7 else 8
  {
    Counters(keys, r) + Owner(keys[3], r.activeOwner) + States(keys, r)
  }

  function Text(keys: Keys, r: Record): seq<byte> {
    Join(Fields(keys, r))
  }

  lemma {:induction false} Pow10Sum(a: nat, b: nat)
    ensures Pow10(a + b) == Pow10(a) * Pow10(b)
    decreases a
  {
    if a > 0 {
      Pow10Sum(a - 1, b);
      assert Pow10(a) * Pow10(b) == 10 * (Pow10(a - 1) * Pow10(b));
    }
  }

  lemma NumberPlain(n: nat)
    requires n <= MAX_GENERATION
    ensures Plain(Decimal(n)) && |Decimal(n)| <= 20
  {
    Pow10Sum(2, 2);
    Pow10Sum(4, 1);
    Pow10Sum(5, 5);
    Pow10Sum(10, 10);
    assert Pow10(2) == 100 && Pow10(1) == 10;
    assert Pow10(20) == 1_0000_0000_0000_0000_0000;
    DecimalLength(n, 20);
  }

  lemma OwnerPlain(owner: string)
    requires owner == "" || OwnerText(owner)
    ensures Plain(Quoted(owner)) && |Ascii(owner)| <= OWNER_LENGTH
  {
    var text := Ascii(owner);
    forall i | 0 <= i < |text| ensures PlainByte(text[i]) { assert owner[i] in owner; }
  }

  predicate KeyText(key: string) {
    |key| <= 17 && forall c <- key :: 'a' <= c <= 'z' || c == '_'
  }

  predicate KeysText(keys: Keys) {
    forall i | 0 <= i < 8 :: KeyText(keys[i])
  }

  lemma NamedPlain(key: string, value: seq<byte>)
    requires KeyText(key) && Plain(value) && |value| <= 34
    ensures Plain(Named(key, value)) && |Named(key, value)| <= 54
  {
    forall i | 0 <= i < |key| ensures PlainByte(Ascii(key)[i]) { assert key[i] in key; }
  }

  lemma NamedInjective(key: string, a: seq<byte>, b: seq<byte>)
    requires Named(key, a) == Named(key, b)
    ensures a == b
  {
    var n := |Quoted(key) + [COLON]|;
    assert Named(key, a)[n..] == a && Named(key, b)[n..] == b;
  }

  const WIDTH: nat := 55

  lemma VersionPlain(r: Record)
    ensures Plain(Version(r)) && |Version(r)| == 1
  {
  }

  lemma CountersPlain(keys: Keys, r: Record)
    requires KeysText(keys) && Encodable(r)
    ensures PlainFields(Counters(keys, r), WIDTH)
  {
    VersionPlain(r);
    NamedPlain(keys[0], Version(r));
    NumberFieldPlain(keys[1], r.highestReserved);
    NumberFieldPlain(keys[2], r.activeGeneration);
  }

  lemma StatesPlain(keys: Keys, r: Record)
    requires KeysText(keys) && Encodable(r)
    ensures PlainFields(States(keys, r), WIDTH)
  {
    NamedPlain(keys[4], Flag(r.active));
    NumberFieldPlain(keys[5], r.reservedAt);
    NumberFieldPlain(keys[6], r.claimedAt);
    NumberFieldPlain(keys[7], r.releasedAt);
  }

  lemma NumberFieldPlain(key: string, n: nat)
    requires KeyText(key) && n <= MAX_GENERATION
    ensures Plain(Named(key, Decimal(n))) && |Named(key, Decimal(n))| <= 54
  {
    NumberPlain(n);
    NamedPlain(key, Decimal(n));
  }

  lemma FieldsPlain(keys: Keys, r: Record)
    requires KeysText(keys) && Encodable(r)
    ensures PlainFields(Fields(keys, r), WIDTH)
  {
    CountersPlain(keys, r);
    StatesPlain(keys, r);
    OwnerPlain(r.activeOwner);
    NamedPlain(keys[3], Quoted(r.activeOwner));
  }

  lemma OwnerInjective(a: string, b: string)
    requires (a == "" || OwnerText(a)) && (b == "" || OwnerText(b))
    requires Quoted(a) == Quoted(b)
    ensures a == b
  {
    var s := Quoted(a);
    assert Ascii(a) == s[1..|s| - 1] && Ascii(b) == s[1..|s| - 1];
    forall i | 0 <= i < |a| ensures a[i] == b[i] {
      assert a[i] in a && b[i] in b;
      assert AsciiByte(a[i]) == AsciiByte(b[i]);
    }
  }

  lemma FlagInjective(a: bool, b: bool)
    requires Flag(a) == Flag(b)
    ensures a == b
  {
    assert Flag(true)[0] == 116 && Flag(false)[0] == 102;
  }

  lemma CountersInjective(keys: Keys, r: Record, q: Record)
    requires Counters(keys, r) == Counters(keys, q)
    ensures r.highestReserved == q.highestReserved && r.activeGeneration == q.activeGeneration
  {
    assert Counters(keys, r)[1] == Counters(keys, q)[1] && Counters(keys, r)[2] == Counters(keys, q)[2];
    NamedInjective(keys[1], Decimal(r.highestReserved), Decimal(q.highestReserved));
    NamedInjective(keys[2], Decimal(r.activeGeneration), Decimal(q.activeGeneration));
    DecimalInjective(r.highestReserved, q.highestReserved);
    DecimalInjective(r.activeGeneration, q.activeGeneration);
  }

  lemma StatesInjective(keys: Keys, r: Record, q: Record)
    requires States(keys, r) == States(keys, q)
    ensures r.active == q.active && r.reservedAt == q.reservedAt && r.claimedAt == q.claimedAt && r.releasedAt == q.releasedAt
  {
    var a, b := States(keys, r), States(keys, q);
    assert a[0] == b[0] && a[1] == b[1] && a[2] == b[2] && a[3] == b[3];
    NamedInjective(keys[4], Flag(r.active), Flag(q.active));
    NamedInjective(keys[5], Decimal(r.reservedAt), Decimal(q.reservedAt));
    NamedInjective(keys[6], Decimal(r.claimedAt), Decimal(q.claimedAt));
    NamedInjective(keys[7], Decimal(r.releasedAt), Decimal(q.releasedAt));
    FlagInjective(r.active, q.active);
    DecimalInjective(r.reservedAt, q.reservedAt);
    DecimalInjective(r.claimedAt, q.claimedAt);
    DecimalInjective(r.releasedAt, q.releasedAt);
  }

  lemma TextInjective(keys: Keys, r: Record, q: Record)
    requires KeysText(keys) && Encodable(r) && Encodable(q) && Text(keys, r) == Text(keys, q)
    ensures r == q
  {
    FieldsPlain(keys, r);
    FieldsPlain(keys, q);
    JoinInjective(Fields(keys, r), Fields(keys, q), WIDTH);
    var n := |Fields(keys, r)|;
    assert Counters(keys, r) == Fields(keys, r)[..3] && Counters(keys, q) == Fields(keys, q)[..3];
    assert States(keys, r) == Fields(keys, r)[n - 4..] && States(keys, q) == Fields(keys, q)[n - 4..];
    CountersInjective(keys, r, q);
    StatesInjective(keys, r, q);
    OwnersAgree(keys, r, q);
  }

  lemma OwnersAgree(keys: Keys, r: Record, q: Record)
    requires KeysText(keys) && Encodable(r) && Encodable(q) && Fields(keys, r) == Fields(keys, q)
    ensures r.activeOwner == q.activeOwner
  {
    if |Fields(keys, r)| == 8 {
      assert Fields(keys, r)[3] == Owner(keys[3], r.activeOwner)[0] && Fields(keys, q)[3] == Owner(keys[3], q.activeOwner)[0];
      NamedInjective(keys[3], Quoted(r.activeOwner), Quoted(q.activeOwner));
      OwnerInjective(r.activeOwner, q.activeOwner);
    }
  }

  ghost predicate IsText(keys: Keys, line: seq<byte>, r: Record) {
    Encodable(r) && Text(keys, r) == line
  }

  ghost predicate IsTornText(keys: Keys, line: seq<byte>, r: Record, k: nat) {
    Encodable(r) && 0 < k < |Text(keys, r)| && line == Text(keys, r)[..k]
  }

  ghost function Recognise(keys: Keys, line: seq<byte>): (d: Decoded)
    ensures (exists r :: IsText(keys, line, r)) <==> d.Decoded?
    ensures d.Decoded? ==> IsText(keys, line, d.record)
  {
    if exists r :: IsText(keys, line, r) then
      var r :| IsText(keys, line, r);
      Decoded(r)
    else if exists r: Record, k: nat :: IsTornText(keys, line, r, k) then Truncated
    else Malformed
  }

  // The decoder is the inverse of the encoder, as far as one exists.
  ghost function JsonCodec(keys: Keys): Codec {
    Codec(r => Text(keys, r), line => Recognise(keys, line))
  }

  lemma TextLawful(keys: Keys, r: Record)
    requires KeysText(keys) && Encodable(r)
    ensures LawfulAt(JsonCodec(keys), r)
  {
    var line := Text(keys, r);
    FieldsPlain(keys, r);
    JoinText(Fields(keys, r), WIDTH);
    forall b | b in line ensures !SpaceByte(b) {
      var i :| 0 <= i < |line| && line[i] == b;
    }
    assert IsText(keys, line, r);
    TextInjective(keys, Recognise(keys, line).record, r);
    forall k | 0 < k < |line| ensures Recognise(keys, line[..k]) == Truncated {
      TornTextIsNoText(keys, r, k);
      assert IsTornText(keys, line[..k], r, k);
    }
  }

  lemma TornTextIsNoText(keys: Keys, r: Record, k: nat)
    requires KeysText(keys) && Encodable(r) && 0 < k < |Text(keys, r)|
    ensures forall q :: !IsText(keys, Text(keys, r)[..k], q)
  {
    FieldsPlain(keys, r);
    JoinText(Fields(keys, r), WIDTH);
    var torn := Text(keys, r)[..k];
    assert torn[|torn| - 1] == Text(keys, r)[k - 1] != CLOSE;
    forall q ensures !IsText(keys, torn, q) {
      if Encodable(q) {
        FieldsPlain(keys, q);
        JoinText(Fields(keys, q), WIDTH);
      }
    }
  }

  lemma KeyedCodecIsLawful(keys: Keys)
    requires KeysText(keys)
    ensures Lawful(JsonCodec(keys))
  {
    forall r | Encodable(r) ensures LawfulAt(JsonCodec(keys), r) {
      TextLawful(keys, r);
    }
  }

  lemma KeysAreText()
    ensures KeysText(KEYS)
  {
  }

  /** The text is a lawful line encoding: it has no blank, its proper prefixes are no
      texts and are recognised as torn, and one decoder gives every record back. */
  lemma JsonCodecIsLawful()
    ensures Lawful(JsonCodec(KEYS))
  {
    KeysAreText();
    KeyedCodecIsLawful(KEYS);
  }
}
