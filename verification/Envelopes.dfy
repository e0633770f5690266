/**
The wire form of a gossip envelope and the byte string its origin signs.
A Go string is a sequence of bytes: here each byte is the character of the same code.
*/
module Envelopes {
  import opened Separators

  type Int64 = x: int | -0x8000_0000_0000_0000 <= x < 0x8000_0000_0000_0000

  const NUL: char := '\0'

  datatype Envelope = Envelope(id: string, origin: string, kind: string, ts: Int64, payload: string, signature: string)

  /** `ts >> 8 * k`: an arithmetic shift rounds towards minus infinity, as `/` by a positive number does here. */
  function ShiftRight(ts: int, k: nat): int {
    if k == 0 then ts else ShiftRight(ts, k - 1) / 256
  }

  /** The `n` low bytes of a two's complement number, most significant byte first. */
  function BigEndian(x: int, n: nat): (b: string)
    ensures |b| == n
    decreases n
  {
    if n == 0 then "" else BigEndian(x / 256, n - 1) + [(x % 256) as char]
  }

  /** The canonical encoding: three NUL-terminated strings, eight bytes, a NUL and the payload. */
  function Signed(e: Envelope): string {
    e.id + [NUL] + (e.origin + [NUL] + (e.kind + [NUL] + (BigEndian(e.ts, 8) + [NUL] + e.payload)))
  }

  method SigningBytes(e: Envelope) returns (b: string)
    ensures b == Signed(e)
  {
    b := e.id + [NUL] + e.origin + [NUL] + e.kind + [NUL];
    var ts := TimeBytes(e.ts);
    ghost var tail := ts + [NUL] + e.payload;
    MoveCuts(e.id, e.origin, e.kind, tail);
    b := b + (ts + [NUL] + e.payload);
  }

  lemma MoveCuts(x: string, y: string, z: string, rest: string)
    ensures x + [NUL] + y + [NUL] + z + [NUL] + rest == x + [NUL] + (y + [NUL] + (z + [NUL] + rest))
  {}

  /** The shift loop: bytes 7 down to 0 of the time stamp. */
  method TimeBytes(ts: Int64) returns (b: string)
    ensures b == BigEndian(ts, 8)
  {
    b := "";
    var i := 56;
    while i >= 0
      invariant -8 <= i <= 56 && i % 8 == 0
      invariant b == BigEndian(ShiftRight(ts, i / 8 + 1), 7 - i / 8)
    {
      b := b + [(ShiftRight(ts, i / 8) % 256) as char];
      i := i - 8;
    }
  }

  function Power256(n: nat): nat {
    if n == 0 then 1 else 256 * Power256(n - 1)
  }

  /** `n` bytes tell apart any two numbers closer than 256 to the power `n`. */
  lemma {:induction false} BigEndianInjective(x: int, y: int, n: nat)
    requires BigEndian(x, n) == BigEndian(y, n)
    requires x - y < Power256(n) && y - x < Power256(n)
    ensures x == y
    decreases n
  {
    if n != 0 {
      var a, b := BigEndian(x, n), BigEndian(y, n);
      assert a[n - 1] == b[n - 1];
      assert a[..n - 1] == BigEndian(x / 256, n - 1) && b[..n - 1] == BigEndian(y / 256, n - 1);
      BigEndianInjective(x / 256, y / 256, n - 1);
    }
  }

  predicate NulFree(e: Envelope) {
    NUL !in e.id && NUL !in e.origin && NUL !in e.kind
  }

  /** No signature can be moved from one NUL-free envelope to a different one. */
  lemma SignedInjective(e: Envelope, f: Envelope)
    requires NulFree(e) && NulFree(f)
    requires Signed(e) == Signed(f)
    ensures e == f.(signature := e.signature)
  {
    var te, tf := BigEndian(e.ts, 8), BigEndian(f.ts, 8);
    var ke, kf := te + [NUL] + e.payload, tf + [NUL] + f.payload;
    var oe, of := e.kind + [NUL] + ke, f.kind + [NUL] + kf;
    CutIsUnique(NUL, e.id, e.origin + [NUL] + oe, f.id, f.origin + [NUL] + of);
    CutIsUnique(NUL, e.origin, oe, f.origin, of);
    CutIsUnique(NUL, e.kind, ke, f.kind, kf);
    assert te == ke[..8] && tf == kf[..8];
    assert e.payload == ke[9..] && f.payload == kf[9..];
    assert Power256(8) == 0x1_0000_0000_0000_0000;
    BigEndianInjective(e.ts, f.ts, 8);
  }

  lemma MoveCut(x: string, y: string, rest: string)
    ensures (x + [NUL] + y) + [NUL] + rest == x + [NUL] + (y + [NUL] + rest)
  {}

  /** Every envelope with a NUL in its id, origin or kind shares its signed bytes with a different one. */
  lemma NulCollides(e: Envelope) returns (f: Envelope)
    requires !NulFree(e)
    ensures Signed(f) == Signed(e)
    ensures f.id != e.id || f.origin != e.origin || f.kind != e.kind
  {
    var times := BigEndian(e.ts, 8) + [NUL] + e.payload;
    var kinds := e.kind + [NUL] + times;
    if NUL in e.id {
      var x, y := CutAtNul(e.id);
      f := e.(id := x, origin := y + [NUL] + e.origin);
      MoveCut(x, y, e.origin + [NUL] + kinds);
      MoveCut(y, e.origin, kinds);
    } else if NUL in e.origin {
      var x, y := CutAtNul(e.origin);
      f := e.(id := e.id + [NUL] + x, origin := y);
      MoveCut(x, y, kinds);
      MoveCut(e.id, x, y + [NUL] + kinds);
    } else {
      var x, y := CutAtNul(e.kind);
      f := e.(origin := e.origin + [NUL] + x, kind := y);
      MoveCut(x, y, times);
      MoveCut(e.origin, x, y + [NUL] + times);
    }
  }

  lemma CutAtNul(s: string) returns (x: string, y: string)
    requires NUL in s
    ensures s == x + [NUL] + y && |x| < |s| && |y| < |s|
  {
    var i :| 0 <= i < |s| && s[i] == NUL;
    x, y := s[..i], s[i + 1..];
  }

  // Which envelopes their signed bytes identify among all envelopes, those with NUL bytes included

  predicate IsBytes(s: string) {
    forall i :: 0 <= i < |s| ==> s[i] as int < 256
  }

  /** All that Go strings and byte slices can hold. */
  predicate ByteFields(e: Envelope) {
    IsBytes(e.id) && IsBytes(e.origin) && IsBytes(e.kind) && IsBytes(e.payload)
  }

  function Unsigned(b: string): nat {
    if b == "" then 0 else 256 * Unsigned(b[..|b| - 1]) + b[|b| - 1] as int
  }

  lemma {:induction false} UnsignedReadsBack(b: string)
    requires IsBytes(b)
    ensures Unsigned(b) < Power256(|b|) && BigEndian(Unsigned(b), |b|) == b
  {
    if b != "" {
      UnsignedReadsBack(b[..|b| - 1]);
      assert Unsigned(b) / 256 == Unsigned(b[..|b| - 1]) && Unsigned(b) % 256 == b[|b| - 1] as int;
      assert b == b[..|b| - 1] + [b[|b| - 1]];
    }
  }

  /** The low bytes of a number do not change when it wraps around. */
  lemma {:induction false} BigEndianWraps(x: int, n: nat)
    ensures BigEndian(x - Power256(n), n) == BigEndian(x, n)
    decreases n
  {
    if n != 0 {
      assert (x - Power256(n)) / 256 == x / 256 - Power256(n - 1) && (x - Power256(n)) % 256 == x % 256;
      BigEndianWraps(x / 256, n - 1);
    }
  }

  /** Any eight bytes are those of a time stamp. */
  lemma EveryTimeExists(b: string) returns (ts: Int64)
    requires |b| == 8 && IsBytes(b)
    ensures BigEndian(ts, 8) == b
  {
    UnsignedReadsBack(b);
    BigEndianWraps(Unsigned(b), 8);
    assert Power256(8) == 0x1_0000_0000_0000_0000;
    var x: int := Unsigned(b);
    ts := if x < 0x8000_0000_0000_0000 then x else x - 0x1_0000_0000_0000_0000;
  }

  lemma {:induction false} BigEndianIsBytes(x: int, n: nat)
    ensures IsBytes(BigEndian(x, n))
    decreases n
  {
    if n != 0 { BigEndianIsBytes(x / 256, n - 1); }
  }

  /** What follows the three strings. */
  function Rest(e: Envelope): string {
    BigEndian(e.ts, 8) + [NUL] + e.payload
  }

  /** Two NUL bytes nine apart in the rest: eight bytes between them can be read as another time stamp. */
  ghost predicate Realigns(e: Envelope) {
    exists x :: RealignsAt(e, x)
  }

  predicate RealignsAt(e: Envelope, x: int) {
    0 <= x && x + 9 < |Rest(e)| && Rest(e)[x] == NUL && Rest(e)[x + 9] == NUL
  }

  ghost predicate Identified(e: Envelope) {
    forall f :: Signed(f) == Signed(e) ==> f == e.(signature := f.signature)
  }

  lemma RealignedCollides(e: Envelope, x: int) returns (f: Envelope)
    requires ByteFields(e) && RealignsAt(e, x)
    ensures Signed(f) == Signed(e) && |f.id| > |e.id|
  {
    var r := Rest(e);
    BigEndianIsBytes(e.ts, 8);
    assert IsBytes(r);
    var ts := EveryTimeExists(r[x + 1..x + 9]);
    f := Envelope(e.id + [NUL] + e.origin, e.kind, r[..x], ts, r[x + 10..], "");
    SplitTwice(r, x);
    MoveCut(e.id, e.origin, e.kind + [NUL] + r);
  }

  lemma SplitTwice(r: string, x: nat)
    requires x + 9 < |r| && r[x] == NUL && r[x + 9] == NUL
    ensures r[..x] + [NUL] + (r[x + 1..x + 9] + [NUL] + r[x + 10..]) == r
  {
    assert r[x..] == [NUL] + r[x + 1..] && r[x + 9..] == [NUL] + r[x + 10..];
    assert r[x + 1..] == r[x + 1..x + 9] + r[x + 9..];
    assert r == r[..x] + r[x..];
  }

  /** The places of the three NUL bytes that end the strings of an envelope. */
  lemma CutPlaces(e: Envelope)
    ensures var s, a := Signed(e), |e.id|;
            var b := a + 1 + |e.origin|;
            var c := b + 1 + |e.kind|;
            && c < |s| && s[a] == NUL && s[b] == NUL && s[c] == NUL
            && s[..a] == e.id && s[a + 1..b] == e.origin && s[b + 1..c] == e.kind && s[c + 1..] == Rest(e)
  {}

  lemma NulFreeCuts(e: Envelope, j: nat)
    requires NulFree(e) && j < |e.id| + 1 + |e.origin| + 1 + |e.kind|
    ensures j < |Signed(e)|
    ensures Signed(e)[j] == NUL ==> j == |e.id| || j == |e.id| + 1 + |e.origin|
  {
    var s, a := Signed(e), |e.id|;
    var b := a + 1 + |e.origin|;
    CutPlaces(e);
    assert j < a ==> s[j] == e.id[j] && s[j] in e.id;
    assert a < j < b ==> s[j] == e.origin[j - a - 1] && s[j] in e.origin;
    assert b < j ==> s[j] == e.kind[j - b - 1] && s[j] in e.kind;
  }

  lemma ThreeCuts(e: Envelope, p1: nat, p2: nat, p3: nat)
    requires NulFree(e) && p1 < p2 < p3 < |Signed(e)|
    requires Signed(e)[p1] == NUL && Signed(e)[p2] == NUL && Signed(e)[p3] == NUL
    ensures var b := |e.id| + 1 + |e.origin|;
            p3 > b + 1 + |e.kind| || (p1 == |e.id| && p2 == b && p3 == b + 1 + |e.kind|)
  {
    forall j: nat | j < |e.id| + 1 + |e.origin| + 1 + |e.kind|
      ensures Signed(e)[j] == NUL ==> j == |e.id| || j == |e.id| + 1 + |e.origin|
    {
      NulFreeCuts(e, j);
    }
  }

  /** Another reading of the bytes of a NUL-free envelope cuts the rest at two NUL bytes nine apart. */
  lemma OtherReadingRealigns(e: Envelope, f: Envelope)
    requires NulFree(e) && Signed(f) == Signed(e)
    ensures f == e.(signature := f.signature) || Realigns(e)
  {
    CutPlaces(e);
    CutPlaces(f);
    var c := |e.id| + 1 + |e.origin| + 1 + |e.kind|;
    var p1 := |f.id|;
    var p2 := p1 + 1 + |f.origin|;
    var p3 := p2 + 1 + |f.kind|;
    ThreeCuts(e, p1, p2, p3);
    if p3 == c {
      assert f.id == e.id && f.origin == e.origin && f.kind == e.kind;
      SignedInjective(e, f);
    } else {
      var s := Signed(e);
      assert p3 > c && s[p3 + 9] == Rest(f)[8] == NUL;
      assert Rest(e)[p3 - c - 1] == s[p3] && Rest(e)[p3 - c + 8] == s[p3 + 9];
      assert RealignsAt(e, p3 - c - 1);
    }
  }

  /** The signed bytes identify an envelope among all envelopes exactly when no other reading of them is possible. */
  lemma IdentifiedIff(e: Envelope)
    requires ByteFields(e)
    ensures Identified(e) <==> NulFree(e) && !Realigns(e)
  {
    if NulFree(e) && !Realigns(e) {
      forall f | Signed(f) == Signed(e) ensures f == e.(signature := f.signature) { OtherReadingRealigns(e, f); }
    }
    if !NulFree(e) {
      var f := NulCollides(e);
    } else if Realigns(e) {
      var x :| RealignsAt(e, x);
      var f := RealignedCollides(e, x);
    }
  }

  /** What the program mints is identified: text without NUL bytes against every other envelope there is. */
  lemma NulFreeIsIdentified(e: Envelope)
    requires NulFree(e) && NUL !in e.payload
    ensures Identified(e)
  {
    forall f | Signed(f) == Signed(e) ensures f == e.(signature := f.signature) {
      OtherReadingRealigns(e, f);
      assert forall x :: 0 <= x && x + 9 < |Rest(e)| ==> Rest(e)[x + 9] == e.payload[x] && e.payload[x] in e.payload;
    }
  }
}
