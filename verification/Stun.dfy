/** Reading the mapped address out of a STUN Binding Response (RFC 5389). */
module Stun {
  type Byte = x: int | 0 <= x < 256
  type Bytes = seq<Byte>

  /** What a call comes to; `Panics` is a slice bound out of range. */
  datatype Outcome = Found(ip: Bytes, port: nat) | Failed(error: string) | Panics

  const COOKIE: Bytes := [0x21, 0x12, 0xA4, 0x42]
  const BINDING_RESPONSE := 0x0101
  const MAPPED_ADDRESS := 0x0001
  const XOR_MAPPED_ADDRESS := 0x0020

  const COOKIE_PORT := 0x2112  // the upper half of the cookie

  function Be16(b: Bytes, i: nat): (n: nat)
    requires i + 2 <= |b|
    ensures n < 0x1_0000
  {
    var hi: int, lo: int := b[i], b[i + 1];
    hi * 256 + lo
  }

  /** Exclusive or of the `n` low binary digits. */
  function Xor(a: nat, b: nat, n: nat): nat {
    if n == 0 then 0 else 2 * Xor(a / 2, b / 2, n - 1) + (a % 2 + b % 2) % 2
  }

  function Power2(n: nat): nat {
    if n == 0 then 1 else 2 * Power2(n - 1)
  }

  lemma Powers()
    ensures Power2(8) == 256 && Power2(16) == 0x1_0000
  {
    assert Power2(4) == 16;
    assert Power2(8) == 256;
    assert Power2(12) == 4096;
  }

  lemma {:induction false} XorBound(a: nat, b: nat, n: nat)
    ensures Xor(a, b, n) < Power2(n)
  {
    if n != 0 { XorBound(a / 2, b / 2, n - 1); }
  }

  /** The mask undoes itself. */
  lemma {:induction false} XorTwice(a: nat, b: nat, n: nat)
    requires a < Power2(n)
    ensures Xor(Xor(a, b, n), b, n) == a
  {
    if n != 0 {
      XorTwice(a / 2, b / 2, n - 1);
      XorDigits(a, b, n);
      LowDigitTwice(a % 2, b % 2);
    }
  }

  lemma XorDigits(a: nat, b: nat, n: nat)
    requires n != 0
    ensures Xor(a, b, n) / 2 == Xor(a / 2, b / 2, n - 1) && Xor(a, b, n) % 2 == (a % 2 + b % 2) % 2
  {}

  lemma LowDigitTwice(x: nat, y: nat)
    requires x < 2 && y < 2
    ensures ((x + y) % 2 + y) % 2 == x
  {}

  function XorByte(a: Byte, b: Byte): Byte {
    XorBound(a, b, 8);
    Powers();
    Xor(a, b, 8)
  }

  function XorPort(a: nat): (x: nat)
    ensures x < 0x1_0000
  {
    XorBound(a, COOKIE_PORT, 16);
    Powers();
    Xor(a, COOKIE_PORT, 16)
  }

  /** Number of bytes after a value of this length up to the next multiple of four. */
  function PadLen(ln: nat): nat {
    (4 - ln % 4) % 4
  }

  // Decoding

  function DecodeXor(val: Bytes, magic: Bytes): Outcome
    requires |magic| == 4
  {
    if |val| < 4 then Failed("short XOR-MAPPED")
    else if val[1] == 0x01 then
      if |val| < 8 then Failed("short XOR-MAPPED v4")
      else Found(Xored(val[4..8], magic), XorPort(Be16(val, 2)))
    else if val[1] == 0x02 then
      if |val| < 20 then Failed("short XOR-MAPPED v6") else Failed("IPv6 XOR-MAPPED not yet supported")
    else Failed("unknown family")
  }

  function Xored(a: Bytes, b: Bytes): Bytes
    requires |a| == |b|
  {
    seq(|a|, i requires 0 <= i < |a| => XorByte(a[i], b[i]))
  }

  lemma XoredAt(a: Bytes, b: Bytes, x: Bytes)
    requires |a| == |b| == |x| && forall j :: 0 <= j < |a| ==> x[j] == XorByte(a[j], b[j])
    ensures x == Xored(a, b)
  {}

  function DecodeMapped(val: Bytes): Outcome {
    if |val| < 8 then Failed("short MAPPED")
    else if val[1] == 0x01 then Found(val[4..8], Be16(val, 2))
    else Failed("family not supported")
  }

  method DecodeXorMapped(val: Bytes, magic: Bytes) returns (r: Outcome)
    requires |magic| == 4
    ensures r == DecodeXor(val, magic)
  {
    if |val| < 4 { return Failed("short XOR-MAPPED"); }
    var family, port := val[1], XorPort(Be16(val, 2));
    if family == 0x01 {
      if |val| < 8 { return Failed("short XOR-MAPPED v4"); }
      var ip4 := new Byte[4](_ => 0);
      for i := 0 to 4
        invariant forall j :: 0 <= j < i ==> ip4[j] == XorByte(val[4 + j], magic[j])
      {
        ip4[i] := XorByte(val[4 + i], magic[i]);
      }
      XoredAt(val[4..8], magic, ip4[..]);
      return Found(ip4[..], port);
    } else if family == 0x02 {
      if |val| < 20 { return Failed("short XOR-MAPPED v6"); }
      return Failed("IPv6 XOR-MAPPED not yet supported");
    }
    return Failed("unknown family");
  }

  /** The walk over the attributes: the first mapped address decides, others are skipped with their padding. */
  function Walk(attrs: Bytes, magic: Bytes): Outcome
    requires |magic| == 4
    decreases |attrs|
  {
    if |attrs| < 4 then Failed("response missing mapped address")
    else
      var typ, ln := Be16(attrs, 0), Be16(attrs, 2);
      if 4 + ln > |attrs| then Failed("attribute overruns message")
      else if typ == XOR_MAPPED_ADDRESS then DecodeXor(attrs[4..4 + ln], magic)
      else if typ == MAPPED_ADDRESS then DecodeMapped(attrs[4..4 + ln])
      else if 4 + ln + PadLen(ln) > |attrs| then Panics
      else Walk(attrs[4 + ln + PadLen(ln)..], magic)
  }

  function ParseSpec(b: Bytes, txid: Bytes): Outcome
    requires |txid| == 12
  {
    if |b| < 20 then Failed("short response")
    else if Be16(b, 0) != BINDING_RESPONSE then Failed("not a Binding Response")
    else if b[4..8] != COOKIE then Failed("bad magic cookie")
    else if b[8..20] != txid then Failed("response for unrelated transaction")
    else if 20 + Be16(b, 2) > |b| then Failed("declared length exceeds packet")
    else Walk(b[20..20 + Be16(b, 2)], b[4..8])
  }

  method ParseResponse(b: Bytes, txid: Bytes) returns (r: Outcome)
    requires |txid| == 12
    ensures r == ParseSpec(b, txid)
  {
    if |b| < 20 { return Failed("short response"); }
    if Be16(b, 0) != BINDING_RESPONSE { return Failed("not a Binding Response"); }
    if b[4..8] != COOKIE { return Failed("bad magic cookie"); }
    for i := 0 to 12
      invariant forall j :: 0 <= j < i ==> b[8 + j] == txid[j]
    {
      if b[8 + i] != txid[i] {
        assert b[8..20][i] == b[8 + i];
        return Failed("response for unrelated transaction");
      }
    }
    assert b[8..20] == txid;
    var msgLen := Be16(b, 2);
    if 20 + msgLen > |b| { return Failed("declared length exceeds packet"); }
    var attrs, magic := b[20..20 + msgLen], b[4..8];
    while |attrs| >= 4
      invariant Walk(attrs, magic) == Walk(b[20..20 + msgLen], magic)
      decreases |attrs|
    {
      var typ, ln := Be16(attrs, 0), Be16(attrs, 2);
      if 4 + ln > |attrs| { return Failed("attribute overruns message"); }
      var val := attrs[4..4 + ln];
      if typ == XOR_MAPPED_ADDRESS {
        r := DecodeXorMapped(val, magic);
        return;
      } else if typ == MAPPED_ADDRESS {
        return DecodeMapped(val);
      }
      var pad := PadLen(ln);
      if 4 + ln + pad > |attrs| { return Panics; }
      attrs := attrs[4 + ln + pad..];
    }
    return Failed("response missing mapped address");
  }

  // The encoding of RFC 5389

  /** An attribute; the padding bytes may have any value (section 15 of RFC 5389). */
  datatype Attr = Attr(typ: nat, value: Bytes, padding: Bytes)

  ghost predicate ValidAttr(a: Attr) {
    a.typ < 0x1_0000 && |a.value| < 0x1_0000 && |a.padding| == PadLen(|a.value|)
  }

  predicate Mapped(typ: nat) {
    typ == XOR_MAPPED_ADDRESS || typ == MAPPED_ADDRESS
  }

  function U16(n: nat): (b: Bytes)
    requires n < 0x1_0000
    ensures |b| == 2 && Be16(b, 0) == n
  {
    [n / 256, n % 256]
  }

  function Header(typ: nat, ln: nat): (b: Bytes)
    requires typ < 0x1_0000 && ln < 0x1_0000
    ensures |b| == 4 && Be16(b, 0) == typ && Be16(b, 2) == ln
  {
    var t, l := U16(typ), U16(ln);
    assert Be16(t + l, 0) == Be16(t, 0) && Be16(t + l, 2) == Be16(l, 0);
    t + l
  }

  function Encode(a: Attr): Bytes
    requires ValidAttr(a)
  {
    Header(a.typ, |a.value|) + a.value + a.padding
  }

  function EncodeAll(attrs: seq<Attr>): Bytes
    requires forall a :: a in attrs ==> ValidAttr(a)
  {
    if attrs == [] then [] else Encode(attrs[0]) + EncodeAll(attrs[1..])
  }

  /** Attributes the client does not look into. */
  ghost predicate Skippable(attrs: seq<Attr>) {
    forall a :: a in attrs ==> ValidAttr(a) && !Mapped(a.typ)
  }

  function Decode(typ: nat, value: Bytes, magic: Bytes): Outcome
    requires Mapped(typ) && |magic| == 4
  {
    if typ == XOR_MAPPED_ADDRESS then DecodeXor(value, magic) else DecodeMapped(value)
  }

  lemma HeaderReads(typ: nat, value: Bytes, rest: Bytes)
    requires typ < 0x1_0000 && |value| < 0x1_0000
    ensures var b := Header(typ, |value|) + value + rest;
            && |b| == 4 + |value| + |rest| && Be16(b, 0) == typ && Be16(b, 2) == |value|
            && b[4..4 + |value|] == value && b[4 + |value|..] == rest
  {
    var h := Header(typ, |value|);
    var b := h + value + rest;
    assert b[0] == h[0] && b[1] == h[1] && b[2] == h[2] && b[3] == h[3];
  }

  lemma SkipOne(a: Attr, tail: Bytes, magic: Bytes)
    requires ValidAttr(a) && !Mapped(a.typ) && |magic| == 4
    ensures Walk(Encode(a) + tail, magic) == Walk(tail, magic)
  {
    var b := Header(a.typ, |a.value|) + a.value + (a.padding + tail);
    assert Encode(a) + tail == b;
    HeaderReads(a.typ, a.value, a.padding + tail);
    assert b[4 + |a.value| + |a.padding|..] == tail;
  }

  lemma {:induction false} OthersAreSkipped(attrs: seq<Attr>, rest: Bytes, magic: Bytes)
    requires Skippable(attrs) && |magic| == 4
    ensures Walk(EncodeAll(attrs) + rest, magic) == Walk(rest, magic)
  {
    if attrs == [] {
      assert EncodeAll(attrs) + rest == rest;
    } else {
      assert ValidAttr(attrs[0]) && !Mapped(attrs[0].typ);
      OthersAreSkipped(attrs[1..], rest, magic);
      SkipOne(attrs[0], EncodeAll(attrs[1..]) + rest, magic);
      EncodeAllCons(attrs, rest);
    }
  }

  lemma EncodeAllCons(attrs: seq<Attr>, rest: Bytes)
    requires attrs != [] && forall a :: a in attrs ==> ValidAttr(a)
    ensures EncodeAll(attrs) + rest == Encode(attrs[0]) + (EncodeAll(attrs[1..]) + rest)
  {}

  /** Whatever other attributes come before and whatever bytes after: the first mapped address is the one decoded. */
  lemma FirstMappedDecides(attrs: seq<Attr>, typ: nat, value: Bytes, rest: Bytes, magic: Bytes)
    requires Skippable(attrs) && Mapped(typ) && |value| < 0x1_0000 && |magic| == 4
    ensures Walk(EncodeAll(attrs) + (Header(typ, |value|) + value + rest), magic) == Decode(typ, value, magic)
  {
    OthersAreSkipped(attrs, Header(typ, |value|) + value + rest, magic);
    HeaderReads(typ, value, rest);
  }

  /** An IPv4 XOR-MAPPED-ADDRESS: port and address masked with the bytes of the cookie (section 15.2 of RFC 5389). */
  function EncodeXor(ip: Bytes, port: nat, reserved: Byte): Bytes
    requires |ip| == 4 && port < 0x1_0000
  {
    [reserved, 0x01] + Xored(U16(port), [0x21, 0x12]) + Xored(ip, [0x21, 0x12, 0xA4, 0x42])
  }

  /** An IPv4 MAPPED-ADDRESS (section 15.1 of RFC 5389). */
  function EncodePlain(ip: Bytes, port: nat, reserved: Byte): Bytes
    requires |ip| == 4 && port < 0x1_0000
  {
    [reserved, 0x01] + U16(port) + ip
  }

  /** The digits of two numbers in two groups are masked group by group. */
  lemma {:induction false} XorSplits(a: nat, b: nat, c: nat, d: nat, n: nat, k: nat)
    requires b < Power2(k) && d < Power2(k)
    ensures Xor(Power2(k) * a + b, Power2(k) * c + d, n + k) == Power2(k) * Xor(a, c, n) + Xor(b, d, k)
    decreases k
  {
    if k != 0 {
      var x, y := Power2(k) * a + b, Power2(k) * c + d;
      HalfOf(Power2(k - 1), a, b);
      HalfOf(Power2(k - 1), c, d);
      XorSplits(a, b / 2, c, d / 2, n, k - 1);
      assert Xor(x, y, n + k) == 2 * Xor(x / 2, y / 2, n + k - 1) + (x % 2 + y % 2) % 2;
      Doubled(Power2(k - 1), Xor(a, c, n));
    }
  }

  lemma HalfOf(p: nat, a: nat, b: nat)
    ensures (2 * p * a + b) / 2 == p * a + b / 2 && (2 * p * a + b) % 2 == b % 2
  {
    assert 2 * p * a + b == 2 * (p * a) + b;
  }

  lemma Doubled(p: nat, x: nat)
    ensures 2 * (p * x) == 2 * p * x
  {}

  lemma MaskedHalves(hi: Byte, lo: Byte)
    ensures XorPort(256 * hi + lo) == 256 * XorByte(hi, 0x21) + XorByte(lo, 0x12)
  {
    Powers();
    assert COOKIE_PORT == 256 * 0x21 + 0x12;
    XorSplits(hi, lo, 0x21, 0x12, 8, 8);
  }

  lemma TwoBytes(hi: Byte, lo: Byte)
    ensures U16(256 * hi + lo) == [hi, lo]
  {}

  lemma XoredPair(a: Byte, b: Byte, c: Byte, d: Byte)
    ensures Xored([a, b], [c, d]) == [XorByte(a, c), XorByte(b, d)]
  {}

  lemma CookieHead()
    ensures COOKIE[..2] == [0x21, 0x12]
  {}

  /** The mask on the port is that of the first two cookie bytes. */
  lemma PortMask(port: nat)
    requires port < 0x1_0000
    ensures U16(XorPort(port)) == Xored(U16(port), COOKIE[..2])
  {
    var hi: Byte, lo: Byte := port / 256, port % 256;
    MaskedHalves(hi, lo);
    TwoBytes(XorByte(hi, 0x21), XorByte(lo, 0x12));
    XoredPair(hi, lo, 0x21, 0x12);
    CookieHead();
  }

  lemma XoredTwice(a: Bytes, b: Bytes)
    requires |a| == |b|
    ensures Xored(Xored(a, b), b) == a
  {
    Powers();
    forall i | 0 <= i < |a| ensures Xored(Xored(a, b), b)[i] == a[i] { XorTwice(a[i], b[i], 8); }
  }

  lemma XorRoundTrip(ip: Bytes, port: nat, reserved: Byte)
    requires |ip| == 4 && port < 0x1_0000
    ensures DecodeXor(EncodeXor(ip, port, reserved), COOKIE) == Found(ip, port)
  {
    var x, v := Xored(U16(port), [0x21, 0x12]), EncodeXor(ip, port, reserved);
    assert COOKIE[..2] == [0x21, 0x12];
    PortMask(port);
    assert v[2] == x[0] && v[3] == x[1];
    assert Be16(v, 2) == Be16(x, 0) == XorPort(port);
    Powers();
    XorTwice(port, COOKIE_PORT, 16);
    assert v[4..8] == Xored(ip, COOKIE);
    XoredTwice(ip, COOKIE);
  }

  lemma PlainRoundTrip(ip: Bytes, port: nat, reserved: Byte)
    requires |ip| == 4 && port < 0x1_0000
    ensures DecodeMapped(EncodePlain(ip, port, reserved)) == Found(ip, port)
  {
    var v := EncodePlain(ip, port, reserved);
    assert v[2] == U16(port)[0] && v[3] == U16(port)[1] && v[4..8] == ip;
  }

  /**
  A Binding Response with these attribute bytes (section 6 of RFC 5389); bytes after the declared length are not part of
  the message.
  */
  function Response(txid: Bytes, attrs: Bytes, after: Bytes): Bytes
    requires |txid| == 12 && |attrs| < 0x1_0000
  {
    [0x01, 0x01] + [|attrs| / 256, |attrs| % 256] + ([0x21, 0x12, 0xA4, 0x42] + txid) + (attrs + after)
  }

  lemma ResponseLayout(txid: Bytes, attrs: Bytes, after: Bytes)
    requires |txid| == 12 && |attrs| < 0x1_0000
    ensures var b := Response(txid, attrs, after);
            && |b| >= 20 + |attrs| && Be16(b, 0) == BINDING_RESPONSE && Be16(b, 2) == |attrs|
            && b[4..8] == COOKIE && b[8..20] == txid && b[20..20 + |attrs|] == attrs
  {
    var b := Response(txid, attrs, after);
    assert b[4..20] == COOKIE + txid && b[4..8] == b[4..20][..4] && b[8..20] == b[4..20][4..];
    assert b[20..] == attrs + after && b[20..20 + |attrs|] == b[20..][..|attrs|];
  }

  lemma ResponseIsWalked(txid: Bytes, attrs: Bytes, after: Bytes)
    requires |txid| == 12 && |attrs| < 0x1_0000
    ensures ParseSpec(Response(txid, attrs, after), txid) == Walk(attrs, COOKIE)
  {
    ResponseLayout(txid, attrs, after);
  }

  /** The attribute of an address: type and length, then the value. */
  function Xmapped(ip: Bytes, port: nat, reserved: Byte): Bytes
    requires |ip| == 4 && port < 0x1_0000
  {
    [0x00, 0x20, 0x00, 0x08] + EncodeXor(ip, port, reserved)
  }

  function Plainly(ip: Bytes, port: nat, reserved: Byte): Bytes
    requires |ip| == 4 && port < 0x1_0000
  {
    [0x00, 0x01, 0x00, 0x08] + EncodePlain(ip, port, reserved)
  }

  /** A client reads back exactly the address and port a server encodes, masked or not, past any other attributes. */
  lemma MappedAddressReadsBack(txid: Bytes, others: seq<Attr>, ip: Bytes, port: nat, reserved: Byte, rest: Bytes,
                               after: Bytes)
    requires |txid| == 12 && |ip| == 4 && port < 0x1_0000 && Skippable(others)
    requires |EncodeAll(others)| + 12 + |rest| < 0x1_0000
    ensures var attrs := EncodeAll(others) + (Xmapped(ip, port, reserved) + rest);
            ParseSpec(Response(txid, attrs, after), txid) == Found(ip, port)
    ensures var attrs := EncodeAll(others) + (Plainly(ip, port, reserved) + rest);
            ParseSpec(Response(txid, attrs, after), txid) == Found(ip, port)
  {
    AttributeReadsBack(txid, others, XOR_MAPPED_ADDRESS, EncodeXor(ip, port, reserved), rest, after);
    assert Xmapped(ip, port, reserved) == Header(XOR_MAPPED_ADDRESS, 8) + EncodeXor(ip, port, reserved);
    XorRoundTrip(ip, port, reserved);
    AttributeReadsBack(txid, others, MAPPED_ADDRESS, EncodePlain(ip, port, reserved), rest, after);
    assert Plainly(ip, port, reserved) == Header(MAPPED_ADDRESS, 8) + EncodePlain(ip, port, reserved);
    PlainRoundTrip(ip, port, reserved);
  }

  lemma AttributeReadsBack(txid: Bytes, others: seq<Attr>, typ: nat, value: Bytes, rest: Bytes, after: Bytes)
    requires |txid| == 12 && |value| == 8 && Mapped(typ) && Skippable(others)
    requires |EncodeAll(others)| + 12 + |rest| < 0x1_0000
    ensures var attrs := EncodeAll(others) + (Header(typ, 8) + value + rest);
            ParseSpec(Response(txid, attrs, after), txid) == Decode(typ, value, COOKIE)
  {
    ResponseIsWalked(txid, EncodeAll(others) + (Header(typ, 8) + value + rest), after);
    FirstMappedDecides(others, typ, value, rest, COOKIE);
  }

  lemma Halves(b: Bytes, n: nat)
    requires n <= |b|
    ensures b == b[..n] + b[n..]
  {}

  /** An address is found only in a whole Binding Response to the client's own transaction. */
  lemma FoundOnlyInOwnResponse(b: Bytes, txid: Bytes)
    requires |txid| == 12 && ParseSpec(b, txid).Found?
    ensures exists attrs: Bytes, after: Bytes :: |attrs| < 0x1_0000 && b == Response(txid, attrs, after)
  {
    var n := Be16(b, 2);
    var attrs, after := b[20..20 + n], b[20 + n..];
    assert b[..2] == [0x01, 0x01] && b[2..4] == [n / 256, n % 256];
    Halves(b[4..20], 4);
    assert b[4..20][..4] == b[4..8] && b[4..20][4..] == b[8..20];
    Halves(b[20..], n);
    assert b[20..][..n] == attrs && b[20..][n..] == after;
    assert b == b[..2] + b[2..4] + b[4..20] + b[20..];
    assert b == Response(txid, attrs, after);
  }

  /** A value decodes to an address exactly when it starts with the encoding of it. */
  lemma FoundIffEncoded(val: Bytes, ip: Bytes, port: nat)
    requires |ip| == 4 && port < 0x1_0000
    ensures DecodeXor(val, COOKIE) == Found(ip, port) <==>
              |val| >= 8 && val[..8] == EncodeXor(ip, port, val[0])
    ensures DecodeMapped(val) == Found(ip, port) <==> |val| >= 8 && val[..8] == EncodePlain(ip, port, val[0])
  {
    XorFoundIff(val, ip, port);
    PlainFoundIff(val, ip, port);
  }

  lemma XorFoundIff(val: Bytes, ip: Bytes, port: nat)
    requires |ip| == 4 && port < 0x1_0000
    ensures DecodeXor(val, COOKIE) == Found(ip, port) <==> |val| >= 8 && val[..8] == EncodeXor(ip, port, val[0])
  {
    if DecodeXor(val, COOKIE) == Found(ip, port) {
      XorReencodes(val, ip, port);
    } else if |val| >= 8 && val[..8] == EncodeXor(ip, port, val[0]) {
      SameHead(val);
      XorRoundTrip(ip, port, val[0]);
    }
  }

  lemma PlainFoundIff(val: Bytes, ip: Bytes, port: nat)
    requires |ip| == 4 && port < 0x1_0000
    ensures DecodeMapped(val) == Found(ip, port) <==> |val| >= 8 && val[..8] == EncodePlain(ip, port, val[0])
  {
    if DecodeMapped(val) == Found(ip, port) {
      U16OfBe16(val);
      assert val[..8] == [val[0], val[1]] + val[2..4] + val[4..8];
    } else if |val| >= 8 && val[..8] == EncodePlain(ip, port, val[0]) {
      SameHead(val);
      PlainRoundTrip(ip, port, val[0]);
    }
  }

  lemma SameHead(val: Bytes)
    requires |val| >= 8
    ensures DecodeXor(val, COOKIE) == DecodeXor(val[..8], COOKIE) || !DecodeXor(val, COOKIE).Found?
    ensures DecodeXor(val[..8], COOKIE).Found? ==> DecodeXor(val, COOKIE) == DecodeXor(val[..8], COOKIE)
    ensures DecodeMapped(val) == DecodeMapped(val[..8])
  {
    assert val[..8][4..8] == val[4..8] && Be16(val[..8], 2) == Be16(val, 2);
  }

  lemma XorReencodes(val: Bytes, ip: Bytes, port: nat)
    requires |val| >= 8 && |ip| == 4 && port < 0x1_0000 && DecodeXor(val, COOKIE) == Found(ip, port)
    ensures val[..8] == EncodeXor(ip, port, val[0])
  {
    PortReencodes(val, port);
    XoredTwice(val[4..8], COOKIE);
    assert val[..8] == [val[0], val[1]] + val[2..4] + val[4..8];
  }

  lemma PortReencodes(val: Bytes, port: nat)
    requires |val| >= 4 && port == XorPort(Be16(val, 2))
    ensures Xored(U16(port), [0x21, 0x12]) == val[2..4]
  {
    UnmaskedPort(Be16(val, 2));
    PortMask(port);
    CookieHead();
    U16OfBe16(val);
  }

  lemma U16OfBe16(val: Bytes)
    requires |val| >= 4
    ensures U16(Be16(val, 2)) == val[2..4]
  {
    var hi: int, lo: int := val[2], val[3];
    assert (hi * 256 + lo) / 256 == hi && (hi * 256 + lo) % 256 == lo;
  }

  lemma UnmaskedPort(q: nat)
    requires q < 0x1_0000
    ensures XorPort(XorPort(q)) == q
  {
    Powers();
    XorTwice(q, COOKIE_PORT, 16);
  }

  // When the walk stays in bounds

  /** In a length that is a multiple of four a value fits together with its padding, or not at all. */
  lemma PaddedFits(ln: nat, n: nat)
    requires n % 4 == 0
    ensures 4 + ln <= n ==> 4 + ln + PadLen(ln) <= n
    ensures 4 + ln + PadLen(ln) <= n ==> (n - (4 + ln + PadLen(ln))) % 4 == 0
  {
    assert (ln + PadLen(ln)) % 4 == 0;
  }

  /** With a length that is a multiple of four (section 6 of RFC 5389) no bytes make the walk panic. */
  lemma {:induction false} AlignedNeverPanics(attrs: Bytes, magic: Bytes)
    requires |attrs| % 4 == 0 && |magic| == 4
    ensures Walk(attrs, magic) != Panics
    decreases |attrs|
  {
    if |attrs| >= 4 {
      var ln := Be16(attrs, 2);
      PaddedFits(ln, |attrs|);
      if 4 + ln + PadLen(ln) <= |attrs| {
        AlignedNeverPanics(attrs[4 + ln + PadLen(ln)..], magic);
      }
    }
  }

  /** The lengths that are safe for every content are the multiples of four and those too short for an attribute. */
  lemma SafeLengths(n: nat, magic: Bytes)
    requires n < 0x1_0000 && |magic| == 4
    ensures (forall attrs: Bytes :: |attrs| == n ==> Walk(attrs, magic) != Panics) <==> n % 4 == 0 || n < 4
  {
    if n % 4 == 0 {
      forall attrs: Bytes | |attrs| == n ensures Walk(attrs, magic) != Panics { AlignedNeverPanics(attrs, magic); }
    } else if n >= 4 {
      var attrs := UnalignedPanics(n, magic);
    } else {
      assert forall attrs: Bytes :: |attrs| == n ==> Walk(attrs, magic) == Failed("response missing mapped address");
    }
  }

  /** For every other length there is a message that panics: one attribute without its padding. */
  lemma UnalignedPanics(n: nat, magic: Bytes) returns (attrs: Bytes)
    requires 4 <= n < 0x1_0000 && n % 4 != 0 && |magic| == 4
    ensures |attrs| == n && Walk(attrs, magic) == Panics
  {
    var value: Bytes := seq(n - 4, i => 0);
    attrs := Header(0x8022, n - 4) + value + [];
    HeaderReads(0x8022, value, []);
    assert PadLen(n - 4) > 0;
  }

  /** The bytes are skippable attributes, the last one cut inside its padding. */
  ghost predicate CutInPadding(attrs: Bytes) {
    exists others: seq<Attr>, last: Attr :: CutAfter(attrs, others, last)
  }

  ghost predicate CutAfter(attrs: Bytes, others: seq<Attr>, last: Attr) {
    && Skippable(others) && last.typ < 0x1_0000 && !Mapped(last.typ) && |last.value| < 0x1_0000
    && |last.padding| < PadLen(|last.value|)
    && attrs == EncodeAll(others) + (Header(last.typ, |last.value|) + last.value + last.padding)
  }

  /** Exactly these attribute bytes make the walk panic. */
  lemma PanicsIffCutInPadding(attrs: Bytes, magic: Bytes)
    requires |magic| == 4
    ensures Walk(attrs, magic) == Panics <==> CutInPadding(attrs)
  {
    if others, last :| CutAfter(attrs, others, last) {
      OthersAreSkipped(others, Header(last.typ, |last.value|) + last.value + last.padding, magic);
      HeaderReads(last.typ, last.value, last.padding);
    }
    if Walk(attrs, magic) == Panics {
      PanicIsCut(attrs, magic);
    }
  }

  lemma {:induction false} PanicIsCut(attrs: Bytes, magic: Bytes)
    requires |magic| == 4 && Walk(attrs, magic) == Panics
    ensures CutInPadding(attrs)
    decreases |attrs|
  {
    var typ, ln := Be16(attrs, 0), Be16(attrs, 2);
    if 4 + ln + PadLen(ln) > |attrs| {
      LastIsCut(attrs, typ, ln);
    } else {
      var rest := attrs[4 + ln + PadLen(ln)..];
      PanicIsCut(rest, magic);
      var others, last :| CutAfter(rest, others, last);
      FirstIsWhole(attrs, typ, ln, others, last);
    }
  }

  lemma LastIsCut(attrs: Bytes, typ: nat, ln: nat)
    requires |attrs| >= 4 && typ == Be16(attrs, 0) && ln == Be16(attrs, 2) && !Mapped(typ)
    requires 4 + ln <= |attrs| < 4 + ln + PadLen(ln)
    ensures CutInPadding(attrs)
  {
    var last := Attr(typ, attrs[4..4 + ln], attrs[4 + ln..]);
    HeaderOf(attrs);
    assert attrs == attrs[..4] + last.value + last.padding;
    assert attrs == EncodeAll([]) + (Header(typ, ln) + last.value + last.padding);
    assert CutAfter(attrs, [], last);
  }

  lemma FirstIsWhole(attrs: Bytes, typ: nat, ln: nat, others: seq<Attr>, last: Attr)
    requires |attrs| >= 4 && typ == Be16(attrs, 0) && ln == Be16(attrs, 2) && !Mapped(typ)
    requires 4 + ln + PadLen(ln) <= |attrs| && CutAfter(attrs[4 + ln + PadLen(ln)..], others, last)
    ensures CutInPadding(attrs)
  {
    var end := 4 + ln + PadLen(ln);
    var first := Attr(typ, attrs[4..4 + ln], attrs[4 + ln..end]);
    HeaderOf(attrs);
    assert attrs[..end] == attrs[..4] + first.value + first.padding;
    assert attrs == Encode(first) + attrs[end..];
    assert ([first] + others)[1..] == others;
    var cut := Header(last.typ, |last.value|) + last.value + last.padding;
    assert EncodeAll([first] + others) + cut == Encode(first) + (EncodeAll(others) + cut);
    assert CutAfter(attrs, [first] + others, last);
  }

  lemma HeaderOf(attrs: Bytes)
    requires |attrs| >= 4
    ensures attrs[..4] == Header(Be16(attrs, 0), Be16(attrs, 2))
  {}
}
