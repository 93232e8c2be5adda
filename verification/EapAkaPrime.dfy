/**
  EAP-AKA' packets (section 8.1 of RFC 4187, RFC 9048): an eight-octet header, then attributes of type, length
  in four-octet words, and value. The keyed hash HMAC-SHA-256 is a parameter of the model.
 */
module EapAkaPrime {
  import opened Bytes
  import opened Wrappers

  type Digest = b: Bytes | |b| == 32 witness Zeros(32)
  type Key128 = b: Bytes | |b| == 16 witness Zeros(16)
  type Hmac = (Bytes, Bytes) -> Digest

  const REQUEST: byte := 1
  const RESPONSE: byte := 2
  const TYPE_AKA_PRIME: byte := 50
  const SUBTYPE_CHALLENGE: byte := 1
  const AT_RAND: byte := 1
  const AT_AUTN: byte := 2
  const AT_RES: byte := 3
  const AT_MAC: byte := 11
  const AT_KDF_INPUT: byte := 23
  const AT_KDF: byte := 24

  // The longest name or RES whose attribute length still fits one octet.
  const MAX_VALUE := 1016

  // ---- PRF' (section 3.4.1 of RFC 9048) -----------------------------------------------------------

  // Block number n; the one-octet counter wraps.
  function Block(hmac: Hmac, key: Bytes, seed: Bytes, n: nat): Bytes {
    if n == 0 then [] else hmac(key, Block(hmac, key, seed, n - 1) + seed + [n % 0x100])
  }

  function Blocks(hmac: Hmac, key: Bytes, seed: Bytes, n: nat): (b: Bytes)
    ensures |b| == 32 * n
  {
    if n == 0 then [] else Blocks(hmac, key, seed, n - 1) + Block(hmac, key, seed, n)
  }

  lemma {:induction false} BlocksPrefix(hmac: Hmac, key: Bytes, seed: Bytes, m: nat, n: nat)
    requires m <= n
    ensures Blocks(hmac, key, seed, n)[..32 * m] == Blocks(hmac, key, seed, m)
  {
    if m < n {
      BlocksPrefix(hmac, key, seed, m, n - 1);
      assert Blocks(hmac, key, seed, n)[..32 * m] == Blocks(hmac, key, seed, n - 1)[..32 * m];
    }
  }

  /** The output is a prefix of every longer run of blocks, so a shorter output is a prefix of a longer one. */
  method PrfPrime(hmac: Hmac, key: Bytes, seed: Bytes, outputLength: nat) returns (out: Bytes)
    ensures |out| == outputLength
    ensures forall n | outputLength <= 32 * n :: out == Blocks(hmac, key, seed, n)[..outputLength]
  {
    out := [];
    var previous: Bytes := [];
    var counter: byte := 1;
    ghost var done: nat := 0;
    while |out| < outputLength
      invariant out == Blocks(hmac, key, seed, done) && |out| == 32 * done
      invariant previous == Block(hmac, key, seed, done)
      invariant counter == (done + 1) % 0x100
      decreases outputLength - |out|
    {
      var input := previous;
      input := input + seed;
      input := input + [counter];
      previous := hmac(key, input);
      out := out + previous;
      done := done + 1;
      counter := (counter + 1) % 0x100;
    }
    forall n: nat | outputLength <= 32 * n
      ensures out[..outputLength] == Blocks(hmac, key, seed, n)[..outputLength]
    {
      SameTruncation(hmac, key, seed, done, n, outputLength);
    }
    out := out[..outputLength];
  }

  lemma SameTruncation(hmac: Hmac, key: Bytes, seed: Bytes, m: nat, n: nat, length: nat)
    requires length <= 32 * m && length <= 32 * n
    ensures Blocks(hmac, key, seed, m)[..length] == Blocks(hmac, key, seed, n)[..length]
  {
    var less, more := if m <= n then m else n, if m <= n then n else m;
    BlocksPrefix(hmac, key, seed, less, more);
    assert Blocks(hmac, key, seed, more)[..32 * less][..length] == Blocks(hmac, key, seed, more)[..length];
  }

  // ---- Attributes ---------------------------------------------------------------------------------

  // The padding that brings type, length and value to a word boundary.
  function PadLength(n: nat): (p: nat)
    ensures p < 4 && (n + p + 2) % 4 == 0
  {
    (6 - n % 4) % 4
  }

  function Attribute(kind: byte, value: Bytes): (b: Bytes)
    ensures |b| == |value| + 2
  {
    [kind, (|value| + 2) / 4 % 0x100] + value
  }

  // A value whose attribute the length octet can describe.
  predicate Sized(value: Bytes) { (|value| + 2) % 4 == 0 && 0 < (|value| + 2) / 4 < 0x100 }

  // Where a value lies in its packet.
  datatype Span = Span(offset: nat, length: nat)

  // The length octet counts four-octet words.
  function Total(words: byte): nat { 4 * (words as int) }

  /** The first attribute of this type from `pos` on; None when it is missing or a malformed one comes before it. */
  function Find(packet: Bytes, pos: nat, kind: byte): (s: Option<Span>)
    ensures s.Some? ==> pos + 2 <= s.value.offset && 2 <= s.value.length
                        && s.value.offset + s.value.length <= |packet|
    decreases |packet| - pos
  {
    if pos + 2 > |packet| || packet[pos + 1] == 0 || pos + Total(packet[pos + 1]) > |packet| then None
    else if packet[pos] == kind then Some(Span(pos + 2, Total(packet[pos + 1]) - 2))
    else Find(packet, pos + Total(packet[pos + 1]), kind)
  }

  /** Scans from the end of the header; every position it looks at lies inside the packet. */
  method FindAttribute(packet: Bytes, kind: byte) returns (span: Option<Span>)
    ensures span == Find(packet, 8, kind)
  {
    var pos := 8;
    while pos + 2 <= |packet|
      invariant Find(packet, 8, kind) == Find(packet, pos, kind)
      decreases |packet| - pos
    {
      var attributeType, words := packet[pos], packet[pos + 1];
      if words == 0 {
        return None;
      }
      var total := Total(words);
      if pos + total > |packet| {
        return None;
      }
      if attributeType == kind {
        return Some(Span(pos + 2, total - 2));
      }
      pos := pos + total;
    }
    return None;
  }

  // An attribute written at `pos` is the one found there, and otherwise skipped.
  lemma FindAt(packet: Bytes, pos: nat, kind: byte, value: Bytes, wanted: byte)
    requires Sized(value) && pos + |value| + 2 <= |packet|
    requires packet[pos..pos + |value| + 2] == Attribute(kind, value)
    ensures Find(packet, pos, wanted) == if kind == wanted then Some(Span(pos + 2, |value|))
                                         else Find(packet, pos + |value| + 2, wanted)
  {
    var a := packet[pos..pos + |value| + 2];
    assert a[0] == packet[pos] && a[1] == packet[pos + 1];
    assert Total(a[1]) == |value| + 2;
  }

  function LengthThenValue(length: uint16, value: Bytes): (b: Bytes)
    ensures |b| == 2 + |value| + PadLength(2 + |value|)
  {
    U16(length) + value + Zeros(PadLength(2 + |value|))
  }

  method PadToWordBoundary(value: Bytes) returns (padded: Bytes)
    ensures padded == value + Zeros(PadLength(|value|))
  {
    padded := value;
    ghost var n := 0;
    while (|padded| + 2) % 4 != 0
      invariant padded == value + Zeros(n) && n <= PadLength(|value|)
      decreases PadLength(|value|) - n
    {
      padded := padded + [0];
      n := n + 1;
    }
  }

  // ---- Building -----------------------------------------------------------------------------------

  function Header(code: byte, identifier: byte, total: nat, subtype: byte): (b: Bytes)
    ensures |b| == 8
  {
    [code, identifier, total / 0x100 % 0x100, total % 0x100, TYPE_AKA_PRIME, subtype, 0, 0]
  }

  function Mac(hmac: Hmac, packet: Bytes, kAut: Digest): Key128 { hmac(kAut, packet)[..16] }

  // A packet whose last attribute is AT_MAC, computed over the packet with a zero MAC.
  function Signed(hmac: Hmac, code: byte, identifier: byte, attributes: Bytes, kAut: Digest): Bytes {
    var head := Header(code, identifier, 8 + |attributes| + 20, SUBTYPE_CHALLENGE);
    var zeroed := head + attributes + Attribute(AT_MAC, Zeros(18));
    head + attributes + Attribute(AT_MAC, [0, 0] + Mac(hmac, zeroed, kAut))
  }

  function RequestAttributes(rand: Key128, autn: Key128, name: Bytes): Bytes {
    Attribute(AT_RAND, [0, 0] + rand) +
    (Attribute(AT_AUTN, [0, 0] + autn) +
     (Attribute(AT_KDF_INPUT, LengthThenValue(|name| % 0x1_0000, name)) +
      Attribute(AT_KDF, [0, 1])))
  }

  function ResponseAttributes(res: Bytes): Bytes {
    Attribute(AT_RES, LengthThenValue(8 * |res| % 0x1_0000, res))
  }

  method FinalizeWithMac(hmac: Hmac, code: byte, identifier: byte, attributes: Bytes, kAut: Digest)
    returns (packet: Bytes)
    ensures packet == Signed(hmac, code, identifier, attributes, kAut)
  {
    var macOffset := 8 + |attributes| + 4;
    packet := Header(code, identifier, 8 + |attributes| + 20, SUBTYPE_CHALLENGE);
    packet := packet + (attributes + Attribute(AT_MAC, Zeros(18)));
    assert packet == Header(code, identifier, 8 + |attributes| + 20, SUBTYPE_CHALLENGE) + attributes
                     + Attribute(AT_MAC, Zeros(18));
    var mac := Mac(hmac, packet, kAut);
    packet := packet[..macOffset] + mac + packet[macOffset + 16..];
  }

  method BuildChallengeRequest(hmac: Hmac, identifier: byte, rand: Key128, autn: Key128, name: Bytes, kAut: Digest)
    returns (packet: Bytes)
    ensures packet == Signed(hmac, REQUEST, identifier, RequestAttributes(rand, autn, name), kAut)
  {
    var attributes := Attribute(AT_RAND, [0, 0] + rand);
    attributes := attributes + Attribute(AT_AUTN, [0, 0] + autn);
    var value := PadToWordBoundary(U16(|name| % 0x1_0000) + name);
    attributes := attributes + Attribute(AT_KDF_INPUT, value);
    attributes := attributes + Attribute(AT_KDF, [0, 1]);
    assert attributes == RequestAttributes(rand, autn, name);
    packet := FinalizeWithMac(hmac, REQUEST, identifier, attributes, kAut);
  }

  method BuildChallengeResponse(hmac: Hmac, identifier: byte, res: Bytes, kAut: Digest) returns (packet: Bytes)
    ensures packet == Signed(hmac, RESPONSE, identifier, ResponseAttributes(res), kAut)
  {
    var value := PadToWordBoundary(U16(8 * |res| % 0x1_0000) + res);
    packet := FinalizeWithMac(hmac, RESPONSE, identifier, Attribute(AT_RES, value), kAut);
  }

  // ---- Parsing ------------------------------------------------------------------------------------

  datatype RequestFields = RequestFields(rand: Bytes, autn: Bytes, kdfInput: Bytes, mac: Bytes)

  datatype ResponseFields = ResponseFields(res: Bytes, mac: Bytes)

  predicate IsChallenge(packet: Bytes, code: byte) {
    |packet| >= 8 && packet[0] == code && packet[4] == TYPE_AKA_PRIME && packet[5] == SUBTYPE_CHALLENGE
  }

  // The sixteen octets behind the two reserved ones.
  function Sixteen(packet: Bytes, s: Span): Bytes
    requires 18 <= s.length && s.offset + s.length <= |packet|
  {
    packet[s.offset + 2..s.offset + 18]
  }

  function ParseRequest(packet: Bytes): Option<RequestFields> {
    if !IsChallenge(packet, REQUEST) then None
    else
      var rand, autn := Find(packet, 8, AT_RAND), Find(packet, 8, AT_AUTN);
      var input, mac := Find(packet, 8, AT_KDF_INPUT), Find(packet, 8, AT_MAC);
      if rand.None? || autn.None? || input.None? || mac.None? || rand.value.length < 18 || autn.value.length < 18
         || mac.value.length < 18 then None
      else
        var at, n := input.value.offset, GetU16(packet, input.value.offset);
        if 2 + n > input.value.length then None
        else Some(RequestFields(Sixteen(packet, rand.value), Sixteen(packet, autn.value), packet[at + 2..at + 2 + n],
                                Sixteen(packet, mac.value)))
  }

  function ParseResponse(packet: Bytes): Option<ResponseFields> {
    if !IsChallenge(packet, RESPONSE) then None
    else
      var res, mac := Find(packet, 8, AT_RES), Find(packet, 8, AT_MAC);
      if res.None? || mac.None? || mac.value.length < 18 then None
      else
        var at, n := res.value.offset, (GetU16(packet, res.value.offset) + 7) / 8;
        if 2 + n > res.value.length then None
        else Some(ResponseFields(packet[at + 2..at + 2 + n], Sixteen(packet, mac.value)))
  }

  function VerifyMac(hmac: Hmac, packet: Bytes, kAut: Digest): bool {
    var mac := Find(packet, 8, AT_MAC);
    mac.Some? && mac.value.length >= 18 &&
    var at := mac.value.offset + 2;
    Mac(hmac, packet[..at] + Zeros(16) + packet[at + 16..], kAut) == packet[at..at + 16]
  }

  method ParseChallengeRequest(packet: Bytes) returns (fields: Option<RequestFields>)
    ensures fields == ParseRequest(packet)
  {
    if !IsChallenge(packet, REQUEST) {
      return None;
    }
    var rand := FindAttribute(packet, AT_RAND);
    var autn := FindAttribute(packet, AT_AUTN);
    var input := FindAttribute(packet, AT_KDF_INPUT);
    var mac := FindAttribute(packet, AT_MAC);
    if rand.None? || autn.None? || input.None? || mac.None? || rand.value.length < 18 || autn.value.length < 18
       || mac.value.length < 18 || input.value.length < 2 {
      return None;
    }
    var at := input.value.offset;
    var nameLength := GetU16(packet, at);
    if 2 + nameLength > input.value.length {
      return None;
    }
    return Some(RequestFields(packet[rand.value.offset + 2..rand.value.offset + 18],
                              packet[autn.value.offset + 2..autn.value.offset + 18],
                              packet[at + 2..at + 2 + nameLength],
                              packet[mac.value.offset + 2..mac.value.offset + 18]));
  }

  method ParseChallengeResponse(packet: Bytes) returns (fields: Option<ResponseFields>)
    ensures fields == ParseResponse(packet)
  {
    if !IsChallenge(packet, RESPONSE) {
      return None;
    }
    var res := FindAttribute(packet, AT_RES);
    var mac := FindAttribute(packet, AT_MAC);
    if res.None? || mac.None? || res.value.length < 2 || mac.value.length < 18 {
      return None;
    }
    var at := res.value.offset;
    var resBytes := (GetU16(packet, at) + 7) / 8;
    if 2 + resBytes > res.value.length {
      return None;
    }
    return Some(ResponseFields(packet[at + 2..at + 2 + resBytes],
                               packet[mac.value.offset + 2..mac.value.offset + 18]));
  }

  /** Recomputes the MAC over the packet with its MAC octets zeroed and compares. */
  method CheckMac(hmac: Hmac, packet: Bytes, kAut: Digest) returns (ok: bool)
    ensures ok == VerifyMac(hmac, packet, kAut)
  {
    var mac := FindAttribute(packet, AT_MAC);
    if mac.None? || mac.value.length < 18 {
      return false;
    }
    var at := mac.value.offset + 2;
    var zeroed := packet[..at] + Zeros(16) + packet[at + 16..];
    var expected := Mac(hmac, zeroed, kAut);
    return expected == packet[at..at + 16];
  }

  // ---- What building and parsing do to each other ---------------------------------------------------

  // What a packet ends with when it was signed: AT_MAC over the packet with a zero MAC.
  ghost predicate IsSigned(hmac: Hmac, p: Bytes, code: byte, attributes: Bytes, kAut: Digest) {
    var n := |attributes|;
    && |p| == 28 + n && IsChallenge(p, code)
    && p[8..8 + n] == attributes
    && p[8 + n..] == Attribute(AT_MAC, [0, 0] + p[12 + n..])
    && p[12 + n..] == Mac(hmac, p[..12 + n] + Zeros(16), kAut)
    && (|p| < 0x1_0000 ==> GetU16(p, 2) == |p|)
  }

  lemma SignedIsSigned(hmac: Hmac, code: byte, identifier: byte, attributes: Bytes, kAut: Digest)
    ensures IsSigned(hmac, Signed(hmac, code, identifier, attributes, kAut), code, attributes, kAut)
  {
    var p := Signed(hmac, code, identifier, attributes, kAut);
    var head := Header(code, identifier, 8 + |attributes| + 20, SUBTYPE_CHALLENGE);
    var mac := Mac(hmac, head + attributes + Attribute(AT_MAC, Zeros(18)), kAut);
    assert p == head + attributes + [AT_MAC, 5, 0, 0] + mac;
    assert head + attributes + Attribute(AT_MAC, Zeros(18)) == head + attributes + [AT_MAC, 5, 0, 0] + Zeros(16);
    assert p[..12 + |attributes|] == head + attributes + [AT_MAC, 5, 0, 0];
  }

  lemma MacFound(p: Bytes, n: nat, mac: Bytes, from: nat)
    requires |p| == 28 + n && |mac| == 16 && p[8 + n..] == Attribute(AT_MAC, [0, 0] + mac)
    requires Find(p, from, AT_MAC) == Find(p, 8 + n, AT_MAC)
    ensures Find(p, from, AT_MAC) == Some(Span(10 + n, 18))
  {
    assert p[8 + n..8 + n + 20] == p[8 + n..];
    FindAt(p, 8 + n, AT_MAC, [0, 0] + mac, AT_MAC);
  }

  lemma MacVerifies(hmac: Hmac, p: Bytes, code: byte, attributes: Bytes, kAut: Digest)
    requires IsSigned(hmac, p, code, attributes, kAut)
    requires Find(p, 8, AT_MAC) == Some(Span(10 + |attributes|, 18))
    ensures VerifyMac(hmac, p, kAut)
  {
    var at := 12 + |attributes|;
    assert p[at..at + 16] == p[at..];
    assert p[..at] + Zeros(16) + p[at + 16..] == p[..at] + Zeros(16);
  }

  lemma ValueSized(length: uint16, value: Bytes)
    ensures (|LengthThenValue(length, value)| + 2) % 4 == 0
    ensures Sized(LengthThenValue(length, value)) <==> |value| <= MAX_VALUE
  {
  }

  // The attributes of a challenge request, each at its place.
  ghost predicate RequestLaidOut(p: Bytes, rand: Key128, autn: Key128, v: Bytes) {
    && 54 + |v| <= |p|
    && p[8..28] == Attribute(AT_RAND, [0, 0] + rand)
    && p[28..48] == Attribute(AT_AUTN, [0, 0] + autn)
    && p[48..50 + |v|] == Attribute(AT_KDF_INPUT, v)
    && p[50 + |v|..54 + |v|] == Attribute(AT_KDF, [0, 1])
  }

  lemma RequestLayout(p: Bytes, rand: Key128, autn: Key128, name: Bytes)
    requires var a := RequestAttributes(rand, autn, name); 8 + |a| <= |p| && p[8..8 + |a|] == a
    ensures var v := LengthThenValue(|name| % 0x1_0000, name);
            |RequestAttributes(rand, autn, name)| == 46 + |v| && RequestLaidOut(p, rand, autn, v)
  {
    var v := LengthThenValue(|name| % 0x1_0000, name);
    var a := RequestAttributes(rand, autn, name);
    assert a[0..20] == Attribute(AT_RAND, [0, 0] + rand);
    assert a[20..40] == Attribute(AT_AUTN, [0, 0] + autn);
    assert a[40..42 + |v|] == Attribute(AT_KDF_INPUT, v);
    assert a[42 + |v|..46 + |v|] == Attribute(AT_KDF, [0, 1]);
    Window(p, 8, |a|, 0, 20);
    Window(p, 8, |a|, 20, 40);
    Window(p, 8, |a|, 40, 42 + |v|);
    Window(p, 8, |a|, 42 + |v|, 46 + |v|);
  }

  // Where the first three attributes of a challenge request are found, and how far the scan for the MAC gets.
  lemma RequestSpans(p: Bytes, rand: Key128, autn: Key128, v: Bytes)
    requires RequestLaidOut(p, rand, autn, v)
    ensures Find(p, 8, AT_RAND) == Some(Span(10, 18))
    ensures Find(p, 8, AT_AUTN) == Some(Span(30, 18))
    ensures Find(p, 8, AT_KDF_INPUT) == Find(p, 48, AT_KDF_INPUT)
    ensures Find(p, 8, AT_MAC) == Find(p, 48, AT_MAC)
  {
    FindAt(p, 8, AT_RAND, [0, 0] + rand, AT_RAND);
    FindAt(p, 8, AT_RAND, [0, 0] + rand, AT_AUTN);
    FindAt(p, 8, AT_RAND, [0, 0] + rand, AT_KDF_INPUT);
    FindAt(p, 8, AT_RAND, [0, 0] + rand, AT_MAC);
    FindAt(p, 28, AT_AUTN, [0, 0] + autn, AT_AUTN);
    FindAt(p, 28, AT_AUTN, [0, 0] + autn, AT_KDF_INPUT);
    FindAt(p, 28, AT_AUTN, [0, 0] + autn, AT_MAC);
  }

  lemma InputSpan(p: Bytes, rand: Key128, autn: Key128, v: Bytes)
    requires RequestLaidOut(p, rand, autn, v) && Sized(v)
    ensures Find(p, 48, AT_KDF_INPUT) == Some(Span(50, |v|))
    ensures Find(p, 48, AT_MAC) == Find(p, 50 + |v|, AT_MAC)
  {
    FindAt(p, 48, AT_KDF_INPUT, v, AT_KDF_INPUT);
    FindAt(p, 48, AT_KDF_INPUT, v, AT_MAC);
  }

  lemma KdfSkipped(p: Bytes, rand: Key128, autn: Key128, v: Bytes)
    requires RequestLaidOut(p, rand, autn, v) && Sized(v)
    ensures Find(p, 50 + |v|, AT_MAC) == Find(p, 54 + |v|, AT_MAC)
  {
    FindAt(p, 50 + |v|, AT_KDF, [0, 1], AT_MAC);
  }

  // A length-prefixed value read back from where it was written.
  lemma ValueAt(p: Bytes, at: nat, length: uint16, value: Bytes)
    requires var v := LengthThenValue(length, value); at + |v| <= |p| && p[at..at + |v|] == v
    ensures GetU16(p, at) == length && p[at + 2..at + 2 + |value|] == value
  {
    var v := LengthThenValue(length, value);
    assert v[0] == p[at] && v[1] == p[at + 1];
    U16At(p, at, length);
    assert v[2..2 + |value|] == value;
    Window(p, at, |v|, 2, 2 + |value|);
  }

  // The value of an attribute, without its two leading octets.
  lemma AttributeValue(p: Bytes, at: nat, kind: byte, value: Bytes)
    requires at + 2 + |value| <= |p| && p[at..at + 2 + |value|] == Attribute(kind, value)
    ensures p[at + 2..at + 2 + |value|] == value
  {
    Window(p, at, 2 + |value|, 2, 2 + |value|);
    assert Attribute(kind, value)[2..2 + |value|] == value;
  }

  lemma RequestValues(p: Bytes, rand: Key128, autn: Key128, name: Bytes)
    requires |name| <= MAX_VALUE && RequestLaidOut(p, rand, autn, LengthThenValue(|name|, name))
    ensures p[12..28] == rand && p[32..48] == autn
    ensures GetU16(p, 50) == |name| && p[52..52 + |name|] == name
  {
    var v := LengthThenValue(|name|, name);
    AttributeValue(p, 8, AT_RAND, [0, 0] + rand);
    Window(p, 10, 18, 2, 18);
    AttributeValue(p, 28, AT_AUTN, [0, 0] + autn);
    Window(p, 30, 18, 2, 18);
    assert ([0, 0] + rand)[2..18] == rand && ([0, 0] + autn)[2..18] == autn;
    AttributeValue(p, 48, AT_KDF_INPUT, v);
    ValueAt(p, 50, |name|, name);
  }

  lemma RequestFound(p: Bytes, rand: Key128, autn: Key128, v: Bytes)
    requires RequestLaidOut(p, rand, autn, v) && Sized(v) && |p| == 74 + |v|
    requires p[54 + |v|..] == Attribute(AT_MAC, [0, 0] + p[58 + |v|..])
    ensures Find(p, 8, AT_RAND) == Some(Span(10, 18)) && Find(p, 8, AT_AUTN) == Some(Span(30, 18))
    ensures Find(p, 8, AT_KDF_INPUT) == Some(Span(50, |v|)) && Find(p, 8, AT_MAC) == Some(Span(56 + |v|, 18))
  {
    RequestSpans(p, rand, autn, v);
    InputSpan(p, rand, autn, v);
    KdfSkipped(p, rand, autn, v);
    MacFound(p, 46 + |v|, p[58 + |v|..], 8);
  }

  lemma RequestAssembled(p: Bytes, rand: Key128, autn: Key128, name: Bytes, n: nat)
    requires IsChallenge(p, REQUEST) && |p| == 74 + n && 2 + |name| <= n && |name| <= MAX_VALUE
    requires Find(p, 8, AT_RAND) == Some(Span(10, 18)) && Find(p, 8, AT_AUTN) == Some(Span(30, 18))
    requires Find(p, 8, AT_KDF_INPUT) == Some(Span(50, n)) && Find(p, 8, AT_MAC) == Some(Span(56 + n, 18))
    requires p[12..28] == rand && p[32..48] == autn && GetU16(p, 50) == |name| && p[52..52 + |name|] == name
    ensures ParseRequest(p) == Some(RequestFields(rand, autn, name, p[|p| - 16..]))
  {
    assert p[58 + n..58 + n + 16] == p[|p| - 16..];
  }

  lemma RequestParsed(hmac: Hmac, p: Bytes, rand: Key128, autn: Key128, name: Bytes, kAut: Digest)
    requires |name| <= MAX_VALUE && IsSigned(hmac, p, REQUEST, RequestAttributes(rand, autn, name), kAut)
    ensures ParseRequest(p) == Some(RequestFields(rand, autn, name, p[|p| - 16..]))
    ensures VerifyMac(hmac, p, kAut)
  {
    assert |name| % 0x1_0000 == |name|;
    var v := LengthThenValue(|name|, name);
    RequestLayout(p, rand, autn, name);
    ValueSized(|name|, name);
    RequestFound(p, rand, autn, v);
    MacVerifies(hmac, p, REQUEST, RequestAttributes(rand, autn, name), kAut);
    RequestValues(p, rand, autn, name);
    RequestAssembled(p, rand, autn, name, |v|);
  }

  lemma LongNameLost(p: Bytes, rand: Key128, autn: Key128, name: Bytes)
    requires |name| > MAX_VALUE
    requires RequestLaidOut(p, rand, autn, LengthThenValue(|name| % 0x1_0000, name))
    ensures ParseRequest(p).Some? ==> ParseRequest(p).value.kdfInput != name
  {
    var v := LengthThenValue(|name| % 0x1_0000, name);
    RequestSpans(p, rand, autn, v);
    assert p[48] == p[48..50 + |v|][0] == AT_KDF_INPUT;
    var input := Find(p, 48, AT_KDF_INPUT);
    assert input.Some? ==> input.value.length <= MAX_VALUE + 2;
  }

  /** A challenge request is parsed back field by field exactly when its network name has at most 1016 octets. */
  lemma RequestRoundTrip(hmac: Hmac, identifier: byte, rand: Key128, autn: Key128, name: Bytes, kAut: Digest)
    ensures var p := Signed(hmac, REQUEST, identifier, RequestAttributes(rand, autn, name), kAut);
            && (ParseRequest(p) == Some(RequestFields(rand, autn, name, p[|p| - 16..])) <==> |name| <= MAX_VALUE)
            && (|name| <= MAX_VALUE ==> VerifyMac(hmac, p, kAut) && GetU16(p, 2) == |p|)
  {
    var a := RequestAttributes(rand, autn, name);
    var p := Signed(hmac, REQUEST, identifier, a, kAut);
    SignedIsSigned(hmac, REQUEST, identifier, a, kAut);
    RequestLayout(p, rand, autn, name);
    if |name| <= MAX_VALUE {
      RequestParsed(hmac, p, rand, autn, name, kAut);
    } else {
      LongNameLost(p, rand, autn, name);
    }
  }

  lemma ResponseFound(p: Bytes, v: Bytes)
    requires |p| == 30 + |v| && p[8..10 + |v|] == Attribute(AT_RES, v) && Sized(v)
    requires p[10 + |v|..] == Attribute(AT_MAC, [0, 0] + p[14 + |v|..])
    ensures Find(p, 8, AT_RES) == Some(Span(10, |v|)) && Find(p, 8, AT_MAC) == Some(Span(12 + |v|, 18))
  {
    FindAt(p, 8, AT_RES, v, AT_RES);
    FindAt(p, 8, AT_RES, v, AT_MAC);
    MacFound(p, 2 + |v|, p[14 + |v|..], 8);
  }

  lemma ResponseAssembled(p: Bytes, res: Bytes, n: nat)
    requires IsChallenge(p, RESPONSE) && |p| == 30 + n && 2 + |res| <= n && |res| <= MAX_VALUE
    requires Find(p, 8, AT_RES) == Some(Span(10, n)) && Find(p, 8, AT_MAC) == Some(Span(12 + n, 18))
    requires GetU16(p, 10) == 8 * |res| && p[12..12 + |res|] == res
    ensures ParseResponse(p) == Some(ResponseFields(res, p[|p| - 16..]))
  {
    assert p[14 + n..14 + n + 16] == p[|p| - 16..];
    assert (8 * |res| + 7) / 8 == |res|;
  }

  lemma ResponseParsed(hmac: Hmac, p: Bytes, res: Bytes, kAut: Digest)
    requires |res| <= MAX_VALUE && IsSigned(hmac, p, RESPONSE, ResponseAttributes(res), kAut)
    ensures ParseResponse(p) == Some(ResponseFields(res, p[|p| - 16..]))
    ensures VerifyMac(hmac, p, kAut)
  {
    assert 8 * |res| % 0x1_0000 == 8 * |res|;
    var v := LengthThenValue(8 * |res|, res);
    ValueSized(8 * |res|, res);
    ResponseFound(p, v);
    MacVerifies(hmac, p, RESPONSE, ResponseAttributes(res), kAut);
    AttributeValue(p, 8, AT_RES, v);
    ValueAt(p, 10, 8 * |res|, res);
    ResponseAssembled(p, res, |v|);
  }

  lemma LongResLost(p: Bytes, res: Bytes)
    requires |res| > MAX_VALUE
    requires var a := ResponseAttributes(res); 8 + |a| <= |p| && p[8..8 + |a|] == a
    ensures ParseResponse(p).Some? ==> ParseResponse(p).value.res != res
  {
    var a := ResponseAttributes(res);
    assert p[8] == p[8..8 + |a|][0] == AT_RES;
    var span := Find(p, 8, AT_RES);
    assert span.Some? ==> span.value.length <= MAX_VALUE + 2;
  }

  /** A challenge response is parsed back exactly when its RES has at most 1016 octets. */
  lemma ResponseRoundTrip(hmac: Hmac, identifier: byte, res: Bytes, kAut: Digest)
    ensures var p := Signed(hmac, RESPONSE, identifier, ResponseAttributes(res), kAut);
            && (ParseResponse(p) == Some(ResponseFields(res, p[|p| - 16..])) <==> |res| <= MAX_VALUE)
            && (|res| <= MAX_VALUE ==> VerifyMac(hmac, p, kAut) && GetU16(p, 2) == |p|)
  {
    var a := ResponseAttributes(res);
    var p := Signed(hmac, RESPONSE, identifier, a, kAut);
    SignedIsSigned(hmac, RESPONSE, identifier, a, kAut);
    if |res| <= MAX_VALUE {
      ResponseParsed(hmac, p, res, kAut);
    } else {
      LongResLost(p, res);
    }
  }
}
