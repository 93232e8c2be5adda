/** The 20-octet Diameter header (section 3 of RFC 6733), and a whole message: header, then AVPs. */
module DiameterHeader {
  import opened Bytes
  import opened Wrappers
  import Avps = DiameterAvp

  const VERSION: byte := 1
  const HEADER_LENGTH := 20

  // The command code is a 32-bit field of which the wire carries 24 bits.
  datatype Header = Header(flags: byte, commandCode: uint32, applicationId: uint32,
                           hopByHopId: uint32, endToEndId: uint32)

  function Layout(h: Header, avpsLength: uint32): (b: Bytes)
    ensures |b| == HEADER_LENGTH
  {
    [VERSION] + U24((HEADER_LENGTH + avpsLength) % 0x1_0000_0000 % 0x100_0000) + [h.flags] + U24(h.commandCode % 0x100_0000) +
    U32(h.applicationId) + U32(h.hopByHopId) + U32(h.endToEndId)
  }

  // What the two 24-bit fields can carry.
  predicate Fits(h: Header, avpsLength: uint32) {
    h.commandCode < 0x100_0000 && HEADER_LENGTH + avpsLength < 0x100_0000
  }

  datatype Decoded = Decoded(header: Header, offset: nat, avpsLength: uint32)

  /** The header at `offset`: None on too few octets, another version, or a length below the header's own. */
  function Read(b: Bytes, offset: nat): Option<Decoded> {
    if |b| < offset + HEADER_LENGTH || b[offset] != VERSION || GetU24(b, offset + 1) < HEADER_LENGTH then None
    else Some(Decoded(Fields(b, offset), offset + HEADER_LENGTH, GetU24(b, offset + 1) - HEADER_LENGTH))
  }

  function Fields(b: Bytes, offset: nat): Header
    requires offset + HEADER_LENGTH <= |b|
  {
    Header(b[offset + 4], GetU24(b, offset + 5), GetU32(b, offset + 8), GetU32(b, offset + 12),
           GetU32(b, offset + 16))
  }

  method EncodeHeader(header: Header, avpsLength: uint32) returns (out: Bytes)
    ensures out == Layout(header, avpsLength)
  {
    out := [VERSION];
    out := out + U24((HEADER_LENGTH + avpsLength) % 0x1_0000_0000 % 0x100_0000);
    out := out + [header.flags];
    out := out + U24(header.commandCode % 0x100_0000);
    out := out + U32(header.applicationId);
    out := out + U32(header.hopByHopId);
    out := out + U32(header.endToEndId);
  }

  method DecodeHeader(bytes: Bytes, offset: nat) returns (result: Option<Decoded>)
    ensures result == Read(bytes, offset)
  {
    if |bytes| < offset + HEADER_LENGTH {
      return None;
    }
    if bytes[offset] != VERSION {
      return None;
    }
    var messageLength := GetU24(bytes, offset + 1);
    if messageLength < HEADER_LENGTH {
      return None;
    }
    var header := Header(bytes[offset + 4], GetU24(bytes, offset + 5), GetU32(bytes, offset + 8),
                         GetU32(bytes, offset + 12), GetU32(bytes, offset + 16));
    return Some(Decoded(header, offset + HEADER_LENGTH, messageLength - HEADER_LENGTH));
  }

  lemma LayoutAt(h: Header, n: uint32)
    requires Fits(h, n)
    ensures var b, length, code := Layout(h, n), U24(HEADER_LENGTH + n), U24(h.commandCode);
            && b[0] == VERSION && b[1] == length[0] && b[2] == length[1] && b[3] == length[2]
            && b[4] == h.flags && b[5] == code[0] && b[6] == code[1] && b[7] == code[2]
    ensures var b, app := Layout(h, n), U32(h.applicationId);
            b[8] == app[0] && b[9] == app[1] && b[10] == app[2] && b[11] == app[3]
    ensures var b, hop := Layout(h, n), U32(h.hopByHopId);
            b[12] == hop[0] && b[13] == hop[1] && b[14] == hop[2] && b[15] == hop[3]
    ensures var b, end := Layout(h, n), U32(h.endToEndId);
            b[16] == end[0] && b[17] == end[1] && b[18] == end[2] && b[19] == end[3]
  {
  }

  lemma LayoutFields(b: Bytes, i: nat, h: Header, n: uint32)
    requires Fits(h, n) && i + HEADER_LENGTH <= |b|
    ensures b[i..i + HEADER_LENGTH] == Layout(h, n) <==>
            b[i] == VERSION && GetU24(b, i + 1) == HEADER_LENGTH + n && Fields(b, i) == h
  {
    LayoutAt(h, n);
    U24At(b, i + 1, HEADER_LENGTH + n);
    U24At(b, i + 5, h.commandCode);
    U32At(b, i + 8, h.applicationId);
    U32At(b, i + 12, h.hopByHopId);
    U32At(b, i + 16, h.endToEndId);
    var c, d := b[i..i + HEADER_LENGTH], Layout(h, n);
    assert forall k | 0 <= k < HEADER_LENGTH :: c[k] == b[i + k];
    if c == d {
      assert forall k | 0 <= k < HEADER_LENGTH :: b[i + k] == d[k];
    }
  }

  /**
    The decoder accepts exactly what the encoder writes for some header that fits, and gives back that header
    and the length of the AVP region behind it.
   */
  lemma HeaderExact(b: Bytes, offset: nat, h: Header, n: uint32)
    ensures Read(b, offset) == Some(Decoded(h, offset + HEADER_LENGTH, n)) <==>
            Fits(h, n) && offset + HEADER_LENGTH <= |b| && b[offset..offset + HEADER_LENGTH] == Layout(h, n)
  {
    if Fits(h, n) && offset + HEADER_LENGTH <= |b| {
      LayoutFields(b, offset, h, n);
    }
  }

  /**
    A message whose header announces the length its AVPs really have is read back whole, wherever it starts
    and whatever follows, exactly when header and AVPs fit the wire.
   */
  lemma MessageRoundTrip(before: Bytes, h: Header, avps: seq<Avps.Avp>, after: Bytes)
    requires |Avps.EncodeAll(avps)| < 0x1_0000_0000
    ensures var region := Avps.EncodeAll(avps);
            var wire := before + Layout(h, |region|) + region + after;
            var start := |before| + HEADER_LENGTH;
            && wire[start..start + |region|] == region
            && ((Read(wire, |before|) == Some(Decoded(h, start, |region|))
                 && Avps.Decode(wire[start..start + |region|]) == Some(avps))
                <==> Fits(h, |region|) && forall i | 0 <= i < |avps| :: avps[i].Fits())
  {
    var region := Avps.EncodeAll(avps);
    var wire := before + Layout(h, |region|) + region + after;
    var start := |before| + HEADER_LENGTH;
    assert wire[|before|..start] == Layout(h, |region|);
    assert wire[start..start + |region|] == region;
    HeaderExact(wire, |before|, h, |region|);
    Avps.RoundTrip(avps);
  }
}
