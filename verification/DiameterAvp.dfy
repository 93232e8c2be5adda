/** The Diameter AVP codec (section 4.1 of RFC 6733): code, flags, 24-bit length, optional vendor, data, padding. */
module DiameterAvp {
  import opened Bytes
  import opened Wrappers

  datatype Avp = Avp(code: uint32, flags: byte, vendorId: uint32, data: Bytes) {
    // The V bit.
    predicate HasVendor() { flags >= 0x80 }

    function HeaderLength(): nat { if HasVendor() then 12 else 8 }

    function Length(): nat { HeaderLength() + |data| }

    /** What the wire can carry: a length of 24 bits, and no vendor id without the V bit. */
    predicate Fits() { Length() < 0x100_0000 && (!HasVendor() ==> vendorId == 0) }
  }

  function PaddedLength(n: nat): (p: nat)
    ensures n <= p < n + 4 && p % 4 == 0
  {
    if n % 4 == 0 then n else n + (4 - n % 4)
  }

  lemma PaddedHeader(header: nat, n: nat)
    requires header == 8 || header == 12
    ensures PaddedLength(header + n) == header + PaddedLength(n)
  {
  }

  function HeaderOctets(a: Avp): (b: Bytes)
    ensures |b| == a.HeaderLength()
  {
    U32(a.code) + [a.flags] + U24(a.Length() % 0x100_0000) + if a.HasVendor() then U32(a.vendorId) else []
  }

  // Header and data, without padding.
  function Body(a: Avp): (b: Bytes)
    ensures |b| == a.Length()
  {
    HeaderOctets(a) + a.data
  }

  function Encode(a: Avp): (b: Bytes)
    ensures |b| == PaddedLength(a.Length())
  {
    PaddedHeader(a.HeaderLength(), |a.data|);
    Body(a) + Zeros(PaddedLength(|a.data|) - |a.data|)
  }

  function EncodeAll(avps: seq<Avp>): Bytes {
    if avps == [] then [] else Encode(avps[0]) + EncodeAll(avps[1..])
  }

  // What is left of `b` after an AVP of padded length p; the last AVP may lack its padding.
  function Tail(b: Bytes, p: nat): Bytes { if p >= |b| then [] else b[p..] }

  /** The AVP at the start of `b`, or None when its header or its length does not fit `b`. */
  function Head(b: Bytes): (r: Option<Avp>)
    ensures r.Some? ==> 8 <= r.value.Length() <= |b| && r.value.Fits()
  {
    if |b| < 8 then None
    else
      var flags, length := b[4], GetU24(b, 5);
      var header := if flags >= 0x80 then 12 else 8;
      if length < header || length > |b| then None
      else Some(Avp(GetU32(b, 0), flags, if flags >= 0x80 then GetU32(b, 8) else 0, b[header..length]))
  }

  function Decode(b: Bytes): Option<seq<Avp>>
    decreases |b|
  {
    if b == [] then Some([])
    else
      var a := Head(b);
      if a.None? then None
      else
        var rest := Decode(Tail(b, PaddedLength(a.value.Length())));
        if rest.None? then None else Some([a.value] + rest.value)
  }

  /** Appends one AVP, then its padding one octet at a time. */
  method EncodeAvp(out: Bytes, avp: Avp) returns (out': Bytes)
    ensures out' == out + Encode(avp)
  {
    var avpLength := (if avp.HasVendor() then 12 else 8) + |avp.data|;
    out' := out + U32(avp.code) + [avp.flags] + U24(avpLength % 0x100_0000);
    if avp.HasVendor() {
      out' := out' + U32(avp.vendorId);
    }
    out' := out' + avp.data;
    assert out' == out + Body(avp);
    var pad := PaddedLength(|avp.data|) - |avp.data|;
    for i := 0 to pad
      invariant out' == out + Body(avp) + Zeros(i)
    {
      out' := out' + [0];
    }
  }

  function Prepend(front: seq<Avp>, rest: Option<seq<Avp>>): Option<seq<Avp>> {
    if rest.None? then None else Some(front + rest.value)
  }

  lemma PrependTwice(front: seq<Avp>, a: Avp, rest: Option<seq<Avp>>)
    ensures Prepend(front, Prepend([a], rest)) == Prepend(front + [a], rest)
    ensures Prepend([], rest) == rest
    ensures Prepend(front, Some([])) == Some(front)
  {
    if rest.Some? {
      assert front + ([a] + rest.value) == front + [a] + rest.value;
      assert [] + rest.value == rest.value;
    }
    assert front + [] == front;
  }

  // One turn of the scan: the next AVP moves from the unread octets to the result.
  lemma ScanStep(b: Bytes, offset: nat, avps: seq<Avp>)
    requires offset < |b| && Decode(b) == Prepend(avps, Decode(Tail(b, offset)))
    ensures var a := Head(b[offset..]);
            Decode(b) == if a.None? then None
                         else Prepend(avps + [a.value], Decode(Tail(b, offset + PaddedLength(a.value.Length()))))
  {
    var a := Head(b[offset..]);
    if a.Some? {
      var p := PaddedLength(a.value.Length());
      assert Tail(b[offset..], p) == Tail(b, offset + p);
      PrependTwice(avps, a.value, Decode(Tail(b, offset + p)));
    }
  }

  /** Reads the AVP that starts at `offset`. */
  method ReadAvp(bytes: Bytes, offset: nat) returns (avp: Option<Avp>)
    requires offset < |bytes|
    ensures avp == Head(bytes[offset..])
  {
    if offset + 8 > |bytes| {
      return None;
    }
    var code, flags, avpLength := GetU32(bytes, offset), bytes[offset + 4], GetU24(bytes, offset + 5);
    var headerLength := if flags >= 0x80 then 12 else 8;
    if avpLength < headerLength || offset + avpLength > |bytes| {
      return None;
    }
    var pos := offset + 8;
    var vendorId: uint32 := 0;
    if flags >= 0x80 {
      vendorId := GetU32(bytes, pos);
      pos := pos + 4;
    }
    SliceOfSlice(bytes, offset, headerLength, avpLength);
    return Some(Avp(code, flags, vendorId, bytes[pos..pos + (avpLength - headerLength)]));
  }

  /** Scans `bytes` from the front; stops at the first AVP that does not fit. */
  method DecodeAvps(bytes: Bytes) returns (result: Option<seq<Avp>>)
    ensures result == Decode(bytes)
  {
    var avps: seq<Avp> := [];
    var offset := 0;
    assert Tail(bytes, 0) == bytes;
    PrependTwice([], Avp(0, 0, 0, []), Decode(bytes));
    while offset < |bytes|
      invariant 0 <= offset
      invariant Decode(bytes) == Prepend(avps, Decode(Tail(bytes, offset)))
      decreases |bytes| - offset
    {
      ScanStep(bytes, offset, avps);
      var avp := ReadAvp(bytes, offset);
      if avp.None? {
        return None;
      }
      offset := offset + PaddedLength(avp.value.Length());
      avps := avps + [avp.value];
    }
    PrependTwice(avps, Avp(0, 0, 0, []), None);
    return Some(avps);
  }

  lemma HeaderOctetsAt(a: Avp)
    ensures var b, code, n := HeaderOctets(a), U32(a.code), U24(a.Length() % 0x100_0000);
            && b[0] == code[0] && b[1] == code[1] && b[2] == code[2] && b[3] == code[3] && b[4] == a.flags
            && b[5] == n[0] && b[6] == n[1] && b[7] == n[2]
    ensures var b, id := HeaderOctets(a), U32(a.vendorId);
            a.HasVendor() ==> b[8] == id[0] && b[9] == id[1] && b[10] == id[2] && b[11] == id[3]
  {
  }

  // The header of an AVP, read field by field.
  predicate HasHeader(b: Bytes, a: Avp)
    requires |b| >= a.HeaderLength()
  {
    && GetU32(b, 0) == a.code && b[4] == a.flags && GetU24(b, 5) == a.Length()
    && (a.HasVendor() ==> GetU32(b, 8) == a.vendorId)
  }

  lemma HeaderExact(b: Bytes, a: Avp)
    requires |b| >= a.HeaderLength() && a.Fits()
    ensures HasHeader(b, a) <==> b[..a.HeaderLength()] == HeaderOctets(a)
  {
    var h := a.HeaderLength();
    HeaderOctetsAt(a);
    U32At(b, 0, a.code);
    U24At(b, 5, a.Length());
    if a.HasVendor() {
      U32At(b, 8, a.vendorId);
    }
    assert forall i | 0 <= i < h :: b[i] == b[..h][i];
  }

  lemma HeadExact(b: Bytes, a: Avp)
    ensures Head(b) == Some(a) <==> a.Fits() && |b| >= a.Length() && b[..a.Length()] == Body(a)
  {
    if a.Fits() && |b| >= a.Length() {
      var h, n := a.HeaderLength(), a.Length();
      HeaderExact(b, a);
      assert b[..n] == b[..h] + b[h..n];
      SameParts(b[..h], b[h..n], HeaderOctets(a), a.data);
    }
  }

  // ---- Bytes that differ from an encoding in padding only ----------------------------------------

  // Whether position i of EncodeAll(avps) is a padding octet.
  predicate PadAt(avps: seq<Avp>, i: nat) {
    avps != [] &&
    var n, p := avps[0].Length(), PaddedLength(avps[0].Length());
    if i < p then i >= n else PadAt(avps[1..], i - p)
  }

  // The padding of the last AVP.
  function FinalPad(avps: seq<Avp>): (n: nat)
    ensures n < 4
  {
    if avps == [] then 0
    else
      var last := avps[|avps| - 1];
      PaddedLength(last.Length()) - last.Length()
  }

  /** `b` is EncodeAll(avps) up to what the padding octets hold and to missing padding after the last AVP. */
  ghost predicate EncodedUpToPadding(b: Bytes, avps: seq<Avp>) {
    var e := EncodeAll(avps);
    && |e| - FinalPad(avps) <= |b| <= |e|
    && forall i | 0 <= i < |b| && !PadAt(avps, i) :: b[i] == e[i]
  }

  lemma EncodeAllLength(avps: seq<Avp>)
    ensures avps != [] ==> |EncodeAll(avps)| - FinalPad(avps) >= 8
  {
  }

  lemma EncodeAllCons(a: Avp, rest: seq<Avp>)
    ensures var e := EncodeAll([a] + rest);
            && |e| == PaddedLength(a.Length()) + |EncodeAll(rest)|
            && e[..a.Length()] == Body(a) && e[PaddedLength(a.Length())..] == EncodeAll(rest)
    ensures FinalPad([a] + rest) == if rest == [] then PaddedLength(a.Length()) - a.Length() else FinalPad(rest)
    ensures forall i: nat :: PadAt([a] + rest, i) <==>
              if i < PaddedLength(a.Length()) then i >= a.Length() else PadAt(rest, i - PaddedLength(a.Length()))
  {
    assert ([a] + rest)[1..] == rest;
    assert EncodeAll([a] + rest) == Encode(a) + EncodeAll(rest);
  }

  lemma UpToPaddingSplit(b: Bytes, a: Avp, rest: seq<Avp>)
    requires EncodedUpToPadding(b, [a] + rest)
    ensures |b| >= a.Length() && b[..a.Length()] == Body(a)
    ensures EncodedUpToPadding(Tail(b, PaddedLength(a.Length())), rest)
  {
    var avps, n, p := [a] + rest, a.Length(), PaddedLength(a.Length());
    var e, e', b' := EncodeAll(avps), EncodeAll(rest), Tail(b, p);
    EncodeAllCons(a, rest);
    EncodeAllLength(rest);
    assert b[..n] == e[..n];
    forall j | 0 <= j < |b'| && !PadAt(rest, j) ensures b'[j] == e'[j] {
      assert !PadAt(avps, j + p) && b'[j] == b[j + p] && e'[j] == e[j + p];
    }
  }

  lemma UpToPaddingJoin(b: Bytes, a: Avp, rest: seq<Avp>)
    requires |b| >= a.Length() && b[..a.Length()] == Body(a)
    requires EncodedUpToPadding(Tail(b, PaddedLength(a.Length())), rest)
    ensures EncodedUpToPadding(b, [a] + rest)
  {
    var avps, n, p := [a] + rest, a.Length(), PaddedLength(a.Length());
    var e, e', b' := EncodeAll(avps), EncodeAll(rest), Tail(b, p);
    EncodeAllCons(a, rest);
    EncodeAllLength(rest);
    forall i | 0 <= i < |b| && !PadAt(avps, i) ensures b[i] == e[i] {
      if i < n {
        assert b[i] == b[..n][i] && e[i] == e[..n][i];
      } else {
        assert b[i] == b'[i - p] && e[i] == e'[i - p];
      }
    }
  }

  /**
    The decoder accepts exactly the encodings of AVPs that fit the wire, up to padding, and returns those AVPs.
   */
  lemma {:induction false} DecodeExact(b: Bytes, avps: seq<Avp>)
    ensures Decode(b) == Some(avps) <==>
            (forall i | 0 <= i < |avps| :: avps[i].Fits()) && EncodedUpToPadding(b, avps)
    decreases |avps|
  {
    if avps != [] {
      var a, rest := avps[0], avps[1..];
      assert avps == [a] + rest;
      HeadExact(b, a);
      DecodeExact(Tail(b, PaddedLength(a.Length())), rest);
      assert (forall i | 0 <= i < |avps| :: avps[i].Fits()) <==>
             a.Fits() && forall i | 0 <= i < |rest| :: rest[i].Fits();
      if Decode(b) == Some(avps) {
        assert Head(b) == Some(a) && Decode(Tail(b, PaddedLength(a.Length()))) == Some(rest);
        UpToPaddingJoin(b, a, rest);
      }
      if EncodedUpToPadding(b, avps) {
        UpToPaddingSplit(b, a, rest);
      }
    }
  }

  /** Decoding an encoded list gives the list back exactly when every AVP fits the wire. */
  lemma RoundTrip(avps: seq<Avp>)
    ensures Decode(EncodeAll(avps)) == Some(avps) <==> forall i | 0 <= i < |avps| :: avps[i].Fits()
  {
    DecodeExact(EncodeAll(avps), avps);
  }

  /** Re-encoding what was decoded restores the octets, up to padding. */
  lemma ReEncode(b: Bytes)
    requires Decode(b).Some?
    ensures EncodedUpToPadding(b, Decode(b).value)
    ensures |EncodeAll(Decode(b).value)| == PaddedLength(|b|)
  {
    DecodeExact(b, Decode(b).value);
    EncodeAllWords(Decode(b).value);
    PaddedLengthUnique(|b|, |EncodeAll(Decode(b).value)|);
  }

  lemma PaddedLengthUnique(n: nat, p: nat)
    requires n <= p < n + 4 && p % 4 == 0
    ensures PaddedLength(n) == p
  {
  }

  lemma {:induction false} EncodeAllWords(avps: seq<Avp>)
    ensures |EncodeAll(avps)| % 4 == 0
  {
    if avps != [] {
      EncodeAllWords(avps[1..]);
      WordsAdd(|Encode(avps[0])|, |EncodeAll(avps[1..])|);
    }
  }

  lemma WordsAdd(m: nat, n: nat)
    requires m % 4 == 0 && n % 4 == 0
    ensures (m + n) % 4 == 0
  {
  }
}
