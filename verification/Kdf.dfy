/**
  The key derivation function of Annex B.2 of TS 33.220: HMAC over FC || P0 || L0 || P1 || L1 || ..., each
  length in two octets after its parameter. HMAC itself is a parameter of the model.
 */
module Kdf {
  import opened Bytes
  import opened Wrappers

  const MAX_PARAMETER := 0x1_0000

  function LengthOctets(p: Bytes): Bytes { U16(|p| % 0x1_0000) }

  function Input(fc: byte, params: seq<Bytes>): (s: Bytes)
    ensures |s| >= 1 + 2 * |params|
  {
    if params == [] then [fc]
    else
      var last := params[|params| - 1];
      Input(fc, params[..|params| - 1]) + last + LengthOctets(last)
  }

  method GenericKdf(hmac: (Bytes, Bytes) -> Bytes, key: Bytes, fc: byte, params: seq<Bytes>) returns (out: Bytes)
    ensures out == hmac(key, Input(fc, params))
  {
    var s: Bytes := [fc];
    for i := 0 to |params|
      invariant s == Input(fc, params[..i])
    {
      assert params[..i + 1][..i] == params[..i];
      s := s + params[i];
      s := s + LengthOctets(params[i]);
    }
    assert params[..|params|] == params;
    out := hmac(key, s);
  }

  predicate Short(params: seq<Bytes>) { forall i | 0 <= i < |params| :: |params[i]| < MAX_PARAMETER }

  lemma LastParameter(s1: Bytes, p1: Bytes, s2: Bytes, p2: Bytes)
    requires s1 + p1 + LengthOctets(p1) == s2 + p2 + LengthOctets(p2)
    requires |p1| < MAX_PARAMETER && |p2| < MAX_PARAMETER
    ensures p1 == p2 && s1 == s2
  {
    var l1, l2 := LengthOctets(p1), LengthOctets(p2);
    assert |l1| == |l2| == 2;
    SameParts(s1 + p1, l1, s2 + p2, l2);
    SameParts(s1, p1, s2, p2);
  }

  /** The string determines FC and every parameter, however many there are. */
  lemma {:induction false} Unambiguous(fc1: byte, params1: seq<Bytes>, fc2: byte, params2: seq<Bytes>)
    requires Short(params1) && Short(params2)
    requires Input(fc1, params1) == Input(fc2, params2)
    ensures fc1 == fc2 && params1 == params2
  {
    assert |Input(fc1, params1)| == 1 <==> params1 == [];
    assert |Input(fc2, params2)| == 1 <==> params2 == [];
    if params1 != [] {
      var front1, last1 := params1[..|params1| - 1], params1[|params1| - 1];
      var front2, last2 := params2[..|params2| - 1], params2[|params2| - 1];
      assert Short(front1) && Short(front2) && |last1| < MAX_PARAMETER && |last2| < MAX_PARAMETER;
      LastParameter(Input(fc1, front1), last1, Input(fc2, front2), last2);
      Unambiguous(fc1, front1, fc2, front2);
      assert params1 == front1 + [last1] && params2 == front2 + [last2];
    }
  }

  function Empties(n: nat): (params: seq<Bytes>)
    ensures |params| == n && forall i | 0 <= i < n :: params[i] == []
  {
    seq(n, _ => [])
  }

  lemma {:induction false} EmptyParameters(fc: byte, n: nat)
    ensures Input(fc, Empties(n)) == [fc] + Zeros(2 * n)
  {
    if n > 0 {
      EmptyParameters(fc, n - 1);
      assert Empties(n)[..n - 1] == Empties(n - 1);
      assert Input(fc, Empties(n)) == [fc] + Zeros(2 * (n - 1)) + [] + [0, 0];
    }
  }

  // One parameter of 65536 octets reads like 32769 empty ones.
  lemma LongParameterCollides(fc: byte)
    ensures Input(fc, [Zeros(MAX_PARAMETER)]) == Input(fc, Empties(MAX_PARAMETER / 2 + 1))
  {
    EmptyParameters(fc, MAX_PARAMETER / 2 + 1);
    var one := [Zeros(MAX_PARAMETER)];
    assert one[..0] == [];
    assert Input(fc, one) == [fc] + Zeros(MAX_PARAMETER) + [0, 0];
    assert Zeros(MAX_PARAMETER) + [0, 0] == Zeros(MAX_PARAMETER + 2);
  }

  predicate Under(n: nat, params: seq<Bytes>) { forall i | 0 <= i < |params| :: |params[i]| < n }

  ghost predicate InjectiveUnder(n: nat) {
    forall fc1: byte, params1, fc2: byte, params2 | Under(n, params1) && Under(n, params2) ::
      Input(fc1, params1) == Input(fc2, params2) ==> fc1 == fc2 && params1 == params2
  }

  /** The string determines FC and all parameters under a bound on their size exactly for bounds up to 65536 octets. */
  lemma InjectiveExactly(n: nat)
    ensures InjectiveUnder(n) <==> n <= MAX_PARAMETER
  {
    if n <= MAX_PARAMETER {
      forall fc1: byte, params1, fc2: byte, params2
        | Under(n, params1) && Under(n, params2) && Input(fc1, params1) == Input(fc2, params2)
        ensures fc1 == fc2 && params1 == params2
      {
        Unambiguous(fc1, params1, fc2, params2);
      }
    } else {
      LongParameterCollides(0);
      assert Under(n, [Zeros(MAX_PARAMETER)]) && Under(n, Empties(MAX_PARAMETER / 2 + 1));
      assert [Zeros(MAX_PARAMETER)] != Empties(MAX_PARAMETER / 2 + 1);
    }
  }

  // ---- The derivations of the 5G key hierarchy ----------------------------------------------------

  type Key128 = b: Bytes | |b| == 16 witness Zeros(16)
  type Key256 = b: Bytes | |b| == 32 witness Zeros(32)
  type Block48 = b: Bytes | |b| == 6 witness Zeros(6)
  type Block64 = b: Bytes | |b| == 8 witness Zeros(8)
  type Octets2 = b: Bytes | |b| == 2 witness Zeros(2)

  datatype Derivation =
    | Kausf(ck: Key128, ik: Key128, network: Bytes, sqnXorAk: Block48)
    | CkIkPrime(ck: Key128, ik: Key128, network: Bytes, sqnXorAk: Block48)
    | ResStar(ck: Key128, ik: Key128, network: Bytes, rand: Key128, res: Block64)
    | Kseaf(kausf: Key256, network: Bytes)
    | Kamf(kseaf: Key256, supi: Bytes, abba: Octets2)
    | Kakma(kausf: Key256, supi: Bytes)
    | ATid(kausf: Key256, supi: Bytes)
    | Kaf(kakma: Key256, afId: Bytes)
    | KnasEnc(kamf: Key256, algorithm: byte)
    | KnasInt(kamf: Key256, algorithm: byte)
    | SorMacIausf(kausf: Key256, sorHeader: Bytes, counterSor: uint16, steering: Option<Bytes>)
    | SorMacIue(kausf: Key256, counterSor: uint16)
    | UpuMacIausf(kausf: Key256, upuData: Bytes, counterUpu: uint16)
    | UpuMacIue(kausf: Key256, counterUpu: uint16)
    | Kgnb(kamf: Key256, uplinkCount: uint32, accessType: byte)
    | NextHop(kamf: Key256, syncInput: Key256)
    | CpPruk(kausfP: Key256, supi: Bytes, relayServiceCode: int)
    | CpPrukIdStar(kausfP: Key256, supi: Bytes, relayServiceCode: int)
    | KnrProse(cpPruk: Key256, nonce1: Bytes, nonce2: Bytes)
  {
    function Key(): Bytes {
      match this
      case Kausf(ck, ik, _, _) => ck + ik
      case CkIkPrime(ck, ik, _, _) => ck + ik
      case ResStar(ck, ik, _, _, _) => ck + ik
      case Kseaf(k, _) => k
      case Kamf(k, _, _) => k
      case Kakma(k, _) => k
      case ATid(k, _) => k
      case Kaf(k, _) => k
      case KnasEnc(k, _) => k
      case KnasInt(k, _) => k
      case SorMacIausf(k, _, _, _) => k
      case SorMacIue(k, _) => k
      case UpuMacIausf(k, _, _) => k
      case UpuMacIue(k, _) => k
      case Kgnb(k, _, _) => k
      case NextHop(k, _) => k
      case CpPruk(k, _, _) => k
      case CpPrukIdStar(k, _, _) => k
      case KnrProse(k, _, _) => k
    }

    function Fc(): byte {
      match this
      case Kausf(_, _, _, _) => 0x6A
      case CkIkPrime(_, _, _, _) => 0x20
      case ResStar(_, _, _, _, _) => 0x6B
      case Kseaf(_, _) => 0x6C
      case Kamf(_, _, _) => 0x6D
      case Kakma(_, _) => 0x80
      case ATid(_, _) => 0x81
      case Kaf(_, _) => 0x82
      case KnasEnc(_, _) => 0x69
      case KnasInt(_, _) => 0x69
      case SorMacIausf(_, _, _, _) => 0x77
      case SorMacIue(_, _) => 0x78
      case UpuMacIausf(_, _, _) => 0x7B
      case UpuMacIue(_, _) => 0x7C
      case Kgnb(_, _, _) => 0x6E
      case NextHop(_, _) => 0x6F
      case CpPruk(_, _, _) => 0x85
      case CpPrukIdStar(_, _, _) => 0x86
      case KnrProse(_, _, _) => 0x87
    }

    function Parameters(): seq<Bytes> {
      match this
      case Kausf(_, _, network, sqnXorAk) => [network, sqnXorAk]
      case CkIkPrime(_, _, network, sqnXorAk) => [network, sqnXorAk]
      case ResStar(_, _, network, rand, res) => [network, rand, res]
      case Kseaf(_, network) => [network]
      case Kamf(_, supi, abba) => [supi, abba]
      case Kakma(_, supi) => [AKMA, supi]
      case ATid(_, supi) => [A_TID, supi]
      case Kaf(_, afId) => [afId]
      case KnasEnc(_, algorithm) => [[NAS_ENC_DISTINGUISHER], [algorithm]]
      case KnasInt(_, algorithm) => [[NAS_INT_DISTINGUISHER], [algorithm]]
      case SorMacIausf(_, header, counter, steering) =>
        [header, U16(counter)] + if steering.Some? then [steering.value] else []
      case SorMacIue(_, counter) => [[0x01], U16(counter)]
      case UpuMacIausf(_, data, counter) => [data, U16(counter)]
      case UpuMacIue(_, counter) => [[0x01], U16(counter)]
      case Kgnb(_, count, accessType) => [U32(count), [accessType]]
      case NextHop(_, syncInput) => [syncInput]
      case CpPruk(_, supi, code) => [supi, RelayServiceCodeOctets(code)]
      case CpPrukIdStar(_, supi, code) => [PRUK_ID, RelayServiceCodeOctets(code), supi]
      case KnrProse(_, nonce1, nonce2) => [nonce2, nonce1]
    }

    /** Every parameter fits its length field. */
    predicate Valid() { Short(Parameters()) }

    // With a relay service code of which only three octets are left.
    function Reduced(): Derivation {
      if CpPruk? || CpPrukIdStar? then this.(relayServiceCode := relayServiceCode % 0x100_0000) else this
    }
  }

  const AKMA: Bytes := [0x41, 0x4B, 0x4D, 0x41]
  const A_TID: Bytes := [0x41, 0x2D, 0x54, 0x49, 0x44]
  const PRUK_ID: Bytes := [0x50, 0x52, 0x55, 0x4B, 0x2D, 0x49, 0x44]
  const NAS_ENC_DISTINGUISHER: byte := 0x01
  const NAS_INT_DISTINGUISHER: byte := 0x02

  // The three low octets of a signed 64-bit code, negative ones in two's complement.
  function RelayServiceCodeOctets(code: int): Bytes { U24(code % 0x100_0000) }

  lemma SameCode(m: uint24, n: uint24)
    requires U24(m) == U24(n)
    ensures m == n
  {
    U24At(U24(m), 0, m);
    U24At(U24(m), 0, n);
  }

  lemma SameCount(m: uint32, n: uint32)
    requires U32(m) == U32(n)
    ensures m == n
  {
    U32At(U32(m), 0, m);
    U32At(U32(m), 0, n);
  }

  lemma SameKeyHalves(a: Derivation, b: Derivation)
    requires a.Key() == b.Key() && (a.Kausf? || a.CkIkPrime? || a.ResStar?) && (b.Kausf? || b.CkIkPrime? || b.ResStar?)
    ensures a.ck == b.ck && a.ik == b.ik
  {
    assert a.Key()[..16] == a.ck && a.Key()[16..] == a.ik;
    assert b.Key()[..16] == b.ck && b.Key()[16..] == b.ik;
  }

  // The derivations keyed by CK || IK.
  lemma SameFromCkIk(a: Derivation, b: Derivation)
    requires a.Kausf? || a.CkIkPrime? || a.ResStar?
    requires a.Fc() == b.Fc() && a.Key() == b.Key() && a.Parameters() == b.Parameters()
    ensures a == b
  {
    SameKeyHalves(a, b);
    assert a.Parameters()[1] == b.Parameters()[1] && a.Parameters()[0] == b.Parameters()[0];
    if a.ResStar? {
      assert a.Parameters()[2] == b.Parameters()[2];
    }
  }

  lemma SameWithCounter(a: Derivation, b: Derivation)
    requires a.SorMacIausf? || a.SorMacIue? || a.UpuMacIausf? || a.UpuMacIue? || a.Kgnb?
    requires a.Fc() == b.Fc() && a.Key() == b.Key() && a.Parameters() == b.Parameters()
    ensures a == b
  {
    var p, q := a.Parameters(), b.Parameters();
    assert |p| == |q| && p[0] == q[0] && p[1] == q[1];
    match a
    case SorMacIausf(_, _, counter, _) =>
      assert |p| > 2 ==> p[2] == q[2];
    case SorMacIue(_, counter) =>
    case UpuMacIausf(_, _, counter) =>
    case UpuMacIue(_, counter) =>
    case Kgnb(_, count, _) => SameCount(count, b.uplinkCount);
  }

  lemma SameWithCode(a: Derivation, b: Derivation)
    requires a.CpPruk? || a.CpPrukIdStar?
    requires a == a.Reduced() && b == b.Reduced()
    requires a.Fc() == b.Fc() && a.Key() == b.Key() && a.Parameters() == b.Parameters()
    ensures a == b
  {
    var m, n := a.relayServiceCode, b.relayServiceCode;
    assert RelayServiceCodeOctets(m) == RelayServiceCodeOctets(n) by {
      assert a.Parameters()[1] == b.Parameters()[1];
    }
    SameRelayCode(m, n);
    assert a.Parameters()[0] == b.Parameters()[0];
    assert a.CpPrukIdStar? ==> a.Parameters()[2] == b.Parameters()[2];
  }

  lemma SameRelayCode(m: int, n: int)
    requires 0 <= m < 0x100_0000 && 0 <= n < 0x100_0000
    requires RelayServiceCodeOctets(m) == RelayServiceCodeOctets(n)
    ensures m == n
  {
    assert m % 0x100_0000 == m && n % 0x100_0000 == n;
    SameCode(m, n);
  }

  lemma SameReduced(a: Derivation, b: Derivation)
    requires a.Valid() && b.Valid() && a == a.Reduced() && b == b.Reduced()
    requires a.Key() == b.Key() && Input(a.Fc(), a.Parameters()) == Input(b.Fc(), b.Parameters())
    ensures a == b
  {
    Unambiguous(a.Fc(), a.Parameters(), b.Fc(), b.Parameters());
    if a.Kausf? || a.CkIkPrime? || a.ResStar? {
      SameFromCkIk(a, b);
    } else if a.Kseaf? || a.Kamf? || a.Kakma? || a.ATid? || a.Kaf? || a.KnasEnc? || a.KnasInt? || a.NextHop? || a.KnrProse? {
    } else if a.CpPruk? || a.CpPrukIdStar? {
      SameWithCode(a, b);
    } else {
      SameWithCounter(a, b);
    }
  }

  lemma ReducedFeedsAlike(a: Derivation)
    ensures var r := a.Reduced();
            r.Key() == a.Key() && r.Fc() == a.Fc() && r.Parameters() == a.Parameters() && r == r.Reduced()
  {
    if a.CpPruk? || a.CpPrukIdStar? {
      var code := a.relayServiceCode;
      assert (code % 0x100_0000) % 0x100_0000 == code % 0x100_0000;
    }
  }

  /**
    Two derivations hand HMAC the same key and string exactly when they are the same derivation, up to relay service
    codes that agree modulo 2^24.
   */
  lemma DerivationsCollideExactly(a: Derivation, b: Derivation)
    requires a.Valid() && b.Valid()
    ensures a.Key() == b.Key() && Input(a.Fc(), a.Parameters()) == Input(b.Fc(), b.Parameters()) <==>
            a.Reduced() == b.Reduced()
  {
    ReducedFeedsAlike(a);
    ReducedFeedsAlike(b);
    if a.Key() == b.Key() && Input(a.Fc(), a.Parameters()) == Input(b.Fc(), b.Parameters()) {
      SameReduced(a.Reduced(), b.Reduced());
    }
  }
}
