/**
  The AUTS token of section 6.3.3 of TS 33.102: a concealed sequence number and a code over it. The block cipher
  is left open; the network accepts exactly the tokens the card would make.
 */
module Resynchronisation {
  import opened Wrappers

  type Octet = bv8

  type Block = b: seq<Octet> | |b| == 16 witness seq(16, _ => 0)
  type Sqn = b: seq<Octet> | |b| == 6 witness seq(6, _ => 0)
  type Mac = b: seq<Octet> | |b| == 8 witness seq(8, _ => 0)
  type Auts = b: seq<Octet> | |b| == 14 witness seq(14, _ => 0)

  type Cipher = (Block, Block) -> Block

  function Xor(a: seq<Octet>, b: seq<Octet>): (c: seq<Octet>)
    requires |a| == |b|
    ensures |c| == |a| && forall i | 0 <= i < |a| :: c[i] == a[i] ^ b[i]
  {
    seq(|a|, i requires 0 <= i < |a| => a[i] ^ b[i])
  }

  function RotateLeft(b: Block, n: nat): Block
    requires n <= 16
  {
    b[n..] + b[..n]
  }

  // Fifteen zero octets and a last one.
  function Constant(last: Octet): Block { seq(15, _ => 0 as Octet) + [last] }

  // SQN || AMF, twice, with the fixed AMF of resynchronisation.
  function In1(sqn: Sqn): Block { sqn + [0, 0] + sqn + [0, 0] }

  function F1Star(e: Cipher, opc: Block, k: Block, rand: Block, sqn: Sqn): Mac {
    var temp := e(k, Xor(rand, opc));
    var out := Xor(e(k, Xor(Xor(temp, RotateLeft(Xor(In1(sqn), opc), 8)), Constant(0))), opc);
    out[8..]
  }

  function F5Star(e: Cipher, opc: Block, k: Block, rand: Block): Sqn {
    var temp := e(k, Xor(rand, opc));
    var out := Xor(e(k, Xor(RotateLeft(Xor(temp, opc), 12), Constant(8))), opc);
    out[..6]
  }

  /** The token a card with these keys makes for its sequence number. */
  function HonestAuts(e: Cipher, opc: Block, k: Block, rand: Block, sqn: Sqn): Auts {
    Xor(sqn, F5Star(e, opc, k, rand)) + F1Star(e, opc, k, rand, sqn)
  }

  method Uncover(auts: Auts, ak: Sqn) returns (sqn: Sqn)
    ensures sqn == Xor(auts[..6], ak)
  {
    var bytes: seq<Octet> := [];
    for i := 0 to 6
      invariant |bytes| == i && forall j | 0 <= j < i :: bytes[j] == auts[j] ^ ak[j]
    {
      bytes := bytes + [auts[i] ^ ak[i]];
    }
    sqn := bytes;
  }

  /** Uncovers the sequence number and checks the code over it. */
  method VerifyAndDecodeAuts(e: Cipher, opc: Block, k: Block, rand: Block, auts: Auts) returns (sqn: Option<Sqn>)
    ensures sqn == DecodeAuts(e, opc, k, rand, auts)
  {
    var ak := F5Star(e, opc, k, rand);
    var bytes := Uncover(auts, ak);
    var expected := F1Star(e, opc, k, rand, bytes);
    if expected != auts[6..] {
      return None;
    }
    return Some(bytes);
  }

  function DecodeAuts(e: Cipher, opc: Block, k: Block, rand: Block, auts: Auts): Option<Sqn> {
    var sqn := Xor(auts[..6], F5Star(e, opc, k, rand));
    if F1Star(e, opc, k, rand, sqn) == auts[6..] then Some(sqn) else None
  }

  lemma XorTwice(a: seq<Octet>, b: seq<Octet>)
    requires |a| == |b|
    ensures Xor(Xor(a, b), b) == a
  {
    forall i | 0 <= i < |a| ensures Xor(Xor(a, b), b)[i] == a[i] {
    }
  }

  /** A token is accepted with a sequence number exactly when it is the honest token for that number. */
  lemma AcceptsHonestOnly(e: Cipher, opc: Block, k: Block, rand: Block, auts: Auts, sqn: Sqn)
    ensures DecodeAuts(e, opc, k, rand, auts) == Some(sqn) <==> auts == HonestAuts(e, opc, k, rand, sqn)
  {
    var ak := F5Star(e, opc, k, rand);
    var honest := HonestAuts(e, opc, k, rand, sqn);
    XorTwice(auts[..6], ak);
    XorTwice(sqn, ak);
    assert auts == auts[..6] + auts[6..];
    assert honest[..6] == Xor(sqn, ak) && honest[6..] == F1Star(e, opc, k, rand, sqn);
  }
}
