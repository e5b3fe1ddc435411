/**
 crypto/crypto.go and address/keypair.go. The hash functions and the curve are parameters; what is
 modelled is how numbers are laid out in bytes and hexadecimal on their way to and from the curve.
 */
module Crypto {
  import opened FixedWidth
  import opened Radix
  import opened Text

  type Hash256 = b: seq<byte> | |b| == 32 witness Zeros(32)
  type Hash160 = b: seq<byte> | |b| == 20 witness Zeros(20)

  datatype Primitives = Primitives(
    sha256: seq<byte> -> Hash256,
    ripemd160: seq<byte> -> Hash160,
    publicPoint: nat -> (nat, nat),                      // the point of a private number
    ecdsaSign: (nat, seq<byte>, int) -> (nat, nat),      // private number, hash, randomness
    ecdsaVerify: (int, int, seq<byte>, int, int) -> bool // x, y, hash, r, s
  )

  // The order of the P-256 group: private numbers lie strictly between 0 and this.
  const ORDER: nat := 0xffffffff00000000ffffffffffffffffbce6faada7179e84f3b9cac2fc632551

  // What is assumed of the curve: numbers fit in 32 bytes, and a signature verifies.
  ghost predicate CurveLaws(p: Primitives) {
    forall d: nat, hash: seq<byte>, random: int :: 0 < d < ORDER ==>
      var (x, y) := p.publicPoint(d);
      var (r, s) := p.ecdsaSign(d, hash, random);
      x < LIMIT && y < LIMIT && r < LIMIT && s < LIMIT && p.ecdsaVerify(x, y, hash, r, s)
  }

  datatype KeyPair = KeyPair(privateKey: string, publicKey: string)

  // NewKeyPair, from the private number the generator drew.
  function NewKeyPair(p: Primitives, d: nat): KeyPair {
    var (x, y) := p.publicPoint(d);
    KeyPair(HexEncode(Digits(d, 256)), HexEncode(Join64(x, y)))
  }

  datatype EcdsaPrivateKey = EcdsaPrivateKey(x: int, y: int, d: int)

  // hex.DecodeString returns the bytes decoded before the first bad digit pair next to its error.
  function HexDecodePrefix(s: string): seq<byte> {
    if |s| < 2 || HexDigit(s[0]).None? || HexDigit(s[1]).None? then []
    else [(16 * HexDigit(s[0]).value + HexDigit(s[1]).value) % 256] + HexDecodePrefix(s[2..])
  }

  lemma {:induction false} HexPrefixOfDecoded(s: string)
    requires HexDecode(s).Some?
    ensures HexDecodePrefix(s) == HexDecode(s).value
  {
    if s != "" {
      HexPrefixOfDecoded(s[2..]);
    }
  }

  function ToEcdsaPrivateKey(k: KeyPair): EcdsaPrivateKey {
    var (x, y) := Split64(HexDecodePrefix(k.publicKey));
    EcdsaPrivateKey(x, y, Value(HexDecodePrefix(k.privateKey), 256))
  }

  lemma KeyRoundTrip(p: Primitives, d: nat)
    requires CurveLaws(p) && 0 < d < ORDER
    ensures var (x, y) := p.publicPoint(d);
            ToEcdsaPrivateKey(NewKeyPair(p, d)) == EcdsaPrivateKey(x, y, d)
    ensures HexDecode(NewKeyPair(p, d).publicKey).Some? && NewKeyPair(p, d).privateKey != ""
    ensures NewKeyPair(p, d).publicKey != ""
  {
    var (x, y) := p.publicPoint(d);
    assert p.ecdsaVerify(x, y, [], p.ecdsaSign(d, [], 0).0, p.ecdsaSign(d, [], 0).1);
    LayoutRoundTrip(x, y);
    HexRoundTrip(Digits(d, 256));
    HexRoundTrip(Join64(x, y));
    HexPrefixOfDecoded(HexEncode(Digits(d, 256)));
    HexPrefixOfDecoded(HexEncode(Join64(x, y)));
    ValueOfDigits(d, 256);
  }

  // Sign: r and s padded to 32 bytes each.
  function Sign(p: Primitives, hash: seq<byte>, d: nat, random: int): seq<byte> {
    var (r, s) := p.ecdsaSign(d, hash, random);
    Join64(r, s)
  }

  // VerifySignature: halves of the signature and of the public key as numbers.
  predicate VerifySignature(p: Primitives, signature: seq<byte>, pubKey: seq<byte>, hash: seq<byte>) {
    var (r, s) := Split64(signature);
    var (x, y) := Split64(pubKey);
    p.ecdsaVerify(x, y, hash, r, s)
  }

  // The curve accepts the numbers in the halves of a signature, under the point in the halves of a
  // public key, both written in hexadecimal.
  predicate SignatureHolds(p: Primitives, signature: string, pubKey: string, hash: seq<byte>) {
    HexDecode(signature).Some? && HexDecode(pubKey).Some?
    && var (sig, key) := (HexDecode(signature).value, HexDecode(pubKey).value);
       p.ecdsaVerify(Value(key[..|key| / 2], 256), Value(key[|key| / 2..], 256), hash,
                     Value(sig[..|sig| / 2], 256), Value(sig[|sig| / 2..], 256))
  }

  lemma VerifiesHalves(p: Primitives, signature: string, pubKey: string, hash: seq<byte>)
    requires HexDecode(signature).Some? && HexDecode(pubKey).Some?
    ensures VerifySignature(p, HexDecode(signature).value, HexDecode(pubKey).value, hash)
       <==> SignatureHolds(p, signature, pubKey, hash)
  {
    hide HexDecode;
  }

  // Keys and signatures put the first number first.
  lemma SignatureLayout(p: Primitives, d: nat, hash: seq<byte>, random: int)
    requires CurveLaws(p) && 0 < d < ORDER
    ensures var (r, s) := p.ecdsaSign(d, hash, random); var bytes := Sign(p, hash, d, random);
            |bytes| == 64 && Value(bytes[..32], 256) == r && Value(bytes[32..], 256) == s
    ensures var (x, y) := p.publicPoint(d); var key := HexDecode(NewKeyPair(p, d).publicKey);
            key.Some? && |key.value| == 64 && Value(key.value[..32], 256) == x && Value(key.value[32..], 256) == y
  {
    var (x, y) := p.publicPoint(d);
    var (r, s) := p.ecdsaSign(d, hash, random);
    assert p.ecdsaVerify(x, y, hash, r, s);
    LayoutHalves(r, s);
    LayoutHalves(x, y);
    HexRoundTrip(Join64(x, y));
  }

  // What Sign writes, VerifySignature accepts under the signer's own public key.
  lemma SignedVerifies(p: Primitives, d: nat, hash: seq<byte>, random: int)
    requires CurveLaws(p) && 0 < d < ORDER
    ensures var (x, y) := p.publicPoint(d);
            VerifySignature(p, Sign(p, hash, d, random), Join64(x, y), hash)
  {
    var (x, y) := p.publicPoint(d);
    var (r, s) := p.ecdsaSign(d, hash, random);
    assert p.ecdsaVerify(x, y, hash, r, s);
    LayoutRoundTrip(x, y);
    LayoutRoundTrip(r, s);
  }
}
