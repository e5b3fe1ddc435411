/** internal/util/bytes.go, and the 64-byte layouts of signatures and public keys built with it. */
module FixedWidth {
  import opened Radix
  import opened Text

  // One past the largest number that fits in 32 bytes.
  ghost const LIMIT: nat := Power(256, 32)

  function LeftPad(slice: seq<byte>, length: nat): seq<byte> {
    if length <= |slice| then slice else Zeros(length - |slice|) + slice
  }

  method LeftPadBytes(slice: seq<byte>, length: nat) returns (r: seq<byte>)
    ensures r == LeftPad(slice, length)
  {
    if length <= |slice| {
      return slice;
    }
    var padded := new byte[length](_ => 0);
    forall i | 0 <= i < |slice| {
      padded[length - |slice| + i] := slice[i];
    }
    return padded[..];
  }

  // big.Int.Bytes of each number, padded to 32 bytes, one after the other.
  function Join64(a: nat, b: nat): seq<byte> {
    LeftPad(Digits(a, 256), 32) + LeftPad(Digits(b, 256), 32)
  }

  // SetBytes of each half.
  function Split64(bytes: seq<byte>): (int, int) {
    (Value(bytes[..|bytes| / 2], 256), Value(bytes[|bytes| / 2..], 256))
  }

  lemma PaddedNumber(a: nat)
    requires a < LIMIT
    ensures |LeftPad(Digits(a, 256), 32)| == 32 && Value(LeftPad(Digits(a, 256), 32), 256) == a
  {
    var ds := Digits(a, 256);
    DigitsBound(a, 256, 32);
    ValueOfDigits(a, 256);
    ValueOfPadded(32 - |ds|, ds, 256);
    if |ds| == 32 {
      assert LeftPad(ds, 32) == ds;
    }
  }

  // The first number fills the first 32 bytes, the second the others, both big-endian.
  lemma LayoutHalves(a: nat, b: nat)
    requires a < LIMIT && b < LIMIT
    ensures |Join64(a, b)| == 64 && Value(Join64(a, b)[..32], 256) == a && Value(Join64(a, b)[32..], 256) == b
  {
    PaddedNumber(a);
    PaddedNumber(b);
    assert Join64(a, b)[..32] == LeftPad(Digits(a, 256), 32);
    assert Join64(a, b)[32..] == LeftPad(Digits(b, 256), 32);
  }

  lemma LayoutRoundTrip(a: nat, b: nat)
    requires a < LIMIT && b < LIMIT
    ensures |Join64(a, b)| == 64 && Split64(Join64(a, b)) == (a, b)
  {
    LayoutHalves(a, b);
  }
}
