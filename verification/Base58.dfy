/** address/base58.go: big-integer base conversion with leading zeros kept as leading '1's. */
module Base58 {
  import opened Radix
  import opened Text
  import opened Wrappers

  const ALPHABET := "123456789ABCDEFGHJKLMNPQRSTUVWXYZ" + "abcdefghijkmnopqrstuvwxyz"
  const ONE: byte := 49

  // ---------- the alphabet ----------

  lemma AlphabetBounds(i: nat)
    requires i < 58
    ensures |ALPHABET| == 58 && ALPHABET[i] < '{' && ALPHABET[i] != '/' && ALPHABET[0] == '1'
  {
  }

  // There are 58 digits and letters besides 0, O, I and l, and they stand in increasing order.
  lemma AlphabetMember(i: nat)
    requires i < 58
    ensures |ALPHABET| == 58
    ensures var c := ALPHABET[i];
            ('1' <= c <= '9' || 'A' <= c <= 'Z' || 'a' <= c <= 'z') && c != 'O' && c != 'I' && c != 'l'
  {
  }

  lemma AlphabetStep(i: nat)
    requires i < 57
    ensures |ALPHABET| == 58 && ALPHABET[i] < ALPHABET[i + 1]
  {
  }

  lemma {:induction false} AlphabetIncreasing(i: nat, j: nat)
    requires i < j < 58
    ensures |ALPHABET| == 58 && ALPHABET[i] < ALPHABET[j]
    decreases j
  {
    AlphabetStep(j - 1);
    if i < j - 1 {
      AlphabetIncreasing(i, j - 1);
    }
  }

  function Letter(d: int): (b: byte)
    requires 0 <= d < 58
    ensures b < 0x80 && b != '/' as int
    ensures b == ONE <==> d == 0
  {
    AlphabetBounds(d);
    if d > 0 then AlphabetIncreasing(0, d); ALPHABET[d] as int else ALPHABET[d] as int
  }

  // bytes.IndexByte: the first position of b, or -1.
  function IndexByte(s: string, b: byte): (i: int)
    ensures -1 <= i < |s|
    ensures i >= 0 ==> s[i] as int == b
    ensures forall j :: 0 <= j < (if i >= 0 then i else |s|) ==> s[j] as int != b
  {
    if s == "" then -1
    else if s[0] as int == b then 0
    else
      var i := IndexByte(s[1..], b);
      if i < 0 then -1 else i + 1
  }

  lemma IndexOfLetter(d: int)
    requires 0 <= d < 58
    ensures IndexByte(ALPHABET, Letter(d)) == d
  {
    AlphabetBounds(0);
    var i := IndexByte(ALPHABET, Letter(d));
    assert ALPHABET[d] as int == Letter(d);
    if 0 <= i < d {
      AlphabetIncreasing(i, d);
    }
  }

  lemma LetterOfIndex(b: byte)
    requires IndexByte(ALPHABET, b) >= 0
    ensures IndexByte(ALPHABET, b) < 58 && Letter(IndexByte(ALPHABET, b)) == b
  {
    AlphabetBounds(0);
  }

  predicate InAlphabet(s: seq<byte>) {
    forall i :: 0 <= i < |s| ==> IndexByte(ALPHABET, s[i]) >= 0
  }

  function Letters(ds: seq<int>): (s: seq<byte>)
    requires IsDigits(ds, 58)
    ensures |s| == |ds| && Ascii(s)
    ensures forall i :: 0 <= i < |s| ==> s[i] == Letter(ds[i])
  {
    seq(|ds|, i requires 0 <= i < |ds| => Letter(ds[i]))
  }

  function Indices(s: seq<byte>): (ds: seq<int>)
    ensures |ds| == |s|
    ensures forall i :: 0 <= i < |s| ==> ds[i] == IndexByte(ALPHABET, s[i])
  {
    seq(|s|, i requires 0 <= i < |s| => IndexByte(ALPHABET, s[i]))
  }

  // ---------- what the two conversions compute ----------

  function Abs(n: int): nat { if n < 0 then -n else n }

  // None is the run-time panic of the leading-zero loop running past the input.
  function Encode(input: seq<byte>): (r: Option<seq<byte>>)
    ensures r.Some? ==> Ascii(r.value)
  {
    var zeros := Leading(input, 0);
    if zeros == |input| then None
    else
      ValueNonNegative(input, 256);
      Some(Letters(Zeros(zeros) + Digits(Value(input, 256), 58)))
  }

  // Bytes outside the alphabet count as -1, and math/big's Bytes drops the sign.
  function Decode(input: seq<byte>): Option<seq<byte>> {
    var ones := Leading(input, ONE);
    if ones == |input| then None
    else Some(Zeros(ones) + Digits(Abs(Value(Indices(input), 58)), 256))
  }

  // ---------- the code ----------

  lemma LeadingUnique(ds: seq<int>, z: int, n: nat)
    requires n <= |ds| && (n == |ds| || ds[n] != z) && forall i :: 0 <= i < n ==> ds[i] == z
    ensures Leading(ds, z) == n
  {
  }

  function Rev<T>(s: seq<T>): (r: seq<T>)
    ensures |r| == |s|
    ensures forall i :: 0 <= i < |s| ==> r[i] == s[|s| - 1 - i]
  {
    seq(|s|, i requires 0 <= i < |s| => s[|s| - 1 - i])
  }

  method ReverseBytes(data: array<byte>)
    modifies data
    ensures data[..] == Rev(old(data[..]))
  {
    var i, j := 0, data.Length - 1;
    while i < j
      invariant 0 <= i <= data.Length && j == data.Length - 1 - i && i <= j + 1
      invariant forall k :: 0 <= k < i || j < k < data.Length ==> data[k] == old(data[data.Length - 1 - k])
      invariant forall k :: i <= k <= j ==> data[k] == old(data[k])
    {
      data[i], data[j] := data[j], data[i];
      i, j := i + 1, j - 1;
    }
  }

  lemma MoveDigit(q: seq<int>, d: int, result: seq<byte>)
    requires IsDigits(q, 58) && 0 <= d < 58
    ensures Letters(q + [d]) + Rev(result) == Letters(q) + Rev(result + [Letter(d)])
  {
    hide Letter;
    assert Letters(q + [d]) == Letters(q) + [Letter(d)];
    assert Rev(result + [Letter(d)]) == [Letter(d)] + Rev(result);
  }

  lemma DivisionStep(x: nat, result: seq<byte>)
    requires x > 0
    ensures 0 <= x / 58 < x
    ensures Letters(Digits(x, 58)) + Rev(result)
         == Letters(Digits(x / 58, 58)) + Rev(result + [Letter(x % 58)])
  {
    QuotientShrinks(x, 58);
    MoveDigit(Digits(x / 58, 58), x % 58, result);
  }

  // Appending n ones and reversing puts the ones in front.
  lemma ReversedWithOnes(digits: seq<byte>, n: nat, ds: seq<int>)
    requires IsDigits(ds, 58) && Rev(digits) == Letters(ds)
    ensures Rev(digits + Letters(Zeros(n))) == Letters(Zeros(n) + ds)
  {
    assert Rev(digits + Letters(Zeros(n))) == Letters(Zeros(n)) + Rev(digits);
  }

  // The division loop of Base58Encode: the letters of x, least significant first.
  method DivisionLoop(value: nat) returns (result: seq<byte>)
    ensures Rev(result) == Letters(Digits(value, 58))
  {
    var x := value;
    result := [];
    assert Rev(result) == [];
    while x != 0
      invariant Letters(Digits(value, 58)) == Letters(Digits(x, 58)) + Rev(result)
      decreases x
    {
      DivisionStep(x, result);
      var mod := x % 58;
      x := x / 58;
      result := result + [Letter(mod)];
    }
  }

  method Base58Encode(input: seq<byte>) returns (r: Option<seq<byte>>)
    ensures r == Encode(input)
  {
    hide Value, Digits, Letter, Leading, Rev;
    ValueNonNegative(input, 256);
    var result := DivisionLoop(Value(input, 256));
    ghost var digits := result;
    var i := 0;
    while true
      invariant 0 <= i <= |input| && forall k :: 0 <= k < i ==> input[k] == 0
      invariant result == digits + Letters(Zeros(i))
      decreases |input| - i
    {
      if i == |input| {
        LeadingUnique(input, 0, i);
        return None;
      }
      if input[i] != 0x00 {
        break;
      }
      result := result + [Letter(0)];
      assert Letters(Zeros(i + 1)) == Letters(Zeros(i)) + [Letter(0)];
      i := i + 1;
    }
    LeadingUnique(input, 0, i);
    ReversedWithOnes(digits, i, Digits(Value(input, 256), 58));
    var buffer := new byte[|result|](k requires 0 <= k < |result| => result[k]);
    assert buffer[..] == result;
    ReverseBytes(buffer);
    return Some(buffer[..]);
  }

  lemma HornerStep(input: seq<byte>, k: nat)
    requires k < |input|
    ensures Value(Indices(input[..k + 1]), 58)
         == Value(Indices(input[..k]), 58) * 58 + IndexByte(ALPHABET, input[k])
  {
    var ds := Indices(input[..k + 1]);
    assert ds[..|ds| - 1] == Indices(input[..k]);
  }

  method Base58Decode(input: seq<byte>) returns (r: Option<seq<byte>>)
    ensures r == Decode(input)
  {
    hide Digits, Leading, Letter, IndexByte;
    var result := 0;
    for k := 0 to |input|
      invariant result == Value(Indices(input[..k]), 58)
    {
      var charIndex := IndexByte(ALPHABET, input[k]);
      HornerStep(input, k);
      result := result * 58;
      result := result + charIndex;
    }
    assert input[..|input|] == input;
    var decoded: seq<byte> := Digits(Abs(result), 256);
    ghost var digits := decoded;
    var i := 0;
    while true
      invariant 0 <= i <= |input| && forall k :: 0 <= k < i ==> input[k] == ONE
      invariant decoded == Zeros(i) + digits
      decreases |input| - i
    {
      if i == |input| {
        LeadingUnique(input, ONE, i);
        return None;
      }
      if input[i] != Letter(0) {
        break;
      }
      assert Zeros(i + 1) == [0] + Zeros(i);
      decoded := [0x00] + decoded;
      i := i + 1;
    }
    LeadingUnique(input, ONE, i);
    return Some(decoded);
  }

  // ---------- round trips ----------

  lemma IndicesOfLetters(ds: seq<int>)
    requires IsDigits(ds, 58)
    ensures Indices(Letters(ds)) == ds
  {
    forall i | 0 <= i < |ds| ensures Indices(Letters(ds))[i] == ds[i] {
      IndexOfLetter(ds[i]);
    }
  }

  lemma LettersOfIndices(s: seq<byte>)
    requires InAlphabet(s)
    ensures IsDigits(Indices(s), 58) && Letters(Indices(s)) == s
  {
    forall i | 0 <= i < |s| ensures 0 <= Indices(s)[i] < 58 && Letter(Indices(s)[i]) == s[i] {
      LetterOfIndex(s[i]);
    }
  }

  // A number's canonical digits start with a non-zero digit.
  lemma {:induction false} DigitsHead(n: nat, base: nat)
    requires base >= 2 && n > 0
    ensures Digits(n, base) != [] && Digits(n, base)[0] != 0
    decreases n
  {
    QuotientShrinks(n, base);
    if n / base > 0 {
      DigitsHead(n / base, base);
    }
  }

  // A byte string that is not all zeros has a positive value.
  lemma PositiveValue(x: seq<int>, base: nat)
    requires base >= 2 && IsDigits(x, base) && Leading(x, 0) < |x|
    ensures Value(x, base) > 0
  {
    CanonicalSplit(x, base);
    assert |Digits(Value(x, base), base)| == |x| - Leading(x, 0);
  }

  // Encoding then decoding gives the input back, exactly when encoding returns at all.
  lemma DecodeOfEncode(x: seq<byte>)
    ensures Encode(x).Some? <==> exists i :: 0 <= i < |x| && x[i] != 0
    ensures Encode(x).Some? ==> InAlphabet(Encode(x).value) && Decode(Encode(x).value) == Some(x)
  {
    hide Value, Digits, Letter, Leading, IndexByte;
    var n := Leading(x, 0);
    if n < |x| {
      PositiveValue(x, 256);
      var v: nat := Value(x, 256);
      DigitsHead(v, 58);
      var ds := Zeros(n) + Digits(v, 58);
      var s := Letters(ds);
      assert Encode(x) == Some(s);
      IndicesOfLetters(ds);
      forall i | 0 <= i < |s| ensures IndexByte(ALPHABET, s[i]) >= 0 {
        assert Indices(s)[i] == ds[i];
      }
      LeadingUnique(s, ONE, n);
      ValueOfPadded(n, Digits(v, 58), 58);
      ValueOfDigits(v, 58);
      CanonicalSplit(x, 256);
    }
  }

  // Encoding keeps the number and the leading zeros: read in base 58 by their places in the alphabet,
  // the letters have the value of the bytes in base 256.
  lemma EncodeKeepsValue(x: seq<byte>)
    requires Encode(x).Some?
    ensures var s := Encode(x).value;
            Value(Indices(s), 58) == Value(x, 256) && Leading(s, ONE) == Leading(x, 0)
  {
    hide Value, Digits, Letter, IndexByte;
    var n := Leading(x, 0);
    PositiveValue(x, 256);
    var v: nat := Value(x, 256);
    DigitsHead(v, 58);
    var ds := Zeros(n) + Digits(v, 58);
    IndicesOfLetters(ds);
    LeadingUnique(Letters(ds), ONE, n);
    ValueOfPadded(n, Digits(v, 58), 58);
    ValueOfDigits(v, 58);
  }

  lemma EncodeOfAlphabetDecode(s: seq<byte>)
    requires InAlphabet(s) && Decode(s).Some?
    ensures Encode(Decode(s).value) == Some(s)
  {
    var n, ds := Leading(s, ONE), Indices(s);
    LettersOfIndices(s);
    forall i | 0 <= i < |s| ensures ds[i] == 0 <==> s[i] == ONE {
      assert Letters(ds)[i] == Letter(ds[i]);
    }
    LeadingUnique(ds, 0, n);
    PositiveValue(ds, 58);
    var v: nat := Value(ds, 58);
    DigitsHead(v, 256);
    var x := Zeros(n) + Digits(v, 256);
    assert Decode(s) == Some(x);
    LeadingUnique(x, 0, n);
    ValueOfPadded(n, Digits(v, 256), 256);
    ValueOfDigits(v, 256);
    CanonicalSplit(ds, 58);
  }

  // Decoding then encoding gives the text back exactly for texts over the alphabet: a character
  // outside it counts as -1, and the text is then not the one the encoder writes.
  lemma EncodeOfDecode(s: seq<byte>)
    ensures Decode(s).Some? <==> exists i :: 0 <= i < |s| && s[i] != ONE
    ensures Decode(s).Some? ==> (Encode(Decode(s).value) == Some(s) <==> InAlphabet(s))
  {
    if Decode(s).Some? {
      if InAlphabet(s) {
        EncodeOfAlphabetDecode(s);
      } else {
        DecodeOfEncode(Decode(s).value);
      }
    }
  }
}
