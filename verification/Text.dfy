/** Go strings and byte slices: UTF-8, hexadecimal, and `strings.Split`. */
module Text {
  import opened Wrappers

  type byte = x: int | 0 <= x < 256

  // ---------- []byte(s) ----------

  // The first byte fixes the length of an encoded character.
  function EncodedLength(first: byte): nat {
    if first < 0xC0 then 1 else if first < 0xE0 then 2 else if first < 0xF0 then 3 else 4
  }

  function EncodeChar(c: char): (r: seq<byte>)
    ensures |r| > 0 && |r| == EncodedLength(r[0])
  {
    var n := c as int;
    if n < 0x80 then [n]
    else if n < 0x800 then [0xC0 + n / 64, 0x80 + n % 64]
    else if n < 0x1_0000 then [0xE0 + n / 64 / 64, 0x80 + n / 64 % 64, 0x80 + n % 64]
    else [0xF0 + n / 64 / 64 / 64, 0x80 + n / 64 / 64 % 64, 0x80 + n / 64 % 64, 0x80 + n % 64]
  }

  // The number an encoded character stands for, as section 3 of RFC 3629 reads it.
  function CharNumber(b: seq<byte>): int
    requires 1 <= |b| <= 4
  {
    if |b| == 1 then b[0]
    else if |b| == 2 then (b[0] as int - 0xC0) * 0x40 + (b[1] as int - 0x80)
    else if |b| == 3 then (b[0] as int - 0xE0) * 0x1000 + (b[1] as int - 0x80) * 0x40 + (b[2] as int - 0x80)
    else (b[0] as int - 0xF0) * 0x4_0000 + (b[1] as int - 0x80) * 0x1000 + (b[2] as int - 0x80) * 0x40
         + (b[3] as int - 0x80)
  }

  lemma EncodeCharReads(c: char)
    ensures var b, n := EncodeChar(c), c as int;
            |b| == (if n < 0x80 then 1 else if n < 0x800 then 2 else if n < 0x1_0000 then 3 else 4)
            && CharNumber(b) == n && forall i :: 0 < i < |b| ==> 0x80 <= b[i] < 0xC0
  {
  }

  function Utf8(s: string): seq<byte> {
    if s == "" then [] else EncodeChar(s[0]) + Utf8(s[1..])
  }

  lemma EncodeCharInjective(c: char, d: char)
    requires EncodeChar(c) == EncodeChar(d)
    ensures c == d
  {
    var e, m, n := EncodeChar(c), c as int, d as int;
    assert e[|e| - 1] == EncodeChar(d)[|e| - 1];
    if |e| >= 2 {
      assert e[|e| - 2] == EncodeChar(d)[|e| - 2];
      if |e| >= 3 {
        assert e[|e| - 3] == EncodeChar(d)[|e| - 3];
      }
    }
    assert m == n;
  }

  lemma EncodeCharPrefixFree(c: char, d: char, x: seq<byte>, y: seq<byte>)
    requires EncodeChar(c) + x == EncodeChar(d) + y
    ensures c == d && x == y
  {
    var left, right := EncodeChar(c) + x, EncodeChar(d) + y;
    var k := EncodedLength(left[0]);
    assert left[0] == EncodeChar(c)[0] && right[0] == EncodeChar(d)[0];
    assert left[..k] == EncodeChar(c) && right[..k] == EncodeChar(d);
    EncodeCharInjective(c, d);
    assert left[k..] == x && right[k..] == y;
  }

  lemma {:induction false} Utf8Injective(s: string, t: string)
    requires Utf8(s) == Utf8(t)
    ensures s == t
  {
    if s != "" && t != "" {
      EncodeCharPrefixFree(s[0], t[0], Utf8(s[1..]), Utf8(t[1..]));
      Utf8Injective(s[1..], t[1..]);
      assert s == [s[0]] + s[1..] && t == [t[0]] + t[1..];
    }
  }

  lemma {:induction false} Utf8Append(s: string, t: string)
    ensures Utf8(s + t) == Utf8(s) + Utf8(t)
  {
    if s == "" {
      assert s + t == t;
    } else {
      assert (s + t)[1..] == s[1..] + t;
      Utf8Append(s[1..], t);
    }
  }

  ghost predicate Ascii(s: seq<byte>) {
    forall i :: 0 <= i < |s| ==> s[i] < 0x80
  }

  // string(b) for a byte slice that only holds ASCII.
  function FromAscii(b: seq<byte>): (s: string)
    requires Ascii(b)
    ensures |s| == |b|
    ensures forall i :: 0 <= i < |s| ==> s[i] == b[i] as char
  {
    seq(|b|, i requires 0 <= i < |b| => b[i] as char)
  }

  lemma {:induction false} Utf8OfAscii(b: seq<byte>)
    requires Ascii(b)
    ensures Utf8(FromAscii(b)) == b
  {
    if b != [] {
      assert FromAscii(b)[1..] == FromAscii(b[1..]);
      Utf8OfAscii(b[1..]);
    }
  }

  // ---------- bytes appended part by part ----------

  // The first i parts, one after the other.
  function Joined(parts: seq<seq<byte>>, i: nat): seq<byte>
    requires i <= |parts|
  {
    if i == 0 then [] else Joined(parts, i - 1) + parts[i - 1]
  }

  // Part i starts where the parts before it end, and there is nothing in between.
  lemma {:induction false} PartStands(parts: seq<seq<byte>>, i: nat, n: nat)
    requires i < n <= |parts|
    ensures var (all, start) := (Joined(parts, n), |Joined(parts, i)|);
            start + |parts[i]| <= |all| && all[..start] == Joined(parts, i)
            && all[start..start + |parts[i]|] == parts[i]
    decreases n
  {
    if i < n - 1 {
      PartStands(parts, i, n - 1);
      assert Joined(parts, n)[..|Joined(parts, n - 1)|] == Joined(parts, n - 1);
    }
  }

  lemma {:induction false} SameLength(p: seq<seq<byte>>, q: seq<seq<byte>>, i: nat, n: nat)
    requires n <= |p| == |q| && forall j :: 0 <= j < |p| && j != i ==> p[j] == q[j]
    ensures n <= i ==> Joined(p, n) == Joined(q, n)
    ensures i < n ==> |Joined(p, n)| - |p[i]| == |Joined(q, n)| - |q[i]|
  {
    if n > 0 {
      SameLength(p, q, i, n - 1);
    }
  }

  // If all parts but one are the same and the bytes are the same, that part is the same.
  lemma OnePartDiffers(p: seq<seq<byte>>, q: seq<seq<byte>>, i: nat)
    requires i < |p| == |q| && forall j :: 0 <= j < |p| && j != i ==> p[j] == q[j]
    requires Joined(p, |p|) == Joined(q, |q|)
    ensures p[i] == q[i]
  {
    SameLength(p, q, i, i);
    SameLength(p, q, i, |p|);
    PartStands(p, i, |p|);
    PartStands(q, i, |q|);
  }

  // ---------- encoding/hex ----------

  const HEX := "0123456789abcdef"

  function HexPair(x: byte): (s: string)
    ensures |s| == 2
  {
    [HEX[x / 16], HEX[x % 16]]
  }

  function HexEncode(b: seq<byte>): string {
    if b == [] then "" else HexPair(b[0]) + HexEncode(b[1..])
  }

  // hex.DecodeString also accepts upper-case digits.
  function HexDigit(c: char): Option<int> {
    if '0' <= c <= '9' then Some(c as int - '0' as int)
    else if 'a' <= c <= 'f' then Some(c as int - 'a' as int + 10)
    else if 'A' <= c <= 'F' then Some(c as int - 'A' as int + 10)
    else None
  }

  function HexDecode(s: string): Option<seq<byte>> {
    if s == "" then Some([])
    else if |s| == 1 || HexDigit(s[0]).None? || HexDigit(s[1]).None? then None
    else
      match HexDecode(s[2..])
      case None => None
      case Some(rest) => Some([(16 * HexDigit(s[0]).value + HexDigit(s[1]).value) % 256] + rest)
  }

  lemma HexDigitOfNibble(n: int)
    requires 0 <= n < 16
    ensures HexDigit(HEX[n]) == Some(n) && HEX[n] != '/'
    ensures HEX[n] as int == if n < 10 then '0' as int + n else 'a' as int + n - 10
  {
  }

  // Two nibbles give back the byte.
  lemma HexOfByte(x: byte)
    ensures HexDigit(HexPair(x)[0]).Some? && HexDigit(HexPair(x)[1]).Some?
    ensures 16 * HexDigit(HexPair(x)[0]).value + HexDigit(HexPair(x)[1]).value == x
    ensures forall c :: c in HexPair(x) ==> '0' <= c <= '9' || 'a' <= c <= 'f'
    ensures SlashFree(HexPair(x))
  {
    HexDigitOfNibble(x / 16);
    HexDigitOfNibble(x % 16);
  }

  lemma {:induction false} HexRoundTrip(b: seq<byte>)
    ensures HexDecode(HexEncode(b)) == Some(b)
  {
    hide HexPair, HexDigit;
    if b != [] {
      HexOfByte(b[0]);
      HexRoundTrip(b[1..]);
      assert HexEncode(b)[2..] == HexEncode(b[1..]);
      assert HexEncode(b)[0] == HexPair(b[0])[0] && HexEncode(b)[1] == HexPair(b[0])[1];
      assert b == [b[0]] + b[1..];
    }
  }

  lemma HexInjective(b: seq<byte>, c: seq<byte>)
    requires HexEncode(b) == HexEncode(c)
    ensures b == c
  {
    HexRoundTrip(b);
    HexRoundTrip(c);
  }

  lemma {:induction false} HexIsSlashFree(b: seq<byte>)
    ensures SlashFree(HexEncode(b)) && |HexEncode(b)| == 2 * |b|
  {
    hide HexPair, HexDigit;
    if b != [] {
      HexOfByte(b[0]);
      HexIsSlashFree(b[1..]);
    }
  }

  // ---------- segments between slashes ----------

  ghost predicate SlashFree(s: string) {
    '/' !in s
  }

  // strings.Split(s, "/")
  function Split(s: string): (parts: seq<string>)
    ensures |parts| >= 1
  {
    if s == "" then [""]
    else
      var rest := Split(s[1..]);
      if s[0] == '/' then [""] + rest else [[s[0]] + rest[0]] + rest[1..]
  }

  // strings.Join(parts, "/")
  function Join(parts: seq<string>): string {
    if |parts| == 0 then ""
    else if |parts| == 1 then parts[0]
    else parts[0] + "/" + Join(parts[1..])
  }

  lemma JoinAfterSlash(rest: seq<string>)
    requires |rest| >= 1
    ensures Join([""] + rest) == "/" + Join(rest)
  {
    assert ([""] + rest)[1..] == rest;
  }

  lemma Regroup(a: string, b: string, c: string, d: string)
    ensures a + b + c + d == a + (b + c + d)
  {
  }

  lemma JoinAfterChar(c: char, rest: seq<string>)
    requires |rest| >= 1
    ensures Join([[c] + rest[0]] + rest[1..]) == [c] + Join(rest)
  {
    var first := [c] + rest[0];
    assert ([first] + rest[1..])[1..] == rest[1..];
    if |rest| > 1 {
      Regroup([c], rest[0], "/", Join(rest[1..]));
    }
  }

  // Split is the inverse of Join on slash-free parts, and only produces such parts.
  lemma {:induction false} JoinSplit(s: string)
    ensures Join(Split(s)) == s
    ensures forall p :: p in Split(s) ==> SlashFree(p)
  {
    if s != "" {
      var rest := Split(s[1..]);
      JoinSplit(s[1..]);
      if s[0] == '/' {
        JoinAfterSlash(rest);
        assert s == "/" + s[1..];
      } else {
        JoinAfterChar(s[0], rest);
        assert s == [s[0]] + s[1..];
        assert SlashFree(rest[0]) && SlashFree([s[0]] + rest[0]);
      }
    }
  }

  lemma {:induction false} SplitHead(a: string, rest: string)
    requires SlashFree(a)
    ensures Split(a + "/" + rest) == [a] + Split(rest)
  {
    var s := a + "/" + rest;
    if a == "" {
      assert s == "/" + rest && s[1..] == rest;
    } else {
      assert s[1..] == a[1..] + "/" + rest;
      SplitHead(a[1..], rest);
      assert a == [a[0]] + a[1..];
    }
  }

  // A slash-free prefix before the first slash is unique.
  lemma HeadSegmentUnique(a: string, x: string, b: string, y: string)
    requires SlashFree(a) && SlashFree(b)
    requires a + "/" + x == b + "/" + y
    ensures a == b && x == y
  {
    SplitHead(a, x);
    SplitHead(b, y);
    assert a == Split(a + "/" + x)[0] == Split(b + "/" + y)[0] == b;
    assert x == (a + "/" + x)[|a| + 1..] == (b + "/" + y)[|b| + 1..] == y;
  }
}
