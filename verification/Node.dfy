/** dag/node.go: the node, the bytes that are signed, and the environment nodes live in. */
module Node {
  import opened Crypto
  import opened Errors
  import opened Radix
  import opened SigningBytes
  import opened Text
  import opened Wrappers

  const INT32_MAX := 0x7fff_ffff

  type int32 = x: int | -INT32_MAX - 1 <= x <= INT32_MAX

  // Adding one to an int32 wraps around.
  function Next32(n: int32): int32 {
    if n == INT32_MAX then -INT32_MAX - 1 else n + 1
  }

  // What is left of the sum in 32 bits, read with a sign.
  lemma Next32Wraps(n: int32)
    ensures Next32(n) == (n + 1 + 0x8000_0000) % 0x1_0000_0000 - 0x8000_0000
  {
  }

  datatype Node = Node(
    seqNo: int32,
    timestamp: string,
    address: string,
    previous: string,
    branch: string,
    branchRoot: string,
    properties: map<string, string>,
    branches: seq<string>,
    data: seq<byte>,
    pubKey: string,
    signature: string
  )

  const EMPTY := Node(0, "", "", "", "", "", map[], [], [], "", "")

  // The namespace of the DAG, and the libraries it runs on: cryptography, JSON, and time.Parse.
  datatype World = World(
    nameSpace: string,
    crypto: Primitives,
    toJson: Node -> seq<byte>,
    fromJson: seq<byte> -> Option<Node>,
    parseTime: string -> Option<int>
  )

  // JSON text is never empty and reads back as the node it was written from.
  ghost predicate JsonLaws(w: World) {
    forall n: Node :: w.toJson(n) != [] && w.fromJson(w.toJson(n)) == Some(n)
  }

  // ---------- signing ----------

  function Decimal(n: nat): string {
    var ds := Digits(n, 10);
    seq(|ds|, i requires 0 <= i < |ds| => (ds[i] + '0' as int) as char)
  }

  // strconv.Itoa
  function Itoa(n: int): string {
    if n < 0 then "-" + Decimal(-n) else if n == 0 then "0" else Decimal(n)
  }

  function Number(s: string): int {
    if s == "" then 0 else 10 * Number(s[..|s| - 1]) + (s[|s| - 1] as int - '0' as int)
  }

  // Reading a decimal number back.
  function Atoi(s: string): int {
    if s != "" && s[0] == '-' then -Number(s[1..]) else Number(s)
  }

  lemma {:induction false} DecimalReads(n: nat)
    ensures Number(Decimal(n)) == n && forall i :: 0 <= i < |Decimal(n)| ==> '0' <= Decimal(n)[i] <= '9'
    decreases n
  {
    if n > 0 {
      QuotientShrinks(n, 10);
      DecimalReads(n / 10);
      assert Decimal(n)[..|Decimal(n)| - 1] == Decimal(n / 10);
    }
  }

  lemma ItoaReads(n: int)
    ensures Atoi(Itoa(n)) == n && Itoa(n) != "" && '0' <= Itoa(n)[|Itoa(n)| - 1] <= '9'
  {
    if n < 0 {
      DecimalReads(-n);
      assert Itoa(n)[1..] == Decimal(-n);
    } else if n == 0 {
      assert "0"[..0] == "";
    } else {
      DecimalReads(n);
      assert Decimal(n) != "";
    }
  }

  ghost function BytesForSigning(n: Node): seq<byte> {
    Utf8(Itoa(n.seqNo)) + Utf8(n.timestamp) + Utf8(n.address) + Utf8(n.previous) + Utf8(n.branch)
    + MapBytes(n.properties) + SliceBytes(n.branches) + n.data
  }

  method GetBytesForSigning(n: Node) returns (result: seq<byte>)
    ensures result == BytesForSigning(n)
  {
    result := Utf8(Itoa(n.seqNo));
    result := result + Utf8(n.timestamp);
    result := result + Utf8(n.address);
    result := result + Utf8(n.previous);
    result := result + Utf8(n.branch);
    var mapBytes, _ := GetMapBytes(n.properties);
    result := result + mapBytes;
    var sliceBytes, _ := GetSliceBytes(n.branches);
    result := result + sliceBytes;
    result := result + n.data;
  }

  // The parts of a node that are signed, in the order in which they are.
  ghost function SigningParts(n: Node): (parts: seq<seq<byte>>)
    ensures |parts| == 8
  {
    [Utf8(Itoa(n.seqNo)), Utf8(n.timestamp), Utf8(n.address), Utf8(n.previous), Utf8(n.branch),
     MapBytes(n.properties), SliceBytes(n.branches), n.data]
  }

  lemma EightParts(p: seq<seq<byte>>)
    requires |p| == 8
    ensures Joined(p, 8) == p[0] + p[1] + p[2] + p[3] + p[4] + p[5] + p[6] + p[7]
  {
    assert Joined(p, 1) == p[0];
    assert Joined(p, 2) == p[0] + p[1];
    assert Joined(p, 4) == p[0] + p[1] + p[2] + p[3];
    assert Joined(p, 6) == p[0] + p[1] + p[2] + p[3] + p[4] + p[5];
  }

  // The signed bytes are those parts and nothing else. So each part stands where those before it end.
  lemma SigningLayout(n: Node)
    ensures BytesForSigning(n) == Joined(SigningParts(n), 8)
  {
    hide Utf8, MapBytes, SliceBytes, Itoa;
    EightParts(SigningParts(n));
  }

  // The nodes differ in at most one of these fields.
  ghost predicate OneFieldApart(n: Node, n': Node) {
    n' == n.(seqNo := n'.seqNo) || n' == n.(timestamp := n'.timestamp) || n' == n.(address := n'.address)
    || n' == n.(previous := n'.previous) || n' == n.(branch := n'.branch) || n' == n.(data := n'.data)
  }

  // Such nodes have different signed bytes.
  lemma SigningBytesTell(n: Node, n': Node)
    requires OneFieldApart(n, n') && BytesForSigning(n) == BytesForSigning(n')
    ensures n == n'
  {
    hide Utf8, MapBytes, SliceBytes, Itoa, BytesForSigning, Joined;
    var p, q := SigningParts(n), SigningParts(n');
    SigningLayout(n);
    SigningLayout(n');
    if n' == n.(seqNo := n'.seqNo) {
      OnePartDiffers(p, q, 0);
      Utf8Injective(Itoa(n.seqNo), Itoa(n'.seqNo));
      ItoaReads(n.seqNo);
      ItoaReads(n'.seqNo);
    } else if n' == n.(timestamp := n'.timestamp) {
      OnePartDiffers(p, q, 1);
      Utf8Injective(n.timestamp, n'.timestamp);
    } else if n' == n.(address := n'.address) {
      OnePartDiffers(p, q, 2);
      Utf8Injective(n.address, n'.address);
    } else if n' == n.(previous := n'.previous) {
      OnePartDiffers(p, q, 3);
      Utf8Injective(n.previous, n'.previous);
    } else if n' == n.(branch := n'.branch) {
      OnePartDiffers(p, q, 4);
      Utf8Injective(n.branch, n'.branch);
    } else {
      OnePartDiffers(p, q, 7);
    }
  }

  // The hash that signatures are made for and verified against changes with each of these fields,
  // unless SHA-256 collides on the two nodes.
  lemma SignedHashTells(p: Primitives, n: Node, n': Node)
    requires OneFieldApart(n, n') && n != n'
    requires p.sha256(BytesForSigning(n)) == p.sha256(BytesForSigning(n')) ==> BytesForSigning(n) == BytesForSigning(n')
    ensures p.sha256(BytesForSigning(n)) != p.sha256(BytesForSigning(n'))
  {
    hide BytesForSigning, OneFieldApart;
    if BytesForSigning(n) == BytesForSigning(n') {
      SigningBytesTell(n, n');
    }
  }

  ghost function Signed(p: Primitives, n: Node, d: nat, random: int): Node {
    n.(signature := HexEncode(Crypto.Sign(p, p.sha256(BytesForSigning(n)), d, random)))
  }

  method Sign(p: Primitives, n: Node, d: nat, random: int) returns (r: Node)
    ensures r == Signed(p, n, d, random)
  {
    var data := GetBytesForSigning(n);
    var s := Crypto.Sign(p, p.sha256(data), d, random);
    r := n.(signature := HexEncode(s));
  }

  ghost function SignatureError(p: Primitives, n: Node): Option<Error> {
    if HexDecode(n.signature).None? then Some(ErrUnableToDecodeNodeSignature)
    else if HexDecode(n.pubKey).None? then Some(ErrUnableToDecodeNodePubKey)
    else if Crypto.VerifySignature(p, HexDecode(n.signature).value, HexDecode(n.pubKey).value,
                                   p.sha256(BytesForSigning(n)))
    then None
    else Some(ErrNodeSignatureDoesNotMatch)
  }

  // A node's signature is refused in three ways, and accepted exactly when it holds for the hash of the
  // signed bytes.
  lemma SignatureErrorExactly(p: Primitives, n: Node)
    ensures SignatureError(p, n).None? <==> SignatureHolds(p, n.signature, n.pubKey, p.sha256(BytesForSigning(n)))
    ensures SignatureError(p, n) == Some(ErrUnableToDecodeNodeSignature) <==> HexDecode(n.signature).None?
    ensures SignatureError(p, n) == Some(ErrUnableToDecodeNodePubKey)
       <==> HexDecode(n.signature).Some? && HexDecode(n.pubKey).None?
    ensures HexDecode(n.signature).Some? && HexDecode(n.pubKey).Some? ==>
              SignatureError(p, n) in {None, Some(ErrNodeSignatureDoesNotMatch)}
  {
    hide HexDecode, BytesForSigning, Crypto.VerifySignature;
    if HexDecode(n.signature).Some? && HexDecode(n.pubKey).Some? {
      VerifiesHalves(p, n.signature, n.pubKey, p.sha256(BytesForSigning(n)));
    }
  }

  method VerifySignature(p: Primitives, n: Node) returns (er: Option<Error>)
    ensures er == SignatureError(p, n)
  {
    var sign := HexDecode(n.signature);
    if sign.None? {
      return Some(ErrUnableToDecodeNodeSignature);
    }
    var pubKey := HexDecode(n.pubKey);
    if pubKey.None? {
      return Some(ErrUnableToDecodeNodePubKey);
    }
    var data := GetBytesForSigning(n);
    if !Crypto.VerifySignature(p, sign.value, pubKey.value, p.sha256(data)) {
      return Some(ErrNodeSignatureDoesNotMatch);
    }
    return None;
  }

  // A node signed by the owner of its public key verifies, whatever its map order, and still does
  // after it was written to JSON and read back.
  lemma SignedNodeVerifies(w: World, n: Node, d: nat, random: int)
    requires CurveLaws(w.crypto) && JsonLaws(w) && 0 < d < ORDER
    requires n.pubKey == NewKeyPair(w.crypto, d).publicKey
    ensures var stored := w.fromJson(w.toJson(Signed(w.crypto, n, d, random)));
            stored.Some? && SignatureError(w.crypto, stored.value) == None
  {
    var p, signed := w.crypto, Signed(w.crypto, n, d, random);
    var (x, y) := p.publicPoint(d);
    HexRoundTrip(FixedWidth.Join64(x, y));
    HexRoundTrip(Crypto.Sign(p, p.sha256(BytesForSigning(n)), d, random));
    SignedVerifies(p, d, p.sha256(BytesForSigning(n)), random);
    assert BytesForSigning(signed) == BytesForSigning(n);
  }
}
