/** message/messages.go with the payload of resolver/messages.go, and the requests made from names. */
module Message {
  import opened Address
  import opened Crypto
  import opened Errors
  import opened Names
  import opened Node
  import opened Text
  import opened Wrappers

  const REQUEST := "QUERY.NAME.REQUEST"
  const RESPONSE := "QUERY.NAME.RESPONSE"

  datatype Query = Query(data: string, reference: string) {
    function Bytes(): seq<byte> {
      Utf8(data) + Utf8(reference)
    }
  }

  datatype Message = Message(
    timestamp: string,
    address: string,
    kind: string,
    payload: Query,
    publicKey: string,
    signature: string
  )

  function Preimage(m: Message): seq<byte> {
    Utf8(m.address) + Utf8(m.kind) + m.payload.Bytes()
  }

  function GetID(p: Primitives, m: Message): string {
    HexEncode(p.sha256(Preimage(m)))
  }

  // Equal identifiers are equal hashes.
  lemma IdentifierIsHash(p: Primitives, m: Message, m': Message)
    ensures GetID(p, m) == GetID(p, m') <==> p.sha256(Preimage(m)) == p.sha256(Preimage(m'))
  {
    hide Preimage;
    if GetID(p, m) == GetID(p, m') {
      HexInjective(p.sha256(Preimage(m)), p.sha256(Preimage(m')));
    }
  }

  function Bytes(m: Message): seq<byte> {
    Utf8(m.timestamp) + Utf8(m.address) + Utf8(m.kind) + m.payload.Bytes() + Utf8(m.publicKey)
  }

  function Abs(n: int): nat { if n < 0 then -n else n }

  // SignWithKey: the public key is set first, and is part of what is signed.
  function Signed(p: Primitives, m: Message, keys: KeyPair, random: int): Message {
    var k := ToEcdsaPrivateKey(keys);
    var named := m.(publicKey := HexEncode(FixedWidth.Join64(Abs(k.x), Abs(k.y))));
    named.(signature := HexEncode(Crypto.Sign(p, p.sha256(Bytes(named)), Abs(k.d), random)))
  }

  predicate Verified(p: Primitives, m: Message) {
    HexDecode(m.signature).Some? && HexDecode(m.publicKey).Some?
    && Crypto.VerifySignature(p, HexDecode(m.signature).value, HexDecode(m.publicKey).value, p.sha256(Bytes(m)))
  }

  // A message verifies exactly when its signature holds for the hash of its bytes.
  lemma VerifiedExactly(p: Primitives, m: Message)
    ensures Verified(p, m) <==> SignatureHolds(p, m.signature, m.publicKey, p.sha256(Bytes(m)))
  {
    hide HexDecode, Bytes, Crypto.VerifySignature;
    if HexDecode(m.signature).Some? && HexDecode(m.publicKey).Some? {
      VerifiesHalves(p, m.signature, m.publicKey, p.sha256(Bytes(m)));
    }
  }

  // The parts of a message that are signed, in the order in which they are.
  function SignedParts(m: Message): (parts: seq<seq<byte>>)
    ensures |parts| == 6
  {
    [Utf8(m.timestamp), Utf8(m.address), Utf8(m.kind), Utf8(m.payload.data),
     Utf8(m.payload.reference), Utf8(m.publicKey)]
  }

  // The signed bytes are those parts and nothing else.
  lemma SignedLayout(m: Message)
    ensures Bytes(m) == Joined(SignedParts(m), 6)
  {
    hide Utf8;
    var p := SignedParts(m);
    assert Joined(p, 1) == p[0];
    assert Joined(p, 3) == p[0] + p[1] + p[2];
    assert Joined(p, 5) == Joined(p, 3) + p[3] + p[4] == Joined(p, 3) + (p[3] + p[4]);
  }

  // The messages differ in at most one of these fields.
  ghost predicate OneFieldApart(m: Message, m': Message) {
    m' == m.(timestamp := m'.timestamp) || m' == m.(address := m'.address) || m' == m.(kind := m'.kind)
    || m' == m.(payload := m.payload.(data := m'.payload.data))
    || m' == m.(payload := m.payload.(reference := m'.payload.reference)) || m' == m.(publicKey := m'.publicKey)
  }

  // Such messages have different signed bytes.
  lemma BytesTell(m: Message, m': Message)
    requires OneFieldApart(m, m') && Bytes(m) == Bytes(m')
    ensures m == m'
  {
    hide Utf8, Bytes, Joined;
    var p, q := SignedParts(m), SignedParts(m');
    SignedLayout(m);
    SignedLayout(m');
    if m' == m.(timestamp := m'.timestamp) {
      OnePartDiffers(p, q, 0);
      Utf8Injective(m.timestamp, m'.timestamp);
    } else if m' == m.(address := m'.address) {
      OnePartDiffers(p, q, 1);
      Utf8Injective(m.address, m'.address);
    } else if m' == m.(kind := m'.kind) {
      OnePartDiffers(p, q, 2);
      Utf8Injective(m.kind, m'.kind);
    } else if m' == m.(payload := m.payload.(data := m'.payload.data)) {
      OnePartDiffers(p, q, 3);
      Utf8Injective(m.payload.data, m'.payload.data);
    } else if m' == m.(payload := m.payload.(reference := m'.payload.reference)) {
      OnePartDiffers(p, q, 4);
      Utf8Injective(m.payload.reference, m'.payload.reference);
    } else {
      OnePartDiffers(p, q, 5);
      Utf8Injective(m.publicKey, m'.publicKey);
    }
  }

  // Older: false as soon as one of the two timestamps cannot be read.
  predicate Older(w: World, m: Message, rec: Message) {
    w.parseTime(m.timestamp).Some? && w.parseTime(rec.timestamp).Some?
    && w.parseTime(m.timestamp).value < w.parseTime(rec.timestamp).value
  }

  // A message signed with a key pair made here verifies.
  lemma SignedMessageVerifies(p: Primitives, m: Message, d: nat, random: int)
    requires CurveLaws(p) && 0 < d < ORDER
    ensures Verified(p, Signed(p, m, NewKeyPair(p, d), random))
  {
    var (x, y) := p.publicPoint(d);
    KeyRoundTrip(p, d);
    var named := m.(publicKey := HexEncode(FixedWidth.Join64(x, y)));
    var signed := Signed(p, m, NewKeyPair(p, d), random);
    SignedVerifies(p, d, p.sha256(Bytes(named)), random);
    HexRoundTrip(FixedWidth.Join64(x, y));
    HexRoundTrip(Crypto.Sign(p, p.sha256(Bytes(named)), d, random));
    assert Bytes(signed) == Bytes(named);
  }

  // ---------- requests ----------

  // getQueryNameRequestFromName
  function RequestFor(p: Primitives, name: string): Result<Message, Error> {
    match QueryAddress(p, name)
    case Err(e) => Err(e)
    case Ok(addr) => Ok(Message("", addr, REQUEST, Query(name, ""), "", ""))
  }

  lemma SplitShape(name: string)
    requires |Split(name)| >= 3
    ensures var parts := Split(name);
            SlashFree(parts[0]) && SlashFree(parts[1])
            && name == parts[0] + "/" + (parts[1] + "/" + Join(parts[2..]))
  {
    var parts := Split(name);
    JoinSplit(name);
    assert parts[0] in parts && parts[1] in parts;
    assert parts[1..][1..] == parts[2..] && parts[1..][0] == parts[1];
    assert Join(parts) == parts[0] + "/" + Join(parts[1..]);
    assert Join(parts[1..]) == parts[1] + "/" + Join(parts[2..]);
  }

  // The text a request's identifier is the hash of.
  function RequestText(addr: string, name: string): string {
    addr + "QUERY.NAME.REQUEST" + name
  }

  lemma EmptyUtf8()
    ensures Utf8("") == []
  {
  }

  lemma RequestAddress(p: Primitives, name: string)
    requires RequestFor(p, name).Ok?
    ensures |Split(name)| >= 3 && RequestFor(p, name).value.address == Split(name)[1]
  {
    hide Validity;
  }

  lemma RequestPreimage(p: Primitives, name: string)
    requires RequestFor(p, name).Ok?
    ensures var m := RequestFor(p, name).value; Preimage(m) == Utf8(RequestText(m.address, name))
  {
    hide Utf8, QueryAddress;
    var m := RequestFor(p, name).value;
    assert Utf8("") == [] by { EmptyUtf8(); }
    Utf8Append(m.address, REQUEST);
    Utf8Append(m.address + REQUEST, name);
    assert Utf8(name) + Utf8("") == Utf8(name);
  }

  lemma SameText(addr: string, a: string, b: string)
    requires RequestText(addr, a) == RequestText(addr, b)
    ensures a == b
  {
    DropPrefix(addr + REQUEST, a, b);
  }

  lemma TextParts(addr: string, name: string)
    requires |Split(name)| >= 3 && addr == Split(name)[1]
    ensures var parts := Split(name);
            SlashFree(addr + REQUEST + parts[0])
            && RequestText(addr, name) == addr + REQUEST + parts[0] + "/" + (parts[1] + "/" + Join(parts[2..]))
  {
    hide Split, Join;
    SplitShape(name);
    assert SlashFree(REQUEST);
    var parts := Split(name);
    var rest := parts[1] + "/" + Join(parts[2..]);
    Regroup(addr + REQUEST, parts[0], "/", rest);
  }

  // The first slash of that text is the first slash of the name, so what stands between the first
  // two slashes is the address; hence different names have different texts. The address need not be
  // over any alphabet.
  lemma RequestTextInjective(p: Primitives, a: string, b: string)
    requires RequestFor(p, a).Ok? && RequestFor(p, b).Ok?
    requires Preimage(RequestFor(p, a).value) == Preimage(RequestFor(p, b).value)
    ensures a == b
  {
    hide Utf8, Split, Join, Preimage, RequestFor, RequestText;
    var x, y := RequestFor(p, a).value.address, RequestFor(p, b).value.address;
    RequestAddress(p, a);
    RequestAddress(p, b);
    RequestPreimage(p, a);
    RequestPreimage(p, b);
    Utf8Injective(RequestText(x, a), RequestText(y, b));
    SplitShape(a);
    SplitShape(b);
    TextParts(x, a);
    TextParts(y, b);
    var s, t := Split(a), Split(b);
    HeadSegmentUnique(x + REQUEST + s[0], s[1] + "/" + Join(s[2..]), y + REQUEST + t[0], t[1] + "/" + Join(t[2..]));
    HeadSegmentUnique(s[1], Join(s[2..]), t[1], Join(t[2..]));
    SameText(x, a, b);
  }

  // Requests for different names have different identifiers, unless SHA-256 collides on the two.
  lemma IdentifierTellsName(p: Primitives, a: string, b: string)
    requires RequestFor(p, a).Ok? && RequestFor(p, b).Ok? && a != b
    requires var (x, y) := (Preimage(RequestFor(p, a).value), Preimage(RequestFor(p, b).value));
             p.sha256(x) == p.sha256(y) ==> x == y
    ensures GetID(p, RequestFor(p, a).value) != GetID(p, RequestFor(p, b).value)
  {
    hide Preimage, RequestFor, GetID;
    IdentifierIsHash(p, RequestFor(p, a).value, RequestFor(p, b).value);
    if Preimage(RequestFor(p, a).value) == Preimage(RequestFor(p, b).value) {
      RequestTextInjective(p, a, b);
    }
  }
}
