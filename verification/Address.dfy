/** address/address.go: addresses are Base58 of version, public-key hash and checksum. */
module Address {
  import opened Base58
  import opened Crypto
  import opened Text
  import opened Wrappers

  const VERSION: byte := 0x00
  const CHECKSUM_LEN := 4

  // The answer of a Go predicate that can also panic.
  datatype Check = Passes | Fails | Panics

  datatype Address = Address(keys: Option<KeyPair>, address: string) {
    predicate HasKeys() {
      keys.Some? && keys.value.publicKey != "" && keys.value.privateKey != ""
    }
  }

  function HashPubKey(p: Primitives, pubKey: seq<byte>): Hash160 {
    p.ripemd160(p.sha256(pubKey))
  }

  function Checksum(p: Primitives, payload: seq<byte>): (c: seq<byte>)
    ensures |c| == CHECKSUM_LEN
  {
    p.sha256(p.sha256(payload))[..CHECKSUM_LEN]
  }

  function VersionedPayload(p: Primitives, pubKey: seq<byte>): seq<byte> {
    [VERSION] + HashPubKey(p, pubKey)
  }

  // None is the panic inside Base58Encode.
  function AddressOf(p: Primitives, pubKey: seq<byte>): Option<string> {
    var payload := VersionedPayload(p, pubKey);
    match Encode(payload + Checksum(p, payload))
    case None => None
    case Some(text) => Some(FromAscii(text))
  }

  method GenerateAddressHash(p: Primitives, pubKey: seq<byte>) returns (r: Option<string>)
    ensures r == AddressOf(p, pubKey)
  {
    var pubKeyHash := HashPubKey(p, pubKey);
    var versionedPayload := [VERSION] + pubKeyHash;
    var checksum := Checksum(p, versionedPayload);
    var fullPayload := versionedPayload + checksum;
    var address := Base58Encode(fullPayload);
    return match address case None => None case Some(text) => Some(FromAscii(text));
  }

  function MatchesPubKey(p: Primitives, addr: string, pubKey: string): Check {
    match HexDecode(pubKey)
    case None => Fails
    case Some(pk) =>
      match AddressOf(p, pk)
      case None => Panics
      case Some(hash) => if addr == hash then Passes else Fails
  }

  function Validity(p: Primitives, addr: string): Check {
    if addr == "" then Fails
    else
      match Decode(Utf8(addr))
      case None => Panics
      case Some(b) =>
        if |b| <= CHECKSUM_LEN then Fails
        else if b[|b| - CHECKSUM_LEN..] == Checksum(p, b[..|b| - CHECKSUM_LEN]) then Passes
        else Fails
  }

  method IsValid(p: Primitives, addr: string) returns (r: Check)
    ensures r == Validity(p, addr)
  {
    hide Decode, Checksum, Utf8;
    if |addr| == 0 {
      return Fails;
    }
    var decoded := Base58Decode(Utf8(addr));
    if decoded.None? {
      return Panics;
    }
    var pubKeyHash := decoded.value;
    if |pubKeyHash| <= CHECKSUM_LEN {
      return Fails;
    }
    var chksum := new byte[CHECKSUM_LEN](_ => 0);
    forall i | 0 <= i < CHECKSUM_LEN {
      chksum[i] := pubKeyHash[|pubKeyHash| - CHECKSUM_LEN + i];
    }
    assert chksum[..] == pubKeyHash[|pubKeyHash| - CHECKSUM_LEN..];
    var chkCalc := Checksum(p, pubKeyHash[..|pubKeyHash| - CHECKSUM_LEN]);
    if chkCalc != chksum[..] {
      return Fails;
    }
    return Passes;
  }

  // A well-formed encoding is valid exactly when its last four bytes are the checksum of the rest.
  lemma ValidExactlyWithChecksum(p: Primitives, payload: seq<byte>, check: seq<byte>)
    requires payload != [] && |check| == CHECKSUM_LEN
    requires exists i :: 0 <= i < |payload + check| && (payload + check)[i] != 0
    ensures Encode(payload + check).Some?
    ensures Validity(p, FromAscii(Encode(payload + check).value)) == Passes
       <==> check == Checksum(p, payload)
  {
    var x := payload + check;
    DecodeOfEncode(x);
    var text := Encode(x).value;
    Utf8OfAscii(text);
    assert x[..|x| - CHECKSUM_LEN] == payload && x[|x| - CHECKSUM_LEN..] == check;
  }

  lemma AlphabetIsSlashFree(text: seq<byte>)
    requires InAlphabet(text) && Ascii(text)
    ensures SlashFree(FromAscii(text))
  {
    forall i | 0 <= i < |text| ensures text[i] != '/' as int {
      LetterOfIndex(text[i]);
    }
  }

  // Generation panics only when payload and checksum are all zero; otherwise the address is valid,
  // matches the public key it was made from, and holds no slash.
  lemma GeneratedAddress(p: Primitives, pubKey: seq<byte>)
    ensures var payload := VersionedPayload(p, pubKey); var full := payload + Checksum(p, payload);
            AddressOf(p, pubKey).Some? <==> exists i :: 0 <= i < |full| && full[i] != 0
    ensures AddressOf(p, pubKey).Some? ==>
              var addr := AddressOf(p, pubKey).value;
              Validity(p, addr) == Passes && SlashFree(addr) &&
              MatchesPubKey(p, addr, HexEncode(pubKey)) == Passes
  {
    var payload := VersionedPayload(p, pubKey);
    var full := payload + Checksum(p, payload);
    DecodeOfEncode(full);
    if AddressOf(p, pubKey).Some? {
      ValidExactlyWithChecksum(p, payload, Checksum(p, payload));
      AlphabetIsSlashFree(Encode(full).value);
      HexRoundTrip(pubKey);
    }
  }

  // The only addresses that match some public key are generated ones.
  lemma MatchingAddress(p: Primitives, addr: string, pubKey: string)
    requires MatchesPubKey(p, addr, pubKey) == Passes
    ensures SlashFree(addr) && Validity(p, addr) == Passes
  {
    GeneratedAddress(p, HexDecode(pubKey).value);
  }

  // An address is the Base58 text of one version byte, the RIPEMD-160 hash of the SHA-256 hash of the
  // public key, and the first four bytes of the double SHA-256 hash of those.
  lemma AddressLayout(p: Primitives, pubKey: seq<byte>)
    requires AddressOf(p, pubKey).Some?
    ensures var payload := [0x00] + p.ripemd160(p.sha256(pubKey));
            Decode(Utf8(AddressOf(p, pubKey).value)) == Some(payload + p.sha256(p.sha256(payload))[..4])
  {
    var payload := VersionedPayload(p, pubKey);
    var full := payload + Checksum(p, payload);
    DecodeOfEncode(full);
    Utf8OfAscii(Encode(full).value);
  }

  // An address matches exactly the keys it is the address of.
  lemma MatchesExactly(p: Primitives, addr: string, pubKey: string)
    ensures MatchesPubKey(p, addr, pubKey) == Passes
       <==> HexDecode(pubKey).Some? && AddressOf(p, HexDecode(pubKey).value) == Some(addr)
    ensures MatchesPubKey(p, addr, pubKey) == Panics
       <==> HexDecode(pubKey).Some? && AddressOf(p, HexDecode(pubKey).value).None?
  {
    hide AddressOf;
  }

  // Keys with the same address collide under RIPEMD-160 of SHA-256.
  lemma SameAddressCollides(p: Primitives, k: seq<byte>, k': seq<byte>)
    requires AddressOf(p, k).Some? && AddressOf(p, k) == AddressOf(p, k')
    ensures p.ripemd160(p.sha256(k)) == p.ripemd160(p.sha256(k'))
  {
    hide Decode, Encode, AddressOf, Utf8;
    AddressLayout(p, k);
    AddressLayout(p, k');
    var h, h' := p.ripemd160(p.sha256(k)), p.ripemd160(p.sha256(k'));
    var x := ([0x00] + h) + p.sha256(p.sha256([0x00] + h))[..4];
    var x' := ([0x00] + h') + p.sha256(p.sha256([0x00] + h'))[..4];
    assert x == x' && h == x[1..21] && h' == x'[1..21];
  }

  lemma NoneOfEmpty()
    ensures Decode(Utf8("")).None?
  {
  }

  // A text is valid exactly when it decodes to more than four bytes of which the last four are the
  // first four of the double SHA-256 hash of the others.
  lemma ValidExactly(p: Primitives, addr: string)
    ensures Validity(p, addr) == Passes
       <==> Decode(Utf8(addr)).Some?
            && var b := Decode(Utf8(addr)).value;
               4 < |b| && b[|b| - 4..] == p.sha256(p.sha256(b[..|b| - 4]))[..4]
  {
    hide Decode, Utf8;
    if addr == "" {
      NoneOfEmpty();
    }
  }

  // Valid texts with the same check bytes collide in the first four bytes of the double hash.
  lemma SameCheckBytesCollide(p: Primitives, addr: string, addr': string)
    requires Validity(p, addr) == Validity(p, addr') == Passes
    ensures Decode(Utf8(addr)).Some? && Decode(Utf8(addr')).Some?
    ensures var (b, b') := (Decode(Utf8(addr)).value, Decode(Utf8(addr')).value);
            4 < |b| && 4 < |b'|
            && (b[|b| - 4..] == b'[|b'| - 4..] <==>
                  p.sha256(p.sha256(b[..|b| - 4]))[..4] == p.sha256(p.sha256(b'[..|b'| - 4]))[..4])
  {
    hide Decode, Utf8, Validity;
    ValidExactly(p, addr);
    ValidExactly(p, addr');
  }

  lemma {:induction false} OnesInUtf8(s: string)
    ensures (forall i :: 0 <= i < |Utf8(s)| ==> Utf8(s)[i] == ONE) <==> (forall i :: 0 <= i < |s| ==> s[i] == '1')
  {
    if s != "" {
      var head, tail := EncodeChar(s[0]), Utf8(s[1..]);
      OnesInUtf8(s[1..]);
      assert Utf8(s)[0] == head[0];
      assert forall i :: 0 <= i < |tail| ==> Utf8(s)[|head| + i] == tail[i];
      assert forall i :: 0 <= i < |s| - 1 ==> s[i + 1] == s[1..][i];
      assert s[0] == '1' <==> head[0] == ONE;
      if s[0] == '1' {
        assert forall i :: 0 <= i < |Utf8(s)| ==> i == 0 || Utf8(s)[i] == tail[i - 1];
        assert forall i :: 0 <= i < |s| ==> i == 0 || s[i] == s[1..][i - 1];
      }
    }
  }

  // The validity test panics exactly on the non-empty texts made of '1' alone.
  lemma {:induction false} ValidityPanics(p: Primitives, addr: string)
    ensures Validity(p, addr) == Panics <==> addr != "" && forall i :: 0 <= i < |addr| ==> addr[i] == '1'
  {
    if addr != "" {
      var b := Utf8(addr);
      EncodeOfDecode(b);
      OnesInUtf8(addr);
      assert Decode(b).None? <==> forall i :: 0 <= i < |b| ==> b[i] == ONE;
    }
  }
}
