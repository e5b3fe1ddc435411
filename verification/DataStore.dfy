/** datastore/local-data-store.go: content-addressed bytes, with an index of paths. */
module DataStore {
  import opened Crypto
  import opened Text
  import opened Wrappers

  function KeyOf(p: Primitives, b: seq<byte>): string {
    HexEncode(p.sha256(b))
  }

  // Equal keys are equal hashes.
  lemma KeyIsHash(p: Primitives, b: seq<byte>, c: seq<byte>)
    ensures KeyOf(p, b) == KeyOf(p, c) <==> p.sha256(b) == p.sha256(c)
  {
    if KeyOf(p, b) == KeyOf(p, c) {
      HexInjective(p.sha256(b), p.sha256(c));
    }
  }

  // Keys are 64 hexadecimal digits.
  lemma KeyShape(p: Primitives, b: seq<byte>)
    ensures SlashFree(KeyOf(p, b)) && |KeyOf(p, b)| == 64
  {
    HexIsSlashFree(p.sha256(b));
  }

  // bytes.Reader
  class Reader {
    const data: seq<byte>
    var pos: nat

    ghost predicate Valid()
      reads this
    {
      pos <= |data|
    }

    constructor (b: seq<byte>)
      ensures Valid() && data == b && pos == 0
    {
      data, pos := b, 0;
    }

    // Fills the buffer as far as the data goes; io.EOF is only reported once nothing is left.
    method Read(buf: array<byte>) returns (nr: nat, eof: bool)
      requires Valid()
      modifies this, buf
      ensures Valid() && nr <= buf.Length && pos == old(pos) + nr
      ensures buf[..nr] == data[old(pos)..pos]
      ensures eof <==> old(pos) == |data|
      ensures !eof && buf.Length > 0 ==> nr > 0
    {
      if pos == |data| {
        return 0, true;
      }
      nr := if buf.Length <= |data| - pos then buf.Length else |data| - pos;
      forall i | 0 <= i < nr {
        buf[i] := data[pos + i];
      }
      pos := pos + nr;
      eof := false;
    }
  }

  class LocalDataStore {
    const crypto: Primitives
    var pairs: map<string, seq<byte>>
    var paths: map<string, string>

    constructor (crypto: Primitives)
      ensures this.crypto == crypto && pairs == map[] && paths == map[]
    {
      this.crypto := crypto;
      pairs, paths := map[], map[];
    }

    // Without a path function nothing is indexed, and the path is empty.
    method Put(b: seq<byte>, pathFunc: Option<string -> string>) returns (key: string, path: string)
      modifies this
      ensures key == KeyOf(crypto, b) && pairs == old(pairs)[key := b]
      ensures path == if pathFunc.Some? then pathFunc.value(key) else ""
      ensures paths == if pathFunc.Some? then old(paths)[path := key] else old(paths)
    {
      key := HexEncode(crypto.sha256(b));
      pairs := pairs[key := b];
      path := "";
      if pathFunc.Some? {
        path := pathFunc.value(key);
        paths := paths[path := key];
      }
    }

    method Get(key: string) returns (r: Option<Reader>)
      ensures r.Some? <==> key in pairs
      ensures r.Some? ==> fresh(r.value) && r.value.Valid() && r.value.pos == 0 && r.value.data == pairs[key]
    {
      if key !in pairs {
        return None;
      }
      var reader := new Reader(pairs[key]);
      return Some(reader);
    }
  }
}
