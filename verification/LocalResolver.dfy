/** resolver/local_resolver.go: an in-memory map of names, writable below managed addresses. */
module LocalResolver {
  import opened Address
  import opened Crypto
  import opened Errors
  import opened Names
  import opened Wrappers

  function AddError(p: Primitives, managed: set<string>, name: string): Option<Error> {
    match QueryAddress(p, name)
    case Err(e) => Some(e)
    case Ok(addr) => if addr in managed then None else Some(ErrUnmanagedAddress)
  }

  function Lookup(p: Primitives, names: map<string, string>, name: string): Result<string, Error> {
    match QueryAddress(p, name)
    case Err(e) => Err(e)
    case Ok(_) => if name in names then Ok(names[name]) else Err(ErrNameNotFound)
  }

  function ManageError(addr: Address): Option<Error> {
    if addr.keys.None? then Some(Panic)
    else if addr.keys.value.privateKey == "" then Some(ErrNoPrivateKey)
    else None
  }

  class LocalResolver {
    const crypto: Primitives
    var names: map<string, string>
    var addresses: map<string, Address>

    constructor (crypto: Primitives)
      ensures this.crypto == crypto && names == map[] && addresses == map[]
    {
      this.crypto := crypto;
      names, addresses := map[], map[];
    }

    method Add(name: string, value: string) returns (er: Option<Error>)
      modifies this`names
      ensures er == AddError(crypto, addresses.Keys, name)
      ensures names == if er == None then old(names)[name := value] else old(names)
    {
      var rec := QueryAddress(crypto, name);
      if rec.Err? {
        return Some(rec.error);
      }
      if rec.value !in addresses {
        return Some(ErrUnmanagedAddress);
      }
      names := names[name := value];
      return None;
    }

    method Resolve(name: string) returns (r: Result<string, Error>)
      ensures r == Lookup(crypto, names, name)
    {
      var rec := QueryAddress(crypto, name);
      if rec.Err? {
        return Err(rec.error);
      }
      if name !in names {
        return Err(ErrNameNotFound);
      }
      return Ok(names[name]);
    }

    // A nil key pair is a nil-pointer panic.
    method Manage(addr: Address) returns (er: Option<Error>)
      modifies this`addresses
      ensures er == ManageError(addr)
      ensures addresses == if er == None then old(addresses)[addr.address := addr] else old(addresses)
    {
      if addr.keys.None? {
        return Some(Panic);
      }
      if addr.keys.value.privateKey == "" {
        return Some(ErrNoPrivateKey);
      }
      addresses := addresses[addr.address := addr];
      return None;
    }
  }
}
