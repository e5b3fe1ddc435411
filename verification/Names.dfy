/** The names of dag/dag.go and the name parser of resolver/resolver.go. */
module Names {
  import opened Address
  import opened Crypto
  import opened Errors
  import opened Text
  import opened Wrappers

  // ---------- dag.go ----------

  function GetName(ns: string, addr: string, parts: seq<string>): string {
    "/" + addr + "/" + ns + "/dag/" + Join(parts)
  }

  function RootName(ns: string, addr: string): string {
    GetName(ns, addr, ["shortcuts", "root"])
  }

  function LastName(ns: string, addr: string, key: string, branch: string): string {
    GetName(ns, addr, ["shortcuts", key, branch, "last"])
  }

  // What follows the address and a slash in each kind of name.
  function RootTail(ns: string): string {
    ns + "/dag/shortcuts/" + "root"
  }

  function LastTail(ns: string, key: string, branch: string): string {
    ns + "/dag/shortcuts/" + (key + "/" + (branch + "/last"))
  }

  lemma RootNameShape(ns: string, addr: string)
    ensures RootName(ns, addr) == "/" + (addr + "/" + RootTail(ns))
  {
    assert ["shortcuts", "root"][1..] == ["root"];
    assert Join(["shortcuts", "root"]) == "shortcuts" + "/" + "root";
    assert "/dag/" + ("shortcuts" + "/" + "root") == "/dag/shortcuts/" + "root";
  }

  lemma LastNameShape(ns: string, addr: string, key: string, branch: string)
    ensures LastName(ns, addr, key, branch) == "/" + (addr + "/" + LastTail(ns, key, branch))
  {
    var parts := ["shortcuts", key, branch, "last"];
    assert parts[1..] == [key, branch, "last"];
    assert parts[1..][1..] == [branch, "last"];
    assert parts[1..][1..][1..] == ["last"];
    assert Join(parts[1..][1..]) == branch + "/" + "last";
    assert branch + "/" + "last" == branch + "/last";
    assert Join(parts[1..]) == key + "/" + (branch + "/last");
    assert Join(parts) == "shortcuts" + "/" + (key + "/" + (branch + "/last"));
    assert "/dag/" + ("shortcuts" + "/" + (key + "/" + (branch + "/last")))
        == "/dag/shortcuts/" + (key + "/" + (branch + "/last"));
  }

  lemma DropPrefix(prefix: string, x: string, y: string)
    requires prefix + x == prefix + y
    ensures x == y
  {
    assert x == (prefix + x)[|prefix|..] == (prefix + y)[|prefix|..] == y;
  }

  lemma DropSuffix(x: string, y: string, suffix: string)
    requires x + suffix == y + suffix
    ensures x == y
  {
    assert |x| == |y|;
    assert x == (x + suffix)[..|x|] == (y + suffix)[..|x|] == y;
  }

  // A branch head's name fixes the address, the branch root and the branch, even when the branch
  // holds slashes.
  lemma LastNameInjective(ns: string, a: string, k: string, b: string, a': string, k': string, b': string)
    requires SlashFree(a) && SlashFree(a') && SlashFree(k) && SlashFree(k')
    requires LastName(ns, a, k, b) == LastName(ns, a', k', b')
    ensures a == a' && k == k' && b == b'
  {
    LastNameShape(ns, a, k, b);
    LastNameShape(ns, a', k', b');
    DropPrefix("/", a + "/" + LastTail(ns, k, b), a' + "/" + LastTail(ns, k', b'));
    HeadSegmentUnique(a, LastTail(ns, k, b), a', LastTail(ns, k', b'));
    DropPrefix(ns + "/dag/shortcuts/", k + "/" + (b + "/last"), k' + "/" + (b' + "/last"));
    HeadSegmentUnique(k, b + "/last", k', b' + "/last");
    DropSuffix(b, b', "/last");
  }

  lemma RootNameInjective(ns: string, a: string, a': string)
    requires SlashFree(a) && SlashFree(a')
    requires RootName(ns, a) == RootName(ns, a')
    ensures a == a'
  {
    RootNameShape(ns, a);
    RootNameShape(ns, a');
    DropPrefix("/", a + "/" + RootTail(ns), a' + "/" + RootTail(ns));
    HeadSegmentUnique(a, RootTail(ns), a', RootTail(ns));
  }

  lemma RootNameIsNoLastName(ns: string, a: string, a': string, k: string, b: string)
    requires SlashFree(a) && SlashFree(a')
    ensures RootName(ns, a) != LastName(ns, a', k, b)
  {
    var tail := k + "/" + (b + "/last");
    assert tail[|k|] == '/' && SlashFree("root");
    if RootName(ns, a) == LastName(ns, a', k, b) {
      RootNameShape(ns, a);
      LastNameShape(ns, a', k, b);
      DropPrefix("/", a + "/" + RootTail(ns), a' + "/" + LastTail(ns, k, b));
      HeadSegmentUnique(a, RootTail(ns), a', LastTail(ns, k, b));
      DropPrefix(ns + "/dag/shortcuts/", "root", tail);
    }
  }

  // ---------- resolver.go ----------

  // The address component of a name, as the parser of names checks it.
  function QueryAddress(p: Primitives, name: string): Result<string, Error> {
    var parts := Split(name);
    if |parts| < 3 then Err(ErrInvalidName)
    else
      match Validity(p, parts[1])
      case Panics => Err(Panic)
      case Fails => Err(ErrInvalidAddrComponent)
      case Passes => Ok(parts[1])
  }

  // The parser accepts exactly the texts of at least three parts whose second is a valid address, which
  // it returns; how it refuses the others.
  lemma QueryAddressExactly(p: Primitives, name: string)
    ensures var parts := Split(name);
            if |parts| < 3 then QueryAddress(p, name) == Err(ErrInvalidName)
            else (QueryAddress(p, name).Ok? <==> Validity(p, parts[1]) == Passes)
                 && (QueryAddress(p, name).Ok? ==> QueryAddress(p, name).value == parts[1])
                 && (Validity(p, parts[1]) == Fails <==> QueryAddress(p, name) == Err(ErrInvalidAddrComponent))
  {
    hide Validity, Split;
  }

  // The parser finds the address a DAG name was built for.
  lemma NameAddress(ns: string, addr: string, parts: seq<string>)
    requires SlashFree(addr)
    ensures var name := GetName(ns, addr, parts); |Split(name)| >= 3 && Split(name)[1] == addr
  {
    var tail := ns + "/dag/" + Join(parts);
    var name := GetName(ns, addr, parts);
    assert name == "" + "/" + (addr + "/" + tail);
    SplitHead("", addr + "/" + tail);
    SplitHead(addr, tail);
    assert Split(name) == [""] + ([addr] + Split(tail));
  }
}
