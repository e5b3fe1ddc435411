/** dag/dag.go: the class over a content store and a resolver, proved against the functions of DagSpec. */
module Dag {
  import opened Address
  import opened DagSpec
  import opened DataStore
  import opened Errors
  import opened LocalResolver
  import opened Names
  import opened Node
  import opened Text
  import opened Wrappers

  class Dag {
    const w: World
    const dt: LocalDataStore
    const resolver: LocalResolver

    ghost predicate Valid() {
      dt.crypto == w.crypto && resolver.crypto == w.crypto
    }

    ghost function Contents(): State
      reads dt, resolver
    {
      State(dt.pairs, dt.paths, resolver.names, resolver.addresses.Keys)
    }

    constructor (w: World)
      ensures Valid() && fresh(dt) && fresh(resolver) && Contents() == INITIAL && this.w == w
    {
      this.w := w;
      dt := new LocalDataStore(w.crypto);
      resolver := new LocalResolver(w.crypto);
    }

    method Manage(addr: Address) returns (er: Option<Error>)
      requires Valid()
      modifies resolver
      ensures Contents() == DagSpec.Manage(old(Contents()), addr).st
      ensures er.None? <==> DagSpec.Manage(old(Contents()), addr).res.Ok?
      ensures er.Some? ==> DagSpec.Manage(old(Contents()), addr).res == Err(er.value)
    {
      er := resolver.Manage(addr);
    }

    // ---------- reading ----------

    method GetNodeByKey(key: string) returns (r: Result<Option<Node>, Error>)
      requires Valid()
      ensures r == GetNode(w, Contents(), key)
    {
      var f := dt.Get(key);
      if f.None? {
        return Err(ErrNodeNotFound);
      }
      var reader := f.value;
      var json: seq<byte> := [];
      var buf := new byte[512](_ => 0);
      while true
        invariant reader.Valid() && json == reader.data[..reader.pos]
        decreases |reader.data| - reader.pos
      {
        var nr, eof := reader.Read(buf);
        if nr > 0 {
          json := json + buf[0..nr];
        }
        if eof {
          break;
        }
      }
      assert json == dt.pairs[key];
      if |json| == 0 {
        return Ok(None);
      }
      var n := w.fromJson(json);
      if n.None? {
        return Err(ErrJson);
      }
      return Ok(Some(n.value));
    }

    method GetLast(root: string, branch: string) returns (r: Result<(Option<Node>, string), Error>)
      requires Valid()
      ensures r == DagSpec.GetLast(w, Contents(), root, branch)
    {
      if branch == "" {
        return Err(ErrInvalidBranch);
      }
      var rootNode := GetNodeByKey(root);
      if rootNode.Err? {
        return Err(rootNode.error);
      }
      if rootNode.value.None? {
        return Err(Panic);
      }
      var key := resolver.Resolve(LastName(w.nameSpace, rootNode.value.value.address, root, branch));
      if key.Err? {
        return Err(key.error);
      }
      var tip := GetNodeByKey(key.value);
      if tip.Err? {
        if tip.error == ErrNodeNotFound {
          return Ok((rootNode.value, root));
        }
        return Err(tip.error);
      }
      return Ok((tip.value, key.value));
    }

    method GetRoot(addr: string) returns (r: Result<(Option<Node>, string), Error>)
      requires Valid()
      ensures r == DagSpec.GetRoot(w, Contents(), addr)
    {
      var key := resolver.Resolve(RootName(w.nameSpace, addr));
      if key.Err? {
        return Err(key.error);
      }
      var n := GetNodeByKey(key.value);
      if n.Err? {
        return Err(n.error);
      }
      return Ok((n.value, key.value));
    }

    // ---------- verification ----------

    method VerifyAddress(n: Node) returns (er: Option<Error>)
      ensures er == AddressError(w, n)
    {
      var valid := IsValid(w.crypto, n.address);
      if valid == Panics {
        return Some(Panic);
      }
      if valid == Fails {
        return Some(ErrInvalidChecksum);
      }
      match MatchesPubKey(w.crypto, n.address, n.pubKey)
      case Panics => return Some(Panic);
      case Fails => return Some(ErrAddressDoesNotMatchPubKey);
      case Passes => return None;
    }

    method VerifyNode(n: Node, root: string, mustBeNew: bool) returns (er: Option<Error>)
      requires Valid()
      ensures er == VerifyError(w, Contents(), n, root, mustBeNew)
    {
      er := VerifyAddress(n);
      if er.Some? {
        return;
      }
      if w.parseTime(n.timestamp).None? {
        return Some(ErrInvalidNodeTimestamp);
      }
      if n.seqNo == 0 {
        return Some(ErrInvalidBranchSeq);
      }
      er := VerifySignature(w.crypto, n);
      if er.Some? {
        return;
      }
      if n.branch == "" {
        return Some(ErrInvalidBranch);
      }
      var previous := GetNodeByKey(n.previous);
      if previous.Err? {
        return Some(if previous.error == ErrNodeNotFound then ErrPreviousNodeNotFound else previous.error);
      }
      if previous.value.None? {
        return Some(ErrPreviousNodeNotFound);
      }
      if mustBeNew {
        er := VerifyPosition(n, root, previous.value.value);
      }
    }

    // The mustBeNew block of VerifyNode.
    method VerifyPosition(n: Node, root: string, previous: Node) returns (er: Option<Error>)
      requires Valid()
      ensures er == PositionError(w, Contents(), n, root, previous)
    {
      var branchRoot := GetNodeByKey(root);
      if branchRoot.Err? {
        return Some(branchRoot.error);
      }
      if branchRoot.value.None? {
        return Some(ErrBranchRootNotFound);
      }
      if !HasBranch(branchRoot.value.value, n.branch) {
        return Some(ErrInvalidBranch);
      }
      var last := GetLast(root, n.branch);
      if last.Err? {
        return Some(last.error);
      }
      var (branchHead, branchHeadKey) := last.value;
      if branchHead.None? {
        return Some(ErrHeadNodeNotFound);
      }
      if branchHeadKey != n.previous {
        return Some(ErrPreviousNodeIsNotHead);
      }
      if branchHeadKey == root && n.branch != branchHead.value.branch && n.seqNo != 1 {
        return Some(ErrInvalidBranchSeq);
      }
      if n.branch == previous.branch && n.seqNo != Next32(previous.seqNo) {
        return Some(ErrInvalidBranchSeq);
      }
      return None;
    }

    // ---------- writing ----------

    method GetFullPath(key: string, stack: set<string>) returns (r: PathResult)
      requires Valid()
      ensures r == DagSpec.FullPath(w, Contents(), key, stack)
      decreases dt.pairs.Keys - stack
    {
      if key == "" {
        return Path("", None);
      }
      if key in stack {
        return Crash;
      }
      var n := GetNodeByKey(key);
      if n.Err? {
        return Path("", Some(n.error));
      }
      if n.value.None? {
        return Crash;
      }
      var node := n.value.value;
      if node.branchRoot == "" {
        return Path(GetName(w.nameSpace, node.address, [key]), None);
      }
      r := GetFullPath(node.branchRoot, stack + {key});
      if r.Path? {
        if r.er.Some? {
          return Path(key, r.er);
        }
        if r.path == "" {
          return Path(key, None);
        }
        return Path(r.path + "/branches/" + node.branch + "/" + key, None);
      }
    }

    method AddResolutionForNodeBranches(n: Node, key: string) returns (er: Option<Error>)
      requires Valid()
      modifies resolver`names
      ensures Contents() == DagSpec.AddBranches(w, old(Contents()), n, key, n.branches).st
      ensures DagSpec.AddBranches(w, old(Contents()), n, key, n.branches).res
           == if er.Some? then Err(er.value) else Ok(key)
    {
      for i := 0 to |n.branches|
        invariant DagSpec.AddBranches(w, old(Contents()), n, key, n.branches)
               == DagSpec.AddBranches(w, Contents(), n, key, n.branches[i..])
        invariant dt.pairs == old(dt.pairs) && dt.paths == old(dt.paths)
        invariant resolver.addresses == old(resolver.addresses)
      {
        assert n.branches[i..][1..] == n.branches[i + 1..];
        er := resolver.Add(LastName(w.nameSpace, n.address, key, n.branches[i]), key);
        if er.Some? {
          return;
        }
      }
      return None;
    }

    method SaveNode(n: Node, root: string) returns (r: Result<string, Error>)
      requires Valid()
      modifies dt, resolver`names
      ensures Outcome(Contents(), r) == DagSpec.SaveNode(w, old(Contents()), n, root)
    {
      var branchRoot := GetNodeByKey(root);
      if branchRoot.Err? {
        return Err(branchRoot.error);
      }
      if branchRoot.value.None? {
        return Err(ErrBranchRootNotFound);
      }
      var fullPath := GetFullPath(root, {});
      if fullPath.Crash? {
        return Err(Panic);
      }
      var data := w.toJson(n);
      var key, _ := dt.Put(data, Some(cid => Join([fullPath.path, "branches", n.branch, cid, "node"])));
      var er := resolver.Add(LastName(w.nameSpace, branchRoot.value.value.address, root, n.branch), key);
      if er.Some? {
        return Err(er.value);
      }
      er := AddResolutionForNodeBranches(n, key);
      if er.Some? {
        return Err(er.value);
      }
      return Ok(key);
    }

    method SaveRootNode(n: Node) returns (r: Result<string, Error>)
      requires Valid()
      modifies dt, resolver`names
      ensures Outcome(Contents(), r) == DagSpec.SaveRootNode(w, old(Contents()), n)
    {
      var data := w.toJson(n);
      var key, _ := dt.Put(data, Some(cid => GetName(w.nameSpace, n.address, [cid, "node"])));
      var er := resolver.Add(LastName(w.nameSpace, n.address, key, n.branch), key);
      if er.Some? {
        return Err(er.value);
      }
      er := resolver.Add(RootName(w.nameSpace, n.address), key);
      if er.Some? {
        return Err(er.value);
      }
      er := AddResolutionForNodeBranches(n, key);
      if er.Some? {
        return Err(er.value);
      }
      return Ok(key);
    }

    method Append(n: Node, root: string) returns (r: Result<string, Error>)
      requires Valid()
      modifies dt, resolver`names
      ensures Outcome(Contents(), r) == DagSpec.Append(w, old(Contents()), n, root)
    {
      var er := VerifyNode(n, root, true);
      if er.Some? {
        return Err(er.value);
      }
      r := SaveNode(n, root);
    }

    method SetRoot(n: Node) returns (r: Result<string, Error>)
      requires Valid()
      modifies dt, resolver`names
      ensures Outcome(Contents(), r) == DagSpec.SetRoot(w, old(Contents()), n)
    {
      if n.branch == "" {
        return Err(ErrInvalidBranch);
      }
      if !HasBranch(n, n.branch) {
        return Err(ErrDefaultBranchNotSpecified);
      }
      var root := GetRoot(n.address);
      if root == Err(Panic) {
        return Err(Panic);
      }
      if root.Err? || root.value.0.None? {
        r := SaveRootNode(n);
        return;
      }
      return Err(ErrDagAlreadyInitialized);
    }
  }
}
