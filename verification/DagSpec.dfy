/**
 dag/dag.go as functions of the whole state: the content store, its path index, the name index and
 the managed addresses. The class in Dag.dfy is proved to compute these functions.
 */
module DagSpec {
  import opened Address
  import opened DataStore
  import opened Errors
  import opened LocalResolver
  import opened Names
  import opened Node
  import opened Text
  import opened Wrappers

  datatype State = State(
    pairs: map<string, seq<byte>>,
    paths: map<string, string>,
    names: map<string, string>,
    managed: set<string>
  )

  const INITIAL := State(map[], map[], map[], {})

  datatype Outcome = Outcome(st: State, res: Result<string, Error>)

  // ---------- reading ----------

  function NodeKey(w: World, n: Node): string {
    KeyOf(w.crypto, w.toJson(n))
  }

  // getNodeByKey: Ok(None) is the nil node without an error that empty bytes give.
  function GetNode(w: World, st: State, key: string): Result<Option<Node>, Error> {
    if key !in st.pairs then Err(ErrNodeNotFound)
    else if st.pairs[key] == [] then Ok(None)
    else if w.fromJson(st.pairs[key]).None? then Err(ErrJson)
    else Ok(Some(w.fromJson(st.pairs[key]).value))
  }

  predicate HasBranch(n: Node, branch: string) {
    branch in n.branches
  }

  function Resolve(w: World, st: State, name: string): Result<string, Error> {
    Lookup(w.crypto, st.names, name)
  }

  function GetLast(w: World, st: State, root: string, branch: string): Result<(Option<Node>, string), Error> {
    if branch == "" then Err(ErrInvalidBranch)
    else
      match GetNode(w, st, root)
      case Err(e) => Err(e)
      case Ok(None) => Err(Panic)
      case Ok(Some(rootNode)) =>
        match Resolve(w, st, LastName(w.nameSpace, rootNode.address, root, branch))
        case Err(e) => Err(e)
        case Ok(key) =>
          match GetNode(w, st, key)
          case Err(e) => if e == ErrNodeNotFound then Ok((Some(rootNode), root)) else Err(e)
          case Ok(tip) => Ok((tip, key))
  }

  function GetRoot(w: World, st: State, addr: string): Result<(Option<Node>, string), Error> {
    match Resolve(w, st, RootName(w.nameSpace, addr))
    case Err(e) => Err(e)
    case Ok(key) =>
      match GetNode(w, st, key)
      case Err(e) => Err(e)
      case Ok(n) => Ok((n, key))
  }

  // ---------- verification ----------

  function AddressError(w: World, n: Node): Option<Error> {
    match Validity(w.crypto, n.address)
    case Panics => Some(Panic)
    case Fails => Some(ErrInvalidChecksum)
    case Passes =>
      match MatchesPubKey(w.crypto, n.address, n.pubKey)
      case Panics => Some(Panic)
      case Fails => Some(ErrAddressDoesNotMatchPubKey)
      case Passes => None
  }

  // The checks that look at the node alone.
  ghost function IntrinsicError(w: World, n: Node): Option<Error> {
    if AddressError(w, n).Some? then AddressError(w, n)
    else if w.parseTime(n.timestamp).None? then Some(ErrInvalidNodeTimestamp)
    else if n.seqNo == 0 then Some(ErrInvalidBranchSeq)
    else if SignatureError(w.crypto, n).Some? then SignatureError(w.crypto, n)
    else if n.branch == "" then Some(ErrInvalidBranch)
    else None
  }

  function PositionError(w: World, st: State, n: Node, root: string, previous: Node): Option<Error> {
    match GetNode(w, st, root)
    case Err(e) => Some(e)
    case Ok(None) => Some(ErrBranchRootNotFound)
    case Ok(Some(branchRoot)) =>
      if !HasBranch(branchRoot, n.branch) then Some(ErrInvalidBranch)
      else
        match GetLast(w, st, root, n.branch)
        case Err(e) => Some(e)
        case Ok((None, _)) => Some(ErrHeadNodeNotFound)
        case Ok((Some(head), headKey)) =>
          if headKey != n.previous then Some(ErrPreviousNodeIsNotHead)
          else if headKey == root && n.branch != head.branch && n.seqNo != 1 then Some(ErrInvalidBranchSeq)
          else if n.branch == previous.branch && n.seqNo != Next32(previous.seqNo) then Some(ErrInvalidBranchSeq)
          else None
  }

  ghost function VerifyError(w: World, st: State, n: Node, root: string, mustBeNew: bool): Option<Error> {
    if IntrinsicError(w, n).Some? then IntrinsicError(w, n)
    else
      match GetNode(w, st, n.previous)
      case Err(e) => Some(if e == ErrNodeNotFound then ErrPreviousNodeNotFound else e)
      case Ok(None) => Some(ErrPreviousNodeNotFound)
      case Ok(Some(previous)) => if mustBeNew then PositionError(w, st, n, root, previous) else None
  }

  // ---------- paths ----------

  datatype PathResult = Path(path: string, er: Option<Error>) | Crash

  // getFullPath. `seen` holds the keys on the call stack: the recursion is determined by the key, so
  // meeting one of them again is the unbounded recursion that ends the process.
  function FullPath(w: World, st: State, key: string, seen: set<string>): PathResult
    decreases st.pairs.Keys - seen
  {
    if key == "" then Path("", None)
    else if key in seen then Crash
    else
      match GetNode(w, st, key)
      case Err(e) => Path("", Some(e))
      case Ok(None) => Crash
      case Ok(Some(n)) =>
        if n.branchRoot == "" then Path(GetName(w.nameSpace, n.address, [key]), None)
        else
          match FullPath(w, st, n.branchRoot, seen + {key})
          case Crash => Crash
          case Path(s, er) =>
            if er.Some? then Path(key, er)
            else if s == "" then Path(key, None)
            else Path(s + "/branches/" + n.branch + "/" + key, None)
  }

  // ---------- writing ----------

  // Put: the bytes go under their own hash, and the path made from it leads to them.
  function Stored(w: World, st: State, n: Node, path: string): State {
    st.(pairs := st.pairs[NodeKey(w, n) := w.toJson(n)], paths := st.paths[path := NodeKey(w, n)])
  }

  function AddName(w: World, st: State, name: string, key: string): Outcome {
    match AddError(w.crypto, st.managed, name)
    case Some(e) => Outcome(st, Err(e))
    case None => Outcome(st.(names := st.names[name := key]), Ok(key))
  }

  // addResolutionForNodeBranches: stops at the first failure, keeping what was added before.
  function AddBranches(w: World, st: State, n: Node, key: string, branches: seq<string>): Outcome
    decreases |branches|
  {
    if branches == [] then Outcome(st, Ok(key))
    else
      var first := AddName(w, st, LastName(w.nameSpace, n.address, key, branches[0]), key);
      if first.res.Err? then first else AddBranches(w, first.st, n, key, branches[1..])
  }

  function SaveNode(w: World, st: State, n: Node, root: string): Outcome {
    match GetNode(w, st, root)
    case Err(e) => Outcome(st, Err(e))
    case Ok(None) => Outcome(st, Err(ErrBranchRootNotFound))
    case Ok(Some(branchRoot)) =>
      match FullPath(w, st, root, {})
      case Crash => Outcome(st, Err(Panic))
      case Path(fullPath, _) =>
        var key := NodeKey(w, n);
        var stored := Stored(w, st, n, Join([fullPath, "branches", n.branch, key, "node"]));
        var moved := AddName(w, stored, LastName(w.nameSpace, branchRoot.address, root, n.branch), key);
        if moved.res.Err? then moved else AddBranches(w, moved.st, n, key, n.branches)
  }

  function SaveRootNode(w: World, st: State, n: Node): Outcome {
    var key := NodeKey(w, n);
    var stored := Stored(w, st, n, GetName(w.nameSpace, n.address, [key, "node"]));
    var last := AddName(w, stored, LastName(w.nameSpace, n.address, key, n.branch), key);
    if last.res.Err? then last
    else
      var named := AddName(w, last.st, RootName(w.nameSpace, n.address), key);
      if named.res.Err? then named else AddBranches(w, named.st, n, key, n.branches)
  }

  // ---------- the operations ----------

  ghost function Append(w: World, st: State, n: Node, root: string): Outcome {
    match VerifyError(w, st, n, root, true)
    case Some(e) => Outcome(st, Err(e))
    case None => SaveNode(w, st, n, root)
  }

  // Any error of GetRoot comes with a nil root, so the last line of the source is never reached.
  // A panic, of course, ends the call.
  function SetRoot(w: World, st: State, n: Node): Outcome {
    if n.branch == "" then Outcome(st, Err(ErrInvalidBranch))
    else if !HasBranch(n, n.branch) then Outcome(st, Err(ErrDefaultBranchNotSpecified))
    else
      match GetRoot(w, st, n.address)
      case Err(e) => if e == Panic then Outcome(st, Err(Panic)) else SaveRootNode(w, st, n)
      case Ok((None, _)) => SaveRootNode(w, st, n)
      case Ok((Some(_), _)) => Outcome(st, Err(ErrDagAlreadyInitialized))
  }

  function Manage(st: State, addr: Address): Outcome {
    match ManageError(addr)
    case Some(e) => Outcome(st, Err(e))
    case None => Outcome(st.(managed := st.managed + {addr.address}), Ok(""))
  }
}
