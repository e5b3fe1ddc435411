/** graph/graph.go and graph/util.go: appending application data through the DAG. */
module Graph {
  import opened Address
  import opened Crypto
  import opened Dag
  import DagLinks
  import opened DagModel
  import opened DagRefinement
  import opened DagSpec
  import opened DagSteps
  import opened Errors
  import opened Node
  import Nodes = Node
  import opened Radix
  import opened Text
  import opened Wrappers

  datatype NodeData = NodeData(
    address: string,
    data: seq<byte>,
    branch: string,
    branches: seq<string>,
    properties: map<string, string>
  )

  // The public view of a node: its key next to its fields.
  datatype GraphNode = GraphNode(key: string, node: Node)

  // ---------- util.go ----------

  function PrivateNumber(k: KeyPair): nat {
    ValueNonNegative(HexDecodePrefix(k.privateKey), 256);
    ToEcdsaPrivateKey(k).d
  }

  // What createNode signs. The properties and the address of the data are not used.
  function UnsignedNode(nd: NodeData, keyRoot: string, prev: string, addr: string, keys: KeyPair,
                        seqNo: int32, now: string): Node
  {
    EMPTY.(data := nd.data, previous := prev, seqNo := seqNo, address := addr, pubKey := keys.publicKey,
           timestamp := now, branches := nd.branches, branch := nd.branch, branchRoot := keyRoot)
  }

  ghost function CreatedNode(w: World, nd: NodeData, keyRoot: string, prev: string, addr: string, keys: KeyPair,
                             seqNo: int32, now: string, random: int): Node
  {
    Signed(w.crypto, UnsignedNode(nd, keyRoot, prev, addr, keys, seqNo, now), PrivateNumber(keys), random)
  }

  // `now` is the clock's time as text, `random` what the signer drew.
  method CreateNode(w: World, nd: NodeData, keyRoot: string, prev: string, addr: string, keys: KeyPair,
                    seqNo: int32, now: string, random: int) returns (n: Node)
    ensures n == CreatedNode(w, nd, keyRoot, prev, addr, keys, seqNo, now, random)
  {
    n := EMPTY;
    n := n.(data := nd.data);
    if prev != "" {
      n := n.(previous := prev);
    }
    n := n.(seqNo := seqNo);
    n := n.(address := addr);
    n := n.(pubKey := keys.publicKey);
    n := n.(timestamp := now);
    n := n.(branches := nd.branches);
    n := n.(branch := nd.branch);
    n := n.(branchRoot := keyRoot);
    n := Nodes.Sign(w.crypto, n, PrivateNumber(keys), random);
  }

  // ---------- graph.go ----------

  datatype GraphOutcome = GraphOutcome(st: State, res: Result<GraphNode, Error>)

  function Translate(e: Error): Error {
    match e
    case ErrDagAlreadyInitialized => ErrAlreadyInitialized
    case ErrNodeNotFound => ErrGraphNotFound
    case _ => e
  }

  // The sequence choice of Append.
  function ChooseSeq(last: Node, lastKey: string, keyRoot: string, branch: string): int32 {
    if lastKey == keyRoot && last.branch != branch then 1 else Next32(last.seqNo)
  }

  function WithDefaultBranch(nd: NodeData): NodeData {
    if nd.branch in nd.branches then nd else nd.(branches := nd.branches + [nd.branch])
  }

  ghost function FirstNode(w: World, st: State, addr: string, keys: KeyPair, nd: NodeData,
                           now: string, random: int): GraphOutcome
  {
    var n := CreatedNode(w, WithDefaultBranch(nd), "", "", addr, keys, 1, now, random);
    var o := DagSpec.SetRoot(w, st, n);
    GraphOutcome(o.st, if o.res.Err? then Err(Translate(o.res.error)) else Ok(GraphNode(o.res.value, n)))
  }

  ghost function AppendBelow(w: World, st: State, addr: string, keys: KeyPair, keyRoot: string, nd: NodeData,
                             now: string, random: int): GraphOutcome
  {
    match DagSpec.GetLast(w, st, keyRoot, nd.branch)
    case Err(e) => GraphOutcome(st, Err(if e == ErrNodeNotFound then ErrPreviousNotFound else e))
    case Ok((None, _)) => GraphOutcome(st, Err(Panic))
    case Ok((Some(last), lastKey)) =>
      var n := CreatedNode(w, nd, keyRoot, lastKey, addr, keys,
                           ChooseSeq(last, lastKey, keyRoot, nd.branch), now, random);
      var o := DagSpec.Append(w, st, n, keyRoot);
      GraphOutcome(o.st, if o.res.Err? then Err(o.res.error) else Ok(GraphNode(o.res.value, n)))
  }

  ghost function GraphAppend(w: World, st: State, addr: Address, keyRoot: string, nd: NodeData,
                             now: string, random: int): GraphOutcome
  {
    if addr.keys.None? || addr.keys.value.privateKey == "" then GraphOutcome(st, Err(ErrReadOnly))
    else
      var keys := addr.keys.value;
      if keyRoot != "" then AppendBelow(w, st, addr.address, keys, keyRoot, nd, now, random)
      else
        match DagSpec.GetRoot(w, st, addr.address)
        case Err(e) =>
          if e == Panic then GraphOutcome(st, Err(Panic)) else FirstNode(w, st, addr.address, keys, nd, now, random)
        case Ok((None, _)) => FirstNode(w, st, addr.address, keys, nd, now, random)
        case Ok((Some(_), key)) => AppendBelow(w, st, addr.address, keys, key, nd, now, random)
  }

  // get: a missing key is ErrNotFound of this package.
  function FetchNode(w: World, st: State, key: string): Result<Option<Node>, Error> {
    match GetNode(w, st, key)
    case Err(e) => Err(Translate(e))
    case Ok(n) => Ok(n)
  }

  // getNext: the node before the given one.
  function NodeBefore(w: World, st: State, key: string): Result<Option<GraphNode>, Error> {
    match FetchNode(w, st, key)
    case Err(e) => Err(e)
    case Ok(None) => Ok(None)
    case Ok(Some(n)) =>
      if n.previous == "" then Ok(None)
      else
        match FetchNode(w, st, n.previous)
        case Err(e) => Err(e)
        case Ok(None) => Ok(None)
        case Ok(Some(p)) => Ok(Some(GraphNode(n.previous, p)))
  }

  class Graph {
    const addr: Address
    const da: Dag

    constructor (addr: Address, da: Dag)
      requires da.Valid()
      modifies da.resolver
      ensures this.addr == addr && this.da == da
      ensures da.Contents() == (if addr.keys.Some? && addr.keys.value.privateKey != ""
                                then DagSpec.Manage(old(da.Contents()), addr).st else old(da.Contents()))
    {
      this.addr := addr;
      this.da := da;
      new;
      if addr.keys.Some? && addr.keys.value.privateKey != "" {
        var _ := da.Manage(addr);
      }
    }

    method Fetch(key: string) returns (r: Result<Option<Node>, Error>)
      requires da.Valid()
      ensures r == FetchNode(da.w, da.Contents(), key)
    {
      var n := da.GetNodeByKey(key);
      if n.Err? {
        return Err(Translate(n.error));
      }
      return n;
    }

    // Get. Its test for the DAG's error of a missing key never succeeds: Fetch has translated it.
    method Get(key: string) returns (r: Result<Option<GraphNode>, Error>)
      requires da.Valid()
      ensures key !in da.Contents().pairs ==> r == Err(ErrGraphNotFound)
      ensures r.Ok? <==> GetNode(da.w, da.Contents(), key).Ok? && GetNode(da.w, da.Contents(), key).value.Some?
      ensures r.Ok? ==> r.value == Some(GraphNode(key, GetNode(da.w, da.Contents(), key).value.value))
    {
      var n := Fetch(key);
      if n.Err? {
        if n.error == ErrNodeNotFound {
          return Ok(None);
        }
        return Err(Translate(n.error));
      }
      if n.value.None? {
        return Err(Panic);
      }
      return Ok(Some(GraphNode(key, n.value.value)));
    }

    // The node before the given one, with its key.
    method GetNext(key: string) returns (r: Result<Option<GraphNode>, Error>)
      requires da.Valid()
      ensures r == NodeBefore(da.w, da.Contents(), key)
    {
      var n := Fetch(key);
      if n.Err? {
        return Err(n.error);
      }
      if n.value.None? || n.value.value.previous == "" {
        return Ok(None);
      }
      var next := Fetch(n.value.value.previous);
      if next.Err? {
        return Err(next.error);
      }
      if next.value.None? {
        return Ok(None);
      }
      return Ok(Some(GraphNode(n.value.value.previous, next.value.value)));
    }

    method CreateFirstNode(nd: NodeData, now: string, random: int) returns (r: Result<GraphNode, Error>)
      requires da.Valid() && addr.keys.Some?
      modifies da.dt, da.resolver`names
      ensures GraphOutcome(da.Contents(), r)
           == FirstNode(da.w, old(da.Contents()), addr.address, addr.keys.value, nd, now, random)
    {
      var node := nd;
      var hasDefaultBranch := false;
      for i := 0 to |nd.branches|
        invariant !hasDefaultBranch && nd.branch !in nd.branches[..i]
      {
        if nd.branches[i] == nd.branch {
          hasDefaultBranch := true;
          break;
        }
      }
      if !hasDefaultBranch {
        node := node.(branches := node.branches + [node.branch]);
      }
      assert node == WithDefaultBranch(nd);
      var n := CreateNode(da.w, node, "", "", addr.address, addr.keys.value, 1, now, random);
      var key := da.SetRoot(n);
      if key.Err? {
        return Err(Translate(key.error));
      }
      return Ok(GraphNode(key.value, n));
    }

    method Append(keyRoot: string, nd: NodeData, now: string, random: int) returns (r: Result<GraphNode, Error>)
      requires da.Valid()
      modifies da.dt, da.resolver`names
      ensures GraphOutcome(da.Contents(), r) == GraphAppend(da.w, old(da.Contents()), addr, keyRoot, nd, now, random)
    {
      if addr.keys.None? || addr.keys.value.privateKey == "" {
        return Err(ErrReadOnly);
      }
      var root := keyRoot;
      if root == "" {
        var gn := da.GetRoot(addr.address);
        if gn == Err(Panic) {
          return Err(Panic);
        }
        if gn.Err? || gn.value.0.None? {
          r := CreateFirstNode(nd, now, random);
          return;
        }
        root := gn.value.1;
      }
      var last := da.GetLast(root, nd.branch);
      if last.Err? {
        return Err(if last.error == ErrNodeNotFound then ErrPreviousNotFound else last.error);
      }
      if last.value.0.None? {
        return Err(Panic);
      }
      var (node, lastKey) := (last.value.0.value, last.value.1);
      var seqNo: int32;
      if lastKey == root && node.branch != nd.branch {
        seqNo := 1;
      } else {
        seqNo := Next32(node.seqNo);
      }
      var n := CreateNode(da.w, nd, root, lastKey, addr.address, addr.keys.value, seqNo, now, random);
      var key := da.Append(n, root);
      if key.Err? {
        return Err(key.error);
      }
      return Ok(GraphNode(key.value, n));
    }
  }

  // ---------- what the graph's appends are to the DAG ----------

  // The owner of a graph: keys made from a private number, and the address generated from them.
  ghost predicate Owner(w: World, addr: Address, d: nat) {
    0 < d < ORDER && addr.keys == Some(NewKeyPair(w.crypto, d))
    && var (x, y) := w.crypto.publicPoint(d);
       AddressOf(w.crypto, FixedWidth.Join64(x, y)) == Some(addr.address)
  }

  // A node the owner creates passes every check on itself, once numbered and on a named branch.
  lemma CreatedNodeIsSound(w: World, addr: Address, d: nat, nd: NodeData, keyRoot: string, prev: string,
                           seqNo: int32, now: string, random: int)
    requires CurveLaws(w.crypto) && JsonLaws(w) && Owner(w, addr, d)
    requires w.parseTime(now).Some? && nd.branch != ""
    ensures IntrinsicError(w, CreatedNode(w, nd, keyRoot, prev, addr.address, addr.keys.value, seqNo, now, random))
         == if seqNo == 0 then Some(ErrInvalidBranchSeq) else None
  {
    hide Validity, MatchesPubKey, AddressOf, BytesForSigning;
    var p, keys := w.crypto, addr.keys.value;
    var (x, y) := p.publicPoint(d);
    var unsigned := UnsignedNode(nd, keyRoot, prev, addr.address, keys, seqNo, now);
    KeyRoundTrip(p, d);
    assert PrivateNumber(keys) == d;
    GeneratedAddress(p, FixedWidth.Join64(x, y));
    SignedNodeVerifies(w, unsigned, d, random);
    JsonReadsBack(w, Signed(p, unsigned, d, random));
  }

  lemma ChoiceIsNext(w: World, st: State, m: Model, id: BranchId)
    requires JsonLaws(w) && Inv(w, st, m) && id in m.lists
    ensures id.root in m.nodes && Head(m, id) in m.nodes
    ensures ChooseSeq(m.nodes[Head(m, id)], Head(m, id), id.root, id.name) == NextSeq(m, id)
  {
    hide Validity;
    HeadIsLinked(w, m, id);
    HeadIsRoot(w, m, id);
    HeadBranch(w, m, id);
  }

  // The node a graph would append next on an open branch.
  ghost function NextNode(w: World, m: Model, addr: Address, id: BranchId, nd: NodeData, now: string, random: int): Node
    requires addr.keys.Some? && id in m.lists && id.root in m.nodes && Head(m, id) in m.nodes
  {
    CreatedNode(w, nd, id.root, Head(m, id), addr.address, addr.keys.value, NextSeq(m, id), now, random)
  }

  // The branch root an append works below: the one given, or else the root of the graph's address.
  ghost predicate Targets(m: Model, addr: string, keyRoot: string, root: string) {
    if keyRoot != "" then root == keyRoot else addr in m.roots && m.roots[addr] == root
  }

  lemma AppendIsBelow(w: World, st: State, m: Model, addr: Address, keyRoot: string, root: string, nd: NodeData,
                      now: string, random: int)
    requires JsonLaws(w) && Inv(w, st, m) && Targets(m, addr.address, keyRoot, root)
    ensures GraphAppend(w, st, addr, keyRoot, nd, now, random)
         == if addr.keys.None? || addr.keys.value.privateKey == "" then GraphOutcome(st, Err(ErrReadOnly))
            else AppendBelow(w, st, addr.address, addr.keys.value, root, nd, now, random)
  {
    hide Writable, AppendBelow, FirstNode, DagSpec.GetRoot;
    if keyRoot == "" {
      assert RootAt(w, m, addr.address);
      RootLookup(w, st, m, addr.address);
    }
  }

  lemma SameManaged(w: World, st: State, m: Model)
    requires Inv(w, st, m)
    ensures st.managed == m.managed
  {
  }

  lemma OwnerIsWritable(w: World, addr: Address, d: nat)
    requires CurveLaws(w.crypto) && Owner(w, addr, d)
    ensures addr.keys.Some? && addr.keys.value.privateKey != ""
    ensures SlashFree(addr.address) && Validity(w.crypto, addr.address) == Passes
  {
    hide Validity, AddressOf;
    KeyRoundTrip(w.crypto, d);
    var (x, y) := w.crypto.publicPoint(d);
    GeneratedAddress(w.crypto, FixedWidth.Join64(x, y));
  }

  lemma CreatedFields(w: World, nd: NodeData, keyRoot: string, prev: string, addr: string, keys: KeyPair,
                      seqNo: int32, now: string, random: int)
    ensures var n := CreatedNode(w, nd, keyRoot, prev, addr, keys, seqNo, now, random);
            n.branchRoot == keyRoot && n.previous == prev && n.branch == nd.branch && n.branches == nd.branches
            && n.seqNo == seqNo && n.address == addr
  {
  }

  lemma RejectedAppend(w: World, st: State, n: Node, root: string)
    requires IntrinsicError(w, n).Some?
    ensures DagSpec.Append(w, st, n, root) == Outcome(st, Err(IntrinsicError(w, n).value))
  {
    hide IntrinsicError;
  }

  // Completeness. On an open branch the graph numbers its node with the only number the DAG accepts
  // there, and the append succeeds, unless that number has wrapped around to 0, which no node may
  // carry.
  lemma GraphAppendsNext(w: World, st: State, m: Model, addr: Address, d: nat, keyRoot: string, id: BranchId,
                         nd: NodeData, now: string, random: int)
    requires CurveLaws(w.crypto) && JsonLaws(w) && Inv(w, st, m) && Owner(w, addr, d) && addr.address in st.managed
    requires w.parseTime(now).Some? && Targets(m, addr.address, keyRoot, id.root) && id.name == nd.branch != ""
    requires id in m.lists && id.root in m.nodes && Head(m, id) in m.nodes
    requires CollisionFree(w, st, NextNode(w, m, addr, id, nd, now, random))
    ensures var n, o := NextNode(w, m, addr, id, nd, now, random), GraphAppend(w, st, addr, keyRoot, nd, now, random);
            if NextSeq(m, id) == 0 then o == GraphOutcome(st, Err(ErrInvalidBranchSeq))
            else o.res == Ok(GraphNode(NodeKey(w, n), n)) && Inv(w, o.st, ModelAppend(w, m, n, id.root).0)
  {
    hide IntrinsicError, Validity, Inv, DagSpec.Append, VerifyError, DagSpec.GetLast,
         CreatedNode, NewKeyPair, GraphAppend, Targets;
    var n := NextNode(w, m, addr, id, nd, now, random);
    OwnerIsWritable(w, addr, d);
    AppendIsBelow(w, st, m, addr, keyRoot, id.root, nd, now, random);
    HeadLookup(w, st, m, id);
    ChoiceIsNext(w, st, m, id);
    CreatedNodeIsSound(w, addr, d, nd, id.root, Head(m, id), NextSeq(m, id), now, random);
    CreatedFields(w, nd, id.root, Head(m, id), addr.address, addr.keys.value, NextSeq(m, id), now, random);
    if NextSeq(m, id) == 0 {
      RejectedAppend(w, st, n, id.root);
    } else {
      AppendRefines(w, st, m, n, id.root);
      SameManaged(w, st, m);
    }
  }

  // On a branch that is not open, appending fails and changes nothing; the error says what is missing.
  lemma GraphRefusesClosed(w: World, st: State, m: Model, addr: Address, keyRoot: string, id: BranchId, nd: NodeData,
                           now: string, random: int)
    requires JsonLaws(w) && Inv(w, st, m) && Targets(m, addr.address, keyRoot, id.root)
    requires id.name == nd.branch && id !in m.lists
    ensures id.root in st.pairs ==> w.fromJson(st.pairs[id.root]).Some?
    ensures GraphAppend(w, st, addr, keyRoot, nd, now, random)
         == GraphOutcome(st, Err(
              if addr.keys.None? || addr.keys.value.privateKey == "" then ErrReadOnly
              else if nd.branch == "" then ErrInvalidBranch
              else if id.root !in st.pairs then ErrPreviousNotFound
              else NameError(w, w.fromJson(st.pairs[id.root]).value.address)))
  {
    hide Inv, DagSpec.GetLast, GraphAppend, Targets, Validity;
    AppendIsBelow(w, st, m, addr, keyRoot, id.root, nd, now, random);
    NoHead(w, st, m, id.root, id.name);
  }

  // An owner with a root gets no second first node.
  lemma FirstNodeOnce(w: World, st: State, m: Model, addr: string, keys: KeyPair, nd: NodeData,
                      now: string, random: int)
    requires JsonLaws(w) && Inv(w, st, m) && SlashFree(addr) && addr in m.roots && nd.branch != ""
    ensures FirstNode(w, st, addr, keys, nd, now, random) == GraphOutcome(st, Err(ErrAlreadyInitialized))
  {
    hide Inv, DagSpec.GetRoot, CreatedNode;
    RootLookup(w, st, m, addr);
    CreatedFields(w, WithDefaultBranch(nd), "", "", addr, keys, 1, now, random);
  }

  // ---------- what is kept of the data ----------

  // The graph has no root yet, as far as it can see.
  predicate StartsGraph(w: World, st: State, addr: Address, keyRoot: string) {
    keyRoot == ""
    && (DagSpec.GetRoot(w, st, addr.address).Err? || DagSpec.GetRoot(w, st, addr.address).value.0.None?)
  }

  ghost predicate KeepsData(addr: Address, nd: NodeData, now: string, n: Node) {
    addr.keys.Some? && n.data == nd.data && n.branch == nd.branch && n.timestamp == now
    && n.address == addr.address && n.pubKey == addr.keys.value.publicKey && n.properties == map[]
  }

  // The node stands on top of what the branch's last node was.
  ghost predicate StandsOnLast(w: World, st: State, root: string, nd: NodeData, n: Node) {
    n.branches == nd.branches && n.branchRoot == root
    && DagSpec.GetLast(w, st, root, nd.branch).Ok? && n.previous == DagSpec.GetLast(w, st, root, nd.branch).value.1
  }

  lemma CreatedKeepsData(w: World, nd: NodeData, keyRoot: string, prev: string, addr: Address, seqNo: int32,
                         now: string, random: int)
    requires addr.keys.Some?
    ensures KeepsData(addr, nd, now,
                      CreatedNode(w, nd, keyRoot, prev, addr.address, addr.keys.value, seqNo, now, random))
  {
  }

  lemma BelowKeepsData(w: World, st: State, addr: Address, root: string, nd: NodeData, now: string, random: int)
    requires JsonLaws(w) && addr.keys.Some?
    ensures var o := AppendBelow(w, st, addr.address, addr.keys.value, root, nd, now, random);
            o.res.Ok? ==> GetNode(w, o.st, o.res.value.key) == Ok(Some(o.res.value.node))
                          && KeepsData(addr, nd, now, o.res.value.node)
                          && StandsOnLast(w, st, root, nd, o.res.value.node)
  {
    hide DagSpec.GetLast, CreatedNode, DagSpec.Append, KeepsData, JsonLaws;
    var last := DagSpec.GetLast(w, st, root, nd.branch);
    if last.Ok? && last.value.0.Some? {
      var seqNo := ChooseSeq(last.value.0.value, last.value.1, root, nd.branch);
      var n := CreatedNode(w, nd, root, last.value.1, addr.address, addr.keys.value, seqNo, now, random);
      CreatedKeepsData(w, nd, root, last.value.1, addr, seqNo, now, random);
      CreatedFields(w, nd, root, last.value.1, addr.address, addr.keys.value, seqNo, now, random);
      DagLinks.StepPuts(w, st, OpAppend(n, root));
      JsonReadsBack(w, n);
    }
  }

  lemma FirstKeepsData(w: World, st: State, addr: Address, nd: NodeData, now: string, random: int)
    requires JsonLaws(w) && addr.keys.Some?
    ensures var o := FirstNode(w, st, addr.address, addr.keys.value, nd, now, random);
            o.res.Ok? ==>
              var n := o.res.value.node;
              GetNode(w, o.st, o.res.value.key) == Ok(Some(n)) && KeepsData(addr, nd, now, n)
              && n.branchRoot == "" && n.previous == "" && n.seqNo == 1
              && n.branches == if nd.branch in nd.branches then nd.branches else nd.branches + [nd.branch]
  {
    hide CreatedNode, DagSpec.SetRoot, JsonLaws;
    var n := CreatedNode(w, WithDefaultBranch(nd), "", "", addr.address, addr.keys.value, 1, now, random);
    CreatedKeepsData(w, WithDefaultBranch(nd), "", "", addr, 1, now, random);
    CreatedFields(w, WithDefaultBranch(nd), "", "", addr.address, addr.keys.value, 1, now, random);
    DagLinks.StepPuts(w, st, OpSetRoot(n));
    JsonReadsBack(w, n);
  }

  // What a graph appends can be fetched under the key it answers, and holds the data it was given, under
  // the graph's address and key. Only the properties are lost, and only a first node gets a branch more.
  lemma AppendKeepsData(w: World, st: State, addr: Address, keyRoot: string, nd: NodeData, now: string, random: int)
    requires JsonLaws(w)
    ensures var o := GraphAppend(w, st, addr, keyRoot, nd, now, random);
            o.res.Ok? ==>
              var n := o.res.value.node;
              GetNode(w, o.st, o.res.value.key) == Ok(Some(n)) && KeepsData(addr, nd, now, n)
              && if StartsGraph(w, st, addr, keyRoot) then
                   n.branchRoot == "" && n.previous == "" && n.seqNo == 1
                   && n.branches == if nd.branch in nd.branches then nd.branches else nd.branches + [nd.branch]
                 else
                   var root := if keyRoot != "" then keyRoot else DagSpec.GetRoot(w, st, addr.address).value.1;
                   StandsOnLast(w, st, root, nd, n)
  {
    hide AppendBelow, FirstNode, DagSpec.GetRoot, KeepsData, StandsOnLast, JsonLaws;
    if addr.keys.Some? {
      FirstKeepsData(w, st, addr, nd, now, random);
      var found := DagSpec.GetRoot(w, st, addr.address);
      if keyRoot != "" {
        BelowKeepsData(w, st, addr, keyRoot, nd, now, random);
      } else if found.Ok? {
        BelowKeepsData(w, st, addr, found.value.1, nd, now, random);
      }
    }
  }

  // No other number would do: whatever VerifyNode accepts on a branch carries its next number.
  lemma OnlyTheNextNumber(w: World, st: State, m: Model, n: Node, root: string)
    requires JsonLaws(w) && Inv(w, st, m) && VerifyError(w, st, n, root, true).None?
    ensures var id := BranchId(root, n.branch);
            id in m.lists && root in m.nodes && Head(m, id) in m.nodes && n.seqNo == NextSeq(m, id)
  {
    hide IntrinsicError, VerifyError, Inv;
    VerifyExactly(w, st, m, n, root);
  }

  lemma RootIsLinked(w: World, m: Model, n: Node)
    requires AcceptsRoot(w, m, n)
    ensures ModelSetRoot(w, m, n).1 == Linked(NodeKey(w, n))
  {
    hide AcceptsRoot, NodeKey, Open;
  }

  // The first append of an owner without a root makes one, numbered 1, on a branch it declares.
  lemma FirstAppendMakesRoot(w: World, st: State, m: Model, addr: Address, d: nat, nd: NodeData,
                             now: string, random: int)
    requires CurveLaws(w.crypto) && JsonLaws(w) && Inv(w, st, m) && Owner(w, addr, d) && addr.address in st.managed
    requires addr.address !in m.roots && nd.branch != ""
    requires CollisionFree(w, st, CreatedNode(w, WithDefaultBranch(nd), "", "", addr.address,
                                               addr.keys.value, 1, now, random))
    ensures var n, o := CreatedNode(w, WithDefaultBranch(nd), "", "", addr.address, addr.keys.value, 1, now, random),
                        GraphAppend(w, st, addr, "", nd, now, random);
            o.res == Ok(GraphNode(NodeKey(w, n), n)) && n.seqNo == 1 && nd.branch in n.branches
            && Inv(w, o.st, ModelSetRoot(w, m, n).0)
  {
    hide Validity, Inv, DagSpec.SetRoot, DagSpec.GetRoot, CreatedNode, Owner, ModelSetRoot, AppendBelow;
    OwnerIsWritable(w, addr, d);
    var n := CreatedNode(w, WithDefaultBranch(nd), "", "", addr.address, addr.keys.value, 1, now, random);
    CreatedFields(w, WithDefaultBranch(nd), "", "", addr.address, addr.keys.value, 1, now, random);
    SameManaged(w, st, m);
    RootLookup(w, st, m, addr.address);
    RootNotPanic(w, st, addr.address);
    SetRootRefines(w, st, m, n);
    RootIsLinked(w, m, n);
  }
}
