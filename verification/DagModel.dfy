/**
 What the DAG is meant to be: one plain list of keys per (branch root, branch). The machine here
 knows nothing of stores, hashes of heads or names; DagRefinement proves that dag.go implements it.
 */
module DagModel {
  import opened Address
  import opened DagSpec
  import opened Names
  import opened Node
  import opened Text

  datatype BranchId = BranchId(root: string, name: string)

  datatype Model = Model(
    nodes: map<string, Node>,            // the linked nodes
    born: map<string, nat>,              // how many nodes were linked before each of them
    roots: map<string, string>,          // the root of each address
    lists: map<BranchId, seq<string>>,   // the appended keys of each open branch, oldest first
    managed: set<string>
  )

  const NOTHING := Model(map[], map[], map[], map[], {})

  // ---------- reading a model ----------

  predicate IsRoot(n: Node) {
    n.branchRoot == "" && n.previous == ""
  }

  // The head of an open branch: its last node, or its root while it is empty.
  function Head(m: Model, id: BranchId): string
    requires id in m.lists
  {
    var list := m.lists[id];
    if list == [] then id.root else list[|list| - 1]
  }

  // The root of a branch counts as its first node only when it lies on a branch of that name.
  function BaseSeq(m: Model, id: BranchId): int32
    requires id.root in m.nodes
  {
    if id.name == m.nodes[id.root].branch then m.nodes[id.root].seqNo else 0
  }

  // The number the next node of an open branch must carry.
  function NextSeq(m: Model, id: BranchId): int32
    requires id in m.lists && id.root in m.nodes && Head(m, id) in m.nodes
  {
    Next32(if m.lists[id] == [] then BaseSeq(m, id) else m.nodes[Head(m, id)].seqNo)
  }

  // ---------- the list machine ----------

  datatype Reply = Linked(key: string) | Partial | Refused

  ghost predicate Accepts(w: World, m: Model, n: Node, root: string) {
    var id := BranchId(root, n.branch);
    IntrinsicError(w, n).None? && id in m.lists && root in m.nodes
    && n.previous == Head(m, id) && n.previous in m.nodes && n.seqNo == NextSeq(m, id)
  }

  function Opened(key: string, branches: seq<string>): map<BranchId, seq<string>> {
    map b | b in branches :: BranchId(key, b) := []
  }

  function WithNode(m: Model, key: string, n: Node): Model {
    m.(nodes := m.nodes[key := n], born := m.born[key := |m.nodes|])
  }

  function Push(m: Model, id: BranchId, key: string): Model
    requires id in m.lists
  {
    m.(lists := m.lists[id := m.lists[id] + [key]])
  }

  function Open(m: Model, key: string, n: Node): Model {
    m.(lists := m.lists + Opened(key, n.branches))
  }

  // An accepted node becomes the last of its branch and opens the branches it declares. Those stay
  // closed when the address of the node is not managed: then the call reports an error.
  ghost function ModelAppend(w: World, m: Model, n: Node, root: string): (Model, Reply) {
    if !Accepts(w, m, n, root) then (m, Refused)
    else
      var key := NodeKey(w, n);
      var pushed := Push(WithNode(m, key, n), BranchId(root, n.branch), key);
      if n.branches == [] then (pushed, Linked(key))
      else if n.address in m.managed then (Open(pushed, key, n), Linked(key))
      else (pushed, Partial)
  }

  predicate Writable(w: World, managed: set<string>, addr: string) {
    Validity(w.crypto, addr) == Passes && addr in managed
  }

  predicate AcceptsRoot(w: World, m: Model, n: Node) {
    n.branch != "" && n.branch in n.branches && n.address !in m.roots && Writable(w, m.managed, n.address)
  }

  function ModelSetRoot(w: World, m: Model, n: Node): (Model, Reply) {
    if !AcceptsRoot(w, m, n) then (m, Refused)
    else
      var key := NodeKey(w, n);
      (Open(WithNode(m, key, n), key, n).(roots := m.roots[n.address := key]), Linked(key))
  }

  // ---------- operations on both machines ----------

  datatype Op = OpManage(addr: Address) | OpSetRoot(n: Node) | OpAppend(n: Node, root: string)

  ghost function Exec(w: World, st: State, op: Op): Outcome {
    match op
    case OpManage(addr) => Manage(st, addr)
    case OpSetRoot(n) => SetRoot(w, st, n)
    case OpAppend(n, root) => Append(w, st, n, root)
  }

  ghost function ModelExec(w: World, m: Model, op: Op): (Model, Reply) {
    match op
    case OpManage(addr) =>
      (m.(managed := if LocalResolver.ManageError(addr).None? then m.managed + {addr.address} else m.managed), Refused)
    case OpSetRoot(n) => ModelSetRoot(w, m, n)
    case OpAppend(n, root) => ModelAppend(w, m, n, root)
  }

  // SHA-256 does not give the node's JSON the hash of different bytes that are stored.
  ghost predicate CollisionFree(w: World, st: State, n: Node) {
    forall k :: k in st.pairs && w.crypto.sha256(st.pairs[k]) == w.crypto.sha256(w.toJson(n)) ==>
      st.pairs[k] == w.toJson(n)
  }

  // Guard G: a node names the branch root it is appended under, and a root names nothing.
  ghost predicate Guard(w: World, st: State, op: Op) {
    match op
    case OpManage(_) => true
    case OpSetRoot(n) => IsRoot(n) && SlashFree(n.address) && CollisionFree(w, st, n)
    case OpAppend(n, root) => n.branchRoot == root && CollisionFree(w, st, n)
  }

  // ---------- how a state represents a model ----------
  //
  // Every invariant names the fact it states for one key, and is only instantiated where a proof
  // mentions that fact: following links freely would never end.

  // Everything stored is the JSON of a node, under its own hash.
  ghost predicate StoredAt(w: World, st: State, k: string) {
    k in st.pairs
    && var b := st.pairs[k];
       b != [] && w.fromJson(b).Some? && k == DataStore.KeyOf(w.crypto, b)
       && w.toJson(w.fromJson(b).value) == b && SlashFree(w.fromJson(b).value.address)
  }

  ghost predicate StoreOk(w: World, st: State) {
    forall k {:trigger StoredAt(w, st, k)} :: k in st.pairs ==> StoredAt(w, st, k)
  }

  ghost predicate NodeAt(w: World, st: State, m: Model, k: string) {
    k in m.nodes && k in st.pairs && st.pairs[k] == w.toJson(m.nodes[k]) && k == NodeKey(w, m.nodes[k])
    && k in m.born && m.born[k] < |m.nodes|
  }

  // What is stored without being linked is a root that could not be named.
  ghost predicate LinkedOrRoot(w: World, st: State, m: Model, k: string) {
    k in st.pairs && (k in m.nodes || (w.fromJson(st.pairs[k]).Some? && IsRoot(w.fromJson(st.pairs[k]).value)))
  }

  ghost predicate NodesOk(w: World, st: State, m: Model) {
    && (forall k {:trigger NodeAt(w, st, m, k)} :: k in m.nodes ==> NodeAt(w, st, m, k))
    && (forall k {:trigger LinkedOrRoot(w, st, m, k)} :: k in st.pairs ==> LinkedOrRoot(w, st, m, k))
  }

  // Links only go back in time.
  ghost predicate LinksBack(m: Model, k: string) {
    k != "" && k in m.nodes && k in m.born
    && var n := m.nodes[k];
       IsRoot(n) ||
       ( n.branchRoot != ""
         && n.branchRoot in m.nodes && n.branchRoot in m.born && m.born[n.branchRoot] < m.born[k]
         && n.previous in m.nodes && n.previous in m.born && m.born[n.previous] < m.born[k])
  }

  ghost predicate Acyclic(m: Model) {
    forall k {:trigger LinksBack(m, k)} :: k in m.nodes ==> LinksBack(m, k)
  }

  ghost predicate RootAt(w: World, m: Model, a: string) {
    a in m.roots && m.roots[a] in m.nodes
    && m.nodes[m.roots[a]].address == a && IsRoot(m.nodes[m.roots[a]])
    && SlashFree(a) && Writable(w, m.managed, a)
  }

  ghost predicate RootKnown(m: Model, k: string) {
    k in m.nodes && (IsRoot(m.nodes[k]) ==>
      m.nodes[k].address in m.roots && m.roots[m.nodes[k].address] == k)
  }

  ghost predicate RootsOk(w: World, m: Model) {
    && (forall a {:trigger RootAt(w, m, a)} :: a in m.roots ==> RootAt(w, m, a))
    && (forall k {:trigger RootKnown(m, k)} :: k in m.nodes ==> RootKnown(m, k))
  }

  // The i-th node of a branch follows the one before it, or the root, and is numbered accordingly.
  ghost predicate InChain(m: Model, id: BranchId, i: int) {
    id in m.lists && id.root in m.nodes && 0 <= i < |m.lists[id]| && m.lists[id][i] in m.nodes
    && var n := m.nodes[m.lists[id][i]];
       var before := if i == 0 then id.root else m.lists[id][i - 1];
       n.branchRoot == id.root && n.branch == id.name && n.previous == before && before in m.nodes
       && n.seqNo == Next32(if i == 0 then BaseSeq(m, id) else m.nodes[before].seqNo)
  }

  ghost predicate ListAt(w: World, m: Model, id: BranchId) {
    id in m.lists && id.root in m.nodes && id.name in m.nodes[id.root].branches
    && Writable(w, m.managed, m.nodes[id.root].address)
    && forall i {:trigger InChain(m, id, i)} :: 0 <= i < |m.lists[id]| ==> InChain(m, id, i)
  }

  ghost predicate ListsOk(w: World, m: Model) {
    forall id {:trigger ListAt(w, m, id)} :: id in m.lists ==> ListAt(w, m, id)
  }

  ghost predicate Listed(m: Model, k: string) {
    k in m.nodes && (!IsRoot(m.nodes[k]) ==>
      var id := BranchId(m.nodes[k].branchRoot, m.nodes[k].branch);
      id in m.lists && k in m.lists[id])
  }

  ghost predicate MembersOk(m: Model) {
    forall k {:trigger Listed(m, k)} :: k in m.nodes ==> Listed(m, k)
  }

  function HeadName(w: World, m: Model, id: BranchId): string
    requires id.root in m.nodes
  {
    LastName(w.nameSpace, m.nodes[id.root].address, id.root, id.name)
  }

  ghost predicate RootNamed(w: World, st: State, m: Model, a: string) {
    a in m.roots && RootName(w.nameSpace, a) in st.names && st.names[RootName(w.nameSpace, a)] == m.roots[a]
  }

  ghost predicate HeadNamed(w: World, st: State, m: Model, id: BranchId) {
    id in m.lists && id.root in m.nodes
    && HeadName(w, m, id) in st.names && st.names[HeadName(w, m, id)] == Head(m, id)
  }

  ghost predicate NamesRoot(w: World, m: Model, name: string, a: string) {
    a in m.roots && name == RootName(w.nameSpace, a)
  }

  ghost predicate NamesHead(w: World, m: Model, name: string, id: BranchId) {
    id in m.lists && id.root in m.nodes && name == HeadName(w, m, id)
  }

  ghost predicate IsIndexName(w: World, m: Model, name: string) {
    (exists a :: NamesRoot(w, m, name, a)) || (exists id :: NamesHead(w, m, name, id))
  }

  ghost predicate NamesOk(w: World, st: State, m: Model) {
    && (forall a {:trigger RootNamed(w, st, m, a)} :: a in m.roots ==> RootNamed(w, st, m, a))
    && (forall id {:trigger HeadNamed(w, st, m, id)} :: id in m.lists ==> HeadNamed(w, st, m, id))
    && (forall name {:trigger IsIndexName(w, m, name)} :: name in st.names ==> IsIndexName(w, m, name))
  }

  // The path of a linked node, from its root's name down the branches.
  ghost function ModelPath(w: World, m: Model, k: string): (path: string)
    requires Acyclic(m) && k in m.nodes
    ensures path != ""
    decreases assert LinksBack(m, k); m.born[k]
  {
    assert LinksBack(m, k);
    var n := m.nodes[k];
    if n.branchRoot == "" then GetName(w.nameSpace, n.address, [k])
    else
      assert LinksBack(m, n.branchRoot);
      ModelPath(w, m, n.branchRoot) + "/branches/" + n.branch + "/" + k
  }

  ghost predicate PathAt(w: World, st: State, m: Model, k: string)
    requires Acyclic(m)
  {
    k in m.nodes && ModelPath(w, m, k) + "/node" in st.paths && st.paths[ModelPath(w, m, k) + "/node"] == k
  }

  ghost predicate PathsOk(w: World, st: State, m: Model)
    requires Acyclic(m)
  {
    forall k {:trigger PathAt(w, st, m, k)} :: k in m.nodes ==> PathAt(w, st, m, k)
  }

  ghost predicate Inv(w: World, st: State, m: Model) {
    && st.managed == m.managed
    && StoreOk(w, st)
    && NodesOk(w, st, m)
    && Acyclic(m)
    && RootsOk(w, m)
    && ListsOk(w, m)
    && MembersOk(m)
    && NamesOk(w, st, m)
    && PathsOk(w, st, m)
  }
}
