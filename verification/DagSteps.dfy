/** Every guarded operation of dag.go keeps the invariant and answers as the list machine does. */
module DagSteps {
  import opened Address
  import opened DagModel
  import opened DagRefinement
  import opened DagSpec
  import opened DataStore
  import opened Errors
  import opened LocalResolver
  import opened Names
  import opened Node
  import opened Text
  import opened Wrappers

  // ---------- what the writes do ----------

  // The head names of the branches a node declares, all leading to the node.
  function HeadEntries(w: World, addr: string, key: string, branches: seq<string>): map<string, string> {
    map b | b in branches :: LastName(w.nameSpace, addr, key, b) := key
  }

  lemma HeadEntriesStep(w: World, names: map<string, string>, addr: string, key: string, branches: seq<string>)
    requires branches != []
    ensures names[LastName(w.nameSpace, addr, key, branches[0]) := key] + HeadEntries(w, addr, key, branches[1..])
         == names + HeadEntries(w, addr, key, branches)
  {
    hide LastName;
    assert forall x :: x in branches <==> x == branches[0] || x in branches[1..];
  }

  lemma AddNameWorks(w: World, st: State, addr: string, root: string, branch: string, key: string)
    requires SlashFree(addr) && Writable(w, st.managed, addr)
    ensures AddName(w, st, LastName(w.nameSpace, addr, root, branch), key)
         == Outcome(st.(names := st.names[LastName(w.nameSpace, addr, root, branch) := key]), Ok(key))
  {
    hide GetName;
    NameResolves(w, st, addr, ["shortcuts", root, branch, "last"]);
  }

  lemma {:induction false} AddBranchesAdds(w: World, st: State, n: Node, key: string, branches: seq<string>)
    requires SlashFree(n.address) && Writable(w, st.managed, n.address)
    ensures AddBranches(w, st, n, key, branches)
         == Outcome(st.(names := st.names + HeadEntries(w, n.address, key, branches)), Ok(key))
    decreases |branches|
  {
    hide LastName;
    if branches == [] {
      assert st.names + HeadEntries(w, n.address, key, branches) == st.names;
    } else {
      AddNameWorks(w, st, n.address, key, branches[0], key);
      var st1 := st.(names := st.names[LastName(w.nameSpace, n.address, key, branches[0]) := key]);
      AddBranchesAdds(w, st1, n, key, branches[1..]);
      HeadEntriesStep(w, st.names, n.address, key, branches);
    }
  }

  // The state once the node is stored and the head of its branch has moved to it.
  ghost function Moved(w: World, st: State, m: Model, n: Node, root: string): State
    requires Acyclic(m) && root in m.nodes
  {
    var key := NodeKey(w, n);
    Stored(w, st, n, ModelPath(w, m, root) + "/branches/" + n.branch + "/" + key + "/node")
    .(names := st.names[HeadName(w, m, BranchId(root, n.branch)) := key])
  }

  lemma JoinFive(a: string, b: string, c: string, d: string, e: string)
    ensures Text.Join([a, b, c, d, e]) == a + "/" + b + "/" + c + "/" + d + "/" + e
  {
    assert [a, b, c, d, e][1..] == [b, c, d, e] && [b, c, d, e][1..] == [c, d, e];
    assert [c, d, e][1..] == [d, e] && [d, e][1..] == [e];
    assert Text.Join([d, e]) == d + "/" + e;
    assert Text.Join([c, d, e]) == c + "/" + Text.Join([d, e]);
    assert Text.Join([b, c, d, e]) == b + "/" + Text.Join([c, d, e]);
    assert Text.Join([a, b, c, d, e]) == a + "/" + Text.Join([b, c, d, e]);
  }

  lemma NodePath(path: string, branch: string, key: string)
    ensures Text.Join([path, "branches", branch, key, "node"]) == path + "/branches/" + branch + "/" + key + "/node"
  {
    hide Join;
    JoinFive(path, "branches", branch, key, "node");
    assert path + "/" + "branches" + "/" + branch + "/" == path + "/branches/" + branch + "/";
    assert "/" + "node" == "/node";
  }

  // The first writes of SaveNode: store, then move the head.
  lemma SaveMoves(w: World, st: State, m: Model, n: Node, root: string)
    requires JsonLaws(w) && Inv(w, st, m) && BranchId(root, n.branch) in m.lists
    ensures root in m.nodes
    ensures SaveNode(w, st, n, root) == AddBranches(w, Moved(w, st, m, n, root), n, NodeKey(w, n), n.branches)
  {
    hide LastName, GetName, Join, FullPath, AddBranches, Validity;
    var id, key := BranchId(root, n.branch), NodeKey(w, n);
    assert ListAt(w, m, id) && LinksBack(m, root);
    Known(w, st, m, root);
    FullPathIs(w, st, m, root, {});
    var path := ModelPath(w, m, root);
    NodePath(path, n.branch, key);
    var full := path + "/branches/" + n.branch + "/" + key + "/node";
    AddNameWorks(w, Stored(w, st, n, full), m.nodes[root].address, root, n.branch, key);
  }

  lemma AppendSaves(w: World, st: State, m: Model, n: Node, root: string)
    requires JsonLaws(w) && Inv(w, st, m) && Accepts(w, m, n, root)
    ensures var st1, key := Moved(w, st, m, n, root), NodeKey(w, n);
            Append(w, st, n, root) ==
              if n.branches == [] then Outcome(st1, Ok(key))
              else if n.address in m.managed
              then Outcome(st1.(names := st1.names + HeadEntries(w, n.address, key, n.branches)), Ok(key))
              else Outcome(st1, Err(ErrUnmanagedAddress))
  {
    hide IntrinsicError, GetName;
    var key, st1 := NodeKey(w, n), Moved(w, st, m, n, root);
    VerifyExactly(w, st, m, n, root);
    SaveMoves(w, st, m, n, root);
    IntrinsicAddress(w, n);
    if n.branches != [] {
      if n.address in m.managed {
        AddBranchesAdds(w, st1, n, key, n.branches);
      } else {
        NameResolves(w, st1, n.address, ["shortcuts", key, n.branches[0], "last"]);
      }
    }
  }

  // ---------- one more linked node ----------

  // m' has one node more than m.
  ghost predicate Grown(m: Model, m': Model, key: string, n: Node) {
    key !in m.nodes && m'.nodes == m.nodes[key := n] && m'.born == m.born[key := |m.nodes|]
  }

  lemma GrownStore(w: World, st: State, st': State, m: Model, m': Model, n: Node)
    requires JsonLaws(w) && StoreOk(w, st) && NodesOk(w, st, m) && Grown(m, m', NodeKey(w, n), n)
    requires SlashFree(n.address) && st'.pairs == st.pairs[NodeKey(w, n) := w.toJson(n)]
    ensures StoreOk(w, st') && NodesOk(w, st', m')
  {
    JsonReadsBack(w, n);
    forall k | k in st'.pairs ensures StoredAt(w, st', k) {
      if k != NodeKey(w, n) {
        assert StoredAt(w, st, k);
      }
    }
    forall k | k in m'.nodes ensures NodeAt(w, st', m', k) {
      if k != NodeKey(w, n) {
        assert NodeAt(w, st, m, k);
      }
    }
    forall k | k in st'.pairs ensures LinkedOrRoot(w, st', m', k) {
      if k != NodeKey(w, n) {
        assert LinkedOrRoot(w, st, m, k);
      }
    }
  }

  lemma GrownAcyclic(w: World, st: State, m: Model, m': Model, n: Node)
    requires NodesOk(w, st, m) && Acyclic(m) && Grown(m, m', NodeKey(w, n), n)
    requires IsRoot(n) || (n.branchRoot in m.nodes && n.previous in m.nodes)
    ensures Acyclic(m') && Extends(m, m')
  {
    KeyShape(w.crypto, w.toJson(n));
    forall k | k in m'.nodes ensures LinksBack(m', k) {
      if k != NodeKey(w, n) {
        assert LinksBack(m, k);
      } else if !IsRoot(n) {
        assert LinksBack(m, n.branchRoot) && NodeAt(w, st, m, n.branchRoot) && NodeAt(w, st, m, n.previous);
      }
    }
  }

  lemma GrownPaths(w: World, st: State, st': State, m: Model, m': Model, n: Node)
    requires JsonLaws(w) && Inv(w, st, m) && Grown(m, m', NodeKey(w, n), n)
    requires Acyclic(m') && Extends(m, m')
    requires st'.paths == st.paths[ModelPath(w, m', NodeKey(w, n)) + "/node" := NodeKey(w, n)]
    ensures PathsOk(w, st', m')
  {
    hide ModelPath, Writable, RootsOk, ListsOk, MembersOk, NamesOk;
    var key := NodeKey(w, n);
    KeyShape(w.crypto, w.toJson(n));
    forall k | k in m'.nodes ensures PathAt(w, st', m', k) {
      if k != key {
        assert PathAt(w, st, m, k) && LinksBack(m, k);
        PathIsStable(w, m, m', k);
        Known(w, st, m, k);
        PathEnd(w, m', k);
        PathEnd(w, m', key);
        if ModelPath(w, m', k) + "/node" == ModelPath(w, m', key) + "/node" {
          DropSuffix(ModelPath(w, m', k), ModelPath(w, m', key), "/node");
        }
      }
    }
  }

  // A list that is still there, perhaps longer, keeps its order.
  lemma ChainKept(m: Model, m': Model, id: BranchId, i: int)
    requires Extends(m, m') && InChain(m, id, i)
    requires id in m'.lists && m.lists[id] <= m'.lists[id]
    ensures InChain(m', id, i)
  {
    assert m'.lists[id][i] == m.lists[id][i];
    if i > 0 {
      assert m'.lists[id][i - 1] == m.lists[id][i - 1];
    }
  }

  lemma ListKept(w: World, m: Model, m': Model, id: BranchId)
    requires Extends(m, m') && ListAt(w, m, id) && m.managed <= m'.managed
    requires id in m'.lists && m.lists[id] == m'.lists[id]
    ensures ListAt(w, m', id)
  {
    hide Validity;
    forall i | 0 <= i < |m'.lists[id]| ensures InChain(m', id, i) {
      assert InChain(m, id, i);
      ChainKept(m, m', id, i);
    }
  }

  // ---------- appending to a branch ----------

  lemma PushLists(w: World, st: State, m: Model, n: Node, root: string)
    requires Inv(w, st, m) && Accepts(w, m, n, root) && NodeKey(w, n) !in m.nodes && n.branchRoot == root
    requires Extends(m, Push(WithNode(m, NodeKey(w, n), n), BranchId(root, n.branch), NodeKey(w, n)))
    ensures ListsOk(w, Push(WithNode(m, NodeKey(w, n), n), BranchId(root, n.branch), NodeKey(w, n)))
  {
    hide IntrinsicError, Validity;
    var key, id := NodeKey(w, n), BranchId(root, n.branch);
    var m' := Push(WithNode(m, key, n), id, key);
    forall x | x in m'.lists ensures ListAt(w, m', x) {
      assert ListAt(w, m, x);
      forall i | 0 <= i < |m'.lists[x]| ensures InChain(m', x, i) {
        if i < |m.lists[x]| {
          assert InChain(m, x, i);
          ChainKept(m, m', x, i);
        }
      }
    }
  }

  lemma PushMembers(w: World, st: State, m: Model, n: Node, root: string)
    requires Inv(w, st, m) && Accepts(w, m, n, root) && NodeKey(w, n) !in m.nodes && n.branchRoot == root
    ensures var m' := Push(WithNode(m, NodeKey(w, n), n), BranchId(root, n.branch), NodeKey(w, n));
            MembersOk(m') && RootsOk(w, m')
  {
    hide IntrinsicError, Validity;
    var key, id := NodeKey(w, n), BranchId(root, n.branch);
    var m' := Push(WithNode(m, key, n), id, key);
    assert LinksBack(m, root);
    forall k | k in m'.nodes ensures Listed(m', k) && RootKnown(m', k) {
      if k == key {
        assert m'.lists[id][|m.lists[id]|] == key;
      } else {
        assert Listed(m, k) && RootKnown(m, k);
        if !IsRoot(m.nodes[k]) {
          var x := BranchId(m.nodes[k].branchRoot, m.nodes[k].branch);
          assert m.lists[x] <= m'.lists[x];
        }
      }
    }
    forall a | a in m'.roots ensures RootAt(w, m', a) {
      assert RootAt(w, m, a);
    }
  }

  lemma HeadNamesDiffer(w: World, st: State, m: Model, x: BranchId, y: BranchId)
    requires JsonLaws(w) && Inv(w, st, m) && x.root in m.nodes && y.root in m.nodes && x != y
    ensures HeadName(w, m, x) != HeadName(w, m, y)
  {
    hide LastName;
    Known(w, st, m, x.root);
    Known(w, st, m, y.root);
    if HeadName(w, m, x) == HeadName(w, m, y) {
      LastNameInjective(w.nameSpace, m.nodes[x.root].address, x.root, x.name,
                        m.nodes[y.root].address, y.root, y.name);
    }
  }

  lemma RootIsNotHead(w: World, st: State, m: Model, a: string, id: BranchId)
    requires JsonLaws(w) && Inv(w, st, m) && SlashFree(a) && id.root in m.nodes
    ensures RootName(w.nameSpace, a) != HeadName(w, m, id)
  {
    hide LastName, RootName;
    Known(w, st, m, id.root);
    RootNameIsNoLastName(w.nameSpace, a, m.nodes[id.root].address, id.root, id.name);
  }

  lemma PushedHead(w: World, st: State, m: Model, n: Node, root: string, x: BranchId)
    requires JsonLaws(w) && Inv(w, st, m) && Accepts(w, m, n, root) && NodeKey(w, n) !in m.nodes && x in m.lists
    ensures HeadNamed(w, Moved(w, st, m, n, root),
                      Push(WithNode(m, NodeKey(w, n), n), BranchId(root, n.branch), NodeKey(w, n)), x)
  {
    hide IntrinsicError, LastName, RootName, ModelPath, Writable, NodeKey, ListsOk, MembersOk, PathsOk, StoreOk;
    assert HeadNamed(w, st, m, x);
    if x != BranchId(root, n.branch) {
      HeadNamesDiffer(w, st, m, x, BranchId(root, n.branch));
    }
  }

  lemma IndexNameKept(w: World, m: Model, m': Model, name: string)
    requires IsIndexName(w, m, name) && Extends(m, m')
    requires m.roots.Keys <= m'.roots.Keys && m.lists.Keys <= m'.lists.Keys
    ensures IsIndexName(w, m', name)
  {
    if a :| NamesRoot(w, m, name, a) {
      assert a in m.roots.Keys;
      assert NamesRoot(w, m', name, a);
    } else {
      var id :| NamesHead(w, m, name, id);
      assert id in m.lists.Keys;
      assert NamesHead(w, m', name, id);
    }
  }

  lemma PushNames(w: World, st: State, m: Model, n: Node, root: string)
    requires JsonLaws(w) && Inv(w, st, m) && Accepts(w, m, n, root) && NodeKey(w, n) !in m.nodes
    requires Extends(m, Push(WithNode(m, NodeKey(w, n), n), BranchId(root, n.branch), NodeKey(w, n)))
    ensures NamesOk(w, Moved(w, st, m, n, root),
                    Push(WithNode(m, NodeKey(w, n), n), BranchId(root, n.branch), NodeKey(w, n)))
  {
    hide IntrinsicError, LastName, RootName, ModelPath, Writable, NodeKey, ListsOk, MembersOk, PathsOk, StoreOk;
    var key, id := NodeKey(w, n), BranchId(root, n.branch);
    var m', st' := Push(WithNode(m, key, n), id, key), Moved(w, st, m, n, root);
    Known(w, st, m, root);
    forall a | a in m'.roots ensures RootNamed(w, st', m', a) {
      assert RootNamed(w, st, m, a) && RootAt(w, m, a);
      RootIsNotHead(w, st, m, a, id);
    }
    forall x | x in m'.lists ensures HeadNamed(w, st', m', x) {
      PushedHead(w, st, m, n, root, x);
    }
    forall name | name in st'.names ensures IsIndexName(w, m', name) {
      if name == HeadName(w, m, id) {
        assert NamesHead(w, m', name, id);
      } else {
        IndexNameKept(w, m, m', name);
      }
    }
  }

  lemma PushKeepsInv(w: World, st: State, m: Model, n: Node, root: string)
    requires JsonLaws(w) && Inv(w, st, m) && Accepts(w, m, n, root) && Guard(w, st, OpAppend(n, root))
    ensures NodeKey(w, n) !in m.nodes
    ensures Inv(w, Moved(w, st, m, n, root),
                Push(WithNode(m, NodeKey(w, n), n), BranchId(root, n.branch), NodeKey(w, n)))
  {
    hide IntrinsicError, Validity;
    var key, id := NodeKey(w, n), BranchId(root, n.branch);
    var m', st' := Push(WithNode(m, key, n), id, key), Moved(w, st, m, n, root);
    AcceptedIsFresh(w, st, m, n, root);
    IntrinsicAddress(w, n);
    GrownStore(w, st, st', m, m', n);
    GrownAcyclic(w, st, m, m', n);
    assert LinksBack(m', key) && LinksBack(m, root);
    PathIsStable(w, m, m', root);
    assert ModelPath(w, m', key) == ModelPath(w, m, root) + "/branches/" + n.branch + "/" + key;
    GrownPaths(w, st, st', m, m', n);
    PushLists(w, st, m, n, root);
    PushMembers(w, st, m, n, root);
    PushNames(w, st, m, n, root);
  }

  // ---------- opening the branches of a new node ----------

  lemma OpenLists(w: World, m: Model, key: string)
    requires ListsOk(w, m) && key in m.nodes && Writable(w, m.managed, m.nodes[key].address)
    requires forall id :: id in m.lists ==> id.root != key
    ensures ListsOk(w, Open(m, key, m.nodes[key]))
  {
    hide Validity;
    var m' := Open(m, key, m.nodes[key]);
    forall id | id in m'.lists ensures ListAt(w, m', id) {
      if id in m.lists {
        assert ListAt(w, m, id);
        ListKept(w, m, m', id);
      }
    }
  }

  // Facts about nodes and roots survive more open branches and more managed addresses.
  lemma SameMembers(w: World, m: Model, m': Model)
    requires RootsOk(w, m) && MembersOk(m) && Acyclic(m)
    requires m'.nodes == m.nodes && m'.born == m.born && m'.roots == m.roots && m.managed <= m'.managed
    requires forall id :: id in m.lists ==> id in m'.lists && m'.lists[id] == m.lists[id]
    ensures RootsOk(w, m') && MembersOk(m') && Acyclic(m')
  {
    hide Validity;
    forall k | k in m'.nodes ensures LinksBack(m', k) {
      assert LinksBack(m, k);
    }
    forall k | k in m'.nodes ensures RootKnown(m', k) {
      assert RootKnown(m, k);
    }
    forall k | k in m'.nodes ensures Listed(m', k) {
      assert Listed(m, k);
    }
    forall a | a in m'.roots ensures RootAt(w, m', a) {
      assert RootAt(w, m, a);
    }
  }

  lemma SamePaths(w: World, st: State, st': State, m: Model, m': Model)
    requires Acyclic(m) && Acyclic(m') && PathsOk(w, st, m) && m'.nodes == m.nodes && st'.paths == st.paths
    ensures PathsOk(w, st', m')
  {
    hide ModelPath;
    forall k | k in m'.nodes ensures PathAt(w, st', m', k) {
      assert PathAt(w, st, m, k) && LinksBack(m, k);
      PathIsStable(w, m, m', k);
    }
  }

  lemma SameStore(w: World, st: State, st': State, m: Model, m': Model)
    requires StoreOk(w, st) && NodesOk(w, st, m) && m'.nodes == m.nodes && m'.born == m.born && st'.pairs == st.pairs
    ensures StoreOk(w, st') && NodesOk(w, st', m')
  {
    forall k | k in st'.pairs ensures StoredAt(w, st', k) {
      assert StoredAt(w, st, k);
    }
    forall k | k in m'.nodes ensures NodeAt(w, st', m', k) {
      assert NodeAt(w, st, m, k);
    }
    forall k | k in st'.pairs ensures LinkedOrRoot(w, st', m', k) {
      assert LinkedOrRoot(w, st, m, k);
    }
  }

  lemma EntriesContents(w: World, addr: string, key: string, branches: seq<string>)
    ensures forall b :: b in branches ==> LastName(w.nameSpace, addr, key, b) in HeadEntries(w, addr, key, branches)
    ensures forall name :: name in HeadEntries(w, addr, key, branches) ==>
              HeadEntries(w, addr, key, branches)[name] == key
              && exists b :: b in branches && name == LastName(w.nameSpace, addr, key, b)
  {
    hide LastName;
  }

  lemma EntriesLeaveHead(w: World, st: State, m: Model, key: string, id: BranchId)
    requires JsonLaws(w) && Inv(w, st, m) && key in m.nodes && id.root in m.nodes && id.root != key
    ensures HeadName(w, m, id) !in HeadEntries(w, m.nodes[key].address, key, m.nodes[key].branches)
  {
    hide LastName;
    var n := m.nodes[key];
    Known(w, st, m, key);
    Known(w, st, m, id.root);
    forall b | b in n.branches ensures HeadName(w, m, id) != LastName(w.nameSpace, n.address, key, b) {
      if HeadName(w, m, id) == LastName(w.nameSpace, n.address, key, b) {
        LastNameInjective(w.nameSpace, m.nodes[id.root].address, id.root, id.name, n.address, key, b);
      }
    }
  }

  // The names of the branches that were open before still lead to their heads.
  lemma OldHeadNamed(w: World, st: State, m: Model, key: string, id: BranchId)
    requires JsonLaws(w) && Inv(w, st, m) && key in m.nodes && id in m.lists && id.root != key
    ensures var n := m.nodes[key];
            HeadNamed(w, st.(names := st.names + HeadEntries(w, n.address, key, n.branches)), Open(m, key, n), id)
  {
    hide LastName, HeadEntries, StoreOk, NodesOk, RootsOk, ListsOk, MembersOk, PathsOk, JsonLaws;
    assert HeadNamed(w, st, m, id);
    EntriesLeaveHead(w, st, m, key, id);
  }

  lemma NewHeadNamed(w: World, st: State, m: Model, key: string, id: BranchId)
    requires key in m.nodes && id.root == key && id.name in m.nodes[key].branches
    ensures var n := m.nodes[key];
            HeadNamed(w, st.(names := st.names + HeadEntries(w, n.address, key, n.branches)), Open(m, key, n), id)
  {
    hide LastName, HeadEntries;
    EntriesContents(w, m.nodes[key].address, key, m.nodes[key].branches);
  }

  lemma OpenHeadNamed(w: World, st: State, m: Model, key: string, id: BranchId)
    requires JsonLaws(w) && Inv(w, st, m) && key in m.nodes
    requires forall x :: x in m.lists ==> x.root != key
    requires id in Open(m, key, m.nodes[key]).lists
    ensures var n := m.nodes[key];
            HeadNamed(w, st.(names := st.names + HeadEntries(w, n.address, key, n.branches)), Open(m, key, n), id)
  {
    hide Inv, HeadNamed, HeadEntries, JsonLaws;
    if id in m.lists {
      OldHeadNamed(w, st, m, key, id);
    } else {
      NewHeadNamed(w, st, m, key, id);
    }
  }

  lemma OpenIndexName(w: World, st: State, m: Model, key: string, name: string)
    requires key in m.nodes && NamesOk(w, st, m)
    requires name in st.names || name in HeadEntries(w, m.nodes[key].address, key, m.nodes[key].branches)
    ensures IsIndexName(w, Open(m, key, m.nodes[key]), name)
  {
    hide LastName, RootName, HeadEntries;
    var n := m.nodes[key];
    var m' := Open(m, key, n);
    EntriesContents(w, n.address, key, n.branches);
    if name in HeadEntries(w, n.address, key, n.branches) {
      var b :| b in n.branches && name == LastName(w.nameSpace, n.address, key, b);
      assert NamesHead(w, m', name, BranchId(key, b));
    } else {
      assert IsIndexName(w, m, name);
      IndexNameKept(w, m, m', name);
    }
  }

  lemma EntriesLeaveRoot(w: World, st: State, m: Model, key: string, a: string)
    requires JsonLaws(w) && Inv(w, st, m) && key in m.nodes && a in m.roots
    ensures RootName(w.nameSpace, a) !in HeadEntries(w, m.nodes[key].address, key, m.nodes[key].branches)
  {
    hide LastName, RootName;
    Known(w, st, m, key);
    assert RootAt(w, m, a);
    forall b | b in m.nodes[key].branches
      ensures RootName(w.nameSpace, a) != LastName(w.nameSpace, m.nodes[key].address, key, b)
    {
      RootNameIsNoLastName(w.nameSpace, a, m.nodes[key].address, key, b);
    }
  }

  lemma OpenNames(w: World, st: State, m: Model, key: string)
    requires JsonLaws(w) && Inv(w, st, m) && key in m.nodes
    requires forall id :: id in m.lists ==> id.root != key
    ensures var n := m.nodes[key];
            NamesOk(w, st.(names := st.names + HeadEntries(w, n.address, key, n.branches)), Open(m, key, n))
  {
    hide LastName, RootName, HeadEntries, HeadNamed, IsIndexName;
    var n := m.nodes[key];
    var m', st' := Open(m, key, n), st.(names := st.names + HeadEntries(w, n.address, key, n.branches));
    forall a | a in m'.roots ensures RootNamed(w, st', m', a) {
      assert RootNamed(w, st, m, a);
      EntriesLeaveRoot(w, st, m, key, a);
    }
    forall id | id in m'.lists ensures HeadNamed(w, st', m', id) {
      OpenHeadNamed(w, st, m, key, id);
    }
    forall name | name in st'.names ensures IsIndexName(w, m', name) {
      OpenIndexName(w, st, m, key, name);
    }
  }

  lemma OpenKeepsInv(w: World, st: State, m: Model, key: string)
    requires JsonLaws(w) && Inv(w, st, m) && key in m.nodes && Writable(w, m.managed, m.nodes[key].address)
    requires forall id :: id in m.lists ==> id.root != key
    ensures var n := m.nodes[key];
            Inv(w, st.(names := st.names + HeadEntries(w, n.address, key, n.branches)), Open(m, key, n))
  {
    hide Writable, HeadEntries;
    var n := m.nodes[key];
    var m', st' := Open(m, key, n), st.(names := st.names + HeadEntries(w, n.address, key, n.branches));
    OpenLists(w, m, key);
    SameMembers(w, m, m');
    OpenNames(w, st, m, key);
    SamePaths(w, st, st', m, m');
    SameStore(w, st, st', m, m');
  }

  // ---------- setting a root ----------

  // The model with the root linked and its branches not yet open.
  function Rooted(m: Model, key: string, n: Node): Model {
    WithNode(m, key, n).(roots := m.roots[n.address := key])
  }

  // The state with the root stored and named.
  function RootStored(w: World, st: State, n: Node): State {
    var key := NodeKey(w, n);
    Stored(w, st, n, GetName(w.nameSpace, n.address, [key, "node"]))
    .(names := st.names[RootName(w.nameSpace, n.address) := key])
  }

  lemma RootNameWorks(w: World, st: State, addr: string, key: string)
    requires SlashFree(addr) && Writable(w, st.managed, addr)
    ensures AddName(w, st, RootName(w.nameSpace, addr), key)
         == Outcome(st.(names := st.names[RootName(w.nameSpace, addr) := key]), Ok(key))
  {
    hide GetName, Validity;
    NameResolves(w, st, addr, ["shortcuts", "root"]);
  }

  // Writing an entry twice is writing it once.
  lemma WrittenTwice(names: map<string, string>, last: string, root: string, key: string, entries: map<string, string>)
    requires last in entries && entries[last] == key
    ensures names[last := key][root := key] + entries == names[root := key] + entries
  {
  }

  lemma WritableRootSaves(w: World, st: State, n: Node)
    requires SlashFree(n.address) && Writable(w, st.managed, n.address) && n.branch in n.branches
    ensures var st1, key := RootStored(w, st, n), NodeKey(w, n);
            SaveRootNode(w, st, n)
            == Outcome(st1.(names := st1.names + HeadEntries(w, n.address, key, n.branches)), Ok(key))
  {
    hide GetName, LastName, RootName, Writable, NodeKey;
    var key := NodeKey(w, n);
    var stored := Stored(w, st, n, GetName(w.nameSpace, n.address, [key, "node"]));
    var last, root := LastName(w.nameSpace, n.address, key, n.branch), RootName(w.nameSpace, n.address);
    AddNameWorks(w, stored, n.address, key, n.branch, key);
    var st1 := stored.(names := stored.names[last := key]);
    RootNameWorks(w, st1, n.address, key);
    var st2 := st1.(names := st1.names[root := key]);
    AddBranchesAdds(w, st2, n, key, n.branches);
    EntriesContents(w, n.address, key, n.branches);
    WrittenTwice(st.names, last, root, key, HeadEntries(w, n.address, key, n.branches));
  }

  lemma RootNotPanic(w: World, st: State, addr: string)
    requires SlashFree(addr) && Validity(w.crypto, addr) == Passes
    ensures GetRoot(w, st, addr) != Err(Panic)
  {
    hide GetName, Validity;
    NameResolves(w, st, addr, ["shortcuts", "root"]);
  }

  lemma AcceptedRootSaves(w: World, st: State, m: Model, n: Node)
    requires JsonLaws(w) && Inv(w, st, m) && SlashFree(n.address) && AcceptsRoot(w, m, n)
    ensures var st1, key := RootStored(w, st, n), NodeKey(w, n);
            SetRoot(w, st, n)
            == Outcome(st1.(names := st1.names + HeadEntries(w, n.address, key, n.branches)), Ok(key))
  {
    hide GetName, LastName, RootName, Validity, NodeKey, SaveRootNode, GetRoot;
    RootLookup(w, st, m, n.address);
    RootNotPanic(w, st, n.address);
    WritableRootSaves(w, st, n);
  }

  lemma LinkedRootIsNamed(w: World, st: State, m: Model, n: Node)
    requires JsonLaws(w) && Inv(w, st, m) && IsRoot(n) && CollisionFree(w, st, n) && NodeKey(w, n) in m.nodes
    ensures n.address in m.roots
  {
    LinkedIs(w, st, m, n);
    assert RootKnown(m, NodeKey(w, n));
  }

  lemma AcceptedRootIsFresh(w: World, st: State, m: Model, n: Node)
    requires JsonLaws(w) && Inv(w, st, m) && Guard(w, st, OpSetRoot(n)) && AcceptsRoot(w, m, n)
    ensures NodeKey(w, n) !in m.nodes
  {
    hide Inv, Writable;
    if NodeKey(w, n) in m.nodes {
      LinkedRootIsNamed(w, st, m, n);
    }
  }

  lemma RootPath(w: World, addr: string, key: string)
    ensures GetName(w.nameSpace, addr, [key, "node"]) == GetName(w.nameSpace, addr, [key]) + "/node"
  {
    assert [key, "node"][1..] == ["node"];
    assert Text.Join([key, "node"]) == key + "/" + "node" == key + "/node";
    assert Text.Join([key]) == key;
  }

  lemma AcceptedRootIsWritable(w: World, m: Model, n: Node)
    requires AcceptsRoot(w, m, n)
    ensures Writable(w, m.managed, n.address)
  {
  }

  lemma RootedLists(w: World, m: Model, n: Node)
    requires RootsOk(w, m) && ListsOk(w, m) && MembersOk(m) && NodeKey(w, n) !in m.nodes
    requires IsRoot(n) && SlashFree(n.address) && AcceptsRoot(w, m, n)
    ensures var m' := Rooted(m, NodeKey(w, n), n); RootsOk(w, m') && ListsOk(w, m') && MembersOk(m')
  {
    hide Writable, NodeKey;
    AcceptedRootIsWritable(w, m, n);
    var key := NodeKey(w, n);
    var m' := Rooted(m, key, n);
    forall a | a in m'.roots ensures RootAt(w, m', a) {
      if a != n.address {
        assert RootAt(w, m, a);
      }
    }
    forall k | k in m'.nodes ensures RootKnown(m', k) && Listed(m', k) {
      if k != key {
        assert RootKnown(m, k) && Listed(m, k);
      }
    }
    forall id | id in m'.lists ensures ListAt(w, m', id) {
      assert ListAt(w, m, id);
      ListKept(w, m, m', id);
    }
  }

  lemma RootedNames(w: World, st: State, m: Model, n: Node)
    requires JsonLaws(w) && Inv(w, st, m) && NodeKey(w, n) !in m.nodes
    requires SlashFree(n.address) && AcceptsRoot(w, m, n)
    ensures NamesOk(w, RootStored(w, st, n), Rooted(m, NodeKey(w, n), n))
  {
    hide GetName, LastName, RootName, Writable, NodeKey, ListsOk, MembersOk, PathsOk, StoreOk;
    var key := NodeKey(w, n);
    var m', st' := Rooted(m, key, n), RootStored(w, st, n);
    forall a | a in m'.roots ensures RootNamed(w, st', m', a) {
      if a != n.address {
        assert RootNamed(w, st, m, a) && RootAt(w, m, a);
        if RootName(w.nameSpace, a) == RootName(w.nameSpace, n.address) {
          RootNameInjective(w.nameSpace, a, n.address);
        }
      }
    }
    forall id | id in m'.lists ensures HeadNamed(w, st', m', id) {
      assert HeadNamed(w, st, m, id);
      RootIsNotHead(w, st, m, n.address, id);
    }
    forall name | name in st'.names ensures IsIndexName(w, m', name) {
      if name == RootName(w.nameSpace, n.address) {
        assert NamesRoot(w, m', name, n.address);
      } else {
        assert IsIndexName(w, m, name);
        IndexNameKept(w, m, m', name);
      }
    }
  }

  lemma RootedKeepsInv(w: World, st: State, m: Model, n: Node)
    requires JsonLaws(w) && Inv(w, st, m) && Guard(w, st, OpSetRoot(n)) && AcceptsRoot(w, m, n)
    ensures NodeKey(w, n) !in m.nodes
    ensures Inv(w, RootStored(w, st, n), Rooted(m, NodeKey(w, n), n))
  {
    hide GetName, LastName, RootName, Validity;
    var key := NodeKey(w, n);
    var m', st' := Rooted(m, key, n), RootStored(w, st, n);
    AcceptedRootIsFresh(w, st, m, n);
    GrownStore(w, st, st', m, m', n);
    GrownAcyclic(w, st, m, m', n);
    RootPath(w, n.address, key);
    GrownPaths(w, st, st', m, m', n);
    RootedLists(w, m, n);
    RootedNames(w, st, m, n);
  }

  // ---------- refusals ----------

  lemma NameRefused(w: World, st: State, addr: string, key: string, branch: string)
    requires SlashFree(addr) && !Writable(w, st.managed, addr)
    ensures AddError(w.crypto, st.managed, LastName(w.nameSpace, addr, key, branch)).Some?
  {
    hide GetName, Validity;
    NameAddress(w.nameSpace, addr, ["shortcuts", key, branch, "last"]);
  }

  lemma SmallerPaths(w: World, st: State, m: Model, m': Model)
    requires Acyclic(m) && Acyclic(m') && Extends(m, m') && PathsOk(w, st, m')
    ensures PathsOk(w, st, m)
  {
    hide ModelPath;
    forall k | k in m.nodes ensures PathAt(w, st, m, k) {
      assert PathAt(w, st, m', k) && LinksBack(m, k);
      PathIsStable(w, m, m', k);
    }
  }

  lemma UnlinkedRoot(w: World, st: State, st': State, m: Model, n: Node)
    requires JsonLaws(w) && NodesOk(w, st, m) && IsRoot(n) && StoreOk(w, st) && CollisionFree(w, st, n)
    requires st'.pairs == st.pairs[NodeKey(w, n) := w.toJson(n)]
    ensures NodesOk(w, st', m)
  {
    JsonReadsBack(w, n);
    StoreIsKeyed(w, st);
    SameKeySameBytes(w, st, n);
    forall k | k in m.nodes ensures NodeAt(w, st', m, k) {
      assert NodeAt(w, st, m, k);
    }
    forall k | k in st'.pairs ensures LinkedOrRoot(w, st', m, k) {
      if k != NodeKey(w, n) {
        assert LinkedOrRoot(w, st, m, k);
      }
    }
  }

  lemma SameNames(w: World, st: State, st': State, m: Model, m': Model)
    requires NamesOk(w, st, m) && st'.names == st.names
    requires m'.nodes == m.nodes && m'.roots == m.roots && m'.lists == m.lists
    ensures NamesOk(w, st', m')
  {
    hide LastName, RootName;
    forall a | a in m'.roots ensures RootNamed(w, st', m', a) {
      assert RootNamed(w, st, m, a);
    }
    forall id | id in m'.lists ensures HeadNamed(w, st', m', id) {
      assert HeadNamed(w, st, m, id);
    }
    forall name | name in st'.names ensures IsIndexName(w, m', name) {
      assert IsIndexName(w, m, name);
      IndexNameKept(w, m, m', name);
    }
  }

  lemma StoringKeepsInv(w: World, st: State, m: Model, n: Node)
    requires JsonLaws(w) && Inv(w, st, m) && Guard(w, st, OpSetRoot(n)) && n.address !in m.roots
    ensures Inv(w, Stored(w, st, n, GetName(w.nameSpace, n.address, [NodeKey(w, n), "node"])), m)
  {
    hide LastName, RootName, Writable, GetName;
    var key := NodeKey(w, n);
    var st' := Stored(w, st, n, GetName(w.nameSpace, n.address, [key, "node"]));
    if key in m.nodes {
      LinkedRootIsNamed(w, st, m, n);
    }
    // The bytes would be those of one more linked node.
    var m' := Rooted(m, key, n);
    GrownStore(w, st, st', m, m', n);
    GrownAcyclic(w, st, m, m', n);
    RootPath(w, n.address, key);
    GrownPaths(w, st, st', m, m', n);
    UnlinkedRoot(w, st, st', m, n);
    SmallerPaths(w, st', m, m');
    SameNames(w, st, st', m, m);
  }

  // A root that is not accepted leaves the index alone; at most its bytes are stored, unlinked.
  lemma RefusedRoot(w: World, st: State, m: Model, n: Node)
    requires JsonLaws(w) && Inv(w, st, m) && Guard(w, st, OpSetRoot(n)) && !AcceptsRoot(w, m, n)
    ensures var o := SetRoot(w, st, n);
            o.res.Err? && o.st.names == st.names && Inv(w, o.st, m)
            && (o.st == st || o.st == Stored(w, st, n, GetName(w.nameSpace, n.address, [NodeKey(w, n), "node"])))
    ensures n.address in m.roots ==> SetRoot(w, st, n).st == st
    ensures n.branch != "" && n.branch in n.branches && n.address in m.roots ==>
              SetRoot(w, st, n) == Outcome(st, Err(ErrDagAlreadyInitialized))
  {
    hide GetName, LastName, RootName, Validity;
    if n.branch != "" && n.branch in n.branches {
      RootLookup(w, st, m, n.address);
      if n.address !in m.roots {
        NameRefused(w, st, n.address, NodeKey(w, n), n.branch);
        StoringKeepsInv(w, st, m, n);
      }
    }
  }

  lemma UnwritableRoot(w: World, st: State, n: Node)
    requires SlashFree(n.address) && n.branch != "" && n.branch in n.branches
    requires GetRoot(w, st, n.address).Err? && !Writable(w, st.managed, n.address)
    ensures SetRoot(w, st, n).res == match Validity(w.crypto, n.address)
                                     case Panics => Err(Panic)
                                     case Fails => Err(ErrInvalidAddrComponent)
                                     case Passes => Err(ErrUnmanagedAddress)
  {
    hide GetName, Validity, NodeKey, AddBranches;
    NameAddress(w.nameSpace, n.address, ["shortcuts", "root"]);
    NameAddress(w.nameSpace, n.address, ["shortcuts", NodeKey(w, n), n.branch, "last"]);
  }

  // What SetRoot answers, in the order of its checks.
  lemma RootAnswer(w: World, st: State, m: Model, n: Node)
    requires JsonLaws(w) && Inv(w, st, m) && SlashFree(n.address)
    ensures SetRoot(w, st, n).res ==
              if n.branch == "" then Err(ErrInvalidBranch)
              else if n.branch !in n.branches then Err(ErrDefaultBranchNotSpecified)
              else if n.address in m.roots then Err(ErrDagAlreadyInitialized)
              else match Validity(w.crypto, n.address)
                   case Panics => Err(Panic)
                   case Fails => Err(ErrInvalidAddrComponent)
                   case Passes => if n.address in st.managed then Ok(NodeKey(w, n)) else Err(ErrUnmanagedAddress)
  {
    hide GetName, Validity, NodeKey, AddBranches, HeadEntries, GetRoot, LastName, RootName;
    if n.branch != "" && n.branch in n.branches {
      RootLookup(w, st, m, n.address);
      if AcceptsRoot(w, m, n) {
        AcceptedRootSaves(w, st, m, n);
      } else if n.address !in m.roots {
        UnwritableRoot(w, st, n);
      }
    }
  }

  // ---------- one step of both machines ----------

  // What the reply of the list machine says about the call.
  ghost predicate Answers(op: Op, st: State, o: Outcome, reply: Reply) {
    match reply
    case Linked(key) => o.res == Ok(key)
    case Partial => o.res == Err(ErrUnmanagedAddress)
    case Refused => !op.OpManage? ==> o.res.Err? && o.st.names == st.names && (op.OpAppend? ==> o.st == st)
  }

  lemma ManagedLists(w: World, m: Model, m': Model)
    requires ListsOk(w, m) && m' == m.(managed := m'.managed) && m.managed <= m'.managed
    ensures ListsOk(w, m')
  {
    hide InChain, Writable;
    forall id | id in m'.lists ensures ListAt(w, m', id) {
      assert ListAt(w, m, id);
      ListKept(w, m, m', id);
    }
  }

  lemma ManageKeepsInv(w: World, st: State, m: Model, addr: Address)
    requires JsonLaws(w) && Inv(w, st, m)
    ensures Inv(w, Exec(w, st, OpManage(addr)).st, ModelExec(w, m, OpManage(addr)).0)
  {
    var st', m' := Exec(w, st, OpManage(addr)).st, ModelExec(w, m, OpManage(addr)).0;
    SameStore(w, st, st', m, m');
    ManagedLists(w, m, m');
    SameMembers(w, m, m');
    SamePaths(w, st, st', m, m');
    SameNames(w, st, st', m, m');
  }

  lemma AppendRefines(w: World, st: State, m: Model, n: Node, root: string)
    requires JsonLaws(w) && Inv(w, st, m) && Guard(w, st, OpAppend(n, root))
    ensures var (m', reply) := ModelAppend(w, m, n, root);
            Inv(w, Append(w, st, n, root).st, m') && Answers(OpAppend(n, root), st, Append(w, st, n, root), reply)
  {
    hide IntrinsicError, Validity;
    VerifyExactly(w, st, m, n, root);
    if Accepts(w, m, n, root) {
      var key, id := NodeKey(w, n), BranchId(root, n.branch);
      AppendSaves(w, st, m, n, root);
      PushKeepsInv(w, st, m, n, root);
      if n.branches != [] && n.address in m.managed {
        var pushed := Push(WithNode(m, key, n), id, key);
        IntrinsicAddress(w, n);
        forall x | x in pushed.lists ensures x.root != key {
          assert ListAt(w, m, x);
        }
        OpenKeepsInv(w, Moved(w, st, m, n, root), pushed, key);
      }
    }
  }

  lemma SetRootRefines(w: World, st: State, m: Model, n: Node)
    requires JsonLaws(w) && Inv(w, st, m) && Guard(w, st, OpSetRoot(n))
    ensures var (m', reply) := ModelSetRoot(w, m, n);
            Inv(w, SetRoot(w, st, n).st, m') && Answers(OpSetRoot(n), st, SetRoot(w, st, n), reply)
  {
    hide Validity;
    if AcceptsRoot(w, m, n) {
      var key := NodeKey(w, n);
      AcceptedRootSaves(w, st, m, n);
      RootedKeepsInv(w, st, m, n);
      forall x | x in m.lists ensures x.root != key {
        assert ListAt(w, m, x);
      }
      OpenKeepsInv(w, RootStored(w, st, n), Rooted(m, key, n), key);
      assert Open(Rooted(m, key, n), key, n) == ModelSetRoot(w, m, n).0;
    } else {
      RefusedRoot(w, st, m, n);
    }
  }

  // Refinement, one step: whatever dag.go does under the guard, the lists do, with the same answer.
  lemma StepRefines(w: World, st: State, m: Model, op: Op)
    requires JsonLaws(w) && Inv(w, st, m) && Guard(w, st, op)
    ensures var (m', reply) := ModelExec(w, m, op);
            Inv(w, Exec(w, st, op).st, m') && Answers(op, st, Exec(w, st, op), reply)
  {
    hide Inv, Append, SetRoot, ModelAppend, ModelSetRoot;
    match op
    case OpManage(addr) => ManageKeepsInv(w, st, m, addr);
    case OpSetRoot(n) => SetRootRefines(w, st, m, n);
    case OpAppend(n, root) => AppendRefines(w, st, m, n, root);
  }
}
