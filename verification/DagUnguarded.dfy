/** What VerifyNode lets through without guard G, and exactly what the call then undoes. */
module DagUnguarded {
  import opened DagModel
  import opened DagRefinement
  import opened DagRuns
  import opened DagSpec
  import opened DagSteps
  import opened Names
  import opened Node
  import opened Text
  import opened Wrappers

  // A head name is written by the branches a node declares exactly when it is below that node.
  lemma EntryExactly(w: World, st: State, m: Model, n: Node, id: BranchId)
    requires JsonLaws(w) && Inv(w, st, m) && CollisionFree(w, st, n) && SlashFree(n.address) && id in m.lists
    ensures id.root in m.nodes
    ensures HeadName(w, m, id) in HeadEntries(w, n.address, NodeKey(w, n), n.branches)
       <==> id.root == NodeKey(w, n) && id.name in n.branches
  {
    hide LastName, HeadEntries;
    var key := NodeKey(w, n);
    HeadIsLinked(w, m, id);
    Known(w, st, m, id.root);
    DataStore.KeyShape(w.crypto, w.toJson(n));
    EntriesContents(w, n.address, key, n.branches);
    if HeadName(w, m, id) in HeadEntries(w, n.address, key, n.branches) {
      var b :| b in n.branches && HeadName(w, m, id) == LastName(w.nameSpace, n.address, key, b);
      LastNameInjective(w.nameSpace, m.nodes[id.root].address, id.root, id.name, n.address, key, b);
    } else if id.root == key {
      LinkedIs(w, st, m, n);
    }
  }

  // Guarded or not, an accepted node takes no other branch's head back, except that of a non-empty
  // open branch below the node itself: its head falls back to the node, and what was appended there
  // is no longer reached from it. Under the guard no branch hangs below a node being accepted.
  lemma OtherHeadsExactly(w: World, st: State, m: Model, n: Node, root: string, id: BranchId)
    requires JsonLaws(w) && Inv(w, st, m) && Accepts(w, m, n, root) && CollisionFree(w, st, n)
    requires id in m.lists && id != BranchId(root, n.branch)
    ensures id.root in m.nodes && HeadName(w, m, id) in Append(w, st, n, root).st.names
    ensures Append(w, st, n, root).st.names[HeadName(w, m, id)] != Head(m, id)
       <==> id.root == NodeKey(w, n) && id.name in n.branches && n.address in m.managed && m.lists[id] != []
    ensures n.branchRoot == root ==> id.root != NodeKey(w, n)
  {
    hide IntrinsicError, LastName, HeadEntries, Append, ModelPath, Writable;
    var own := BranchId(root, n.branch);
    AppendSaves(w, st, m, n, root);
    IntrinsicAddress(w, n);
    HeadIsLinked(w, m, id);
    assert HeadNamed(w, st, m, id);
    HeadNamesDiffer(w, st, m, id, own);
    HeadIsRoot(w, m, id);
    EntryExactly(w, st, m, n, id);
    EntriesContents(w, n.address, NodeKey(w, n), n.branches);
    if n.branchRoot == root {
      AcceptedIsFresh(w, st, m, n, root);
    }
  }

  // ---------- a run that takes a head back ----------

  lemma NewKey(w: World, st: State, m: Model, n: Node)
    requires Inv(w, st, m) && NodeKey(w, n) !in st.pairs
    ensures CollisionFree(w, st, n)
  {
    StoreIsKeyed(w, st);
    NewKeyIsFree(w, st, n);
  }

  lemma RootStep(w: World, ops: seq<Op>, n: Node)
    requires JsonLaws(w) && Guarded(w, ops) && AcceptsRoot(w, ModelRun(w, ops), n)
    requires IsRoot(n) && SlashFree(n.address) && NodeKey(w, n) !in Run(w, ops).pairs
    ensures Guarded(w, ops + [OpSetRoot(n)])
    ensures ModelRun(w, ops + [OpSetRoot(n)]) == ModelSetRoot(w, ModelRun(w, ops), n).0
    ensures Run(w, ops + [OpSetRoot(n)]).pairs.Keys == Run(w, ops).pairs.Keys + {NodeKey(w, n)}
  {
    hide SetRoot, ModelSetRoot, Inv, GetName, RootName, HeadEntries;
    OneMore(w, ops, OpSetRoot(n));
    RunRefines(w, ops);
    NewKey(w, Run(w, ops), ModelRun(w, ops), n);
    AcceptedRootSaves(w, Run(w, ops), ModelRun(w, ops), n);
  }

  lemma AcceptedNodeIsStored(w: World, st: State, m: Model, n: Node)
    requires JsonLaws(w) && Inv(w, st, m) && Accepts(w, m, n, n.branchRoot)
    ensures Append(w, st, n, n.branchRoot).st.pairs == st.pairs[NodeKey(w, n) := w.toJson(n)]
  {
    hide IntrinsicError, Append, HeadEntries, ModelPath, LastName, GetName;
    AppendSaves(w, st, m, n, n.branchRoot);
  }

  lemma AppendStep(w: World, ops: seq<Op>, n: Node)
    requires JsonLaws(w) && Guarded(w, ops) && Accepts(w, ModelRun(w, ops), n, n.branchRoot)
    requires NodeKey(w, n) !in Run(w, ops).pairs
    ensures Guarded(w, ops + [OpAppend(n, n.branchRoot)])
    ensures ModelRun(w, ops + [OpAppend(n, n.branchRoot)]) == ModelAppend(w, ModelRun(w, ops), n, n.branchRoot).0
    ensures Run(w, ops + [OpAppend(n, n.branchRoot)]).pairs.Keys == Run(w, ops).pairs.Keys + {NodeKey(w, n)}
  {
    hide Append, ModelAppend, Accepts, Inv, HeadEntries, ModelPath, LastName;
    OneMore(w, ops, OpAppend(n, n.branchRoot));
    RunRefines(w, ops);
    NewKey(w, Run(w, ops), ModelRun(w, ops), n);
    AcceptedNodeIsStored(w, Run(w, ops), ModelRun(w, ops), n);
  }

  ghost predicate Owned(w: World, owner: Address.Address, n: Node) {
    IntrinsicError(w, n).None? && n.address == owner.address
  }

  // The nodes of such a run, all made by one owner:
  //
  //   r --main--> k --main--> n --notes--> x
  ghost predicate Story(w: World, owner: Address.Address, r: Node, k: Node, n: Node, x: Node) {
    && LocalResolver.ManageError(owner).None?
    && Owned(w, owner, r) && Owned(w, owner, k) && Owned(w, owner, n) && Owned(w, owner, x)
    && IsRoot(r) && r.branches == [r.branch] && r.seqNo == 1
    && k.branch == r.branch && k.branches == [r.branch] && k.seqNo == 2
    && k.branchRoot == k.previous == NodeKey(w, r)
    && n.branch == r.branch && n.branches == [x.branch] && n.seqNo == 3
    && n.branchRoot == NodeKey(w, r) && n.previous == NodeKey(w, k)
    && x.branch != r.branch && x.branches == [] && x.seqNo == 1
    && x.branchRoot == x.previous == NodeKey(w, n)
    && NodeKey(w, r) !in {NodeKey(w, k), NodeKey(w, n), NodeKey(w, x)}
    && NodeKey(w, k) !in {NodeKey(w, n), NodeKey(w, x)} && NodeKey(w, n) != NodeKey(w, x)
  }

  function StoryOps(owner: Address.Address, r: Node, k: Node, n: Node, x: Node): seq<Op> {
    [OpManage(owner)] + [OpSetRoot(r)] + [OpAppend(k, k.branchRoot)] + [OpAppend(n, n.branchRoot)]
    + [OpAppend(x, x.branchRoot)]
  }

  // A linked node that lies where its fields say.
  ghost predicate Has(m: Model, key: string, n: Node, id: BranchId, list: seq<string>) {
    key in m.nodes && m.nodes[key] == n && id in m.lists && m.lists[id] == list
  }

  lemma OneManaged(w: World, owner: Address.Address)
    requires LocalResolver.ManageError(owner).None?
    ensures var ops := [OpManage(owner)];
            Guarded(w, ops) && Run(w, ops) == INITIAL.(managed := {owner.address})
            && ModelRun(w, ops) == NOTHING.(managed := {owner.address})
  {
    OneMore(w, [], OpManage(owner));
    assert [] + [OpManage(owner)] == [OpManage(owner)];
  }

  lemma StoryStart(w: World, owner: Address.Address, r: Node, k: Node, n: Node, x: Node)
    requires JsonLaws(w) && Story(w, owner, r, k, n, x)
    ensures var ops := [OpManage(owner)] + [OpSetRoot(r)]; var m, kr := ModelRun(w, ops), NodeKey(w, r);
            Guarded(w, ops) && Run(w, ops).pairs.Keys == {kr} && m.managed == {owner.address}
            && Has(m, kr, r, BranchId(kr, r.branch), [])
  {
    hide IntrinsicError, Address.Validity, NodeKey, JsonLaws, Run, ModelRun, Guarded;
    IntrinsicAddress(w, r);
    OneManaged(w, owner);
    RootStep(w, [OpManage(owner)], r);
  }

  // Appending n leaves its key last on its branch and, if it declares one branch, that one empty.
  lemma AppendedHas(w: World, m: Model, n: Node, b: string, id: BranchId)
    requires Accepts(w, m, n, n.branchRoot) && n.address in m.managed && NodeKey(w, n) !in m.nodes
    requires id in m.lists && id.root in m.nodes
    ensures var m', key, own := ModelAppend(w, m, n, n.branchRoot).0, NodeKey(w, n), BranchId(n.branchRoot, n.branch);
            m'.managed == m.managed && m'.nodes == m.nodes[key := n]
            && own in m'.lists && m'.lists[own] == m.lists[own] + [key]
            && (id != own ==> id in m'.lists && m'.lists[id] == m.lists[id])
            && (n.branches == [b] ==> Has(m', key, n, BranchId(key, b), []))
  {
    hide IntrinsicError, NodeKey;
  }

  lemma LinkedAreStored(w: World, st: State, m: Model)
    requires Inv(w, st, m)
    ensures m.nodes.Keys <= st.pairs.Keys
  {
    forall k | k in m.nodes ensures k in st.pairs {
      assert NodeAt(w, st, m, k);
    }
  }

  lemma StoryThird(w: World, owner: Address.Address, r: Node, k: Node, n: Node, x: Node)
    requires JsonLaws(w) && Story(w, owner, r, k, n, x)
    ensures var ops := [OpManage(owner)] + [OpSetRoot(r)] + [OpAppend(k, k.branchRoot)];
            var m, kr, kk := ModelRun(w, ops), NodeKey(w, r), NodeKey(w, k);
            Guarded(w, ops) && Run(w, ops).pairs.Keys == {kr, kk} && m.managed == {owner.address}
            && Has(m, kr, r, BranchId(kr, r.branch), [kk]) && Has(m, kk, k, BranchId(kk, r.branch), [])
  {
    hide IntrinsicError, NodeKey, Run, ModelRun, Guarded, JsonLaws, ModelAppend;
    StoryStart(w, owner, r, k, n, x);
    var ops := [OpManage(owner)] + [OpSetRoot(r)];
    RunRefines(w, ops);
    LinkedAreStored(w, Run(w, ops), ModelRun(w, ops));
    AppendStep(w, ops, k);
    AppendedHas(w, ModelRun(w, ops), k, r.branch, BranchId(NodeKey(w, r), r.branch));
  }

  lemma StoryMain(w: World, owner: Address.Address, r: Node, k: Node, n: Node, x: Node)
    requires JsonLaws(w) && Story(w, owner, r, k, n, x)
    ensures var ops := [OpManage(owner)] + [OpSetRoot(r)] + [OpAppend(k, k.branchRoot)] + [OpAppend(n, n.branchRoot)];
            var m, kr, kk, kn := ModelRun(w, ops), NodeKey(w, r), NodeKey(w, k), NodeKey(w, n);
            Guarded(w, ops) && Run(w, ops).pairs.Keys == {kr, kk, kn} && m.managed == {owner.address}
            && Has(m, kk, k, BranchId(kk, r.branch), []) && Has(m, kn, n, BranchId(kn, x.branch), [])
  {
    hide IntrinsicError, NodeKey, Run, ModelRun, Guarded, JsonLaws, ModelAppend, Inv;
    StoryThird(w, owner, r, k, n, x);
    var ops := [OpManage(owner)] + [OpSetRoot(r)] + [OpAppend(k, k.branchRoot)];
    RunRefines(w, ops);
    LinkedAreStored(w, Run(w, ops), ModelRun(w, ops));
    AppendStep(w, ops, n);
    AppendedHas(w, ModelRun(w, ops), n, x.branch, BranchId(NodeKey(w, k), r.branch));
  }

  // What is accepted once more is written once more.
  lemma TakenBack(w: World, st: State, m: Model, n: Node, root: string, branch: string)
    requires JsonLaws(w) && Inv(w, st, m) && Accepts(w, m, n, root)
    requires NodeKey(w, n) in m.nodes && m.nodes[NodeKey(w, n)] == n && branch in n.branches
    requires BranchId(NodeKey(w, n), branch) in m.lists && n.address in m.managed
    ensures var head, key := LastName(w.nameSpace, n.address, NodeKey(w, n), branch), NodeKey(w, n);
            head in st.names && st.names[head] == Head(m, BranchId(key, branch))
            && Append(w, st, n, root).res == Ok(key)
            && head in Append(w, st, n, root).st.names && Append(w, st, n, root).st.names[head] == key
  {
    hide IntrinsicError, LastName, HeadEntries, Append, ModelPath;
    AppendSaves(w, st, m, n, root);
    EntriesContents(w, n.address, NodeKey(w, n), n.branches);
    assert HeadNamed(w, st, m, BranchId(NodeKey(w, n), branch));
  }

  // The main branches of r and of k then have the same head, so n is accepted again with k as its
  // branch root; and that takes the head of the notes back from x to n.
  lemma HeadTakenBack(w: World, owner: Address.Address, r: Node, k: Node, n: Node, x: Node)
    requires JsonLaws(w) && Story(w, owner, r, k, n, x)
    ensures var st := Run(w, StoryOps(owner, r, k, n, x));
            var again := Append(w, st, n, NodeKey(w, k));
            var head := LastName(w.nameSpace, n.address, NodeKey(w, n), x.branch);
            Guarded(w, StoryOps(owner, r, k, n, x))
            && head in st.names && st.names[head] == NodeKey(w, x)
            && again.res == Ok(NodeKey(w, n))
            && head in again.st.names && again.st.names[head] == NodeKey(w, n)
  {
    hide IntrinsicError, Append, LastName, NodeKey, JsonLaws, Inv, Run, ModelRun, Guarded, ModelAppend;
    var ops := [OpManage(owner)] + [OpSetRoot(r)] + [OpAppend(k, k.branchRoot)] + [OpAppend(n, n.branchRoot)];
    StoryMain(w, owner, r, k, n, x);
    RunRefines(w, ops);
    LinkedAreStored(w, Run(w, ops), ModelRun(w, ops));
    AppendStep(w, ops, x);
    AppendedHas(w, ModelRun(w, ops), x, "", BranchId(NodeKey(w, k), r.branch));
    var all := StoryOps(owner, r, k, n, x);
    assert all == ops + [OpAppend(x, x.branchRoot)];
    RunRefines(w, all);
    TakenBack(w, Run(w, all), ModelRun(w, all), n, NodeKey(w, k), x.branch);
  }
}
