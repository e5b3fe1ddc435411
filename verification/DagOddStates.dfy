/**
 Lookups, checks and paths where the store and the name index disagree or hold what is no node. Guarded
 runs never come to such states, but dag.go has an answer for each of them.
 */
module DagOddStates {
  import opened Address
  import opened DagChecks
  import opened DagModel
  import opened DagSpec
  import DagSteps
  import opened Errors
  import opened Names
  import opened Node
  import opened Text
  import opened Wrappers

  // What is stored under the key is no node.
  predicate IsEmpty(st: State, key: string) {
    key in st.pairs && st.pairs[key] == []
  }

  predicate IsUnreadable(w: World, st: State, key: string) {
    key in st.pairs && st.pairs[key] != [] && w.fromJson(st.pairs[key]).None?
  }

  predicate IsNode(w: World, st: State, key: string, n: Node) {
    key in st.pairs && st.pairs[key] != [] && w.fromJson(st.pairs[key]) == Some(n)
  }

  // ---------- lookups ----------

  // Empty bytes are a nil node without an error.
  lemma FetchOdd(w: World, st: State, key: string)
    ensures IsEmpty(st, key) ==> GetNode(w, st, key) == Ok(None)
    ensures IsUnreadable(w, st, key) ==> GetNode(w, st, key) == Err(ErrJson)
    ensures key !in st.pairs ==> GetNode(w, st, key) == Err(ErrNodeNotFound)
    ensures forall n :: IsNode(w, st, key, n) ==> GetNode(w, st, key) == Ok(Some(n))
  {
  }

  // The head name leads to the key.
  predicate LeadsTo(w: World, st: State, rootNode: Node, root: string, branch: string, key: string) {
    Resolve(w, st, LastName(w.nameSpace, rootNode.address, root, branch)) == Ok(key)
  }

  // A head that is missing from the store counts as the branch root; one that is there is read, or is
  // an error.
  lemma HeadOdd(w: World, st: State, rootNode: Node, root: string, branch: string, key: string)
    requires branch != "" && IsNode(w, st, root, rootNode) && LeadsTo(w, st, rootNode, root, branch, key)
    ensures key !in st.pairs ==> GetLast(w, st, root, branch) == Ok((Some(rootNode), root))
    ensures IsEmpty(st, key) ==> GetLast(w, st, root, branch) == Ok((None, key))
    ensures IsUnreadable(w, st, key) ==> GetLast(w, st, root, branch) == Err(ErrJson)
    ensures forall n :: IsNode(w, st, key, n) ==> GetLast(w, st, root, branch) == Ok((Some(n), key))
  {
    hide LastName, Resolve;
  }

  // Without a branch root to read there is no head.
  lemma RootOdd(w: World, st: State, root: string, branch: string)
    requires branch != ""
    ensures root !in st.pairs ==> GetLast(w, st, root, branch) == Err(ErrNodeNotFound)
    ensures IsEmpty(st, root) ==> GetLast(w, st, root, branch) == Err(Panic)
    ensures IsUnreadable(w, st, root) ==> GetLast(w, st, root, branch) == Err(ErrJson)
  {
    hide LastName, Resolve;
  }

  // GetRoot does not replace a missing root by anything.
  lemma NamedRootOdd(w: World, st: State, addr: string, key: string)
    requires Resolve(w, st, RootName(w.nameSpace, addr)) == Ok(key)
    ensures key !in st.pairs ==> GetRoot(w, st, addr) == Err(ErrNodeNotFound)
    ensures IsEmpty(st, key) ==> GetRoot(w, st, addr) == Ok((None, key))
    ensures IsUnreadable(w, st, key) ==> GetRoot(w, st, addr) == Err(ErrJson)
  {
    hide RootName, Resolve;
  }

  // ---------- checks ----------

  lemma BranchIsNamed(w: World, n: Node)
    requires Genuine(w, n)
    ensures n.branch != ""
  {
  }

  // What a genuine node is told when the node before it or its branch root is no node.
  lemma AppendOdd(w: World, st: State, n: Node, root: string)
    requires Genuine(w, n)
    ensures IsEmpty(st, n.previous) ==> RefusedWith(w, st, n, root, ErrPreviousNodeNotFound)
    ensures IsUnreadable(w, st, n.previous) ==> RefusedWith(w, st, n, root, ErrJson)
    ensures forall p :: IsNode(w, st, n.previous, p) ==>
              && (IsEmpty(st, root) ==> RefusedWith(w, st, n, root, ErrBranchRootNotFound))
              && (IsUnreadable(w, st, root) ==> RefusedWith(w, st, n, root, ErrJson))
  {
    hide IntrinsicError, SaveNode, LastName, Resolve, Genuine;
    GenuineExactly(w, n);
  }

  // And when the head of its branch is no node.
  lemma AppendAboveOdd(w: World, st: State, n: Node, root: string, before: Node, rootNode: Node, head: string)
    requires Genuine(w, n) && IsNode(w, st, n.previous, before) && IsNode(w, st, root, rootNode)
    requires n.branch in rootNode.branches && LeadsTo(w, st, rootNode, root, n.branch, head)
    ensures IsEmpty(st, head) ==> RefusedWith(w, st, n, root, ErrHeadNodeNotFound)
    ensures IsUnreadable(w, st, head) ==> RefusedWith(w, st, n, root, ErrJson)
    ensures head !in st.pairs && n.previous != root ==> RefusedWith(w, st, n, root, ErrPreviousNodeIsNotHead)
  {
    hide IntrinsicError, SaveNode, LastName, Resolve, Genuine;
    GenuineExactly(w, n);
    BranchIsNamed(w, n);
  }

  // ---------- paths ----------

  lemma PathOdd(w: World, st: State, key: string, seen: set<string>)
    ensures FullPath(w, st, "", seen) == Path("", None)
    ensures key != "" && key in seen ==> FullPath(w, st, key, seen) == Crash
    ensures key != "" && key !in seen && key !in st.pairs ==>
              FullPath(w, st, key, seen) == Path("", Some(ErrNodeNotFound))
    ensures key != "" && key !in seen && IsUnreadable(w, st, key) ==>
              FullPath(w, st, key, seen) == Path("", Some(ErrJson))
    ensures key != "" && key !in seen && IsEmpty(st, key) ==> FullPath(w, st, key, seen) == Crash
  {
  }

  // A path without an error is never empty, so the case of dag.go for it does not arise.
  lemma PathIsNamed(w: World, st: State, key: string, seen: set<string>)
    requires key != "" && FullPath(w, st, key, seen).Path? && FullPath(w, st, key, seen).er.None?
    ensures FullPath(w, st, key, seen).path != ""
  {
  }

  // A node below a branch root that is missing has no path but its own key, and the error comes along; a
  // node that is its own branch root has none at all.
  lemma PathBelowOdd(w: World, st: State, key: string, n: Node)
    requires key != "" && IsNode(w, st, key, n) && n.branchRoot != ""
    ensures n.branchRoot !in st.pairs ==> FullPath(w, st, key, {}) == Path(key, Some(ErrNodeNotFound))
    ensures n.branchRoot == key ==> FullPath(w, st, key, {}) == Crash
  {
    PathOdd(w, st, n.branchRoot, {key});
  }

  // Saving ignores the error and goes on with that path: the bytes lie under the key of the branch root.
  lemma SavedUnderKey(w: World, st: State, n: Node, root: string, rootNode: Node)
    requires root != "" && IsNode(w, st, root, rootNode)
    requires rootNode.branchRoot != "" && rootNode.branchRoot !in st.pairs
    requires SlashFree(rootNode.address) && Writable(w, st.managed, rootNode.address) && n.branches == []
    ensures var (o, key) := (SaveNode(w, st, n, root), NodeKey(w, n));
            var path := Join([root, "branches", n.branch, key, "node"]);
            o.res == Ok(key) && path in o.st.paths && o.st.paths[path] == key
  {
    hide LastName, NodeKey, Join, Writable, FullPath;
    PathBelowOdd(w, st, root, rootNode);
    var stored := Stored(w, st, n, Join([root, "branches", n.branch, NodeKey(w, n), "node"]));
    DagSteps.AddNameWorks(w, stored, rootNode.address, root, n.branch, NodeKey(w, n));
  }

  // Without a branch root to read, nothing is saved.
  lemma SaveOdd(w: World, st: State, n: Node, root: string)
    ensures root !in st.pairs ==> SaveNode(w, st, n, root) == Outcome(st, Err(ErrNodeNotFound))
    ensures IsEmpty(st, root) ==> SaveNode(w, st, n, root) == Outcome(st, Err(ErrBranchRootNotFound))
    ensures IsUnreadable(w, st, root) ==> SaveNode(w, st, n, root) == Outcome(st, Err(ErrJson))
    ensures forall r :: root != "" && IsNode(w, st, root, r) && r.branchRoot == root ==>
              SaveNode(w, st, n, root) == Outcome(st, Err(Panic))
  {
    hide FullPath, LastName, Join, AddBranches;
    forall r | root != "" && IsNode(w, st, root, r) && r.branchRoot == root ensures FullPath(w, st, root, {}) == Crash {
      PathBelowOdd(w, st, root, r);
    }
  }

  // Below a branch root whose address is not managed the bytes are stored, but no name moves to them.
  lemma SavedUnnamed(w: World, st: State, n: Node, root: string, rootNode: Node)
    requires IsNode(w, st, root, rootNode) && FullPath(w, st, root, {}).Path?
    requires SlashFree(rootNode.address) && !Writable(w, st.managed, rootNode.address)
    ensures var o := SaveNode(w, st, n, root);
            o.res.Err? && o.st.names == st.names && o.st.pairs == st.pairs[NodeKey(w, n) := w.toJson(n)]
  {
    hide LastName, NodeKey, Join, Writable, FullPath, AddBranches;
    DagSteps.NameRefused(w, st, rootNode.address, root, n.branch);
  }

  // The validity test of an address of ones panics, and so does setting a root for it, before anything is
  // stored.
  lemma SetRootPanics(w: World, st: State, n: Node)
    requires SlashFree(n.address) && Validity(w.crypto, n.address) == Panics && n.branch != "" && n.branch in n.branches
    ensures SetRoot(w, st, n) == Outcome(st, Err(Panic))
  {
    hide GetName, Validity, SaveRootNode;
    NameAddress(w.nameSpace, n.address, ["shortcuts", "root"]);
  }
}
