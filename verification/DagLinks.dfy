/**
 What is left of the runs of dag.go when appended nodes may name any branch root: what is stored stays,
 and going down Previous ends.
 */
module DagLinks {
  import opened DagModel
  import opened DagRefinement
  import opened DagRuns
  import opened DagSpec
  import opened DataStore
  import opened Names
  import opened Node
  import opened Text
  import opened Wrappers

  // ---------- half of the guard ----------

  // Roots link to nothing, and no node meets different bytes under its key. VerifyNode itself sees to
  // it that the node before an appended one is stored.
  ghost predicate HalfGuard(w: World, st: State, op: Op) {
    match op
    case OpManage(_) => true
    case OpSetRoot(n) => n.previous == "" && CollisionFree(w, st, n)
    case OpAppend(n, _) => CollisionFree(w, st, n)
  }

  ghost predicate HalfGuarded(w: World, ops: seq<Op>) {
    ops == [] || (HalfGuarded(w, ops[..|ops| - 1]) && HalfGuard(w, Run(w, ops[..|ops| - 1]), ops[|ops| - 1]))
  }

  lemma {:induction false} GuardedIsHalfGuarded(w: World, ops: seq<Op>)
    requires Guarded(w, ops)
    ensures HalfGuarded(w, ops)
    decreases |ops|
  {
    hide CollisionFree, Run;
    if ops != [] {
      GuardedIsHalfGuarded(w, ops[..|ops| - 1]);
    }
  }

  // ---------- what a call stores ----------

  lemma {:induction false} AddsKeepPairs(w: World, st: State, n: Node, key: string, branches: seq<string>)
    ensures var o := AddBranches(w, st, n, key, branches);
            o.st.pairs == st.pairs && (o.res.Ok? ==> o.res == Ok(key))
    decreases |branches|
  {
    if branches != [] {
      var first := AddName(w, st, LastName(w.nameSpace, n.address, key, branches[0]), key);
      AddsKeepPairs(w, first.st, n, key, branches[1..]);
    }
  }

  lemma SaveRootPuts(w: World, st: State, n: Node)
    ensures var o := SaveRootNode(w, st, n);
            o.st.pairs == st.pairs[NodeKey(w, n) := w.toJson(n)] && (o.res.Ok? ==> o.res == Ok(NodeKey(w, n)))
  {
    hide NodeKey, GetName, LastName, RootName, AddBranches, LocalResolver.AddError;
    var key := NodeKey(w, n);
    var stored := Stored(w, st, n, GetName(w.nameSpace, n.address, [key, "node"]));
    var last := AddName(w, stored, LastName(w.nameSpace, n.address, key, n.branch), key);
    var named := AddName(w, last.st, RootName(w.nameSpace, n.address), key);
    AddsKeepPairs(w, named.st, n, key, n.branches);
  }

  lemma SavePuts(w: World, st: State, n: Node, root: string)
    ensures var o := SaveNode(w, st, n, root);
            (o.st.pairs == st.pairs[NodeKey(w, n) := w.toJson(n)] || (o.st.pairs == st.pairs && o.res.Err?))
            && (o.res.Ok? ==> o.res == Ok(NodeKey(w, n)))
  {
    hide NodeKey, GetName, LastName, AddBranches, LocalResolver.AddError, FullPath, Join;
    var key := NodeKey(w, n);
    if GetNode(w, st, root).Ok? && GetNode(w, st, root).value.Some? && FullPath(w, st, root, {}).Path? {
      var path := Join([FullPath(w, st, root, {}).path, "branches", n.branch, key, "node"]);
      var name := LastName(w.nameSpace, GetNode(w, st, root).value.value.address, root, n.branch);
      var moved := AddName(w, Stored(w, st, n, path), name, key);
      AddsKeepPairs(w, moved.st, n, key, n.branches);
    }
  }

  // A call stores its node under its key, or nothing; an appended node only above a stored one. What it
  // answers is the key of what it stored.
  lemma StepPuts(w: World, st: State, op: Op)
    ensures var o := Exec(w, st, op);
            (o.st.pairs == st.pairs
             || (!op.OpManage? && o.st.pairs == st.pairs[NodeKey(w, op.n) := w.toJson(op.n)]
                 && (op.OpAppend? ==> op.n.previous in st.pairs)))
            && (!op.OpManage? && o.res.Ok? ==>
                  o.res == Ok(NodeKey(w, op.n)) && o.st.pairs == st.pairs[NodeKey(w, op.n) := w.toJson(op.n)])
  {
    hide IntrinsicError, PositionError, NodeKey, SaveNode, SaveRootNode, RootName;
    match op
    case OpManage(_) =>
    case OpSetRoot(n) => SaveRootPuts(w, st, n);
    case OpAppend(n, root) => SavePuts(w, st, n, root);
  }

  lemma {:induction false} RunIsKeyed(w: World, ops: seq<Op>)
    ensures Keyed(w, Run(w, ops))
    decreases |ops|
  {
    hide Exec;
    if ops != [] {
      RunIsKeyed(w, ops[..|ops| - 1]);
      StepPuts(w, Run(w, ops[..|ops| - 1]), ops[|ops| - 1]);
    }
  }

  lemma StepKeepsBytes(w: World, st: State, op: Op)
    requires Keyed(w, st) && HalfGuard(w, st, op)
    ensures var pairs := Exec(w, st, op).st.pairs;
            forall k :: k in st.pairs ==> k in pairs && pairs[k] == st.pairs[k]
  {
    hide Exec, NodeKey, Keyed, CollisionFree;
    StepPuts(w, st, op);
    if !op.OpManage? {
      SameKeySameBytes(w, st, op.n);
    }
  }

  // What a key fetches never changes once it is stored, linked or not.
  lemma {:induction false} StoredStays(w: World, ops: seq<Op>, more: seq<Op>, k: string)
    requires HalfGuarded(w, more) && ops <= more && k in Run(w, ops).pairs
    ensures k in Run(w, more).pairs && Run(w, more).pairs[k] == Run(w, ops).pairs[k]
    ensures GetNode(w, Run(w, more), k) == GetNode(w, Run(w, ops), k)
    decreases |more|
  {
    hide Exec, HalfGuard, Keyed;
    if ops != more {
      var before := more[..|more| - 1];
      assert ops <= before;
      StoredStays(w, ops, before, k);
      RunIsKeyed(w, before);
      StepKeepsBytes(w, Run(w, before), more[|more| - 1]);
    }
  }

  // ---------- links go back in time ----------

  // Each stored node is a root of its DAG or was stored after the node before it.
  ghost predicate LinkBack(w: World, st: State, born: map<string, nat>, k: string) {
    k != "" && k in born
    && match GetNode(w, st, k)
       case Ok(Some(n)) =>
         n.previous == "" || (n.previous in st.pairs && n.previous in born && born[n.previous] < born[k])
       case _ => false
  }

  ghost predicate LinkedBack(w: World, st: State, born: map<string, nat>) {
    born.Keys == st.pairs.Keys
    && forall k {:trigger LinkBack(w, st, born, k)} :: k in st.pairs ==> LinkBack(w, st, born, k)
  }

  // The call that stored each node.
  ghost function Born(w: World, ops: seq<Op>): map<string, nat> {
    if ops == [] then map[]
    else
      var before := Born(w, ops[..|ops| - 1]);
      map k | k in Run(w, ops).pairs.Keys :: if k in before then before[k] else |ops| - 1
  }

  lemma NewLinkBack(w: World, st: State, n: Node, born: map<string, nat>)
    requires JsonLaws(w) && NodeKey(w, n) in born && st.pairs.Keys <= born.Keys
    requires NodeKey(w, n) in st.pairs && st.pairs[NodeKey(w, n)] == w.toJson(n)
    requires n.previous == "" || (n.previous in st.pairs && born[n.previous] < born[NodeKey(w, n)])
    ensures LinkBack(w, st, born, NodeKey(w, n))
  {
    JsonReadsBack(w, n);
    KeyShape(w.crypto, w.toJson(n));
  }

  lemma StepLinksBack(w: World, st: State, op: Op, born: map<string, nat>,
                        st': State, born': map<string, nat>, time: nat)
    requires JsonLaws(w) && LinkedBack(w, st, born) && Keyed(w, st) && HalfGuard(w, st, op)
    requires st' == Exec(w, st, op).st
    requires forall k :: k in born ==> born[k] < time
    requires born' == map k | k in st'.pairs.Keys :: if k in born then born[k] else time
    ensures LinkedBack(w, st', born')
  {
    hide Exec, NodeKey, JsonLaws, Keyed, CollisionFree;
    StepPuts(w, st, op);
    StepKeepsBytes(w, st, op);
    forall k | k in st'.pairs ensures LinkBack(w, st', born', k) {
      if k in st.pairs {
        assert LinkBack(w, st, born, k);
      } else {
        NewLinkBack(w, st', op.n, born');
      }
    }
  }

  // In every such run, Previous is acyclic and leads down to a root.
  lemma {:induction false} RunLinksBack(w: World, ops: seq<Op>)
    requires JsonLaws(w) && HalfGuarded(w, ops)
    ensures LinkedBack(w, Run(w, ops), Born(w, ops))
    ensures forall k :: k in Born(w, ops) ==> Born(w, ops)[k] < |ops|
    decreases |ops|
  {
    hide Exec, HalfGuard, LinkBack;
    if ops != [] {
      var before := ops[..|ops| - 1];
      RunLinksBack(w, before);
      RunIsKeyed(w, before);
      StepLinksBack(w, Run(w, before), ops[|ops| - 1], Born(w, before), Run(w, ops), Born(w, ops), |before|);
    }
  }
}
