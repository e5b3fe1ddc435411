/** What holds in every state that guarded calls on one DAG can reach. */
module DagRuns {
  import opened Address
  import opened DagModel
  import opened DagRefinement
  import opened DagSpec
  import opened DagSteps
  import opened Errors
  import opened Names
  import opened Node
  import opened Wrappers

  // ---------- runs ----------

  // Calls are atomic and come one after the other, from whatever clients there are.
  ghost function Run(w: World, ops: seq<Op>): State {
    if ops == [] then INITIAL else Exec(w, Run(w, ops[..|ops| - 1]), ops[|ops| - 1]).st
  }

  ghost function ModelRun(w: World, ops: seq<Op>): Model {
    if ops == [] then NOTHING else ModelExec(w, ModelRun(w, ops[..|ops| - 1]), ops[|ops| - 1]).0
  }

  ghost predicate Guarded(w: World, ops: seq<Op>) {
    ops == [] || (Guarded(w, ops[..|ops| - 1]) && Guard(w, Run(w, ops[..|ops| - 1]), ops[|ops| - 1]))
  }

  lemma OneMore(w: World, ops: seq<Op>, op: Op)
    ensures Run(w, ops + [op]) == Exec(w, Run(w, ops), op).st
    ensures ModelRun(w, ops + [op]) == ModelExec(w, ModelRun(w, ops), op).0
    ensures Guarded(w, ops + [op]) <==> Guarded(w, ops) && Guard(w, Run(w, ops), op)
  {
    hide Exec, ModelExec, Guard;
    assert (ops + [op])[..|ops + [op]| - 1] == ops;
  }

  lemma InitialInv(w: World)
    ensures Inv(w, INITIAL, NOTHING)
  {
  }

  // Refinement: after every guarded run the store and the index represent the lists.
  lemma {:induction false} RunRefines(w: World, ops: seq<Op>)
    requires JsonLaws(w) && Guarded(w, ops)
    ensures Inv(w, Run(w, ops), ModelRun(w, ops))
    decreases |ops|
  {
    if ops == [] {
      InitialInv(w);
    } else {
      hide Inv, Exec, ModelExec, Guard;
      RunRefines(w, ops[..|ops| - 1]);
      StepRefines(w, Run(w, ops[..|ops| - 1]), ModelRun(w, ops[..|ops| - 1]), ops[|ops| - 1]);
    }
  }

  // And every call answers as the list machine does.
  lemma RunAnswers(w: World, ops: seq<Op>, op: Op)
    requires JsonLaws(w) && Guarded(w, ops) && Guard(w, Run(w, ops), op)
    ensures Answers(op, Run(w, ops), Exec(w, Run(w, ops), op), ModelExec(w, ModelRun(w, ops), op).1)
  {
    hide Inv, Exec, ModelExec, Guard, Answers;
    RunRefines(w, ops);
    StepRefines(w, Run(w, ops), ModelRun(w, ops), op);
  }

  lemma NotYetARoot(w: World, st: State, m: Model, key: string)
    requires Inv(w, st, m) && key !in m.nodes
    ensures forall id :: id in m.lists ==> id.root != key
  {
    hide Writable;
    forall id | id in m.lists ensures id.root != key {
      assert ListAt(w, m, id);
    }
  }

  lemma ListsAfterAppend(w: World, st: State, m: Model, n: Node, root: string)
    requires JsonLaws(w) && Inv(w, st, m) && Guard(w, st, OpAppend(n, root))
    requires n.branches == [] || n.address in m.managed
    ensures var (m', reply) := ModelAppend(w, m, n, root);
            var id, key := BranchId(root, n.branch), NodeKey(w, n);
            if !Accepts(w, m, n, root) then reply == Refused
            else reply == Linked(key) && key !in m.nodes && id in m.lists && id in m'.lists
                 && m'.lists[id] == m.lists[id] + [key]
                 && (forall x :: x in m'.lists <==> x in m.lists || (x.root == key && x.name in n.branches))
                 && (forall x :: x in m.lists && x != id ==> m'.lists[x] == m.lists[x])
                 && (forall x :: x in m'.lists && x !in m.lists ==> m'.lists[x] == [])
  {
    hide IntrinsicError, Inv, NodeKey;
    if Accepts(w, m, n, root) {
      AcceptedIsFresh(w, st, m, n, root);
      NotYetARoot(w, st, m, NodeKey(w, n));
    }
  }

  lemma SameAddresses(w: World, st: State, m: Model)
    requires Inv(w, st, m)
    ensures st.managed == m.managed
  {
  }

  // An append is accepted exactly on an open branch, on top of its head and with the next number.
  // It adds its node at the end of that list, leaves every other list as it is, and opens an empty
  // list for each branch the node declares, provided its address is managed.
  lemma AppendExactly(w: World, ops: seq<Op>, n: Node, root: string)
    requires JsonLaws(w) && Guarded(w, ops) && Guard(w, Run(w, ops), OpAppend(n, root))
    requires n.branches == [] || n.address in Run(w, ops).managed
    ensures var m, m' := ModelRun(w, ops), ModelRun(w, ops + [OpAppend(n, root)]);
            var id, key, o := BranchId(root, n.branch), NodeKey(w, n), Append(w, Run(w, ops), n, root);
            if !Accepts(w, m, n, root) then o.res.Err? && o.st == Run(w, ops)
            else o.res == Ok(key) && key !in m.nodes && id in m.lists && id in m'.lists
                 && m'.lists[id] == m.lists[id] + [key]
                 && (forall x :: x in m'.lists <==> x in m.lists || (x.root == key && x.name in n.branches))
                 && (forall x :: x in m.lists && x != id ==> m'.lists[x] == m.lists[x])
                 && (forall x :: x in m'.lists && x !in m.lists ==> m'.lists[x] == [])
  {
    hide Append, Inv, NodeKey, ModelAppend, Accepts;
    var op := OpAppend(n, root);
    assert (ops + [op])[..|ops + [op]| - 1] == ops;
    assert ModelRun(w, ops + [op]) == ModelAppend(w, ModelRun(w, ops), n, root).0;
    hide Run, ModelRun, Guarded;
    RunRefines(w, ops);
    SameAddresses(w, Run(w, ops), ModelRun(w, ops));
    AppendRefines(w, Run(w, ops), ModelRun(w, ops), n, root);
    ListsAfterAppend(w, Run(w, ops), ModelRun(w, ops), n, root);
  }

  // ---------- nothing is ever lost ----------

  ghost predicate Grows(m: Model, m': Model) {
    && Extends(m, m')
    && (forall a :: a in m.roots ==> a in m'.roots && m'.roots[a] == m.roots[a])
    && (forall id :: id in m.lists ==> id in m'.lists && m.lists[id] <= m'.lists[id])
  }

  lemma GrowsTransitive(m: Model, m': Model, m'': Model)
    requires Grows(m, m') && Grows(m', m'')
    ensures Grows(m, m'')
  {
  }

  lemma OpenGrows(m: Model, key: string, n: Node)
    requires forall id :: id in m.lists ==> id.root != key
    ensures Grows(m, Open(m, key, n))
  {
  }

  lemma PushedGrows(m: Model, key: string, n: Node, id: BranchId)
    requires key !in m.nodes && id in m.lists
    ensures Grows(m, Push(WithNode(m, key, n), id, key))
  {
  }

  lemma RootedGrows(m: Model, key: string, n: Node)
    requires key !in m.nodes && n.address !in m.roots
    ensures Grows(m, Rooted(m, key, n))
  {
  }

  lemma GrowsReflexive(m: Model)
    ensures Grows(m, m)
  {
  }

  lemma AppendGrows(w: World, st: State, m: Model, n: Node, root: string)
    requires JsonLaws(w) && Inv(w, st, m) && Guard(w, st, OpAppend(n, root))
    ensures Grows(m, ModelAppend(w, m, n, root).0)
  {
    hide IntrinsicError, Inv, Guard, Open, Grows;
    if Accepts(w, m, n, root) {
      var key, id := NodeKey(w, n), BranchId(root, n.branch);
      AcceptedIsFresh(w, st, m, n, root);
      NotYetARoot(w, st, m, key);
      PushedGrows(m, key, n, id);
      var pushed := Push(WithNode(m, key, n), id, key);
      OpenGrows(pushed, key, n);
      GrowsTransitive(m, pushed, Open(pushed, key, n));
    } else {
      GrowsReflexive(m);
    }
  }

  lemma RootGrows(w: World, st: State, m: Model, n: Node)
    requires JsonLaws(w) && Inv(w, st, m) && Guard(w, st, OpSetRoot(n))
    ensures Grows(m, ModelSetRoot(w, m, n).0)
  {
    hide Writable, Inv, Guard, Grows;
    if AcceptsRoot(w, m, n) {
      var key := NodeKey(w, n);
      AcceptedRootIsFresh(w, st, m, n);
      NotYetARoot(w, st, m, key);
      RootedGrows(m, key, n);
      OpenGrows(Rooted(m, key, n), key, n);
      GrowsTransitive(m, Rooted(m, key, n), Open(Rooted(m, key, n), key, n));
      assert Open(Rooted(m, key, n), key, n) == ModelSetRoot(w, m, n).0;
    } else {
      GrowsReflexive(m);
    }
  }

  lemma StepGrows(w: World, st: State, m: Model, op: Op)
    requires JsonLaws(w) && Inv(w, st, m) && Guard(w, st, op)
    ensures Grows(m, ModelExec(w, m, op).0)
  {
    hide Inv, ModelAppend, ModelSetRoot;
    match op
    case OpManage(_) =>
    case OpSetRoot(n) => RootGrows(w, st, m, n);
    case OpAppend(n, root) => AppendGrows(w, st, m, n, root);
  }

  lemma {:induction false} RunGrows(w: World, ops: seq<Op>, more: seq<Op>)
    requires JsonLaws(w) && Guarded(w, more) && ops <= more
    ensures Guarded(w, ops) && Grows(ModelRun(w, ops), ModelRun(w, more))
    decreases |more|
  {
    hide Inv, ModelExec, Guard, Grows, Exec;
    if ops == more {
      GrowsReflexive(ModelRun(w, ops));
    } else {
      var before := more[..|more| - 1];
      assert ops <= before;
      RunGrows(w, ops, before);
      RunRefines(w, before);
      StepGrows(w, Run(w, before), ModelRun(w, before), more[|more| - 1]);
      GrowsTransitive(ModelRun(w, ops), ModelRun(w, before), ModelRun(w, more));
    }
  }

  // ---------- the branch invariant ----------

  // `steps` Previous links down from a key.
  ghost function Walk(w: World, st: State, key: string, steps: nat): Option<string>
    decreases steps
  {
    if steps == 0 then Some(key)
    else
      match GetNode(w, st, key)
      case Ok(Some(n)) => Walk(w, st, n.previous, steps - 1)
      case _ => None
  }

  lemma {:induction false} WalkDown(w: World, st: State, m: Model, id: BranchId, i: nat, steps: nat)
    requires JsonLaws(w) && Inv(w, st, m) && id in m.lists && steps <= i + 1 <= |m.lists[id]|
    ensures Walk(w, st, m.lists[id][i], steps)
         == Some(if steps == i + 1 then id.root else m.lists[id][i - steps])
    decreases steps
  {
    hide GetNode, Validity, Writable;
    if steps > 0 {
      assert ListAt(w, m, id) && InChain(m, id, i);
      Known(w, st, m, m.lists[id][i]);
      if i > 0 {
        WalkDown(w, st, m, id, i - 1, steps - 1);
      }
    }
  }

  // From the head, Previous leads through the branch, newest first, and then to its root.
  lemma HeadWalk(w: World, st: State, m: Model, id: BranchId, steps: nat)
    requires JsonLaws(w) && Inv(w, st, m) && id in m.lists && steps <= |m.lists[id]|
    ensures Walk(w, st, Head(m, id), steps)
         == Some(if steps == |m.lists[id]| then id.root else m.lists[id][|m.lists[id]| - 1 - steps])
  {
    hide Inv;
    if m.lists[id] != [] {
      WalkDown(w, st, m, id, |m.lists[id]| - 1, steps);
    }
  }

  lemma BranchWalk(w: World, ops: seq<Op>, id: BranchId, steps: nat)
    requires JsonLaws(w) && Guarded(w, ops) && id in ModelRun(w, ops).lists && id.name != ""
    requires steps <= |ModelRun(w, ops).lists[id]|
    ensures var list, last := ModelRun(w, ops).lists[id], GetLast(w, Run(w, ops), id.root, id.name);
            last.Ok?
            && Walk(w, Run(w, ops), last.value.1, steps)
               == Some(if steps == |list| then id.root else list[|list| - 1 - steps])
  {
    hide Inv, GetLast, Walk, Run, ModelRun, Guarded;
    RunRefines(w, ops);
    HeadLookup(w, Run(w, ops), ModelRun(w, ops), id);
    HeadWalk(w, Run(w, ops), ModelRun(w, ops), id, steps);
  }

  // Every node of a branch is on it, names its root, and carries its position as number; positions
  // count from the root's number on the root's own branch and from 0 elsewhere. Numbers only differ
  // from positions after int32 wraps around.
  lemma {:induction false} BranchNumbers(w: World, st: State, m: Model, id: BranchId, i: nat)
    requires JsonLaws(w) && Inv(w, st, m) && id in m.lists && i < |m.lists[id]|
    ensures id.root in m.nodes && m.lists[id][i] in m.nodes
    ensures var n := m.nodes[m.lists[id][i]];
            GetNode(w, st, m.lists[id][i]) == Ok(Some(n)) && n.branch == id.name && n.branchRoot == id.root
            && (BaseSeq(m, id) + i < INT32_MAX ==> n.seqNo == BaseSeq(m, id) + i + 1)
    decreases i
  {
    hide Writable;
    assert ListAt(w, m, id) && InChain(m, id, i);
    Known(w, st, m, m.lists[id][i]);
    if i > 0 {
      BranchNumbers(w, st, m, id, i - 1);
    }
  }

  // ---------- one list, one place ----------

  // Every linked node that is not a root has exactly one place in exactly one list.
  lemma OnePlace(w: World, st: State, m: Model, k: string, id: BranchId, i: nat, j: nat)
    requires JsonLaws(w) && Inv(w, st, m) && k in m.nodes && !IsRoot(m.nodes[k])
    ensures BranchId(m.nodes[k].branchRoot, m.nodes[k].branch) in m.lists
    ensures k in m.lists[BranchId(m.nodes[k].branchRoot, m.nodes[k].branch)]
    ensures id in m.lists && k in m.lists[id] ==> id == BranchId(m.nodes[k].branchRoot, m.nodes[k].branch)
    ensures id in m.lists && i < j < |m.lists[id]| ==> m.lists[id][i] != m.lists[id][j]
  {
    hide Writable;
    assert Listed(m, k);
    if id in m.lists {
      assert ListAt(w, m, id);
      if k in m.lists[id] {
        var x :| 0 <= x < |m.lists[id]| && m.lists[id][x] == k;
        assert InChain(m, id, x);
      }
      if i < j < |m.lists[id]| {
        BornInOrder(w, m, id, i, j);
      }
    }
  }

  lemma SuccessorsApart(w: World, m: Model, id: BranchId, i: nat, j: nat)
    requires ListsOk(w, m) && Acyclic(m) && id in m.lists && i < j < |m.lists[id]|
    ensures m.lists[id][i] in m.nodes && m.lists[id][j] in m.nodes
    ensures m.nodes[m.lists[id][i]].previous != m.nodes[m.lists[id][j]].previous
  {
    hide Writable;
    assert ListAt(w, m, id) && InChain(m, id, i) && InChain(m, id, j);
    BornInOrder(w, m, id, j - 1, j - 1);
    if i > 0 {
      BornInOrder(w, m, id, i - 1, j - 1);
    }
  }

  // No linked node has two successors on the same branch.
  lemma OneSuccessor(w: World, st: State, m: Model, k: string, k': string)
    requires JsonLaws(w) && Inv(w, st, m) && k in m.nodes && k' in m.nodes
    requires !IsRoot(m.nodes[k]) && !IsRoot(m.nodes[k'])
    requires m.nodes[k].branchRoot == m.nodes[k'].branchRoot && m.nodes[k].branch == m.nodes[k'].branch
    requires m.nodes[k].previous == m.nodes[k'].previous
    ensures k == k'
  {
    hide Writable;
    var id := BranchId(m.nodes[k].branchRoot, m.nodes[k].branch);
    assert Listed(m, k) && Listed(m, k') && ListAt(w, m, id);
    var list := m.lists[id];
    var i :| 0 <= i < |list| && list[i] == k;
    var j :| 0 <= j < |list| && list[j] == k';
    if i < j {
      SuccessorsApart(w, m, id, i, j);
    } else if j < i {
      SuccessorsApart(w, m, id, j, i);
    }
  }

  lemma HeadStays(w: World, st: State, m: Model, m': Model, id: BranchId)
    requires JsonLaws(w) && Inv(w, st, m') && Grows(m, m') && id in m.lists
    ensures id in m'.lists && exists steps: nat :: Walk(w, st, Head(m', id), steps) == Some(Head(m, id))
  {
    hide Inv, Walk, Extends;
    var steps := |m'.lists[id]| - |m.lists[id]|;
    HeadWalk(w, st, m', id, steps);
    assert Walk(w, st, Head(m', id), steps) == Some(Head(m, id));
  }

  // Heads only advance: a later head is the earlier one or stands above it on the same chain.
  lemma HeadsOnlyAdvance(w: World, ops: seq<Op>, more: seq<Op>, id: BranchId)
    requires JsonLaws(w) && Guarded(w, more) && ops <= more && id in ModelRun(w, ops).lists && id.name != ""
    ensures var now, later := GetLast(w, Run(w, ops), id.root, id.name), GetLast(w, Run(w, more), id.root, id.name);
            now.Ok? && later.Ok?
            && exists steps: nat :: Walk(w, Run(w, more), later.value.1, steps) == Some(now.value.1)
  {
    hide Inv, GetLast, Walk, Run, ModelRun, Guarded, Grows;
    RunGrows(w, ops, more);
    RunRefines(w, ops);
    RunRefines(w, more);
    HeadStays(w, Run(w, more), ModelRun(w, ops), ModelRun(w, more), id);
    HeadLookup(w, Run(w, ops), ModelRun(w, ops), id);
    HeadLookup(w, Run(w, more), ModelRun(w, more), id);
  }

  // ---------- optimistic concurrency ----------

  lemma LaterHeadDiffers(w: World, m: Model, m': Model, id: BranchId)
    requires ListsOk(w, m') && Acyclic(m') && id in m.lists && id in m'.lists && m.lists[id] < m'.lists[id]
    ensures Head(m', id) != Head(m, id)
  {
    hide Writable;
    var last := |m'.lists[id]| - 1;
    BornInOrder(w, m', id, last, last);
    if m.lists[id] != [] {
      BornInOrder(w, m', id, |m.lists[id]| - 1, last);
    }
  }

  // A commit of what was next in m, made when the lists are those of m'.
  lemma CommitStep(w: World, st: State, m: Model, m': Model, n: Node, root: string)
    requires JsonLaws(w) && Inv(w, st, m') && Grows(m, m')
    requires IntrinsicError(w, n).None? && Guard(w, st, OpAppend(n, root))
    requires n.branches == [] || n.address in m'.managed
    requires Accepts(w, m, n, root)
    ensures BranchId(root, n.branch) in m'.lists
    ensures var id := BranchId(root, n.branch);
            if m'.lists[id] == m.lists[id]
            then Append(w, st, n, root).res == Ok(NodeKey(w, n))
            else Append(w, st, n, root) == Outcome(st, Err(ErrPreviousNodeIsNotHead))
  {
    hide IntrinsicError, Validity, Append;
    var id := BranchId(root, n.branch);
    assert NodeAt(w, st, m', n.previous);
    if m'.lists[id] == m.lists[id] {
      AppendRefines(w, st, m', n, root);
    } else {
      LaterHeadDiffers(w, m, m', id);
      SupersededIsRejected(w, st, m', n, root);
    }
  }

  // A client reads the head after `ops`, builds on it the node the branch would take next, and
  // commits it after `more`. The commit is accepted exactly when nothing was accepted on the branch
  // in between; otherwise it is told that its previous node is not the head, and changes nothing.
  lemma CommitExactly(w: World, ops: seq<Op>, more: seq<Op>, n: Node, root: string)
    requires JsonLaws(w) && Guarded(w, more) && ops <= more
    requires Accepts(w, ModelRun(w, ops), n, root)
    requires Guard(w, Run(w, more), OpAppend(n, root))
    requires n.branches == [] || n.address in Run(w, more).managed
    ensures BranchId(root, n.branch) in ModelRun(w, more).lists
    ensures var st, id := Run(w, more), BranchId(root, n.branch);
            if ModelRun(w, more).lists[id] == ModelRun(w, ops).lists[id]
            then Append(w, st, n, root).res == Ok(NodeKey(w, n))
            else Append(w, st, n, root) == Outcome(st, Err(ErrPreviousNodeIsNotHead))
  {
    hide IntrinsicError, Append, Guard;
    RunGrows(w, ops, more);
    RunRefines(w, more);
    CommitStep(w, Run(w, more), ModelRun(w, ops), ModelRun(w, more), n, root);
  }

  // ---------- paths ----------

  // The recursion that rebuilds a node's path ends, and the path is the one the node is stored under.
  lemma PathAgrees(w: World, ops: seq<Op>, k: string)
    requires JsonLaws(w) && Guarded(w, ops) && k in ModelRun(w, ops).nodes
    ensures var path := FullPath(w, Run(w, ops), k, {});
            path.Path? && path.er == None && path.path + "/node" in Run(w, ops).paths
            && Run(w, ops).paths[path.path + "/node"] == k
  {
    RunRefines(w, ops);
    var st, m := Run(w, ops), ModelRun(w, ops);
    assert LinksBack(m, k) && PathAt(w, st, m, k);
    FullPathIs(w, st, m, k, {});
  }

  // ---------- the index is complete ----------

  // Every node was appended while its address was managed.
  ghost predicate AllManaged(w: World, ops: seq<Op>) {
    ops == [] ||
    ( AllManaged(w, ops[..|ops| - 1])
      && var op := ops[|ops| - 1];
         op.OpAppend? ==> op.n.address in Run(w, ops[..|ops| - 1]).managed)
  }

  ghost predicate AllOpen(m: Model) {
    forall k, b :: k in m.nodes && b in m.nodes[k].branches ==> BranchId(k, b) in m.lists
  }

  lemma {:induction false} ManagedRunsOpenAll(w: World, ops: seq<Op>)
    requires JsonLaws(w) && Guarded(w, ops) && AllManaged(w, ops)
    ensures AllOpen(ModelRun(w, ops))
    decreases |ops|
  {
    hide IntrinsicError, Validity;
    if ops != [] {
      var before, op := ops[..|ops| - 1], ops[|ops| - 1];
      ManagedRunsOpenAll(w, before);
      RunRefines(w, before);
      StepGrows(w, Run(w, before), ModelRun(w, before), op);
    }
  }

  // A branch of a linked node can be read exactly when the node declares it.
  lemma DeclaredBranchesResolve(w: World, ops: seq<Op>, root: string, branch: string)
    requires JsonLaws(w) && Guarded(w, ops) && AllManaged(w, ops)
    requires root in ModelRun(w, ops).nodes && branch != ""
    ensures GetLast(w, Run(w, ops), root, branch).Ok? <==> branch in ModelRun(w, ops).nodes[root].branches
  {
    RunRefines(w, ops);
    ManagedRunsOpenAll(w, ops);
    var st, m, id := Run(w, ops), ModelRun(w, ops), BranchId(root, branch);
    if id in m.lists {
      assert ListAt(w, m, id);
      HeadLookup(w, st, m, id);
    } else {
      NoHead(w, st, m, root, branch);
    }
  }

  // An address has at most one root for ever.
  lemma RootIsFinal(w: World, ops: seq<Op>, more: seq<Op>, n: Node)
    requires JsonLaws(w) && Guarded(w, more) && ops <= more && n.address in ModelRun(w, ops).roots
    requires n.branch != "" && n.branch in n.branches
    ensures SetRoot(w, Run(w, more), n) == Outcome(Run(w, more), Err(ErrDagAlreadyInitialized))
    ensures GetRoot(w, Run(w, more), n.address) == GetRoot(w, Run(w, ops), n.address)
  {
    hide GetName, RootName;
    RunGrows(w, ops, more);
    RunRefines(w, ops);
    RunRefines(w, more);
    assert RootAt(w, ModelRun(w, ops), n.address);
    RootLookup(w, Run(w, ops), ModelRun(w, ops), n.address);
    RootLookup(w, Run(w, more), ModelRun(w, more), n.address);
  }
}
