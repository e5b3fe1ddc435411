/** What graphs do to the DAG they share: their calls are guarded runs of dag.go. */
module GraphRuns {
  import opened Address
  import opened Crypto
  import opened DagModel
  import opened DagRefinement
  import opened DagRuns
  import opened DagSpec
  import opened Errors
  import opened Graph
  import opened Node
  import opened Text
  import opened Wrappers

  // ---------- calls of graphs as operations of the DAG ----------

  // Calls of any graphs of any addresses, over one DAG.
  datatype Call =
    | MakeGraph(addr: Address)
    | GraphAppends(addr: Address, keyRoot: string, nd: NodeData, now: string, random: int)

  ghost function Called(w: World, st: State, call: Call): State {
    match call
    case MakeGraph(addr) => if addr.keys.Some? && addr.keys.value.privateKey != "" then Manage(st, addr).st else st
    case GraphAppends(addr, keyRoot, nd, now, random) => GraphAppend(w, st, addr, keyRoot, nd, now, random).st
  }

  ghost function GraphRun(w: World, calls: seq<Call>): State {
    if calls == [] then INITIAL else Called(w, GraphRun(w, calls[..|calls| - 1]), calls[|calls| - 1])
  }

  // The append a graph asks of the DAG below a branch root, if the branch can be read.
  ghost function BelowOp(w: World, st: State, addr: string, keys: KeyPair, keyRoot: string, nd: NodeData,
                         now: string, random: int): Option<Op>
  {
    match GetLast(w, st, keyRoot, nd.branch)
    case Ok((Some(last), lastKey)) =>
      Some(OpAppend(CreatedNode(w, nd, keyRoot, lastKey, addr, keys,
                                ChooseSeq(last, lastKey, keyRoot, nd.branch), now, random),
                    keyRoot))
    case _ => None
  }

  ghost function FirstOp(w: World, addr: string, keys: KeyPair, nd: NodeData, now: string, random: int): Op {
    OpSetRoot(CreatedNode(w, WithDefaultBranch(nd), "", "", addr, keys, 1, now, random))
  }

  // What a call asks of the DAG, if anything.
  ghost function OpOf(w: World, st: State, call: Call): Option<Op> {
    if call.addr.keys.None? || call.addr.keys.value.privateKey == "" then None
    else
      match call
      case MakeGraph(addr) => Some(OpManage(addr))
      case GraphAppends(addr, keyRoot, nd, now, random) =>
        var (a, keys) := (addr.address, addr.keys.value);
        if keyRoot != "" then BelowOp(w, st, a, keys, keyRoot, nd, now, random)
        else
          match GetRoot(w, st, a)
          case Err(e) => if e == Panic then None else Some(FirstOp(w, a, keys, nd, now, random))
          case Ok((None, _)) => Some(FirstOp(w, a, keys, nd, now, random))
          case Ok((Some(_), key)) => BelowOp(w, st, a, keys, key, nd, now, random)
  }

  ghost function History(w: World, calls: seq<Call>): seq<Op> {
    if calls == [] then []
    else
      var op := OpOf(w, GraphRun(w, calls[..|calls| - 1]), calls[|calls| - 1]);
      History(w, calls[..|calls| - 1]) + if op.Some? then [op.value] else []
  }

  lemma CallIsOp(w: World, st: State, call: Call)
    ensures Called(w, st, call) == match OpOf(w, st, call) case None => st case Some(op) => Exec(w, st, op).st
  {
    hide GetLast, GetRoot, CreatedNode, SetRoot, Append;
  }

  // No node that a graph creates meets different bytes under its key, and addresses hold no slash, as
  // generated ones never do.
  ghost predicate NoCollision(w: World, st: State, op: Op) {
    match op
    case OpManage(_) => true
    case OpSetRoot(n) => CollisionFree(w, st, n)
    case OpAppend(n, _) => CollisionFree(w, st, n)
  }

  ghost predicate Clean(w: World, calls: seq<Call>) {
    calls == [] ||
    ( Clean(w, calls[..|calls| - 1]) && SlashFree(calls[|calls| - 1].addr.address)
      && var op := OpOf(w, GraphRun(w, calls[..|calls| - 1]), calls[|calls| - 1]);
         op.Some? ==> NoCollision(w, GraphRun(w, calls[..|calls| - 1]), op.value))
  }

  // createNode writes the branch root an append goes to into the node, and none into a root.
  lemma CallIsGuarded(w: World, st: State, call: Call)
    requires SlashFree(call.addr.address)
    requires OpOf(w, st, call).Some? && NoCollision(w, st, OpOf(w, st, call).value)
    ensures Guard(w, st, OpOf(w, st, call).value)
  {
    hide GetLast, GetRoot, CollisionFree, SlashFree;
  }

  // The guard costs the users of graphs nothing: whatever graphs do to a DAG is a guarded run.
  lemma {:induction false} GraphRunsAreGuarded(w: World, calls: seq<Call>)
    requires Clean(w, calls)
    ensures Guarded(w, History(w, calls)) && Run(w, History(w, calls)) == GraphRun(w, calls)
    decreases |calls|
  {
    hide OpOf, Called, NoCollision, Guard, Exec;
    if calls != [] {
      var before, call := calls[..|calls| - 1], calls[|calls| - 1];
      GraphRunsAreGuarded(w, before);
      var st := GraphRun(w, before);
      CallIsOp(w, st, call);
      if OpOf(w, st, call).Some? {
        CallIsGuarded(w, st, call);
        OneMore(w, History(w, before), OpOf(w, st, call).value);
      } else {
        assert History(w, before) + [] == History(w, before);
      }
    }
  }

  // So it represents the lists.
  lemma GraphRunsRefine(w: World, calls: seq<Call>)
    requires JsonLaws(w) && Clean(w, calls)
    ensures Inv(w, GraphRun(w, calls), ModelRun(w, History(w, calls)))
  {
    hide Inv, Clean, History, GraphRun, Run, ModelRun, Guarded;
    GraphRunsAreGuarded(w, calls);
    RunRefines(w, History(w, calls));
  }

  // ---------- optimistic concurrency ----------

  // The node a graph creates from what it read at the head of a branch.
  ghost function FromHead(w: World, head: (Option<Node>, string), addr: Address, id: BranchId, nd: NodeData,
                          now: string, random: int): Node
    requires addr.keys.Some? && head.0.Some?
  {
    CreatedNode(w, nd, id.root, head.1, addr.address, addr.keys.value,
                ChooseSeq(head.0.value, head.1, id.root, nd.branch), now, random)
  }

  // Only an open branch can be read, and then it is read at its head.
  lemma HeadRead(w: World, st: State, m: Model, id: BranchId)
    requires JsonLaws(w) && Inv(w, st, m) && GetLast(w, st, id.root, id.name).Ok?
    ensures id in m.lists && id.name != "" && id.root in m.nodes && Head(m, id) in m.nodes
    ensures GetLast(w, st, id.root, id.name) == Ok((Some(m.nodes[Head(m, id)]), Head(m, id)))
  {
    hide Inv;
    if id in m.lists {
      HeadLookup(w, st, m, id);
    } else {
      NoHead(w, st, m, id.root, id.name);
    }
  }

  // A graph reads the head of a branch after `ops`, chooses the number, creates its node, and commits
  // it after `more`. The commit succeeds exactly when nothing was accepted on the branch in between;
  // otherwise it is told that its previous node is not the head. A number that wrapped around to 0 is
  // refused in any case. A refused commit changes nothing.
  lemma GraphCommitExactly(w: World, ops: seq<Op>, more: seq<Op>, addr: Address, d: nat, id: BranchId, nd: NodeData,
                           now: string, random: int)
    requires CurveLaws(w.crypto) && JsonLaws(w) && Owner(w, addr, d) && addr.keys.Some?
    requires Guarded(w, more) && ops <= more && addr.address in Run(w, more).managed
    requires w.parseTime(now).Some? && id.name == nd.branch && GetLast(w, Run(w, ops), id.root, id.name).Ok?
    ensures id in ModelRun(w, ops).lists && id in ModelRun(w, more).lists
    ensures var head := GetLast(w, Run(w, ops), id.root, id.name).value;
            head.0.Some?
            && var st, n := Run(w, more), FromHead(w, head, addr, id, nd, now, random);
               CollisionFree(w, st, n) ==>
                 var o := Append(w, st, n, id.root);
                 if n.seqNo == 0 then o == Outcome(st, Err(ErrInvalidBranchSeq))
                 else if ModelRun(w, more).lists[id] == ModelRun(w, ops).lists[id] then o.res == Ok(NodeKey(w, n))
                 else o == Outcome(st, Err(ErrPreviousNodeIsNotHead))
  {
    hide Inv, Run, ModelRun, Guarded, GetLast, Append, Extends, CollisionFree,
         IntrinsicError, CreatedNode, NewKeyPair, AddressOf;
    RunGrows(w, ops, more);
    RunRefines(w, ops);
    var st, m := Run(w, ops), ModelRun(w, ops);
    HeadRead(w, st, m, id);
    var head := GetLast(w, st, id.root, id.name).value;
    var n := FromHead(w, head, addr, id, nd, now, random);
    CreatedNodeIsSound(w, addr, d, nd, id.root, head.1,
                       ChooseSeq(head.0.value, head.1, id.root, nd.branch), now, random);
    CreatedFields(w, nd, id.root, head.1, addr.address, addr.keys.value,
                  ChooseSeq(head.0.value, head.1, id.root, nd.branch), now, random);
    if n.seqNo == 0 {
      RejectedAppend(w, Run(w, more), n, id.root);
    } else if CollisionFree(w, Run(w, more), n) {
      ChoiceIsNext(w, st, m, id);
      CommitExactly(w, ops, more, n, id.root);
    }
  }
}
