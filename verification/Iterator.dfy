/** graph/iterator.go: walking a branch backwards. */
module Iterator {
  import opened Address
  import opened DagLinks
  import opened DagModel
  import opened DagRefinement
  import opened DagRuns
  import opened DagSpec
  import opened Errors
  import opened Graph
  import opened Names
  import opened Node
  import opened Text
  import opened Wrappers

  // ---------- the two steps as functions of the state ----------

  function HeadOf(w: World, st: State, keyRoot: string, branch: string): Result<Option<GraphNode>, Error> {
    match DagSpec.GetLast(w, st, keyRoot, branch)
    case Err(e) => Err(e)
    case Ok((None, _)) => Ok(None)
    case Ok((Some(n), key)) => Ok(Some(GraphNode(key, n)))
  }

  // The first node, with the branch root that was used to find it.
  function LastStep(w: World, st: State, addr: string, start: string, keyRoot: string, branch: string)
    : (string, Result<Option<GraphNode>, Error>)
  {
    if start != "" then
      var r := NodeBefore(w, st, start);
      (keyRoot, if r == Err(ErrGraphNotFound) then Ok(None) else r)
    else if keyRoot != "" then (keyRoot, HeadOf(w, st, keyRoot, branch))
    else
      match DagSpec.GetRoot(w, st, addr)
      case Err(e) => (keyRoot, Err(if e == Panic then Panic else ErrGraphNotFound))
      case Ok((None, _)) => (keyRoot, Err(ErrGraphNotFound))
      case Ok((Some(_), key)) => (key, HeadOf(w, st, key, branch))
  }

  function PrevStep(w: World, st: State, previous: string): Result<Option<GraphNode>, Error> {
    if previous == "" then Ok(None)
    else
      match FetchNode(w, st, previous)
      case Err(e) => if e == ErrGraphNotFound then Ok(None) else Err(e)
      case Ok(None) => Ok(None)
      case Ok(Some(n)) => Ok(Some(GraphNode(previous, n)))
  }

  // Where the iterator stands after a step.
  function Behind(r: Result<Option<GraphNode>, Error>, previous: string): string {
    if r.Ok? && r.value.Some? then r.value.value.node.previous else previous
  }

  // ---------- what there is to iterate over ----------

  // When k was stored, counting from 1.
  ghost function Age(born: map<string, nat>, k: string): nat {
    if k in born then born[k] + 1 else 0
  }

  // What is stored under a key is older than what is above it, and links to what is stored.
  lemma OlderBelow(w: World, st: State, born: map<string, nat>, k: string)
    requires LinkedBack(w, st, born) && k in st.pairs
    ensures GetNode(w, st, k).Ok? && GetNode(w, st, k).value.Some?
    ensures var previous := GetNode(w, st, k).value.value.previous;
            Age(born, previous) < Age(born, k) && (previous in st.pairs <==> previous != "")
  {
    hide GetNode;
    assert k in born && LinkBack(w, st, born, k);
    assert "" in st.pairs ==> LinkBack(w, st, born, "");
  }

  // The nodes from k down the Previous links.
  ghost function Ancestry(w: World, st: State, born: map<string, nat>, k: string): seq<GraphNode>
    requires LinkedBack(w, st, born)
    decreases Age(born, k)
  {
    if k !in st.pairs then []
    else
      OlderBelow(w, st, born, k);
      var n := GetNode(w, st, k).value.value;
      [GraphNode(k, n)] + Ancestry(w, st, born, n.previous)
  }

  // Going down the links, nodes were stored earlier and earlier, so none comes twice; and one comes to
  // a node that links to nothing.
  lemma {:induction false} AncestryGoesBack(w: World, st: State, born: map<string, nat>, k: string)
    requires LinkedBack(w, st, born)
    ensures var all := Ancestry(w, st, born, k);
            && (forall x :: x in all ==> GetNode(w, st, x.key) == Ok(Some(x.node)) && Age(born, x.key) <= Age(born, k))
            && (forall i, j :: 0 <= i < j < |all| ==> all[i].key != all[j].key)
            && (k in st.pairs ==> all != [] && all[|all| - 1].node.previous == "")
    decreases Age(born, k)
  {
    hide GetNode, LinkedBack;
    if k in st.pairs {
      OlderBelow(w, st, born, k);
      AncestryGoesBack(w, st, born, GetNode(w, st, k).value.value.previous);
    }
  }

  // A step of Prev gives what is stored where the iterator stands.
  lemma PrevIsNext(w: World, st: State, born: map<string, nat>, previous: string)
    requires LinkedBack(w, st, born) && (previous == "" || previous in st.pairs)
    ensures previous in st.pairs ==> GetNode(w, st, previous).Ok? && GetNode(w, st, previous).value.Some?
    ensures PrevStep(w, st, previous)
         == Ok(if previous in st.pairs then Some(GraphNode(previous, GetNode(w, st, previous).value.value)) else None)
  {
    hide GetNode;
    assert "" in st.pairs ==> LinkBack(w, st, born, "");
    assert previous in st.pairs ==> LinkBack(w, st, born, previous);
  }

  // Last gives what is stored under its key, whatever the iterator was made from.
  lemma LastIsStored(w: World, st: State, addr: string, start: string, keyRoot: string, branch: string)
    ensures var (_, r) := LastStep(w, st, addr, start, keyRoot, branch);
            r.Ok? && r.value.Some? ==> GetNode(w, st, r.value.value.key) == Ok(Some(r.value.value.node))
  {
    hide GetNode, LastName, RootName, DagSpec.Resolve;
  }

  // ---------- the iterator ----------

  // What a consumer receives that stops after the first node it does not want more after.
  ghost function Until(wants: GraphNode -> bool, s: seq<GraphNode>): seq<GraphNode> {
    if s == [] then [] else if wants(s[0]) then [s[0]] + Until(wants, s[1..]) else [s[0]]
  }

  lemma UntilStep(wants: GraphNode -> bool, x: GraphNode, rest: seq<GraphNode>)
    ensures Until(wants, [x] + rest) == if wants(x) then [x] + Until(wants, rest) else [x]
  {
    assert ([x] + rest)[1..] == rest;
  }

  lemma UntilNothing(wants: GraphNode -> bool)
    ensures Until(wants, []) == []
  {
  }

  lemma FetchedIsStored(w: World, st: State, k: string)
    requires GetNode(w, st, k).Ok?
    ensures k in st.pairs
  {
  }

  ghost predicate StandsAt(w: World, st: State, x: GraphNode, previous: string) {
    x.key in st.pairs && GetNode(w, st, x.key) == Ok(Some(x.node)) && previous == x.node.previous
  }

  // What All still has to go through.
  ghost function Rest(w: World, st: State, born: map<string, nat>, v: Result<Option<GraphNode>, Error>): seq<GraphNode>
    requires LinkedBack(w, st, born)
  {
    if v.Ok? && v.value.Some? then Ancestry(w, st, born, v.value.value.key) else []
  }

  lemma RestStep(w: World, st: State, born: map<string, nat>, x: GraphNode, previous: string)
    requires LinkedBack(w, st, born) && StandsAt(w, st, x, previous)
    ensures var r := PrevStep(w, st, previous);
            r.Ok? && Ancestry(w, st, born, x.key) == [x] + Rest(w, st, born, r)
            && (r.value.Some? ==> StandsAt(w, st, r.value.value, Behind(r, previous))
                                  && Age(born, r.value.value.key) < Age(born, x.key))
            && 0 < Age(born, x.key)
  {
    hide PrevStep, LinkedBack, GetNode;
    OlderBelow(w, st, born, x.key);
    PrevIsNext(w, st, born, previous);
    if previous in st.pairs {
      OlderBelow(w, st, born, previous);
    }
  }

  class Iterator {
    const graph: Graph
    const start: string
    const branch: string
    var keyRoot: string
    var previous: string

    constructor (graph: Graph, start: string, keyRoot: string, branch: string)
      ensures this.graph == graph && this.start == start && this.keyRoot == keyRoot && this.branch == branch
      ensures previous == ""
    {
      this.graph, this.start, this.keyRoot, this.branch := graph, start, keyRoot, branch;
      previous := "";
    }

    method Last() returns (r: Result<Option<GraphNode>, Error>)
      requires graph.da.Valid()
      modifies this
      ensures (keyRoot, r)
           == LastStep(graph.da.w, graph.da.Contents(), graph.addr.address, start, old(keyRoot), branch)
      ensures previous == Behind(r, old(previous))
    {
      if start == "" {
        if keyRoot == "" {
          var gn := graph.da.GetRoot(graph.addr.address);
          if gn == Err(Panic) {
            return Err(Panic);
          }
          if gn.Err? || gn.value.0.None? {
            return Err(ErrGraphNotFound);
          }
          keyRoot := gn.value.1;
        }
        var last := graph.da.GetLast(keyRoot, branch);
        if last.Err? {
          return Err(last.error);
        }
        if last.value.0.None? {
          return Ok(None);
        }
        previous := last.value.0.value.previous;
        return Ok(Some(GraphNode(last.value.1, last.value.0.value)));
      }
      r := graph.GetNext(start);
      if r == Err(ErrGraphNotFound) {
        return Ok(None);
      }
      if r.Ok? && r.value.Some? {
        previous := r.value.value.node.previous;
      }
    }

    method Prev() returns (r: Result<Option<GraphNode>, Error>)
      requires graph.da.Valid()
      modifies this`previous
      ensures r == PrevStep(graph.da.w, graph.da.Contents(), old(previous))
      ensures previous == Behind(r, old(previous))
    {
      if previous == "" {
        return Ok(None);
      }
      var node := graph.Fetch(previous);
      if node == Err(ErrGraphNotFound) {
        return Ok(None);
      }
      if node.Err? {
        return Err(node.error);
      }
      if node.value.None? {
        return Ok(None);
      }
      r := Ok(Some(GraphNode(previous, node.value.value)));
      previous := node.value.value.previous;
    }

    // All, run by a consumer that stops after the first node for which `wants` is false. Where links
    // go back in time it ends, with the first node and everything below it.
    method All(wants: GraphNode -> bool, ghost born: map<string, nat>) returns (yielded: seq<GraphNode>)
      requires graph.da.Valid() && LinkedBack(graph.da.w, graph.da.Contents(), born)
      modifies this
      ensures var (w, st) := (graph.da.w, graph.da.Contents());
              var (_, r) := LastStep(w, st, graph.addr.address, start, old(keyRoot), branch);
              yielded == Until(wants, if r.Ok? && r.value.Some? then Ancestry(w, st, born, r.value.value.key) else [])
    {
      hide LinkedBack, GetNode, Ancestry, Age, LastStep, PrevStep, Until;
      ghost var (w, st) := (graph.da.w, graph.da.Contents());
      LastIsStored(w, st, graph.addr.address, start, keyRoot, branch);
      var v := Last();
      if v.Ok? && v.value.Some? {
        FetchedIsStored(w, st, v.value.value.key);
      }
      yielded := [];
      ghost var all := Rest(w, st, born, v);
      UntilNothing(wants);
      while v.Ok? && v.value.Some?
        invariant graph.da.Contents() == st
        invariant v.Ok? && v.value.Some? ==> StandsAt(w, st, v.value.value, previous)
        invariant Until(wants, all) == yielded + Until(wants, Rest(w, st, born, v))
        decreases if v.Ok? && v.value.Some? then Age(born, v.value.value.key) else 0
      {
        RestStep(w, st, born, v.value.value, previous);
        UntilStep(wants, v.value.value, Rest(w, st, born, PrevStep(w, st, previous)));
        yielded := yielded + [v.value.value];
        if !wants(v.value.value) {
          return;
        }
        v := Prev();
      }
    }
  }

  // ---------- what iteration yields ----------

  // The nodes of a list, newest first.
  ghost function NewestFirst(m: Model, list: seq<string>): (r: seq<GraphNode>)
    requires forall k :: k in list ==> k in m.nodes
    ensures |r| == |list|
    ensures forall j :: 0 <= j < |list| ==> r[j] == GraphNode(list[|list| - 1 - j], m.nodes[list[|list| - 1 - j]])
  {
    if list == [] then []
    else
      var k := list[|list| - 1];
      [GraphNode(k, m.nodes[k])] + NewestFirst(m, list[..|list| - 1])
  }

  lemma ListIsLinked(w: World, m: Model, id: BranchId)
    requires ListsOk(w, m) && id in m.lists
    ensures forall k :: k in m.lists[id] ==> k in m.nodes
  {
    hide Writable;
    assert ListAt(w, m, id);
    forall k | k in m.lists[id] ensures k in m.nodes {
      var i :| 0 <= i < |m.lists[id]| && m.lists[id][i] == k;
      assert InChain(m, id, i);
    }
  }

  lemma ChainStep(w: World, m: Model, id: BranchId, i: nat)
    requires ListsOk(w, m) && id in m.lists && i < |m.lists[id]| && m.lists[id][i] in m.nodes
    ensures m.nodes[m.lists[id][i]].previous == if i == 0 then id.root else m.lists[id][i - 1]
  {
    hide Writable;
    assert ListAt(w, m, id);
    assert InChain(m, id, i);
  }

  lemma NewestStep(m: Model, list: seq<string>, i: nat)
    requires 0 < i <= |list| && forall k :: k in list ==> k in m.nodes
    ensures NewestFirst(m, list[..i]) == [GraphNode(list[i - 1], m.nodes[list[i - 1]])] + NewestFirst(m, list[..i - 1])
  {
    assert list[..i][..i - 1] == list[..i - 1];
  }

  lemma AncestryStep(w: World, st: State, m: Model, born: map<string, nat>, k: string)
    requires JsonLaws(w) && Inv(w, st, m) && LinkedBack(w, st, born) && k in m.nodes
    ensures Ancestry(w, st, born, k) == [GraphNode(k, m.nodes[k])] + Ancestry(w, st, born, m.nodes[k].previous)
  {
    hide Inv, LinkedBack, GetNode;
    Known(w, st, m, k);
    FetchedIsStored(w, st, k);
  }

  lemma {:induction false} PrefixAncestry(w: World, st: State, m: Model, born: map<string, nat>, id: BranchId, i: nat)
    requires JsonLaws(w) && Inv(w, st, m) && LinkedBack(w, st, born) && id in m.lists && i <= |m.lists[id]|
    requires ListsOk(w, m) && forall k :: k in m.lists[id] ==> k in m.nodes
    ensures Ancestry(w, st, born, if i == 0 then id.root else m.lists[id][i - 1])
         == NewestFirst(m, m.lists[id][..i]) + Ancestry(w, st, born, id.root)
    decreases i
  {
    hide ListsOk, Inv, LinkedBack, Ancestry, JsonLaws;
    if i > 0 {
      var list := m.lists[id];
      ChainStep(w, m, id, i - 1);
      AncestryStep(w, st, m, born, list[i - 1]);
      NewestStep(m, list, i);
      PrefixAncestry(w, st, m, born, id, i - 1);
    }
  }

  lemma NothingBelow(w: World, st: State, born: map<string, nat>)
    requires LinkedBack(w, st, born)
    ensures Ancestry(w, st, born, "") == []
  {
    assert "" in st.pairs ==> LinkBack(w, st, born, "");
  }

  lemma {:induction false} AncestryIsLinked(w: World, st: State, m: Model, born: map<string, nat>, k: string)
    requires JsonLaws(w) && Inv(w, st, m) && LinkedBack(w, st, born) && k in m.nodes
    ensures var all := Ancestry(w, st, born, k);
            (forall x :: x in all ==> x.key in m.nodes && x.node == m.nodes[x.key])
            && all != [] && IsRoot(all[|all| - 1].node)
    decreases Age(born, k)
  {
    hide LinkedBack, JsonLaws, GetNode, Ancestry, StoreOk, RootsOk, ListsOk, MembersOk, NamesOk, PathsOk;
    AncestryStep(w, st, m, born, k);
    var previous := m.nodes[k].previous;
    assert LinksBack(m, k);
    if IsRoot(m.nodes[k]) {
      NothingBelow(w, st, born);
    } else {
      Known(w, st, m, k);
      FetchedIsStored(w, st, k);
      OlderBelow(w, st, born, k);
      AncestryIsLinked(w, st, m, born, previous);
    }
  }

  // Iterating a branch gives its nodes, newest first, then its root, then the ancestors of the root,
  // all of them linked, and ends at a root that links to nothing.
  lemma BranchAncestry(w: World, st: State, m: Model, born: map<string, nat>, id: BranchId)
    requires JsonLaws(w) && Inv(w, st, m) && LinkedBack(w, st, born) && id in m.lists
    ensures id.root in m.nodes && forall k :: k in m.lists[id] ==> k in m.nodes
    ensures Ancestry(w, st, born, Head(m, id)) == NewestFirst(m, m.lists[id]) + Ancestry(w, st, born, id.root)
    ensures Ancestry(w, st, born, id.root)
         == [GraphNode(id.root, m.nodes[id.root])] + Ancestry(w, st, born, m.nodes[id.root].previous)
    ensures var all := Ancestry(w, st, born, Head(m, id));
            (forall x :: x in all ==> x.key in m.nodes && x.node == m.nodes[x.key])
            && all != [] && IsRoot(all[|all| - 1].node)
  {
    hide LinkedBack, JsonLaws, Ancestry, Acyclic, StoreOk, NodesOk, RootsOk, ListsOk, MembersOk, NamesOk, PathsOk;
    ListIsLinked(w, m, id);
    HeadIsLinked(w, m, id);
    var list := m.lists[id];
    PrefixAncestry(w, st, m, born, id, |list|);
    assert list[..|list|] == list;
    AncestryStep(w, st, m, born, id.root);
    AncestryIsLinked(w, st, m, born, Head(m, id));
  }

  // An iterator over an open branch starts at its head; with no branch root given, it takes the
  // root of the graph's address.
  lemma IterationStartsAtHead(w: World, st: State, m: Model, addr: string, id: BranchId)
    requires JsonLaws(w) && Inv(w, st, m) && id in m.lists && id.name != "" && id.root != ""
    ensures Head(m, id) in m.nodes
    ensures var first := Ok(Some(GraphNode(Head(m, id), m.nodes[Head(m, id)])));
            LastStep(w, st, addr, "", id.root, id.name) == (id.root, first)
            && (SlashFree(addr) && addr in m.roots && m.roots[addr] == id.root ==>
                  LastStep(w, st, addr, "", "", id.name) == (id.root, first))
  {
    hide Inv, DagSpec.GetLast, DagSpec.GetRoot;
    HeadLookup(w, st, m, id);
    if SlashFree(addr) && addr in m.roots {
      RootLookup(w, st, m, addr);
    }
  }

  // Without a root, or on a branch that is not open, the iterator answers an error; from a key that is
  // not stored it yields nothing.
  lemma NothingToIterate(w: World, st: State, m: Model, addr: string, keyRoot: string, branch: string)
    requires JsonLaws(w) && Inv(w, st, m) && SlashFree(addr)
    ensures addr !in m.roots && Validity(w.crypto, addr) != Panics ==>
              LastStep(w, st, addr, "", "", branch) == ("", Err(ErrGraphNotFound))
    ensures keyRoot != "" && BranchId(keyRoot, branch) !in m.lists ==>
              (keyRoot in st.pairs ==> w.fromJson(st.pairs[keyRoot]).Some?)
              && LastStep(w, st, addr, "", keyRoot, branch)
                 == (keyRoot, Err(if branch == "" then ErrInvalidBranch
                                  else if keyRoot !in st.pairs then ErrNodeNotFound
                                  else NameError(w, w.fromJson(st.pairs[keyRoot]).value.address)))
    ensures forall start :: start != "" && start !in st.pairs ==>
              LastStep(w, st, addr, start, keyRoot, branch) == (keyRoot, Ok(None))
  {
    hide Inv, DagSpec.GetLast, DagSpec.GetRoot, Validity;
    RootLookup(w, st, m, addr);
    if BranchId(keyRoot, branch) !in m.lists {
      NoHead(w, st, m, keyRoot, branch);
    }
  }

  // Where nothing or no node is stored, iteration ends, or answers what is wrong with it.
  lemma PrevOdd(w: World, st: State, previous: string)
    requires previous != ""
    ensures previous !in st.pairs ==> PrevStep(w, st, previous) == Ok(None)
    ensures previous in st.pairs && st.pairs[previous] == [] ==> PrevStep(w, st, previous) == Ok(None)
    ensures previous in st.pairs && st.pairs[previous] != [] && w.fromJson(st.pairs[previous]).None? ==>
              PrevStep(w, st, previous) == Err(ErrJson)
  {
  }

  // An owner's name that leads to no node is no root to iterate from.
  lemma LastOdd(w: World, st: State, addr: string, key: string, branch: string)
    requires DagSpec.Resolve(w, st, RootName(w.nameSpace, addr)) == Ok(key)
    requires key !in st.pairs || st.pairs[key] == [] || w.fromJson(st.pairs[key]).None?
    ensures LastStep(w, st, addr, "", "", branch) == ("", Err(ErrGraphNotFound))
  {
    hide RootName, DagSpec.Resolve;
  }

  // Only an address whose validity test panics makes the iterator panic.
  lemma LastPanics(w: World, st: State, addr: string, branch: string)
    requires SlashFree(addr) && Validity(w.crypto, addr) == Panics
    ensures LastStep(w, st, addr, "", "", branch) == ("", Err(Panic))
  {
    hide Validity, GetName;
    NameAddress(w.nameSpace, addr, ["shortcuts", "root"]);
  }

  // An iterator made from a linked node starts at the node before it, and is empty at a root.
  lemma IterationStartsBefore(w: World, st: State, m: Model, addr: string, start: string,
                              keyRoot: string, branch: string)
    requires JsonLaws(w) && Inv(w, st, m) && start in m.nodes
    ensures var p := m.nodes[start].previous;
            (p == "" <==> IsRoot(m.nodes[start])) && (p != "" ==> p in m.nodes)
            && LastStep(w, st, addr, start, keyRoot, branch)
               == (keyRoot, Ok(if p == "" then None else Some(GraphNode(p, m.nodes[p]))))
  {
    Known(w, st, m, start);
    assert LinksBack(m, start);
    var p := m.nodes[start].previous;
    if p in m.nodes {
      Known(w, st, m, p);
      assert LinksBack(m, p);
    }
  }

  // ---------- iterating while others append ----------

  // The nodes that Prev gives when each of its calls meets the next of the given states.
  ghost function Interleaved(w: World, states: seq<State>, previous: string): seq<GraphNode> {
    if states == [] then []
    else
      var r := PrevStep(w, states[0], previous);
      if r.Ok? && r.value.Some? then [r.value.value] + Interleaved(w, states[1..], r.value.value.node.previous) else []
  }

  // The next step, on a later state, is that of the state the iterator started on.
  lemma LaterPrev(w: World, ops: seq<Op>, more: seq<Op>, previous: string)
    requires HalfGuarded(w, more) && ops <= more && (previous == "" || previous in Run(w, ops).pairs)
    ensures PrevStep(w, Run(w, more), previous) == PrevStep(w, Run(w, ops), previous)
  {
    hide HalfGuarded, Run, GetNode;
    if previous != "" {
      StoredStays(w, ops, more, previous);
    }
  }

  ghost function StatesOf(w: World, runs: seq<seq<Op>>): (r: seq<State>)
    ensures |r| == |runs|
  {
    seq(|runs|, i requires 0 <= i < |runs| => Run(w, runs[i]))
  }

  // Whatever calls come between its steps, an iterator goes through the nodes that were below it when
  // it started, one per step, until none is left.
  lemma {:induction false} InterleavedIteration(w: World, ops: seq<Op>, later: seq<seq<Op>>, previous: string)
    requires JsonLaws(w) && HalfGuarded(w, ops)
    requires forall i :: 0 <= i < |later| ==> ops <= later[i] && HalfGuarded(w, later[i])
    requires previous == "" || previous in Run(w, ops).pairs
    ensures LinkedBack(w, Run(w, ops), Born(w, ops))
    ensures var all := Ancestry(w, Run(w, ops), Born(w, ops), previous);
            Interleaved(w, StatesOf(w, later), previous) == if |later| <= |all| then all[..|later|] else all
    decreases |later|
  {
    hide HalfGuarded, Run, PrevStep, JsonLaws, LinkedBack, GetNode, Born;
    RunLinksBack(w, ops);
    if later != [] {
      var st := Run(w, ops);
      assert StatesOf(w, later)[1..] == StatesOf(w, later[1..]);
      LaterPrev(w, ops, later[0], previous);
      PrevIsNext(w, st, Born(w, ops), previous);
      if previous in st.pairs {
        OlderBelow(w, st, Born(w, ops), previous);
        InterleavedIteration(w, ops, later[1..], GetNode(w, st, previous).value.value.previous);
      }
    }
  }
}
