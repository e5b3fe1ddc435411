/** The run of DagUnguarded, made of nodes that the owner of an address creates. */
module GraphUnguarded {
  import opened Address
  import opened Crypto
  import opened DagRuns
  import opened DagSpec
  import opened DagUnguarded
  import opened Graph
  import opened Names
  import opened Node
  import opened Wrappers

  // SHA-256 does not give two of the nodes the same hash.
  ghost predicate HashesApart(w: World, nodes: seq<Node>) {
    forall i, j :: 0 <= i < j < |nodes|
                   && w.crypto.sha256(w.toJson(nodes[i])) == w.crypto.sha256(w.toJson(nodes[j])) ==>
      w.toJson(nodes[i]) == w.toJson(nodes[j])
  }

  lemma DifferentKeys(w: World, nodes: seq<Node>, i: nat, j: nat)
    requires JsonLaws(w) && HashesApart(w, nodes) && i < j < |nodes| && nodes[i] != nodes[j]
    ensures NodeKey(w, nodes[i]) != NodeKey(w, nodes[j])
  {
    DataStore.KeyIsHash(w.crypto, w.toJson(nodes[i]), w.toJson(nodes[j]));
    DagRefinement.JsonReadsBack(w, nodes[i]);
    DagRefinement.JsonReadsBack(w, nodes[j]);
  }

  // What the owner writes: two branches, and nothing but the names of branches that matters.
  function On(branch: string, branches: seq<string>): NodeData {
    NodeData("", [], branch, branches, map[])
  }

  // The four nodes, each created on top of the one before:
  //
  //   first --main--> second --main--> third --notes--> fourth
  ghost function Nodes(w: World, addr: Address, main: string, notes: string, now: string, random: int)
    : (nodes: seq<Node>)
    requires addr.keys.Some?
    ensures |nodes| == 4
  {
    var (a, keys) := (addr.address, addr.keys.value);
    var first := CreatedNode(w, On(main, [main]), "", "", a, keys, 1, now, random);
    var k1 := NodeKey(w, first);
    var second := CreatedNode(w, On(main, [main]), k1, k1, a, keys, 2, now, random);
    var third := CreatedNode(w, On(main, [notes]), k1, NodeKey(w, second), a, keys, 3, now, random);
    var k3 := NodeKey(w, third);
    [first, second, third, CreatedNode(w, On(notes, []), k3, k3, a, keys, 1, now, random)]
  }

  // An owner's node is owned, and has the fields it was created with.
  lemma MadeByOwner(w: World, addr: Address, d: nat, nd: NodeData, keyRoot: string, prev: string, seqNo: int32,
                    now: string, random: int)
    requires CurveLaws(w.crypto) && JsonLaws(w) && Owner(w, addr, d)
    requires w.parseTime(now).Some? && nd.branch != "" && seqNo != 0
    ensures var n := CreatedNode(w, nd, keyRoot, prev, addr.address, addr.keys.value, seqNo, now, random);
            Owned(w, addr, n) && n.branchRoot == keyRoot && n.previous == prev && n.branch == nd.branch
            && n.branches == nd.branches && n.seqNo == seqNo
  {
    hide IntrinsicError, NewKeyPair, AddressOf, CreatedNode;
    CreatedNodeIsSound(w, addr, d, nd, keyRoot, prev, seqNo, now, random);
    CreatedFields(w, nd, keyRoot, prev, addr.address, addr.keys.value, seqNo, now, random);
  }

  lemma OwnersTellTheStory(w: World, addr: Address, d: nat, main: string, notes: string, now: string, random: int)
    requires CurveLaws(w.crypto) && JsonLaws(w) && Owner(w, addr, d)
    requires w.parseTime(now).Some? && main != "" && notes != "" && main != notes
    requires HashesApart(w, Nodes(w, addr, main, notes, now, random))
    ensures var ns := Nodes(w, addr, main, notes, now, random);
            Story(w, addr, ns[0], ns[1], ns[2], ns[3]) && ns[3].branch == notes
  {
    hide Owned, NewKeyPair, AddressOf, CreatedNode, NodeKey, HashesApart;
    var nodes := Nodes(w, addr, main, notes, now, random);
    var k1, k2, k3 := NodeKey(w, nodes[0]), NodeKey(w, nodes[1]), NodeKey(w, nodes[2]);
    OwnerIsWritable(w, addr, d);
    MadeByOwner(w, addr, d, On(main, [main]), "", "", 1, now, random);
    MadeByOwner(w, addr, d, On(main, [main]), k1, k1, 2, now, random);
    MadeByOwner(w, addr, d, On(main, [notes]), k1, k2, 3, now, random);
    MadeByOwner(w, addr, d, On(notes, []), k3, k3, 1, now, random);
    DifferentKeys(w, nodes, 0, 1);
    DifferentKeys(w, nodes, 0, 2);
    DifferentKeys(w, nodes, 0, 3);
    DifferentKeys(w, nodes, 1, 2);
    DifferentKeys(w, nodes, 1, 3);
    DifferentKeys(w, nodes, 2, 3);
  }

  // So every owner can do it: after a guarded run of five calls, one append without the guard is
  // accepted and takes the head of the notes back from the fourth node to the third.
  lemma OwnerTakesHeadBack(w: World, addr: Address, d: nat, main: string, notes: string, now: string, random: int)
    requires CurveLaws(w.crypto) && JsonLaws(w) && Owner(w, addr, d)
    requires w.parseTime(now).Some? && main != "" && notes != "" && main != notes
    requires HashesApart(w, Nodes(w, addr, main, notes, now, random))
    ensures var ns := Nodes(w, addr, main, notes, now, random);
            var ops := StoryOps(addr, ns[0], ns[1], ns[2], ns[3]);
            var again := Append(w, Run(w, ops), ns[2], NodeKey(w, ns[1]));
            var head := LastName(w.nameSpace, ns[2].address, NodeKey(w, ns[2]), notes);
            Guarded(w, ops)
            && head in Run(w, ops).names && Run(w, ops).names[head] == NodeKey(w, ns[3])
            && again.res == Ok(NodeKey(w, ns[2]))
            && head in again.st.names && again.st.names[head] == NodeKey(w, ns[2])
            && NodeKey(w, ns[2]) != NodeKey(w, ns[3])
  {
    hide NewKeyPair, AddressOf, NodeKey, Append, LastName, Nodes, Run, Guarded, IntrinsicError, StoryOps;
    var ns := Nodes(w, addr, main, notes, now, random);
    OwnersTellTheStory(w, addr, d, main, notes, now, random);
    HeadTakenBack(w, addr, ns[0], ns[1], ns[2], ns[3]);
  }
}
