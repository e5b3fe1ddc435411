/** Reading a state through the model: dag.go's lookups and checks give what the lists say. */
module DagRefinement {
  import opened Address
  import opened DagModel
  import opened DagSpec
  import opened DataStore
  import opened Errors
  import opened LocalResolver
  import opened Names
  import opened Node
  import opened Text
  import opened Wrappers

  // ---------- linked nodes ----------

  lemma JsonReadsBack(w: World, n: Node)
    requires JsonLaws(w)
    ensures w.toJson(n) != [] && w.fromJson(w.toJson(n)) == Some(n)
  {
  }

  lemma Known(w: World, st: State, m: Model, k: string)
    requires JsonLaws(w) && Inv(w, st, m) && k in m.nodes
    ensures GetNode(w, st, k) == Ok(Some(m.nodes[k]))
    ensures SlashFree(k) && |k| == 64
    ensures SlashFree(m.nodes[k].address)
  {
    assert NodeAt(w, st, m, k);
    assert StoredAt(w, st, k);
    JsonReadsBack(w, m.nodes[k]);
    KeyShape(w.crypto, w.toJson(m.nodes[k]));
  }

  lemma HeadIsLinked(w: World, m: Model, id: BranchId)
    requires ListsOk(w, m) && id in m.lists
    ensures id.root in m.nodes && Head(m, id) in m.nodes
  {
    hide Writable;
    assert ListAt(w, m, id);
    if m.lists[id] != [] {
      assert InChain(m, id, |m.lists[id]| - 1);
    }
  }

  // ---------- the name index ----------

  lemma NameResolves(w: World, st: State, addr: string, parts: seq<string>)
    requires SlashFree(addr) && Validity(w.crypto, addr) == Passes
    ensures var name := GetName(w.nameSpace, addr, parts);
            AddError(w.crypto, st.managed, name) == (if addr in st.managed then None else Some(ErrUnmanagedAddress))
            && Resolve(w, st, name) == (if name in st.names then Ok(st.names[name]) else Err(ErrNameNotFound))
  {
    NameAddress(w.nameSpace, addr, parts);
  }

  // GetLast of an open branch is its head.
  lemma HeadLookup(w: World, st: State, m: Model, id: BranchId)
    requires JsonLaws(w) && Inv(w, st, m) && id in m.lists
    ensures id.root in m.nodes && Head(m, id) in m.nodes
    ensures id.name != "" ==>
              GetLast(w, st, id.root, id.name) == Ok((Some(m.nodes[Head(m, id)]), Head(m, id)))
  {
    HeadIsLinked(w, m, id);
    Known(w, st, m, id.root);
    Known(w, st, m, Head(m, id));
    assert ListAt(w, m, id) && HeadNamed(w, st, m, id);
    NameResolves(w, st, m.nodes[id.root].address, ["shortcuts", id.root, id.name, "last"]);
  }

  // A head name is only in the index for an open branch.
  lemma HeadNameIsOpen(w: World, st: State, m: Model, addr: string, root: string, branch: string)
    requires JsonLaws(w) && Inv(w, st, m) && SlashFree(addr) && SlashFree(root)
    requires LastName(w.nameSpace, addr, root, branch) in st.names
    ensures BranchId(root, branch) in m.lists
  {
    var name := LastName(w.nameSpace, addr, root, branch);
    assert IsIndexName(w, m, name);
    if a :| NamesRoot(w, m, name, a) {
      assert RootAt(w, m, a);
      RootNameIsNoLastName(w.nameSpace, a, addr, root, branch);
    } else {
      var id :| NamesHead(w, m, name, id);
      Known(w, st, m, id.root);
      LastNameInjective(w.nameSpace, addr, root, branch, m.nodes[id.root].address, id.root, id.name);
      assert id == BranchId(root, branch);
    }
  }

  // How a name is refused whose address is not valid.
  function NameError(w: World, addr: string): Error {
    match Validity(w.crypto, addr)
    case Passes => ErrNameNotFound
    case Fails => ErrInvalidAddrComponent
    case Panics => Panic
  }

  lemma NameNotFound(w: World, st: State, addr: string, parts: seq<string>)
    requires SlashFree(addr) && GetName(w.nameSpace, addr, parts) !in st.names
    ensures Resolve(w, st, GetName(w.nameSpace, addr, parts)) == Err(NameError(w, addr))
  {
    hide Validity, GetName;
    NameAddress(w.nameSpace, addr, parts);
  }

  // GetLast of a branch that is not open is an error, whether or not its root is linked or stored.
  lemma NoHead(w: World, st: State, m: Model, root: string, branch: string)
    requires JsonLaws(w) && Inv(w, st, m) && BranchId(root, branch) !in m.lists
    ensures root in st.pairs ==> w.fromJson(st.pairs[root]).Some?
    ensures GetLast(w, st, root, branch)
         == Err(if branch == "" then ErrInvalidBranch
                else if root !in st.pairs then ErrNodeNotFound
                else NameError(w, w.fromJson(st.pairs[root]).value.address))
  {
    hide Validity, GetName, NameError, NamesOk, ListsOk;
    if root in st.pairs {
      assert StoredAt(w, st, root);
      var n := w.fromJson(st.pairs[root]).value;
      KeyShape(w.crypto, st.pairs[root]);
      if LastName(w.nameSpace, n.address, root, branch) in st.names {
        HeadNameIsOpen(w, st, m, n.address, root, branch);
      }
      NameNotFound(w, st, n.address, ["shortcuts", root, branch, "last"]);
    }
  }

  lemma RootLookup(w: World, st: State, m: Model, addr: string)
    requires JsonLaws(w) && Inv(w, st, m) && SlashFree(addr)
    ensures addr in m.roots ==>
              m.roots[addr] in m.nodes && GetRoot(w, st, addr) == Ok((Some(m.nodes[m.roots[addr]]), m.roots[addr]))
    ensures addr !in m.roots ==> GetRoot(w, st, addr) == Err(NameError(w, addr))
  {
    var name := RootName(w.nameSpace, addr);
    if addr in m.roots {
      assert RootAt(w, m, addr) && RootNamed(w, st, m, addr);
      Known(w, st, m, m.roots[addr]);
      NameResolves(w, st, addr, ["shortcuts", "root"]);
    } else if name in st.names {
      assert IsIndexName(w, m, name);
      if a :| NamesRoot(w, m, name, a) {
        assert RootAt(w, m, a);
        RootNameInjective(w.nameSpace, a, addr);
      } else {
        var id :| NamesHead(w, m, name, id);
        Known(w, st, m, id.root);
        RootNameIsNoLastName(w.nameSpace, addr, m.nodes[id.root].address, id.root, id.name);
      }
    } else {
      NameNotFound(w, st, addr, ["shortcuts", "root"]);
    }
  }

  // ---------- the order of a list ----------

  // Along a list, nodes are linked later and later, and all after the root.
  lemma {:induction false} BornInOrder(w: World, m: Model, id: BranchId, i: nat, j: nat)
    requires ListsOk(w, m) && Acyclic(m) && id in m.lists && i <= j < |m.lists[id]|
    ensures var list := m.lists[id];
            list[i] in m.born && list[j] in m.born && id.root in m.born
            && m.born[id.root] < m.born[list[i]]
            && (i < j ==> m.born[list[i]] < m.born[list[j]])
    decreases j
  {
    hide Writable;
    var list := m.lists[id];
    assert ListAt(w, m, id);
    assert InChain(m, id, i) && InChain(m, id, j) && LinksBack(m, list[i]) && LinksBack(m, list[j]);
    assert LinksBack(m, id.root);
    if i < j {
      BornInOrder(w, m, id, i, j - 1);
      assert !IsRoot(m.nodes[list[j]]);
    } else if i > 0 {
      BornInOrder(w, m, id, i - 1, i - 1);
    }
  }

  // An empty list is what the head being the root means.
  lemma HeadIsRoot(w: World, m: Model, id: BranchId)
    requires ListsOk(w, m) && Acyclic(m) && id in m.lists
    ensures Head(m, id) == id.root <==> m.lists[id] == []
  {
    hide Writable;
    if m.lists[id] != [] {
      BornInOrder(w, m, id, |m.lists[id]| - 1, |m.lists[id]| - 1);
    }
  }

  lemma HeadBranch(w: World, m: Model, id: BranchId)
    requires ListsOk(w, m) && id in m.lists
    ensures Head(m, id) in m.nodes
    ensures m.lists[id] != [] ==> m.nodes[Head(m, id)].branch == id.name
  {
    hide Writable;
    HeadIsLinked(w, m, id);
    if m.lists[id] != [] {
      assert ListAt(w, m, id);
      assert InChain(m, id, |m.lists[id]| - 1);
    }
  }

  // ---------- verification accepts exactly what the list machine accepts ----------

  // The two sequence checks leave no third case: they let exactly the next number through.
  lemma PositionExactly(w: World, st: State, m: Model, n: Node, root: string)
    requires JsonLaws(w) && Inv(w, st, m) && BranchId(root, n.branch) in m.lists && n.branch != ""
    requires root in m.nodes && n.previous in m.nodes
    ensures Head(m, BranchId(root, n.branch)) in m.nodes
    ensures PositionError(w, st, n, root, m.nodes[n.previous]).None?
       <==> n.previous == Head(m, BranchId(root, n.branch)) && n.seqNo == NextSeq(m, BranchId(root, n.branch))
  {
    var id := BranchId(root, n.branch);
    HeadLookup(w, st, m, id);
    Known(w, st, m, root);
    HeadIsRoot(w, m, id);
    assert ListAt(w, m, id);
    HeadBranch(w, m, id);
  }

  // A node that passes the checks on itself lies on a named branch of a generated address.
  lemma IntrinsicAddress(w: World, n: Node)
    requires IntrinsicError(w, n).None?
    ensures SlashFree(n.address) && Validity(w.crypto, n.address) == Passes && n.branch != ""
  {
    hide SignatureError, Validity, MatchesPubKey;
    MatchingAddress(w.crypto, n.address, n.pubKey);
  }

  lemma VerifyExactly(w: World, st: State, m: Model, n: Node, root: string)
    requires JsonLaws(w) && Inv(w, st, m)
    ensures VerifyError(w, st, n, root, true).None? <==> Accepts(w, m, n, root)
  {
    hide IntrinsicError, Validity;
    var id := BranchId(root, n.branch);
    if IntrinsicError(w, n).None? {
      IntrinsicAddress(w, n);
      if id !in m.lists {
        NoHead(w, st, m, root, n.branch);
      } else {
        HeadLookup(w, st, m, id);
        if n.previous in m.nodes {
          Known(w, st, m, n.previous);
          PositionExactly(w, st, m, n, root);
        } else {
          Known(w, st, m, root);
        }
      }
    }
  }

  // A node built on anything stored that is not the head is told so, and changes nothing.
  lemma SupersededIsRejected(w: World, st: State, m: Model, n: Node, root: string)
    requires JsonLaws(w) && Inv(w, st, m) && IntrinsicError(w, n).None?
    requires BranchId(root, n.branch) in m.lists && n.previous in st.pairs
    requires n.previous != Head(m, BranchId(root, n.branch))
    ensures Append(w, st, n, root) == Outcome(st, Err(ErrPreviousNodeIsNotHead))
  {
    hide IntrinsicError, Validity;
    IntrinsicAddress(w, n);
    var id := BranchId(root, n.branch);
    assert StoredAt(w, st, n.previous) && ListAt(w, m, id);
    HeadLookup(w, st, m, id);
    Known(w, st, m, root);
  }

  // No node of a list follows its head.
  lemma MemberIsNotNext(w: World, m: Model, id: BranchId, i: nat)
    requires ListsOk(w, m) && Acyclic(m) && id in m.lists && i < |m.lists[id]|
    ensures m.lists[id][i] in m.nodes && m.nodes[m.lists[id][i]].previous != Head(m, id)
  {
    hide Writable;
    var list := m.lists[id];
    assert ListAt(w, m, id) && InChain(m, id, i);
    BornInOrder(w, m, id, i, |list| - 1);
    if i > 0 {
      BornInOrder(w, m, id, i - 1, |list| - 1);
    }
  }

  // Why a node that is sound in itself is refused below a linked branch root, in the order of the
  // checks. A declared branch that is not open is one whose node could not write its head names.
  lemma RejectionReason(w: World, st: State, m: Model, n: Node, root: string)
    requires JsonLaws(w) && Inv(w, st, m) && IntrinsicError(w, n).None? && root in m.nodes
    ensures var id, er := BranchId(root, n.branch), VerifyError(w, st, n, root, true);
            if n.previous !in st.pairs then er == Some(ErrPreviousNodeNotFound)
            else if n.branch !in m.nodes[root].branches then er == Some(ErrInvalidBranch)
            else if id !in m.lists then
              GetLast(w, st, root, n.branch).Err? && er == Some(GetLast(w, st, root, n.branch).error)
            else if n.previous != Head(m, id) then er == Some(ErrPreviousNodeIsNotHead)
            else Head(m, id) in m.nodes && er == if n.seqNo != NextSeq(m, id) then Some(ErrInvalidBranchSeq) else None
  {
    hide IntrinsicError, Validity, GetLast;
    var id := BranchId(root, n.branch);
    Known(w, st, m, root);
    IntrinsicAddress(w, n);
    if n.previous in st.pairs {
      assert StoredAt(w, st, n.previous);
      if id in m.lists {
        assert ListAt(w, m, id);
        HeadLookup(w, st, m, id);
        HeadIsRoot(w, m, id);
        HeadBranch(w, m, id);
        Known(w, st, m, Head(m, id));
      } else {
        NoHead(w, st, m, root, n.branch);
      }
    }
  }

  // Everything stored lies under the hash of its bytes.
  ghost predicate Keyed(w: World, st: State) {
    forall k :: k in st.pairs ==> k == KeyOf(w.crypto, st.pairs[k])
  }

  lemma StoreIsKeyed(w: World, st: State)
    requires StoreOk(w, st)
    ensures Keyed(w, st)
  {
    forall k | k in st.pairs ensures k == KeyOf(w.crypto, st.pairs[k]) {
      assert StoredAt(w, st, k);
    }
  }

  // Putting a node does not replace different bytes.
  lemma SameKeySameBytes(w: World, st: State, n: Node)
    requires Keyed(w, st) && CollisionFree(w, st, n)
    ensures NodeKey(w, n) in st.pairs ==> st.pairs[NodeKey(w, n)] == w.toJson(n)
  {
    if NodeKey(w, n) in st.pairs {
      KeyIsHash(w.crypto, st.pairs[NodeKey(w, n)], w.toJson(n));
    }
  }

  lemma NewKeyIsFree(w: World, st: State, n: Node)
    requires Keyed(w, st) && NodeKey(w, n) !in st.pairs
    ensures CollisionFree(w, st, n)
  {
    forall k | k in st.pairs ensures w.crypto.sha256(st.pairs[k]) != w.crypto.sha256(w.toJson(n)) {
      KeyIsHash(w.crypto, st.pairs[k], w.toJson(n));
    }
  }

  // What is linked under a node's key is that node.
  lemma LinkedIs(w: World, st: State, m: Model, n: Node)
    requires JsonLaws(w) && Inv(w, st, m) && CollisionFree(w, st, n) && NodeKey(w, n) in m.nodes
    ensures m.nodes[NodeKey(w, n)] == n
  {
    assert NodeAt(w, st, m, NodeKey(w, n));
    StoreIsKeyed(w, st);
    SameKeySameBytes(w, st, n);
    JsonReadsBack(w, n);
    JsonReadsBack(w, m.nodes[NodeKey(w, n)]);
  }

  // An accepted node is new: nothing linked has its key.
  lemma AcceptedIsFresh(w: World, st: State, m: Model, n: Node, root: string)
    requires JsonLaws(w) && Inv(w, st, m) && Guard(w, st, OpAppend(n, root)) && Accepts(w, m, n, root)
    ensures NodeKey(w, n) !in m.nodes
  {
    hide IntrinsicError, Validity;
    var k, id := NodeKey(w, n), BranchId(root, n.branch);
    if k in m.nodes {
      LinkedIs(w, st, m, n);
      assert Listed(m, k) && LinksBack(m, root);
      var i :| 0 <= i < |m.lists[id]| && m.lists[id][i] == k;
      MemberIsNotNext(w, m, id, i);
    }
  }

  // ---------- full paths ----------

  lemma {:induction false} FullPathIs(w: World, st: State, m: Model, k: string, seen: set<string>)
    requires JsonLaws(w) && Inv(w, st, m) && k in m.nodes && k in m.born
    requires forall x :: x in seen && x in m.born ==> m.born[x] > m.born[k]
    ensures FullPath(w, st, k, seen) == Path(ModelPath(w, m, k), None)
    decreases m.born[k]
  {
    Known(w, st, m, k);
    assert LinksBack(m, k);
    var n := m.nodes[k];
    if n.branchRoot != "" {
      FullPathIs(w, st, m, n.branchRoot, seen + {k});
    }
  }

  ghost predicate Extends(m: Model, m': Model) {
    forall k :: k in m.nodes ==> k in m'.nodes && m'.nodes[k] == m.nodes[k]
  }

  lemma {:induction false} PathIsStable(w: World, m: Model, m': Model, k: string)
    requires Acyclic(m) && Acyclic(m') && Extends(m, m') && k in m.nodes && k in m.born
    ensures ModelPath(w, m', k) == ModelPath(w, m, k)
    decreases m.born[k]
  {
    assert LinksBack(m, k) && LinksBack(m', k);
    var n := m.nodes[k];
    if n.branchRoot != "" {
      PathIsStable(w, m, m', n.branchRoot);
    }
  }

  // A path ends with its key, so different keys have different paths.
  lemma PathEnd(w: World, m: Model, k: string)
    requires Acyclic(m) && k in m.nodes
    ensures var path := ModelPath(w, m, k); |path| >= |k| && path[|path| - |k|..] == k
  {
    assert LinksBack(m, k);
    var n, path := m.nodes[k], ModelPath(w, m, k);
    if n.branchRoot == "" {
      assert Text.Join([k]) == k;
      assert path == ("/" + n.address + "/" + w.nameSpace + "/dag/") + k;
    } else {
      assert path == (ModelPath(w, m, n.branchRoot) + "/branches/" + n.branch + "/") + k;
    }
  }
}
