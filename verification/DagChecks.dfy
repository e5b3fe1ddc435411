/**
 What VerifyNode protects, in any state: only genuine nodes are appended, and what every other node is
 told. Nothing here speaks of the functions by which Dag.dfy is specified, but of Append itself.
 */
module DagChecks {
  import opened Address
  import opened Crypto
  import opened DagSpec
  import opened Errors
  import opened Node
  import opened Text
  import opened Wrappers

  // ---------- the checks that look at the node alone ----------

  // The address is valid and is the one generated from the node's public key.
  predicate AddressGenuine(w: World, n: Node) {
    Validity(w.crypto, n.address) == Passes
    && HexDecode(n.pubKey).Some? && AddressOf(w.crypto, HexDecode(n.pubKey).value) == Some(n.address)
  }

  // The signature is one of the address's owner for these very fields.
  ghost predicate SignatureGenuine(w: World, n: Node) {
    SignatureHolds(w.crypto, n.signature, n.pubKey, w.crypto.sha256(BytesForSigning(n)))
  }

  ghost predicate Genuine(w: World, n: Node) {
    AddressGenuine(w, n) && w.parseTime(n.timestamp).Some? && n.seqNo != 0 && SignatureGenuine(w, n) && n.branch != ""
  }

  lemma GenuineExactly(w: World, n: Node)
    ensures IntrinsicError(w, n).None? <==> Genuine(w, n)
  {
    hide AddressOf, HexDecode, Validity, BytesForSigning, SignatureHolds, SignatureError, MatchesPubKey;
    MatchesExactly(w.crypto, n.address, n.pubKey);
    SignatureErrorExactly(w.crypto, n);
  }

  // Whatever is appended, or makes any difference, is genuine.
  lemma AppendedIsGenuine(w: World, st: State, n: Node, root: string)
    requires Append(w, st, n, root).res.Ok? || Append(w, st, n, root).st != st
    ensures Genuine(w, n)
  {
    hide IntrinsicError, PositionError, SaveNode, Genuine;
    GenuineExactly(w, n);
  }

  // ---------- what a node is told that fails one of them ----------

  // The checks before the signature.
  predicate Presentable(w: World, n: Node) {
    AddressGenuine(w, n) && w.parseTime(n.timestamp).Some? && n.seqNo != 0
  }

  ghost predicate RefusedWith(w: World, st: State, n: Node, root: string, er: Error) {
    Append(w, st, n, root) == Outcome(st, Err(er))
  }

  lemma FailedChecks(w: World, st: State, n: Node, root: string)
    ensures Validity(w.crypto, n.address) == Panics ==> RefusedWith(w, st, n, root, Panic)
    ensures Validity(w.crypto, n.address) == Fails ==> RefusedWith(w, st, n, root, ErrInvalidChecksum)
    ensures Validity(w.crypto, n.address) == Passes && !AddressGenuine(w, n) ==>
              RefusedWith(w, st, n, root,
                          if HexDecode(n.pubKey).Some? && AddressOf(w.crypto, HexDecode(n.pubKey).value).None?
                          then Panic else ErrAddressDoesNotMatchPubKey)
    ensures AddressGenuine(w, n) && w.parseTime(n.timestamp).None? ==>
              RefusedWith(w, st, n, root, ErrInvalidNodeTimestamp)
    ensures AddressGenuine(w, n) && w.parseTime(n.timestamp).Some? && n.seqNo == 0 ==>
              RefusedWith(w, st, n, root, ErrInvalidBranchSeq)
    ensures Presentable(w, n) && HexDecode(n.signature).None? ==>
              RefusedWith(w, st, n, root, ErrUnableToDecodeNodeSignature)
    ensures Presentable(w, n) && HexDecode(n.signature).Some? && !SignatureGenuine(w, n) ==>
              RefusedWith(w, st, n, root, ErrNodeSignatureDoesNotMatch)
    ensures Presentable(w, n) && SignatureGenuine(w, n) && n.branch == "" ==>
              RefusedWith(w, st, n, root, ErrInvalidBranch)
  {
    hide AddressOf, HexDecode, Validity, BytesForSigning, SignatureHolds, SignatureError, MatchesPubKey;
    MatchesExactly(w.crypto, n.address, n.pubKey);
    SignatureErrorExactly(w.crypto, n);
  }

  // ---------- forged nodes ----------

  lemma GenuineIsSigned(w: World, n: Node)
    requires Genuine(w, n)
    ensures SignatureGenuine(w, n)
  {
  }

  // Changing a signed field of a genuine node changes the hash its signature has to hold for, unless
  // SHA-256 collides on the two; where the curve then refuses the signature, so does the DAG.
  lemma ForgedIsRefused(w: World, st: State, n: Node, root: string, n': Node)
    requires Genuine(w, n) && OneFieldApart(n, n') && n != n'
    requires var (x, y) := (BytesForSigning(n), BytesForSigning(n'));
             w.crypto.sha256(x) == w.crypto.sha256(y) ==> x == y
    ensures w.crypto.sha256(BytesForSigning(n)) != w.crypto.sha256(BytesForSigning(n'))
    ensures !SignatureGenuine(w, n') ==> Append(w, st, n', root).res.Err? && Append(w, st, n', root).st == st
  {
    hide BytesForSigning, OneFieldApart, Genuine, SignatureHolds, Append;
    SignedHashTells(w.crypto, n, n');
    if Append(w, st, n', root).res.Ok? || Append(w, st, n', root).st != st {
      AppendedIsGenuine(w, st, n', root);
      GenuineIsSigned(w, n');
    }
  }

  // ---------- the node before ----------

  // A genuine node is told when the node before it or its branch root is missing.
  lemma MissingNodes(w: World, st: State, n: Node, root: string)
    requires Genuine(w, n)
    ensures n.previous !in st.pairs ==> RefusedWith(w, st, n, root, ErrPreviousNodeNotFound)
    ensures GetNode(w, st, n.previous).Ok? && GetNode(w, st, n.previous).value.Some? && root !in st.pairs ==>
              RefusedWith(w, st, n, root, ErrNodeNotFound)
  {
    hide IntrinsicError, Genuine, SaveNode, DagSpec.GetLast;
    GenuineExactly(w, n);
  }

  // A node that need not be new is verified when it is genuine and the node before it can be read.
  lemma KnownNodeVerifies(w: World, st: State, n: Node, root: string)
    ensures VerifyError(w, st, n, root, false).None?
       <==> Genuine(w, n) && GetNode(w, st, n.previous).Ok? && GetNode(w, st, n.previous).value.Some?
  {
    hide IntrinsicError, Genuine;
    GenuineExactly(w, n);
  }

  // ---------- managing ----------

  // An address becomes managed exactly when it comes with a private key.
  lemma ManagedExactly(st: State, addr: Address)
    ensures var o := DagSpec.Manage(st, addr);
            if addr.keys.Some? && addr.keys.value.privateKey != "" then
              o.res.Ok? && o.st == st.(managed := st.managed + {addr.address})
            else
              o == Outcome(st, Err(if addr.keys.None? then Panic else ErrNoPrivateKey))
  {
  }
}
