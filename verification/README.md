# setinstone, modelled in Dafny

setinstone stores nodes that are never changed. A node is kept under the hash of its JSON text, points to
the node before it and to the root of its branch, and is signed by its owner. A name index remembers the
last node of every branch. Resolvers on a network ask each other for the names they do not manage.

The project models four parts and proves what they are for.

* **The DAG** (`DagSpec`, `Dag`, over `DataStore` and `LocalResolver`). `DagSpec` gives every call as a
  function of the whole state, errors and partial effects included; the class `Dag` is proved to compute it.
  `DagModel` is the independent picture: one plain list of keys per (branch root, branch). `DagRefinement`
  and `DagSteps` prove that each call does to the state what the list machine does to the lists; `DagRuns`
  draws the consequences for every run. `DagUnguarded` says exactly what goes wrong without the guard, and
  `DagLinks` what half of it is enough for. `DagChecks` says of any state whatever what `Append` lets
  through and what it answers otherwise, `DagOddStates` what happens when something stored is missing or is
  no node.
* **The graph and its iterator** (`Graph`, `GraphRuns`, `GraphUnguarded`, `Iterator`): the sequence number
  an append chooses, what clients that share a DAG do to it, and what walking a branch backwards yields,
  also while others append.
* **Name resolution** (`Message`, `Cache`, `Resolver`, `Network`): resolvers over a network that loses,
  repeats and reorders messages.
* **Addresses and bytes** (`Base58`, `Address`, `SigningBytes`, `FixedWidth`, `Crypto`, with `Radix` and
  `Text` below them).

## Conventions

* A Go string is a Dafny string, `[]byte(s)` is its UTF-8 encoding (`Text.Utf8`, proved injective), a byte
  slice is a sequence of numbers below 256. An `int32` is a bounded integer whose successor wraps around.
* SHA-256, RIPEMD-160, the P-256 curve, JSON and `time.Parse` are functions of the record `Primitives` or
  `World`. `CurveLaws` says that coordinates and signatures fit in 32 bytes and that a signature verifies;
  `JsonLaws` that JSON text is not empty and reads back. Nothing assumes SHA-256 injective: where keys must
  not collide, `CollisionFree`, `HashesApart` or `NoConfusion` say so about the nodes or queries of the run at
  hand.
* A Go panic is an error value (`Panic`), so no function shuts its inputs out.
* **Guard G** (`DagModel.Guard`): an appended node names as `BranchRoot` the root it is appended under; a
  root names nothing and has a slash-free address. `VerifyNode` does not check the first half.
  `GraphRuns.GraphRunsAreGuarded` shows that whatever graphs do is a guarded run, and `DagUnguarded` and
  `GraphUnguarded` what happens otherwise. What needs no more than that roots link to nothing and keys do
  not collide is proved from that alone, in `DagLinks` and `Iterator`: stored nodes stay, `Previous` is
  acyclic and leads down to a root, iteration ends, and interleaved calls do not disturb it. The lists, their
  numbers and heads need the whole guard.
* In proofs, a conjunct of the invariant `DagModel.Inv` is a named fact about one key and is instantiated
  where the proof names it.

Where the documentation and the code differ, the code is modelled: `Graph.Get` reports a missing key as an
error although its comment says otherwise (graph/graph.go:94-106 and 166-174); `SetRoot` saves a root after
any error of `GetRoot`, so its last line is never reached (dag/dag.go:61-68); `saveNode` ignores the error of
`getFullPath` (dag/dag.go:243-245); characters outside the Base58 alphabet count as -1 instead of being
refused (address/base58.go:41).

## Model

| member | source | states |
|---|---|---|
| Text.Utf8Injective | message/messages.go:162-171 | different strings have different bytes, so identifiers hash texts, not accidents of encoding |
| Text.HexRoundTrip | dag/node.go:52-64 | what hex.EncodeToString writes, hex.DecodeString reads back |
| Text.JoinSplit | resolver/resolver.go:18 | splitting at slashes loses nothing and leaves no slash in a part |
| Radix.DigitsOfValue | address/base58.go:14-23 | a digit string without leading zero is the digit string of its value, in every base |
| Radix.ValueOfDigits | address/base58.go:38-46 | Horner's rule undoes repeated division |
| Base58.ReverseBytes | address/base58.go:57-61 | the in-place swaps reverse the buffer |
| Base58.Base58Encode | address/base58.go:11-34 | the loops compute leading ones then base-58 digits, or run past an input of zeros |
| Base58.Base58Decode | address/base58.go:37-55 | the loops compute leading zeros then base-256 digits of the absolute value, or run past an input of ones |
| Base58.DecodeOfEncode | address/base58.go:11-55 | encoding returns exactly for inputs with a non-zero byte, and decoding then gives the input back |
| Base58.EncodeOfDecode | address/base58.go:11-55 | decoding then encoding gives the text back exactly when it is over the alphabet |
| Base58.EncodeKeepsValue | address/base58.go:11-34 | the letters of an encoding have in base 58 the value the bytes have in base 256, and as many leading ones as there were zeros |
| Base58.AlphabetMember | address/base58.go:8 | the 58 letters are the digits and letters except 0, O, I and l |
| Address.IsValid | address/address.go:66-81 | the buffer comparison computes the checksum test, including its panic |
| Address.GenerateAddressHash | address/address.go:99-112 | appending version, hash and checksum and encoding them gives the address |
| Address.ValidExactlyWithChecksum | address/address.go:66-81 | the encoding of payload and four bytes is valid exactly when the four bytes are the checksum |
| Address.GeneratedAddress | address/address.go:52-81 | generation panics only on all-zero bytes; otherwise the address is valid, matches its key and holds no slash |
| Address.MatchingAddress | address/address.go:52-64 | an address that matches some public key is valid and slash-free |
| Address.ValidityPanics | address/address.go:66-70 | validity panics exactly on non-empty texts of '1' |
| Address.ValidExactly | address/address.go:66-81 | which texts are valid, in terms of the double hash alone |
| Address.AddressLayout | address/address.go:99-145 | an address decodes to version, RIPEMD-160 of SHA-256 of the key, and four bytes of the double hash |
| Address.MatchesExactly | address/address.go:52-64 | a text matches exactly the keys it is the address of |
| Address.SameAddressCollides | address/address.go:120-138 | two keys with one address collide under the two hashes |
| Address.SameCheckBytesCollide | address/address.go:66-81 | valid texts with the same check bytes collide in the first four bytes of the double hash |
| FixedWidth.LeftPadBytes | internal/util/bytes.go:3-12 | copying into the tail of a fresh buffer pads with zeros on the left |
| FixedWidth.LayoutRoundTrip | crypto/crypto.go:56-75 | two numbers below 2^256, padded and joined, take 64 bytes and are recovered by splitting in half |
| FixedWidth.LayoutHalves | internal/util/bytes.go:3-12 | the first number fills the first 32 bytes and the second the others, both big-endian |
| Crypto.KeyRoundTrip | address/keypair.go:20-66 | a key pair written as hexadecimal gives back its point and private number |
| Crypto.SignedVerifies | crypto/crypto.go:56-81 | what Sign lays out, VerifySignature accepts under the signer's key |
| Crypto.VerifiesHalves | crypto/crypto.go:63-81 | a signature is verified as the numbers in its halves, under the point in the halves of the key |
| Crypto.SignatureLayout | crypto/crypto.go:56-61 | keys and signatures put the first number first |
| SigningBytes.SortOfEnumeration | dag/util.go:29-44 | any enumeration of a map's keys sorts to the same keys, and the bytes have the size counted beforehand |
| SigningBytes.GetMapBytes | dag/util.go:29-44 | whatever order the keys are enumerated in, the bytes are those of the sorted keys and fill the capacity |
| SigningBytes.GetSliceBytes | dag/util.go:46-56 | the bytes of the strings in order, filling the capacity |
| SigningBytes.IncreasingIsSortedKeys | dag/util.go:37 | there is only one increasing sequence of a set of keys |
| SigningBytes.BytesBeforeExactly | dag/util.go:37 | the order of the keys: proper prefixes first, else by the first byte that differs |
| SigningBytes.MapBytesGrow | dag/util.go:29-44 | the bytes of a map are those of its other entries, followed by its last key and that key's value |
| Node.GetBytesForSigning | dag/node.go:31-42 | the appended fields, with the canonical bytes of map and slice |
| Node.SigningLayout | dag/node.go:31-42 | the eight parts of a node, data last, one after the other and nothing else |
| Node.SigningBytesTell | dag/node.go:31-42 | two nodes that differ in number, timestamp, address, previous, branch or data alone have different signed bytes |
| Node.SignedHashTells | dag/node.go:44-48 | and different hashes to sign, unless SHA-256 collides |
| Node.Next32Wraps | dag/dag.go:188 | the successor of a sequence number is taken in 32 bits |
| Node.ItoaReads | dag/node.go:33 | the text of a sequence number reads back as the number |
| Node.VerifySignature | dag/node.go:56-74 | the three ways a signature can be refused |
| Node.SignatureErrorExactly | dag/node.go:56-74 | a signature is accepted exactly if the curve accepts its halves for the hash of the signed bytes; when each error is given |
| Node.SignedNodeVerifies | dag/node.go:44-90 | a signed node verifies, and still does after JSON and back |
| DataStore.Reader.Read | dag/dag.go:329-343 | one read of at most a buffer, end of file only when nothing is left |
| DataStore.LocalDataStore.Put | datastore/local-data-store.go:24-34 | the bytes go under their hash; a path leads to them if a path function is given |
| DataStore.LocalDataStore.Get | datastore/local-data-store.go:41-47 | a reader of the stored bytes, or not found |
| DataStore.KeyIsHash | datastore/local-data-store.go:25-27 | equal keys are equal SHA-256 hashes |
| LocalResolver.LocalResolver.Add | resolver/local_resolver.go:23-34 | a name is written exactly when it parses to a managed address |
| LocalResolver.LocalResolver.Resolve | resolver/local_resolver.go:36-46 | the value of a name that parses, or the error |
| LocalResolver.LocalResolver.Manage | resolver/local_resolver.go:48-54 | an address with a private key becomes managed |
| Names.LastNameInjective | dag/dag.go:380-386 | a head's name fixes address, branch root and branch, slashes in the branch notwithstanding |
| Names.RootNameInjective | dag/dag.go:376-386 | a root's name fixes its address |
| Names.RootNameIsNoLastName | dag/dag.go:376-386 | no root's name is a head's name |
| Names.NameAddress | resolver/resolver.go:17-22 | the name parser finds the address a name was built for |
| Names.QueryAddressExactly | resolver/resolver.go:17-26 | which names the parser accepts, and how it refuses the others |
| Dag.Dag.GetNodeByKey | dag/dag.go:323-356 | reading buffer by buffer gives the stored bytes, decoded |
| Dag.Dag.GetLast | dag/dag.go:85-105 | equals the lookup as a function of the state |
| Dag.Dag.GetRoot | dag/dag.go:109-119 | equals the lookup as a function of the state |
| Dag.Dag.VerifyNode | dag/dag.go:136-193 | equals the list of checks, in their order, as a function of the state |
| Dag.Dag.GetFullPath | dag/dag.go:396-421 | equals the path, its error, or the unbounded recursion |
| Dag.Dag.SaveNode | dag/dag.go:234-268 | the whole new state, also when a later write fails |
| Dag.Dag.SaveRootNode | dag/dag.go:270-301 | the whole new state, also when a later write fails |
| Dag.Dag.AddResolutionForNodeBranches | dag/dag.go:303-312 | names are written until the first failure |
| Dag.Dag.Append | dag/dag.go:74-79 | new state and answer as functions of the old state |
| Dag.Dag.SetRoot | dag/dag.go:54-69 | new state and answer as functions of the old state |
| DagChecks.AppendedIsGenuine | dag/dag.go:136-151 | in any state, what Append accepts or what makes it change anything has the valid address of its public key, a readable timestamp, a number, a branch, and a signature the curve accepts for its signed bytes |
| DagChecks.FailedChecks | dag/dag.go:136-151 | what a node is told by the first of those checks it fails, and that nothing changes |
| DagChecks.ForgedIsRefused | dag/dag.go:146-148 | a genuine node with one signed field changed has another hash to be signed, and is refused if the curve refuses it |
| DagChecks.MissingNodes | dag/dag.go:153-167 | a genuine node without a stored predecessor or branch root is told so |
| DagChecks.KnownNodeVerifies | dag/dag.go:136-163 | what is verified of a node that need not be new |
| DagOddStates.SavedUnnamed | dag/dag.go:249-262 | below a branch root whose address is not managed the bytes are stored and no name moves |
| DagOddStates.SetRootPanics | dag/dag.go:54-62 | a root for an address whose validity test panics panics, before anything is stored |
| DagChecks.ManagedExactly | resolver/local_resolver.go:48-54 | an address becomes managed exactly when it comes with a private key |
| DagOddStates.HeadOdd | dag/dag.go:93-105 | a head missing from the store counts as the branch root; one that is no node is an error |
| DagOddStates.AppendOdd | dag/dag.go:153-170 | what a genuine node is told when what it refers to is no node |
| DagOddStates.AppendAboveOdd | dag/dag.go:174-183 | what it is told when the head is missing or is no node |
| DagOddStates.PathBelowOdd | dag/dag.go:396-421 | the path below a missing branch root, and the endless recursion |
| DagOddStates.SavedUnderKey | dag/dag.go:243-251 | a node is saved although the path above it could not be found |
| DagRefinement.HeadLookup | dag/dag.go:85-105 | GetLast of an open branch is the last key of its list, or its root |
| DagRefinement.NoHead | dag/dag.go:85-105 | which error GetLast of a branch that is not open is |
| DagRefinement.RootLookup | dag/dag.go:109-119 | GetRoot finds exactly the root that was set, and which error it gives otherwise |
| DagRefinement.PositionExactly | dag/dag.go:174-189 | the head and sequence checks together let exactly the next number on top of the head through |
| DagRefinement.VerifyExactly | dag/dag.go:136-193 | VerifyNode accepts a node exactly when the list machine does, guarded or not |
| DagRefinement.RejectionReason | dag/dag.go:153-189 | which error a sound node is refused with, and that there is no other |
| DagRefinement.SupersededIsRejected | dag/dag.go:174-183 | a node on top of anything but the head is told so and changes nothing |
| DagRefinement.AcceptedIsFresh | dag/dag.go:74-79 | under the guard, an accepted node was never linked before |
| DagRefinement.FullPathIs | dag/dag.go:396-421 | the path recursion ends and gives the model's path |
| DagSteps.AppendSaves | dag/dag.go:234-268 | the exact state and answer of an accepted append, with the partial step for an unmanaged address |
| DagSteps.AcceptedRootSaves | dag/dag.go:270-301 | the exact state and answer of an accepted root |
| DagSteps.RefusedRoot | dag/dag.go:54-69 | a refused root leaves the name index and the lists as they are |
| DagSteps.RootAnswer | dag/dag.go:54-69 | what SetRoot answers in every case |
| DagSteps.StepRefines | dag/dag.go:54-79 | one guarded call keeps the invariant and answers as the list machine |
| DagRuns.RunRefines | dag/dag.go:54-79 | after every guarded run, store and index represent the lists |
| DagRuns.RunAnswers | dag/dag.go:54-79 | in every guarded run, each call answers as the list machine |
| DagRuns.AppendExactly | dag/dag.go:74-79 | an accepted append adds one key to one list, opens the declared branches, and touches no other list |
| DagRuns.RunGrows | dag/dag.go:234-312 | nodes, roots and lists are never lost: lists only get longer |
| DagRuns.BranchWalk | dag/dag.go:163-190 | from the head, Previous leads through the branch, newest first, to its root |
| DagRuns.BranchNumbers | dag/dag.go:184-189 | the nodes of a branch name it and its root, and are numbered consecutively from their base |
| DagRuns.OnePlace | dag/dag.go:234-268 | a linked node that is no root lies in exactly one list, once |
| DagRuns.OneSuccessor | dag/dag.go:181-183 | no node has two successors on one branch |
| DagRuns.HeadsOnlyAdvance | dag/dag.go:256-260 | every earlier head stays on the chain of every later head |
| DagRuns.CommitExactly | dag/dag.go:174-183 | what a branch would once have taken next is accepted later exactly if nothing was accepted on the branch since; else it is rejected as not head and changes nothing |
| DagRuns.PathAgrees | dag/dag.go:243-251 | the path rebuilt for a linked node is the one it is stored under |
| DagRuns.ManagedRunsOpenAll | dag/dag.go:303-312 | when addresses are managed, every declared branch of every linked node is open |
| DagRuns.DeclaredBranchesResolve | dag/dag.go:85-105 | when addresses are managed, a branch can be read exactly when its root declares it |
| DagRuns.RootIsFinal | dag/dag.go:54-69 | once an address has a root, every later well-formed SetRoot is refused and changes nothing |
| DagLinks.StepPuts | dag/dag.go:234-301 | a call stores its node or nothing, and an appended node only above a stored one |
| DagLinks.StoredStays | datastore/local-data-store.go:24-47 | what a stored key fetches never changes, whatever branch roots appended nodes name |
| DagLinks.RunLinksBack | dag/dag.go:153-162 | in all those runs each stored node links to nothing or to a node stored before it |
| DagUnguarded.OtherHeadsExactly | dag/dag.go:303-312 | an accepted append takes another head back exactly if that branch hangs, non-empty, below the node itself; under the guard none does |
| DagUnguarded.HeadTakenBack | dag/dag.go:136-193 | after a guarded run of such nodes, one of them is accepted under a second branch root and the head of its sub-branch is reset |
| Graph.CreateNode | graph/util.go:10-29 | the signed node filled field by field, without the properties of the data |
| Graph.Graph.Get | graph/graph.go:97-106 | the node of a key; a missing key is the error ErrNotFound |
| Graph.Graph.GetNext | graph/graph.go:176-191 | the node before the given one |
| Graph.Graph.CreateFirstNode | graph/graph.go:193-215 | the default branch is declared and the root set |
| Graph.Graph.Append | graph/graph.go:113-151 | new state and answer as functions of the old state |
| Graph.CreatedNodeIsSound | graph/util.go:10-29 | a node its owner creates passes every check that looks at the node alone |
| Graph.GraphAppendsNext | graph/graph.go:113-151 | on an open branch, below the given root or that of the address, the append succeeds with the next number, unless that wrapped to 0 |
| Graph.GraphRefusesClosed | graph/graph.go:113-134 | on a branch that is not open the append changes nothing, and which error it gives |
| Graph.AppendKeepsData | graph/graph.go:113-151 | in any state, what Append answers can be fetched under its key and holds the data, branch, branches and timestamp it was given, under the graph's address and key, on top of what was last; a first node declares its branch |
| Graph.FirstNodeOnce | graph/graph.go:208-211 | an owner with a root is told so instead of getting a second one |
| Graph.OnlyTheNextNumber | dag/dag.go:184-189 | whatever VerifyNode accepts carries the number the graph computes |
| Graph.FirstAppendMakesRoot | graph/graph.go:118-126 | the first append of an owner makes a root numbered 1 on a declared branch |
| GraphRuns.GraphRunsAreGuarded | graph/util.go:10-29 | any calls of any graphs over one DAG are a guarded run of its operations |
| GraphRuns.GraphRunsRefine | graph/graph.go:113-215 | so the DAG that graphs share represents the lists, with no guard assumed |
| GraphRuns.GraphCommitExactly | graph/graph.go:128-149 | reading the head, choosing the number, creating the node, and appending it after others were served succeeds exactly if nothing was accepted on the branch in between |
| GraphUnguarded.OwnersTellTheStory | graph/util.go:10-29 | the nodes of that run exist: any owner creates them, on any two branches |
| GraphUnguarded.OwnerTakesHeadBack | dag/dag.go:136-193 | so after five guarded calls of any owner one unguarded append is accepted and takes a head back |
| Iterator.Iterator.Last | graph/iterator.go:30-61 | the first node and the new position, as functions of the state |
| Iterator.Iterator.Prev | graph/iterator.go:63-80 | the next node down and the new position, as functions of the state |
| Iterator.Iterator.All | graph/iterator.go:82-90 | the loop ends and yields the first node and everything below it, up to where the consumer stops |
| Iterator.IterationStartsAtHead | graph/iterator.go:30-45 | an iterator over an open branch starts at its head |
| Iterator.IterationStartsBefore | graph/iterator.go:46-60 | an iterator made from a linked node starts at the node before it, and yields nothing at a root |
| Iterator.NothingToIterate | graph/iterator.go:30-61 | without a root, on a branch that is not open, and from an unknown key: the errors, or nothing |
| Iterator.PrevOdd | graph/iterator.go:63-80 | iteration ends at a key that is not stored, and answers an error at one that is no node |
| Iterator.BranchAncestry | graph/iterator.go:63-80 | that is the branch newest first, then its root, then the ancestors of the root, down to a root that links to nothing |
| Iterator.AncestryGoesBack | graph/iterator.go:63-80 | no node comes twice, and the last one links to nothing, with half the guard |
| Iterator.InterleavedIteration | graph/iterator.go:63-80 | calls of others between the steps do not change what the iterator yields, with half the guard |
| Cache.FoundUntilExpiry | cache/memory.go:24-48 | a value is found under its key until its time to live is over |
| Cache.MemoryCache.AddWithTTL | cache/memory.go:24-35 | the record and its expiry |
| Cache.MemoryCache.Get | cache/memory.go:37-48 | the value of an unexpired record |
| Message.SignedMessageVerifies | message/messages.go:27-78 | a message signed with a generated key pair verifies |
| Message.RequestTextInjective | message/messages.go:162-171 | requests for different names have different identifier texts, for any addresses the parser accepts |
| Message.IdentifierIsHash | message/messages.go:162-171 | equal identifiers are equal SHA-256 hashes of address, type and payload |
| Message.IdentifierTellsName | message/messages.go:162-171 | requests for different names have different identifiers, unless SHA-256 collides |
| Message.VerifiedExactly | message/messages.go:46-79 | a message verifies exactly if the curve accepts its halves for the hash of its bytes |
| Message.SignedLayout | message/messages.go:173-183 | the six parts of a message that are signed, one after the other |
| Message.BytesTell | message/messages.go:173-183 | two messages that differ in one of them alone have different signed bytes |
| Resolver.IpfsResolver.Add | resolver/ipfs_resolver.go:96-111 | a name is written to the backend exactly when its address is managed |
| Resolver.IpfsResolver.Subscribe | resolver/ipfs_resolver.go:359-377 | a resource that is there is kept, otherwise one is made |
| Resolver.IpfsResolver.Manage | resolver/ipfs_resolver.go:145-151 | new state and error as functions of the old state |
| Resolver.IpfsResolver.ResolveLocal | resolver/ipfs_resolver.go:113-143 | answered from the backend, from the cache, or to be asked of the network |
| Resolver.IpfsResolver.QueryNetwork | resolver/ipfs_resolver.go:165-201 | the query loop, with whatever the resolver does before each look at the cache |
| Resolver.IpfsResolver.Resolve | resolver/ipfs_resolver.go:113-143 | new state and answer as functions of the old state and of what the resolver does meanwhile |
| Resolver.PollsUntilCached | resolver/ipfs_resolver.go:188-200 | the loop ends with the first look that finds the resolution, and with the deadline exactly when none does |
| Resolver.QueryAnswers | resolver/ipfs_resolver.go:165-201 | a published query answers with what its first successful look found |
| Resolver.ResolvedExactly | resolver/ipfs_resolver.go:113-201 | what Resolve answers in every case, whether or not the network is asked |
| Resolver.RespondsExactly | resolver/ipfs_resolver.go:244-291 | a query becomes pending; a response holds the value for the name, refers to the query, is dated and verifies; there is none without a value or without both keys |
| Resolver.OwnerResponds | resolver/ipfs_resolver.go:250-290 | with a generated key pair and a value for the name there is a response |
| Resolver.AddedIsAnswered | resolver/ipfs_resolver.go:96-131 | what Add accepted is what Resolve answers for that name and no other; what it refuses changes nothing |
| Resolver.ManagedIsLocal | resolver/ipfs_resolver.go:123-131 | a managed address is never asked of the network |
| Resolver.RemovedIsGone | resolver/ipfs_resolver.go:157-163 | what Remove removes and what it leaves |
| Resolver.NotCached | resolver/ipfs_resolver.go:293-310 | forged responses change nothing, unreadable timestamps neither replace nor are replaced |
| Resolver.IpfsResolver.HandleQueryMessage | resolver/ipfs_resolver.go:244-291 | the query becomes pending; the response scheduled, if any |
| Resolver.IpfsResolver.HandleResolutionMessage | resolver/ipfs_resolver.go:293-310 | the cache and the pending set after a response |
| Resolver.ManageExactly | resolver/ipfs_resolver.go:145-151 | when an address ends up managed, and when Manage leaves it unmanaged without reporting a failure |
| Resolver.NewestWins | resolver/ipfs_resolver.go:293-310 | as long as nothing is found expired, of all valid responses handled, among whatever else the resolver does, the newest is cached, among equally new ones the first |
| Resolver.UnexpiredExactly | cache/memory.go:24-48 | nothing is found expired exactly when each response comes before the newest one so far runs out |
| Resolver.OrderDoesNotMatter | resolver/ipfs_resolver.go:302-308 | resolvers that handled the same responses, in any order, cache the same instant |
| Network.StepKeepsSound | resolver/ipfs_resolver.go:244-336 | every step keeps all messages, tasks and caches sound |
| Network.RunIsSound | resolver/ipfs_resolver.go:218-221 | in every run each cached resolution is signed, sits under its reference, and answers a published query |
| Network.AnswersWereHeld | resolver/ipfs_resolver.go:165-201 | in every run, what the cache answers for a name was held for exactly that name by a resolver managing its address |
| Network.LookInRun | resolver/ipfs_resolver.go:188-193 | each look of a query is a look at the cache in that state of the run |
| Network.ResolveIsSafe | resolver/ipfs_resolver.go:113-201 | every successful answer of Resolve, also one queried from the network while other things happen, is the empty text of a failed publication or was held for exactly that name when it was found |
| Network.QueryIsAnswered | resolver/ipfs_resolver.go:165-336 | when a query and its response get through, the asking resolver has the owner's value in its cache |
| Network.ResolveIsAnswered | resolver/ipfs_resolver.go:113-201 | and the call of Resolve that waits for it answers the value |
| Network.OwnerCanAnswer | resolver/ipfs_resolver.go:96-151 | all this takes is that the owner manages its address and adds the name |
| Network.PublishedExactly | resolver/ipfs_resolver.go:174-183 | what a step publishes, and that nothing is when publishing fails |
| Network.NewestIsCached | resolver/ipfs_resolver.go:293-310 | in every run, the newest of the valid responses that reach a resolver is cached, as long as nothing is found expired |
| Network.ResolversConverge | resolver/ipfs_resolver.go:302-308 | in every run, resolvers reached by the same responses cache the same instant |
| Network.PendingExactly | resolver/ipfs_resolver.go:338-357 | a query is found pending exactly when it was recorded after it was last cleared |
| Network.OnlyPendingIsSent | resolver/ipfs_resolver.go:312-349 | in every run, a response is only published after its query was found pending, recorded and not cleared since |

## Left out

- IPFS store and backend, the Bolt backend and their paths: foreign libraries; the local store, the local resolver and the memory backend take their place.
- Event manager, topics, backoff, subscriptions and callbacks: the network is the set of messages published so far, delivered to anyone any number of times, which allows more than the topics do.
- Sleeping inside `query`: what the resolver does before each look at the cache is a parameter of the call; `Network.Turns` takes it from the run, for looks in any later states.
- SHA-256, RIPEMD-160, P-256, AES, PEM, XDR and their failures: parameters, or not part of this model; signing with a number that is no valid private key, which the library refuses, is not covered.
- JSON text itself and the reflection in `Message.FromJson`: an abstract codec for nodes; messages travel as values.
- Nodes and messages as shared pointers: they are values here, so a caller that changes a node after handing it over is not modelled.
- Sorting in `getMapBytes`: `sort.Strings` is a library function; an insertion sort of a sequence stands for it.
- Interleaving inside one event handler or one call of a resolver: these are single steps; only `canSendResolution` with the publication after it, and a query with its looks at the cache, are taken apart.
- Interleaving of the reads and writes inside one `Append` or `SetRoot`: the source takes no lock; calls on a DAG are atomic here.
- The store's `Remove`: the DAG never calls it.
- Mocks, loggers, options, multihash identifiers, random strings: nothing to prove.
- Graph.GraphAppendsNext: assumes the clock's text parses and the owner's address is managed, as `New` and `createNode` arrange.
- Iterator.Iterator.All: assumes that links go back in time, which `DagLinks.RunLinksBack` gives for every run whose roots link to nothing; it takes that order as a ghost argument.
