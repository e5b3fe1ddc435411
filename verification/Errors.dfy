/** The error values of the packages, one constructor each, and the run-time panic. */
module Errors {
  datatype Error =
    // dag/errors.go
    | ErrDagAlreadyInitialized
    | ErrInvalidNodeTimestamp
    | ErrNodeNotFound
    | ErrPreviousNodeNotFound
    | ErrHeadNodeNotFound
    | ErrPreviousNodeIsNotHead
    | ErrAddressDoesNotMatchPubKey
    | ErrInvalidBranchSeq
    | ErrInvalidBranch
    | ErrBranchRootNotFound
    | ErrDefaultBranchNotSpecified
    | ErrUnableToDecodeNodeSignature
    | ErrUnableToDecodeNodePubKey
    | ErrNodeSignatureDoesNotMatch
    // address/errors.go
    | ErrInvalidChecksum
    // resolver/errors.go; ErrNameNotFound is its ErrNotFound
    | ErrInvalidName
    | ErrInvalidAddrComponent
    | ErrNoPrivateKey
    | ErrUnmanagedAddress
    | ErrNameNotFound
    // graph/errors.go; ErrGraphNotFound is its ErrNotFound
    | ErrAlreadyInitialized
    | ErrGraphNotFound
    | ErrPreviousNotFound
    | ErrReadOnly
    // encoding/json, the event manager, context, and a Go panic
    | ErrJson
    | ErrEventManager
    | ErrDeadline
    | Panic
}
