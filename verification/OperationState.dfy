/**
 The durable operation state machine and the fence that outlives compaction.
 */
module OperationState {
  import opened Basics
  import opened Replay
  import opened Tokens

  /** Numbers outside the enum are possible on the wire. */
  datatype State =
    | Unspecified
    | Pending
    | Running
    | Completed
    | Failed
    | Cancelled
    | Uncertain
    | Unknown(number: int32)

  predicate Terminal(s: State) {
    s.Completed? || s.Failed? || s.Cancelled?
  }

  /** `ValidateOperationStateTransition`. */
  function ValidateTransition(from: State, to: State): Option<Error> {
    if from == to && Terminal(from) then None
    else if Terminal(from) then Some(TerminalImmutable)
    else
      var allowed :=
        match from
        case Unspecified => to.Pending?
        case Pending => to.Running? || to.Cancelled? || to.Uncertain?
        case Running => to.Completed? || to.Failed? || to.Cancelled? || to.Uncertain?
        case Uncertain => to.Completed? || to.Failed? || to.Cancelled?
        case _ => false;
      if allowed then None else Some(InvalidTransition)
  }

  /** `RecoverOperationStateAfterRestart`. */
  function Recover(s: State): Result<State> {
    match s
    case Pending => Ok(Uncertain)
    case Running => Ok(Uncertain)
    case Unknown(_) => Err(InvalidTransition)
    case _ => Ok(s)
  }

  /** `ValidateReconcileTransition`. */
  function ValidateReconcile(from: State, to: State): Option<Error> {
    if !from.Uncertain? || !Terminal(to) then Some(InvalidTransition) else None
  }

  predicate DigestValid(d: seq<byte>) {
    |d| == 32
  }

  /** `ValidateTerminalUpdate`. */
  function ValidateTerminalUpdate(previous: State, next: State, previousDigest: seq<byte>, nextDigest: seq<byte>)
    : Option<Error>
  {
    if !Terminal(previous) then ValidateTransition(previous, next)
    else if previous != next || !DigestValid(previousDigest) || !DigestValid(nextDigest)
            || previousDigest != nextDigest then Some(TerminalImmutable)
    else None
  }

  /** The transitions that section 6 of `docs/protocol.md` lists for `PENDING` and `RUNNING`. */
  const DOCUMENTED: set<(State, State)> := {
    (Pending, Running), (Pending, Cancelled), (Pending, Uncertain),
    (Running, Completed), (Running, Failed), (Running, Cancelled), (Running, Uncertain)
  }

  /** The validator allows the documented transitions, admission, repeated terminal states and reconciliations. */
  lemma TransitionsDocumented(from: State, to: State)
    ensures ValidateTransition(from, to).None? <==>
              || (from, to) in DOCUMENTED
              || (from, to) == (Unspecified, Pending)
              || (from == to && Terminal(from))
              || ValidateReconcile(from, to).None?
    ensures Terminal(from) && from != to ==> ValidateTransition(from, to) == Some(TerminalImmutable)
    ensures !Terminal(from) && ValidateTransition(from, to).Some? ==>
              ValidateTransition(from, to) == Some(InvalidTransition)
    ensures Terminal(from) <==> from in {Completed, Failed, Cancelled}
    ensures Recover(from).Ok? && Recover(from).value != from ==> (from, Recover(from).value) in DOCUMENTED
  {
  }

  /** A restart makes in-flight work uncertain, leaves every other known state, and fails on unknown numbers only. */
  lemma RecoverFences(s: State)
    ensures Recover(s).Err? <==> s.Unknown?
    ensures Recover(s).Ok? ==> !Recover(s).value.Pending? && !Recover(s).value.Running?
    ensures s.Pending? || s.Running? ==> Recover(s) == Ok(Uncertain)
    ensures !s.Pending? && !s.Running? && !s.Unknown? ==> Recover(s) == Ok(s)
  {
  }

  /** Reconciliation resolves uncertainty and nothing else. */
  lemma ReconcileResolves(from: State, to: State)
    ensures ValidateReconcile(from, to).None?
            <==> (from, to) in {(Uncertain, Completed), (Uncertain, Failed), (Uncertain, Cancelled)}
  {
  }

  /** A terminal state admits only the same receipt again: the same state under the same well-formed digest. */
  lemma TerminalUpdates(previous: State, next: State, previousDigest: seq<byte>, nextDigest: seq<byte>)
    ensures previous in {Completed, Failed, Cancelled} ==>
              (ValidateTerminalUpdate(previous, next, previousDigest, nextDigest).None?
               <==> next == previous && |nextDigest| == 32 && nextDigest == previousDigest)
    ensures previous !in {Completed, Failed, Cancelled} ==>
              ValidateTerminalUpdate(previous, next, previousDigest, nextDigest) == ValidateTransition(previous, next)
  {
  }

  /** How many effective changes a state can still see. */
  function Rank(s: State): nat {
    match s
    case Unspecified => 4
    case Pending => 3
    case Running => 2
    case Uncertain => 1
    case _ => 0
  }

  /** Every way a validator lets a state change. */
  predicate Advances(from: State, to: State) {
    || ValidateTransition(from, to).None?
    || ValidateReconcile(from, to).None?
    || Recover(from) == Ok(to)
  }

  /** A change spends rank, reaches running only from pending, and leaves no terminal state. */
  lemma AdvanceRank(from: State, to: State)
    requires Advances(from, to) && from != to
    ensures Rank(to) < Rank(from) && !Terminal(from)
    ensures to.Running? ==> from.Pending?
    ensures to.Pending? ==> from.Unspecified?
    ensures from.Uncertain? ==> Terminal(to)
  {
  }

  // ---------- tombstones ----------

  datatype Tombstone = Tombstone(
    operationId: GoString,
    capabilityId: GoString,
    operation: GoString,
    ownerId: GoString,
    accountGeneration: int64,
    requestDigest: seq<byte>,
    rootRequestDigest: seq<byte>,
    state: State,
    revision: int64)

  function StoredKey(t: Tombstone): ReplayKey {
    ReplayKey(t.operationId, t.capabilityId, t.operation, t.ownerId, t.accountGeneration, t.rootRequestDigest)
  }

  /** `ValidateTombstoneConflict` returns no error. */
  predicate FinalFence(t: Tombstone, operationId: GoString, requestDigest: seq<byte>) {
    && OperationId(t.operationId) && OperationId(operationId)
    && Terminal(t.state) && DigestValid(t.requestDigest) && DigestValid(requestDigest)
    && t.operationId == operationId && t.requestDigest == requestDigest
  }

  /** `ValidateRootTombstoneConflict` returns no error. */
  predicate RootFence(t: Tombstone, operationId: GoString, rootRequestDigest: seq<byte>) {
    && OperationId(t.operationId) && OperationId(operationId)
    && Terminal(t.state) && DigestValid(t.rootRequestDigest) && DigestValid(rootRequestDigest)
    && t.operationId == operationId && t.rootRequestDigest == rootRequestDigest
  }

  /** `ValidateStartReplayTombstoneConflict` returns no error. */
  predicate ReplayFence(t: Tombstone, requested: ReplayKey) {
    && OperationId(t.operationId)
    && KeyValid(requested)
    && Terminal(t.state) && DigestValid(t.rootRequestDigest)
    && KeyValid(StoredKey(t))
    && KeyMatches(StoredKey(t), requested)
  }

  /** A terminal tombstone fences exactly as the live key did, and only what names the same key. */
  lemma FencePreserved(t: Tombstone, requested: ReplayKey)
    requires Terminal(t.state)
    ensures ReplayFence(t, requested) <==> KeyMatches(StoredKey(t), requested)
    ensures ReplayFence(t, requested) <==> KeyValid(requested) && StoredKey(t) == requested
  {
    hide OperationId, ReplayToken;
  }

  /** The two fences that know only one digest: the UUID and that digest must be the recorded ones. */
  lemma DigestFences(t: Tombstone, operationId: GoString, digest: seq<byte>)
    ensures FinalFence(t, operationId, digest) <==>
              && OperationId(t.operationId) && t.state in {Completed, Failed, Cancelled} && |digest| == 32
              && operationId == t.operationId && digest == t.requestDigest
    ensures RootFence(t, operationId, digest) <==>
              && OperationId(t.operationId) && t.state in {Completed, Failed, Cancelled} && |digest| == 32
              && operationId == t.operationId && digest == t.rootRequestDigest
  {
    hide OperationId;
  }

  /** The root fence forgets the descriptor and the principal: it accepts exactly these keys. */
  lemma RootFenceWeaker(t: Tombstone, requested: ReplayKey)
    requires Terminal(t.state) && KeyValid(StoredKey(t)) && KeyValid(requested)
    ensures RootFence(t, requested.operationId, requested.rootRequestDigest) <==>
              requested.operationId == t.operationId && requested.rootRequestDigest == t.rootRequestDigest
    ensures ReplayFence(t, requested) <==>
              && RootFence(t, requested.operationId, requested.rootRequestDigest)
              && requested.capabilityId == t.capabilityId && requested.operation == t.operation
              && requested.ownerId == t.ownerId && requested.accountGeneration == t.accountGeneration
  {
    hide OperationId, ReplayToken;
  }

  /** The final-digest fence refuses a start that the replay fence accepts once its grant, and so its digest, is new. */
  lemma FinalFenceRefusesRenewal(t: Tombstone, requested: ReplayKey, digest: seq<byte>)
    requires ReplayFence(t, requested) && DigestValid(t.requestDigest) && DigestValid(digest)
    ensures FinalFence(t, requested.operationId, digest) <==> digest == t.requestDigest
  {
    hide OperationId, ReplayToken;
    FencePreserved(t, requested);
  }

  /** It is strictly weaker: another owner's retry passes it and conflicts with the full fence. */
  lemma RootFenceAdmitsOtherOwner(t: Tombstone, owner: GoString)
    requires Terminal(t.state) && KeyValid(StoredKey(t)) && ReplayToken(owner) && owner != t.ownerId
    ensures var other := StoredKey(t).(ownerId := owner);
            && KeyValid(other)
            && RootFence(t, other.operationId, other.rootRequestDigest)
            && !ReplayFence(t, other)
  {
    hide OperationId, ReplayToken;
  }
}
