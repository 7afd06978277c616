/**
 The durable replay key of a start, the receipt it fences, and the renewal of
 the root grant that carries it.
 */
module Replay {
  import opened Basics
  import opened CallRoute
  import opened Envelope
  import opened Grants
  import opened GrantWire
  import opened Identifiers
  import opened Tokens
  import Delegation
  import Utf8

  datatype ReplayKey = ReplayKey(
    operationId: GoString,
    capabilityId: GoString,
    operation: GoString,
    ownerId: GoString,
    accountGeneration: int64,
    rootRequestDigest: seq<byte>)

  /** `StartReplayKey.Validate` returns no error. */
  predicate KeyValid(k: ReplayKey) {
    && OperationId(k.operationId)
    && ReplayToken(k.capabilityId) && ReplayToken(k.operation) && ReplayToken(k.ownerId)
    && ValidGeneration(k.accountGeneration)
    && |k.rootRequestDigest| == 32
  }

  /** `ValidateStartReplayKey` returns no error. */
  predicate KeyMatches(existing: ReplayKey, requested: ReplayKey) {
    && KeyValid(existing) && KeyValid(requested)
    && existing.operationId == requested.operationId
    && existing.capabilityId == requested.capabilityId
    && existing.operation == requested.operation
    && existing.ownerId == requested.ownerId
    && existing.accountGeneration == requested.accountGeneration
    && existing.rootRequestDigest == requested.rootRequestDigest
  }

  /** The business receipt of a start; the error message is compared as a value. */
  datatype StartReceipt<State, Failure> = StartReceipt(
    key: ReplayKey,
    state: State,
    result: seq<byte>,
    error: Option<Failure>,
    revision: int64)

  /** `ValidateStartReplayReceipt` returns no error. */
  predicate ReceiptMatches<State(==), Failure(==)>(existing: StartReceipt<State, Failure>,
                                                   replay: StartReceipt<State, Failure>)
  {
    && KeyMatches(existing.key, replay.key)
    && existing.state == replay.state && existing.result == replay.result
    && existing.revision == replay.revision && existing.error == replay.error
  }

  /** A replay is accepted exactly when it is the recorded receipt under a valid key. */
  lemma ReceiptIsExact<State, Failure>(existing: StartReceipt<State, Failure>, replay: StartReceipt<State, Failure>)
    ensures ReceiptMatches(existing, replay) <==> KeyValid(existing.key) && replay == existing
  {
    hide OperationId, ReplayToken;
  }

  // ---------- renewal ----------

  predicate ValidRoot(c: GrantClaims) {
    ValidClaims(c, DEFAULT_TTL) && c.grantKind == KIND_ROOT
  }

  /** `ValidateRootGrantRenewal` returns no error. */
  predicate Renews(previous: GrantClaims, next: GrantClaims) {
    && ValidClaims(previous, DEFAULT_TTL) && ValidClaims(next, DEFAULT_TTL)
    && previous.grantKind == KIND_ROOT && next.grantKind == KIND_ROOT
    && previous.childOperationId == [] && next.childOperationId == []
    && previous.productTargetKind == [] && next.productTargetKind == []
    && previous.rootOperationId == next.rootOperationId
    && previous.ownerId == next.ownerId
    && previous.accountGeneration == next.accountGeneration
    && previous.scopes == next.scopes
    && previous.rootCapabilityId == next.rootCapabilityId
    && previous.rootOperation == next.rootOperation
    && previous.entryRoute == next.entryRoute
    && previous.entryHop == next.entryHop
    && previous.maxHop == next.maxHop
    && previous.maxRouteLength == next.maxRouteLength
    && previous.rootRequestDigest == next.rootRequestDigest
    && previous.catalogDigest == next.catalogDigest
    && previous.schemaDigest == next.schemaDigest
  }

  /** A renewal is a valid root grant that differs in its chain and its timestamps at most. */
  lemma RenewalMeaning(p: GrantClaims, q: GrantClaims)
    ensures Renews(p, q) <==>
              && ValidRoot(p) && ValidRoot(q)
              && q == p.(chainId := q.chainId, issuedAt := q.issuedAt, expiresAt := q.expiresAt,
                         entryDeadline := q.entryDeadline)
  {
    hide OperationId, GrantToken, SortedUnique, ValidTimes, ValidBudget;
  }

  /** The replay key that an operation authorised by `c` is filed under. */
  function KeyOf(c: GrantClaims): ReplayKey {
    ReplayKey(c.rootOperationId, c.rootCapabilityId, c.rootOperation, c.ownerId, c.accountGeneration,
              c.rootRequestDigest)
  }

  lemma GrantTokenReplays(s: GoString)
    requires GrantToken(s, 256)
    ensures ReplayToken(s)
  {
    assert forall r: Utf8.rune :: !IsControl(r) ==> r >= 0x20;
  }

  /** Every valid grant yields a valid replay key. */
  lemma ClaimsKeyValid(c: GrantClaims, maxTtl: int64)
    requires ValidClaims(c, maxTtl)
    ensures KeyValid(KeyOf(c))
  {
    hide OperationId, GrantToken, SortedUnique, ValidTimes, ValidBudget, ReplayToken, ValidKind;
    GrantTokenReplays(c.rootCapabilityId);
    GrantTokenReplays(c.rootOperation);
    GrantTokenReplays(c.ownerId);
  }

  /** A root grant for a key. */
  function GrantFor(k: ReplayKey): GrantClaims {
    GrantClaims(
      k.operationId, k.operationId, [], KIND_ROOT, [], k.ownerId, k.accountGeneration, [Ascii("s")],
      k.capabilityId, k.operation, k.rootRequestDigest, seq(32, _ => 0), seq(32, _ => 0), 1, 2, 2, MS, 1, 3, 256)
  }

  lemma GrantForValid(k: ReplayKey)
    requires KeyValid(k) && GrantToken(k.ownerId, 256)
    requires GrantToken(k.capabilityId, 256) && GrantToken(k.operation, 256)
    ensures ValidRoot(GrantFor(k)) && KeyOf(GrantFor(k)) == k
  {
    hide OperationId, GrantToken, ReplayToken, ValidEntry, ValidKind, SortedUnique;
    RootKind(GrantFor(k));
    assert Ascii("s") == [0x73];
    PrintableToken(Ascii("s"));
    OneScope(Ascii("s"));
    Delegation.SingleNodes();
  }

  lemma RootKind(c: GrantClaims)
    requires c.grantKind == KIND_ROOT && c.productTargetKind == [] && c.childOperationId == []
    ensures ValidKind(c)
  {
    hide Ascii, OperationId;
    Delegation.TargetsDiffer();
    assert |TARGET_START| == 15;
  }

  /**
   The valid replay keys are exactly the keys of valid root grants, but for keys
   whose names hold a control character that only the token rule of grants refuses.
   */
  lemma KeysOfGrants(k: ReplayKey)
    ensures (exists c: GrantClaims :: ValidRoot(c) && KeyOf(c) == k)
            <==> && KeyValid(k)
                 && !LateControl(k.ownerId) && !LateControl(k.capabilityId) && !LateControl(k.operation)
  {
    hide OperationId, GrantToken, ReplayToken, ValidKind, ValidTimes, ValidBudget, SortedUnique, LateControl;
    TokenRules(k.ownerId);
    TokenRules(k.capabilityId);
    TokenRules(k.operation);
    if KeyValid(k) && !LateControl(k.ownerId) && !LateControl(k.capabilityId) && !LateControl(k.operation) {
      GrantForValid(k);
    }
    forall c: GrantClaims | ValidRoot(c) && KeyOf(c) == k
      ensures KeyValid(k) && GrantToken(k.ownerId, 256)
      ensures GrantToken(k.capabilityId, 256) && GrantToken(k.operation, 256)
    {
      ClaimsKeyValid(c, DEFAULT_TTL);
    }
  }

  /** Each grant of the chain renews the one before it. */
  predicate RenewalChain(chain: seq<GrantClaims>) {
    chain != [] && ValidRoot(chain[0]) && forall i :: 0 <= i < |chain| - 1 ==> Renews(chain[i], chain[i + 1])
  }

  /** Renewal is an equivalence on valid root grants. */
  lemma RenewalEquivalence(p: GrantClaims, q: GrantClaims, r: GrantClaims)
    ensures ValidRoot(p) <==> Renews(p, p)
    ensures Renews(p, q) <==> Renews(q, p)
    ensures Renews(p, q) && Renews(q, r) ==> Renews(p, r)
  {
    hide Renews, ValidRoot;
    RenewalMeaning(p, p);
    RenewalMeaning(p, q);
    RenewalMeaning(q, p);
    RenewalMeaning(q, r);
    RenewalMeaning(p, r);
  }

  /** Along a chain of any length every grant renews every other. */
  lemma {:induction false} ChainRenews(chain: seq<GrantClaims>, i: nat, j: nat)
    requires RenewalChain(chain) && i <= j < |chain|
    ensures Renews(chain[i], chain[j]) && Renews(chain[j], chain[i])
    decreases j - i
  {
    hide Renews, ValidRoot;
    if i == j {
      if i > 0 {
        assert Renews(chain[i - 1], chain[i - 1 + 1]);
        RenewalEquivalence(chain[i], chain[i - 1], chain[i]);
      } else {
        RenewalEquivalence(chain[0], chain[0], chain[0]);
      }
    } else {
      ChainRenews(chain, i, j - 1);
      assert Renews(chain[j - 1], chain[j - 1 + 1]);
      RenewalEquivalence(chain[i], chain[j - 1], chain[j]);
      RenewalEquivalence(chain[i], chain[j], chain[j]);
    }
  }

  /** So however often a grant is renewed, a start replays under the key it was admitted with. */
  lemma ChainKeepsKey(chain: seq<GrantClaims>, i: nat, j: nat)
    requires RenewalChain(chain) && i < |chain| && j < |chain|
    ensures KeyMatches(KeyOf(chain[i]), KeyOf(chain[j]))
  {
    if i <= j {
      ChainRenews(chain, i, j);
    } else {
      ChainRenews(chain, j, i);
    }
    hide ValidClaims, KeyValid;
    ClaimsKeyValid(chain[i], DEFAULT_TTL);
    ClaimsKeyValid(chain[j], DEFAULT_TTL);
  }
}
