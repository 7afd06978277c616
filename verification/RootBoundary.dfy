/**
 Root grants at their own boundaries: what the Product and Agent verifiers say of
 a signed root grant that is presented with the call it was signed for.
 */
module RootBoundary {
  import opened Basics
  import opened BoundaryRoutes
  import opened CallRoute
  import opened Envelope
  import opened Grants
  import opened GrantWire
  import opened Tokens

  /** The request that `c` was signed for, made in the call `ctx` and asking for `scopes`. */
  function MatchingRoot(c: GrantClaims, ctx: CallContext, scopes: seq<GoString>): RootBinding {
    RootBinding(Some(ctx), c.rootOperationId, c.ownerId, c.accountGeneration, c.rootRequestDigest, scopes)
  }

  function MatchingDescriptor(c: GrantClaims): Descriptor {
    Descriptor(c.rootCapabilityId, c.rootOperation, c.catalogDigest, c.schemaDigest)
  }

  /** A strict call of the grant's chain and operation, standing on a legal route, that asks for granted scopes. */
  predicate CallMatches(c: GrantClaims, ctx: CallContext, origin: CallContext, nodes: seq<GoString>,
                        scopes: seq<GoString>)
  {
    && ValidateStrictCallContext(ctx).None? && Stands(ctx, origin, nodes)
    && ctx.chainId == c.chainId && ctx.rootOperationId == c.rootOperationId
    && scopes != [] && SortedUnique(scopes) && Contains(c.scopes, scopes)
  }

  /** The call runs from the grant's entry to this boundary, within its budget and deadline. */
  predicate CallCovered(c: GrantClaims, ctx: CallContext, nodes: seq<GoString>, terminal: GoString) {
    && Joins(nodes, c.entryRoute, terminal)
    && ctx.hop <= c.maxHop && |ctx.route| <= c.maxRouteLength
    && ctx.deadline <= c.entryDeadline
  }

  /** What a boundary verifier says of a root grant of `size` bytes. */
  function RootVerdict(c: GrantClaims, size: nat, now: int64, covered: bool): Result<GrantClaims> {
    if size > DEFAULT_MAX_SIZE then Err(GrantTooLarge)
    else if !IntsStable(c) || c.expiresAt - c.issuedAt > 900_000 then Err(InvalidGrant)
    else if now < c.issuedAt then Err(GrantNotYetValid)
    else if now >= c.expiresAt then Err(GrantExpired)
    else if covered then Ok(c)
    else Err(GrantBinding)
  }

  lemma MatchingBound(c: GrantClaims, maxTtl: int64, ctx: CallContext, origin: CallContext, nodes: seq<GoString>,
                      scopes: seq<GoString>, terminal: GoString)
    requires ValidClaims(c, maxTtl) && CallMatches(c, ctx, origin, nodes, scopes)
    requires terminal == AGENT || terminal == PRODUCT
    ensures RootBound(c, MatchingRoot(c, ctx, scopes), terminal) <==> CallCovered(c, ctx, nodes, terminal)
    ensures DescriptorBound(c, MatchingDescriptor(c))
  {
    hide OperationId, SortedUnique, Contains, ValidKind, ValidEntry, RouteFits, Joins, Stands, Trimmed,
         ValidateStrictCallContext, ParseRoute;
    FitsMeansJoins(c, ctx, origin, nodes, terminal);
    OperationIdIsToken(c.rootOperationId);
  }

  lemma DefaultLifetime(c: GrantClaims, maxTtl: int64)
    requires maxTtl > 0 && ValidClaims(c, maxTtl)
    ensures ValidClaims(c, DEFAULT_TTL) <==> c.expiresAt - c.issuedAt <= 900_000
  {
    hide OperationId, GrantToken, SortedUnique, ValidKind, ValidBudget;
  }

  /** The package-level verifiers on a signed grant, before any binding. */
  lemma SignedVerdict(scheme: Scheme, signer: Codec, claims: GrantClaims, key: seq<byte>, now: int64)
    requires Sound(scheme) && RawKey(scheme.public(key), PUBLIC_KEY_SIZE)
    requires SignGrant(scheme, signer, claims, key).Ok?
    ensures var c, grant := Filled(Normalized(signer), claims), SignGrant(scheme, signer, claims, key).value;
            && ValidClaims(c, Normalized(signer).maxTtl)
            && VerifySigned(scheme, ClockOnly(now), grant, scheme.public(key)) == RootVerdict(c, |grant|, now, true)
  {
    hide Filled, Normalized, ValidClaims, SignGrant, VerifySigned, IntsStable, InTime, Sound, RawKey;
    var c := Filled(Normalized(signer), claims);
    SignedIsJudged(scheme, signer, ClockOnly(now), claims, key);
    PositiveTtl(signer);
    DefaultLifetime(c, Normalized(signer).maxTtl);
    ClockOnlySettings(now, c);
  }

  lemma PositiveTtl(codec: Codec)
    ensures Normalized(codec).maxTtl > 0
  {
  }

  /**
   A signed root grant that is presented with its own call is accepted at the
   Product boundary exactly while it lives, when the call came there from the
   grant's entry within its budget and deadline.
   */
  lemma RootComplete(scheme: Scheme, signer: Codec, claims: GrantClaims, key: seq<byte>, now: int64,
                     ctx: CallContext, origin: CallContext, nodes: seq<GoString>, scopes: seq<GoString>)
    requires Sound(scheme) && RawKey(scheme.public(key), PUBLIC_KEY_SIZE)
    requires SignGrant(scheme, signer, claims, key).Ok?
    requires var c := Filled(Normalized(signer), claims); IsRoot(c) && CallMatches(c, ctx, origin, nodes, scopes)
    ensures var c, grant := Filled(Normalized(signer), claims), SignGrant(scheme, signer, claims, key).value;
            VerifyRoot(scheme, now, grant, scheme.public(key), MatchingRoot(c, ctx, scopes))
            == RootVerdict(c, |grant|, now, CallCovered(c, ctx, nodes, PRODUCT))
  {
    hide Filled, Normalized, ValidClaims, SignGrant, VerifySigned, IntsStable, Sound, RawKey, RootBound, MatchingRoot,
         CallMatches, CallCovered, IsRoot;
    var c := Filled(Normalized(signer), claims);
    SignedVerdict(scheme, signer, claims, key, now);
    MatchingBound(c, Normalized(signer).maxTtl, ctx, origin, nodes, scopes, PRODUCT);
  }

  /** The same at the Agent boundary, where the descriptor is bound too. */
  lemma AgentRootComplete(scheme: Scheme, signer: Codec, claims: GrantClaims, key: seq<byte>, now: int64,
                          ctx: CallContext, origin: CallContext, nodes: seq<GoString>, scopes: seq<GoString>)
    requires Sound(scheme) && RawKey(scheme.public(key), PUBLIC_KEY_SIZE)
    requires SignGrant(scheme, signer, claims, key).Ok?
    requires var c := Filled(Normalized(signer), claims); IsRoot(c) && CallMatches(c, ctx, origin, nodes, scopes)
    ensures var c, grant := Filled(Normalized(signer), claims), SignGrant(scheme, signer, claims, key).value;
            VerifyAgentRoot(scheme, now, grant, scheme.public(key), MatchingRoot(c, ctx, scopes),
                            MatchingDescriptor(c))
            == RootVerdict(c, |grant|, now, CallCovered(c, ctx, nodes, AGENT))
  {
    hide Filled, Normalized, ValidClaims, SignGrant, VerifySigned, IntsStable, Sound, RawKey, RootBound, MatchingRoot,
         CallMatches, CallCovered, IsRoot, MatchingDescriptor, DescriptorBound;
    var c := Filled(Normalized(signer), claims);
    SignedVerdict(scheme, signer, claims, key, now);
    MatchingBound(c, Normalized(signer).maxTtl, ctx, origin, nodes, scopes, AGENT);
  }
}
