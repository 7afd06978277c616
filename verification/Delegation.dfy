/**
 Product delegation: deriving a child grant from a verified parent, and the
 verifier at the Product boundary.
 */
module Delegation {
  import opened Basics
  import opened Binary64
  import opened CallRoute
  import opened Envelope
  import opened Grants
  import opened GrantWire
  import opened JsonNumber
  import opened Tokens

  const DELEGATION_TTL: int64 := 2 * MINUTE

  /** Unknown enum numbers behave like the unspecified one. */
  datatype TargetKind = Unspecified | Query | StartOperation

  function TargetText(kind: TargetKind): GoString {
    match kind
    case Query => TARGET_QUERY
    case StartOperation => TARGET_START
    case Unspecified => []
  }

  /** A start names its nested operation, a query names none. */
  predicate ChildFits(kind: TargetKind, childOperationId: GoString) {
    match kind
    case StartOperation => OperationId(childOperationId)
    case Query => childOperationId == []
    case Unspecified => false
  }

  /** The settings of a delegation signer: at most two minutes to live. */
  function Capped(codec: Codec): Codec {
    var c := Normalized(codec);
    if c.maxTtl > DELEGATION_TTL then c.(maxTtl := DELEGATION_TTL) else c
  }

  /** `SignProductDelegationGrant`. */
  function SignChild(scheme: Scheme, codec: Codec, claims: GrantClaims, key: seq<byte>): Result<GoString> {
    var c := claims.(grantKind := KIND_PRODUCT_CHILD);
    if (c.productTargetKind == TARGET_QUERY && c.childOperationId == [])
       || (c.productTargetKind == TARGET_START && OperationId(c.childOperationId))
    then SignGrant(scheme, Capped(codec), c, key)
    else Err(DelegationBinding)
  }

  datatype Issue = Issue(
    parent: GrantClaims,
    callContext: Option<CallContext>,
    childOperationId: GoString,
    requiredScopes: seq<GoString>,
    target: TargetKind,
    rootRequestDigest: seq<byte>,
    descriptor: Descriptor)

  const FROM_MS: GoString := MS + ARROW + AGENT + ARROW + PRODUCT
  const FROM_AGENT: GoString := AGENT + ARROW + PRODUCT

  /** The parent may delegate: a valid root grant entered from ms. */
  predicate ParentDelegates(p: GrantClaims) {
    ValidClaims(p, DEFAULT_TTL) && IsRoot(p) && p.entryRoute == MS && p.entryHop == 1
  }

  predicate ContextFits(issue: Issue) {
    && issue.callContext.Some?
    && var ctx := issue.callContext.value;
       && ValidateStrictCallContext(ctx).None?
       && ctx.chainId == issue.parent.chainId && ctx.rootOperationId == issue.parent.rootOperationId
       && (ctx.route == FROM_MS || ctx.route == FROM_AGENT)
  }

  /** The guards of `SignProductDelegationFromParent` all pass. */
  predicate Accepted(issue: Issue) {
    && ParentDelegates(issue.parent)
    && ContextFits(issue)
    && ChildFits(issue.target, issue.childOperationId)
    && ReplayToken(issue.descriptor.capabilityId) && ReplayToken(issue.descriptor.operation)
    && issue.requiredScopes != [] && SortedUnique(issue.requiredScopes)
    && Contains(issue.parent.scopes, issue.requiredScopes)
    && |issue.rootRequestDigest| == 32
    && |issue.descriptor.catalogDigest| == 32 && |issue.descriptor.schemaDigest| == 32
  }

  /** The claims that are handed to the child signer. */
  function ChildClaims(issue: Issue): GrantClaims
    requires issue.callContext.Some?
  {
    var ctx := issue.callContext.value;
    GrantClaims(
      issue.parent.chainId,
      issue.parent.rootOperationId,
      issue.childOperationId,
      KIND_PRODUCT_CHILD,
      TargetText(issue.target),
      issue.parent.ownerId,
      issue.parent.accountGeneration,
      issue.requiredScopes,
      issue.descriptor.capabilityId,
      issue.descriptor.operation,
      issue.rootRequestDigest,
      issue.descriptor.catalogDigest,
      issue.descriptor.schemaDigest,
      0,
      0,
      ctx.deadline,
      if AGENT + ARROW <= ctx.route then AGENT else MS,
      1,
      issue.parent.maxHop,
      issue.parent.maxRouteLength)
  }

  /** `SignProductDelegationFromParent`. */
  function SignFromParent(scheme: Scheme, codec: Codec, issue: Issue, key: seq<byte>): Result<GoString> {
    if !Accepted(issue) then Err(DelegationBinding)
    else SignChild(scheme, Capped(codec), ChildClaims(issue), key)
  }

  /** The claims that end up signed in the child. */
  function Child(codec: Codec, issue: Issue): GrantClaims
    requires issue.callContext.Some?
  {
    Filled(Capped(codec), ChildClaims(issue))
  }

  datatype ProductBinding = ProductBinding(
    root: RootBinding,
    childOperationId: GoString,
    target: TargetKind,
    descriptor: Descriptor)

  /** What `VerifyProductDelegationGrant` checks before it looks at the grant. */
  predicate BindingComplete(b: ProductBinding) {
    && b.root.callContext.Some? && b.root.rootOperationId != [] && b.root.ownerId != []
    && b.root.accountGeneration > 0 && b.root.requiredScopes != []
    && b.descriptor.capabilityId != [] && b.descriptor.operation != []
    && |b.root.rootRequestDigest| == 32
    && |b.descriptor.catalogDigest| == 32 && |b.descriptor.schemaDigest| == 32
    && ChildFits(b.target, b.childOperationId)
  }

  /** What it checks about authenticated claims. */
  predicate ChildBound(c: GrantClaims, b: ProductBinding) {
    && c.grantKind == KIND_PRODUCT_CHILD
    && c.productTargetKind == TargetText(b.target)
    && c.childOperationId == b.childOperationId
    && c.expiresAt - c.issuedAt <= Millis(DELEGATION_TTL)
    && RootBound(c, b.root, PRODUCT)
    && DescriptorBound(c, b.descriptor)
  }

  function VerifyDelegation(scheme: Scheme, now: int64, grant: GoString, key: seq<byte>, b: ProductBinding)
    : Result<GrantClaims>
  {
    if !BindingComplete(b) then Err(DelegationBinding)
    else
      var c :- VerifySigned(scheme, ClockOnly(now), grant, key);
      if ChildBound(c, b) then Ok(c) else Err(DelegationBinding)
  }

  // ---------- what a signed child is ----------

  lemma CappedSettings(codec: Codec)
    ensures var c := Capped(codec);
            && Capped(c) == c && Normalized(c) == c && 0 < c.maxTtl <= DELEGATION_TTL
            && Millis(c.maxTtl) <= Millis(DELEGATION_TTL)
  {
  }

  /** Deriving from a parent is signing the child's claims with the capped codec. */
  lemma IssueIsSigned(scheme: Scheme, codec: Codec, issue: Issue, key: seq<byte>)
    requires Accepted(issue)
    ensures issue.callContext.Some?
    ensures SignFromParent(scheme, codec, issue, key) == SignGrant(scheme, Capped(codec), ChildClaims(issue), key)
  {
    hide ValidClaims, Filled, SortedUnique, OperationId, ValidateStrictCallContext, ReplayToken, Capped, SignGrant;
    CappedSettings(codec);
    CappedSettings(Capped(codec));
    assert ChildClaims(issue).(grantKind := KIND_PRODUCT_CHILD) == ChildClaims(issue);
  }

  /** A child that was signed came from an accepted issue and carries valid claims. */
  lemma ChildIsSigned(scheme: Scheme, codec: Codec, issue: Issue, key: seq<byte>)
    requires SignFromParent(scheme, codec, issue, key).Ok?
    ensures Accepted(issue) && issue.callContext.Some?
    ensures SignFromParent(scheme, codec, issue, key) == SignGrant(scheme, Capped(codec), ChildClaims(issue), key)
    ensures ValidClaims(Child(codec, issue), Capped(codec).maxTtl)
  {
    hide Accepted, ValidClaims, Filled, Capped, ChildClaims, SignChild, Marshal, Seal;
    IssueIsSigned(scheme, codec, issue, key);
    CappedSettings(codec);
  }

  lemma ChildJudged(scheme: Scheme, codec: Codec, verifier: Codec, issue: Issue, key: seq<byte>)
    requires Sound(scheme) && RawKey(scheme.public(key), PUBLIC_KEY_SIZE)
    requires SignFromParent(scheme, codec, issue, key).Ok?
    ensures Accepted(issue) && issue.callContext.Some?
    ensures ValidClaims(Child(codec, issue), Capped(codec).maxTtl)
    ensures var grant := SignFromParent(scheme, codec, issue, key).value;
            VerifySigned(scheme, verifier, grant, scheme.public(key))
            == Judged(Normalized(verifier), Child(codec, issue), |grant|)
  {
    hide Accepted, ValidClaims, Filled, Capped, ChildClaims, SignFromParent, SignGrant, VerifySigned, Judged, Sound;
    ChildIsSigned(scheme, codec, issue, key);
    CappedSettings(codec);
    SignedIsJudged(scheme, Capped(codec), verifier, ChildClaims(issue), key);
  }

  /** The child holds the parent's identity and limits, and no more authority. */
  ghost predicate Attenuates(parent: GrantClaims, c: GrantClaims) {
    && c.chainId == parent.chainId && c.rootOperationId == parent.rootOperationId
    && c.ownerId == parent.ownerId && c.accountGeneration == parent.accountGeneration
    && c.maxHop == parent.maxHop && c.maxRouteLength == parent.maxRouteLength
    && (forall s :: s in c.scopes ==> s in parent.scopes)
    && c.grantKind == KIND_PRODUCT_CHILD
    && 0 < c.expiresAt - c.issuedAt <= 120_000
  }

  lemma ChildAttenuates(codec: Codec, issue: Issue)
    requires Accepted(issue) && ValidClaims(Child(codec, issue), Capped(codec).maxTtl)
    ensures Attenuates(issue.parent, Child(codec, issue)) && Child(codec, issue).scopes == issue.requiredScopes
  {
    hide OperationId, GrantToken, ReplayToken, SortedUnique, ValidateStrictCallContext, ValidEntry, ValidKind, Capped;
    CappedSettings(codec);
  }

  /**
   Whatever verifier accepts a derived child reads exactly the scopes that were
   required, within the parent's, for at most two minutes.
   */
  lemma DelegationAttenuates(scheme: Scheme, codec: Codec, verifier: Codec, issue: Issue, key: seq<byte>)
    requires Sound(scheme) && RawKey(scheme.public(key), PUBLIC_KEY_SIZE)
    requires SignFromParent(scheme, codec, issue, key).Ok?
    ensures var grant := SignFromParent(scheme, codec, issue, key).value;
            var r := VerifySigned(scheme, verifier, grant, scheme.public(key));
            r.Ok? ==> Attenuates(issue.parent, r.value) && r.value.scopes == issue.requiredScopes
  {
    hide Accepted, ValidClaims, Child, Capped, Attenuates, SignFromParent, VerifySigned, IntsStable, Sound;
    ChildJudged(scheme, codec, verifier, issue, key);
    ChildAttenuates(codec, issue);
  }

  /** The child is a function of the parent without its timestamps: it may outlive its parent. */
  lemma ParentTimesIgnored(scheme: Scheme, codec: Codec, issue: Issue, key: seq<byte>, parent: GrantClaims)
    requires ParentDelegates(issue.parent) && ParentDelegates(parent)
    requires parent == issue.parent.(issuedAt := parent.issuedAt, expiresAt := parent.expiresAt,
                                     entryDeadline := parent.entryDeadline)
    ensures SignFromParent(scheme, codec, issue.(parent := parent), key) == SignFromParent(scheme, codec, issue, key)
  {
    hide ParentDelegates, SignChild, Capped, SortedUnique, ReplayToken, ValidateStrictCallContext, ChildFits, Contains;
    assert ContextFits(issue) <==> ContextFits(issue.(parent := parent));
    if Accepted(issue) {
      assert ChildClaims(issue) == ChildClaims(issue.(parent := parent));
    }
  }

  // ---------- when a child is signed ----------

  /** The call's deadline falls into the lifetime that a child signed now would have. */
  predicate DeadlineFits(codec: Codec, issue: Issue)
    requires issue.callContext.Some?
  {
    var c := Capped(codec);
    var ttl := Millis(c.maxTtl);
    0 < c.now && 0 < ttl && c.now + ttl < 0x8000_0000_0000_0000
    && c.now <= issue.callContext.value.deadline <= c.now + ttl
  }

  lemma SingleNodes()
    ensures ValidEntry(MS, 1) && ValidEntry(AGENT, 1)
  {
    LegalRoute([MS]);
    LegalRoute([AGENT]);
    assert RouteText([MS]) == MS && RouteText([AGENT]) == AGENT;
    hide ParseRoute, RouteText;
  }

  lemma TargetsDiffer()
    ensures TARGET_QUERY != TARGET_START && TARGET_QUERY != [] && KIND_PRODUCT_CHILD != KIND_ROOT
    ensures KIND_PRODUCT_CHILD != []
  {
    assert |TARGET_QUERY| == 5 && |TARGET_START| == 15 && |KIND_ROOT| == 4 && |KIND_PRODUCT_CHILD| == 13;
  }

  lemma ChildKindValid(codec: Codec, issue: Issue)
    requires Accepted(issue)
    ensures issue.callContext.Some? && ValidKind(Child(codec, issue))
  {
    hide Ascii, ParentDelegates, OperationId, ReplayToken, SortedUnique, Contains, Capped, ValidateStrictCallContext;
    TargetsDiffer();
    if issue.target.StartOperation? {
      OperationIdIsToken(issue.childOperationId);
    }
  }

  lemma ChildTimesValid(codec: Codec, issue: Issue)
    requires Accepted(issue)
    ensures issue.callContext.Some?
    ensures ValidTimes(Child(codec, issue), Capped(codec).maxTtl) <==> DeadlineFits(codec, issue)
  {
    hide Ascii, ParentDelegates, OperationId, ReplayToken, SortedUnique, Contains, ParseRoute, ContextToken, Capped;
    CappedSettings(codec);
    assert issue.callContext.value.deadline > 0;
  }

  lemma ParentValid(p: GrantClaims)
    requires ParentDelegates(p)
    ensures OperationId(p.chainId) && OperationId(p.rootOperationId) && GrantToken(p.ownerId, 256)
    ensures ValidGeneration(p.accountGeneration)
    ensures 0 < p.maxHop <= MAX_CALL_HOP && 0 < p.maxRouteLength <= MAX_ROUTE_LENGTH && |MS| <= p.maxRouteLength
  {
    hide OperationId, GrantToken, SortedUnique, ValidKind, ValidTimes, ValidEntry;
  }

  lemma ChildBudgetValid(codec: Codec, issue: Issue)
    requires Accepted(issue)
    ensures issue.callContext.Some?
    ensures ValidBudget(Child(codec, issue)) <==> |Child(codec, issue).entryRoute| <= issue.parent.maxRouteLength
  {
    hide Ascii, ParentDelegates, OperationId, ReplayToken, SortedUnique, Contains, ValidEntry, Capped, Millis,
         ValidateStrictCallContext;
    ParentValid(issue.parent);
    SingleNodes();
  }

  /**
   An accepted issue yields valid child claims exactly when the deadline falls
   into the child's lifetime, the parent's route budget covers the entry, and the
   descriptor also satisfies the stricter token rule of grants.
   */
  lemma ChildValid(codec: Codec, issue: Issue)
    requires Accepted(issue)
    ensures issue.callContext.Some?
    ensures ValidClaims(Child(codec, issue), Capped(codec).maxTtl) <==>
              && DeadlineFits(codec, issue)
              && |Child(codec, issue).entryRoute| <= issue.parent.maxRouteLength
              && GrantToken(issue.descriptor.capabilityId, 256) && GrantToken(issue.descriptor.operation, 256)
  {
    ChildKindValid(codec, issue);
    ChildTimesValid(codec, issue);
    ChildBudgetValid(codec, issue);
    ParentValid(issue.parent);
    hide Ascii, ParentDelegates, OperationId, ReplayToken, SortedUnique, Contains, ValidKind, ValidTimes, ValidBudget,
         DeadlineFits, Capped, GrantToken, ValidGeneration, ContextFits;
  }

  /** When deriving and signing a child succeeds. */
  lemma DelegationSigns(scheme: Scheme, codec: Codec, issue: Issue, key: seq<byte>)
    ensures Accepted(issue) ==> issue.callContext.Some?
    ensures SignFromParent(scheme, codec, issue, key).Ok? <==>
              && Accepted(issue)
              && RawKey(key, PRIVATE_KEY_SIZE)
              && DeadlineFits(codec, issue)
              && |Child(codec, issue).entryRoute| <= issue.parent.maxRouteLength
              && GrantToken(issue.descriptor.capabilityId, 256) && GrantToken(issue.descriptor.operation, 256)
              && var payload := Marshal(Child(codec, issue));
                 payload.Ok?
                 && |Seal(GRANT_PREFIX, payload.value, scheme.sign(key, payload.value))| <= Normalized(codec).maxSize
  {
    if Accepted(issue) {
      ChildValid(codec, issue);
      IssueIsSigned(scheme, codec, issue, key);
      CappedSettings(codec);
    }
    hide Accepted, ValidClaims, Filled, ChildClaims, SignFromParent, RawKey, DeadlineFits, GrantToken, Marshal, Seal;
  }

  // ---------- completeness ----------

  /** The binding of the request that the child was issued for. */
  function MatchingBinding(issue: Issue): ProductBinding {
    ProductBinding(
      RootBinding(issue.callContext, issue.parent.rootOperationId, issue.parent.ownerId,
                  issue.parent.accountGeneration, issue.rootRequestDigest, issue.requiredScopes),
      issue.childOperationId,
      issue.target,
      issue.descriptor)
  }

  /** The parent's budget covers the route of the nested call. */
  predicate BudgetCovers(issue: Issue)
    requires issue.callContext.Some?
  {
    var ctx := issue.callContext.value;
    ctx.hop <= issue.parent.maxHop && |ctx.route| <= issue.parent.maxRouteLength
  }

  lemma MatchingComplete(issue: Issue)
    requires Accepted(issue)
    ensures BindingComplete(MatchingBinding(issue)) && Complete(MatchingBinding(issue).root)
  {
    hide OperationId, GrantToken, SortedUnique, ValidateStrictCallContext, ValidEntry, ValidKind, ValidTimes, Contains;
    assert issue.parent.rootOperationId != [] by {
      OperationIdIsToken(issue.parent.rootOperationId);
    }
    assert issue.parent.ownerId != [] by {
      NonEmptyToken(issue.parent.ownerId);
    }
  }

  lemma NonEmptyToken(token: GoString)
    requires GrantToken(token, 256)
    ensures token != []
  {
  }

  lemma ProductRoutes()
    ensures FROM_MS == RouteText([MS, AGENT, PRODUCT]) && FROM_AGENT == RouteText([AGENT, PRODUCT])
    ensures ParseRoute(FROM_MS) == Ok([MS, AGENT, PRODUCT]) && ParseRoute(FROM_AGENT) == Ok([AGENT, PRODUCT])
    ensures AGENT + ARROW <= FROM_AGENT && !(AGENT + ARROW <= FROM_MS)
  {
    LegalRoute([MS, AGENT, PRODUCT]);
    LegalRoute([AGENT, PRODUCT]);
    hide ParseRoute;
    assert [MS, AGENT, PRODUCT][1..] == [AGENT, PRODUCT] && [AGENT, PRODUCT][1..] == [PRODUCT];
    assert RouteText([PRODUCT]) == PRODUCT;
    assert RouteText([AGENT, PRODUCT]) == AGENT + ARROW + RouteText([PRODUCT]);
    assert RouteText([MS, AGENT, PRODUCT]) == MS + ARROW + RouteText([AGENT, PRODUCT]);
    assert MS + ARROW + (AGENT + ARROW + PRODUCT) == FROM_MS;
    assert (AGENT + ARROW)[0] == AGENT[0] && FROM_MS[0] == MS[0];
  }

  /** The route that the child's entry predicts is the route of the nested call. */
  lemma ChildRouteFits(codec: Codec, issue: Issue)
    requires Accepted(issue) && Child(codec, issue).maxRouteLength == issue.parent.maxRouteLength
    ensures RouteFits(Child(codec, issue), issue.callContext.value, PRODUCT) <==> BudgetCovers(issue)
  {
    hide ParentDelegates, ParseRoute, OperationId, SortedUnique, Contains, ReplayToken, Capped, ChildFits;
    ProductRoutes();
  }

  lemma ChildBoundIff(codec: Codec, issue: Issue)
    requires Accepted(issue) && ValidClaims(Child(codec, issue), Capped(codec).maxTtl)
    ensures ChildBound(Child(codec, issue), MatchingBinding(issue)) <==> BudgetCovers(issue)
  {
    hide OperationId, GrantToken, SortedUnique, ValidateStrictCallContext, ValidEntry, ValidKind, Capped, RouteFits,
         BudgetCovers, ReplayToken;
    CappedSettings(codec);
    MatchingComplete(issue);
    ChildAttenuates(codec, issue);
    ChildRouteFits(codec, issue);
  }

  /** What the Product verifier says of a child of `size` bytes at the matching boundary. */
  function Verdict(issue: Issue, c: GrantClaims, size: nat, now: int64): Result<GrantClaims>
    requires issue.callContext.Some?
  {
    if size > DEFAULT_MAX_SIZE then Err(GrantTooLarge)
    else if !IntsStable(c) then Err(InvalidGrant)
    else if now < c.issuedAt then Err(GrantNotYetValid)
    else if now >= c.expiresAt then Err(GrantExpired)
    else if BudgetCovers(issue) then Ok(c)
    else Err(DelegationBinding)
  }

  /**
   At the matching boundary a signed child is accepted exactly while it lives,
   when the parent's budget covers the route, its integers are exact, and it is
   no longer than the verifier allows; what is read back is the child itself.
   */
  lemma DelegationComplete(scheme: Scheme, codec: Codec, issue: Issue, key: seq<byte>, now: int64)
    requires Sound(scheme) && RawKey(scheme.public(key), PUBLIC_KEY_SIZE)
    requires SignFromParent(scheme, codec, issue, key).Ok?
    ensures Accepted(issue) && issue.callContext.Some?
    ensures var grant := SignFromParent(scheme, codec, issue, key).value;
            VerifyDelegation(scheme, now, grant, scheme.public(key), MatchingBinding(issue))
            == Verdict(issue, Child(codec, issue), |grant|, now)
  {
    hide Accepted, Child, Capped, SignFromParent, VerifySigned, ChildBound, BudgetCovers, IntsStable, Sound,
         MatchingBinding, BindingComplete, ValidClaims, Normalized, InTime, RawKey;
    ChildJudged(scheme, codec, ClockOnly(now), issue, key);
    MatchingComplete(issue);
    ChildBoundIff(codec, issue);
    CappedSettings(codec);
    LongerTtl(Child(codec, issue), Capped(codec).maxTtl);
    ClockOnlySettings(now, Child(codec, issue));
  }

  /** Claims that live two minutes at most also pass the default limit. */
  lemma LongerTtl(c: GrantClaims, maxTtl: int64)
    requires 0 < maxTtl <= DELEGATION_TTL && ValidClaims(c, maxTtl)
    ensures ValidClaims(c, DEFAULT_TTL)
  {
    hide OperationId, GrantToken, SortedUnique, ValidEntry, ValidKind, ValidBudget;
  }

  /** A signer within the default size and with a clock below 2^53 leaves only time and budget to decide. */
  lemma DelegationInPractice(scheme: Scheme, codec: Codec, issue: Issue, key: seq<byte>, now: int64)
    requires Sound(scheme) && RawKey(scheme.public(key), PUBLIC_KEY_SIZE)
    requires SignFromParent(scheme, codec, issue, key).Ok?
    requires codec.maxSize <= DEFAULT_MAX_SIZE && codec.now <= TWO_53 - 120_000
    ensures Accepted(issue) && issue.callContext.Some?
    ensures var c := Child(codec, issue);
            VerifyDelegation(scheme, now, SignFromParent(scheme, codec, issue, key).value, scheme.public(key),
                             MatchingBinding(issue)).Ok?
            <==> c.issuedAt <= now < c.expiresAt && BudgetCovers(issue)
  {
    hide Accepted, Child, Capped, SignFromParent, VerifyDelegation, BudgetCovers, IntsStable, Sound, MatchingBinding,
         ValidClaims, RawKey;
    DelegationComplete(scheme, codec, issue, key, now);
    ChildIsSigned(scheme, codec, issue, key);
    ChildFitsSize(scheme, codec, issue, key);
    ChildIsSmall(codec, issue);
  }

  /** A signer refuses what is longer than its own limit. */
  lemma ChildFitsSize(scheme: Scheme, codec: Codec, issue: Issue, key: seq<byte>)
    requires SignFromParent(scheme, codec, issue, key).Ok? && codec.maxSize <= DEFAULT_MAX_SIZE
    ensures |SignFromParent(scheme, codec, issue, key).value| <= DEFAULT_MAX_SIZE
  {
    hide Accepted, ValidClaims, ChildClaims, Filled, Marshal, Seal, SignFromParent;
    ChildIsSigned(scheme, codec, issue, key);
    CappedSettings(codec);
  }

  lemma ChildIsSmall(codec: Codec, issue: Issue)
    requires Accepted(issue) && issue.callContext.Some?
    requires ValidClaims(Child(codec, issue), Capped(codec).maxTtl) && codec.now <= TWO_53 - 120_000
    ensures IntsStable(Child(codec, issue))
  {
    hide Accepted, OperationId, GrantToken, SortedUnique, ValidKind, ValidBudget, IntsStable;
    CappedSettings(codec);
    SmallClaimsStable(Child(codec, issue));
  }

  // ---------- the child and its parent's expiry ----------

  /** A signed child lives from the signer's clock for the capped lifetime, whenever its parent expires. */
  lemma ChildExpiry(scheme: Scheme, codec: Codec, issue: Issue, key: seq<byte>)
    requires SignFromParent(scheme, codec, issue, key).Ok?
    ensures issue.callContext.Some?
    ensures var c, end := Child(codec, issue), codec.now + Millis(Capped(codec).maxTtl);
            && c.issuedAt == codec.now && c.expiresAt == end
            && (c.expiresAt <= issue.parent.expiresAt <==> end <= issue.parent.expiresAt)
  {
    hide Accepted, SignFromParent, ValidClaims, GrantToken;
    ChildIsSigned(scheme, codec, issue, key);
    ChildValid(codec, issue);
  }

  /**
   Some verifier still accepts the child after its parent has expired, exactly
   when the child was signed less than its own lifetime before that expiry and
   would be accepted at all.
   */
  lemma AcceptedAfterParent(scheme: Scheme, codec: Codec, issue: Issue, key: seq<byte>)
    requires Sound(scheme) && RawKey(scheme.public(key), PUBLIC_KEY_SIZE)
    requires SignFromParent(scheme, codec, issue, key).Ok?
    ensures issue.callContext.Some?
    ensures var grant := SignFromParent(scheme, codec, issue, key).value;
            (exists now: int64 ::
               && issue.parent.expiresAt <= now
               && VerifyDelegation(scheme, now, grant, scheme.public(key), MatchingBinding(issue)).Ok?)
            <==> && issue.parent.expiresAt < codec.now + Millis(Capped(codec).maxTtl)
                 && BudgetCovers(issue) && IntsStable(Child(codec, issue)) && |grant| <= DEFAULT_MAX_SIZE
  {
    hide Accepted, Child, Capped, SignFromParent, VerifyDelegation, BudgetCovers, IntsStable, Sound, MatchingBinding,
         RawKey, Millis;
    ChildExpiry(scheme, codec, issue, key);
    ChildStarts(scheme, codec, issue, key);
    var grant := SignFromParent(scheme, codec, issue, key).value;
    forall now: int64
      ensures VerifyDelegation(scheme, now, grant, scheme.public(key), MatchingBinding(issue))
              == Verdict(issue, Child(codec, issue), |grant|, now)
    {
      DelegationComplete(scheme, codec, issue, key, now);
    }
    var late: int64 := if issue.parent.expiresAt >= codec.now then issue.parent.expiresAt else codec.now;
    assert VerifyDelegation(scheme, late, grant, scheme.public(key), MatchingBinding(issue))
           == Verdict(issue, Child(codec, issue), |grant|, late);
  }

  lemma ChildStarts(scheme: Scheme, codec: Codec, issue: Issue, key: seq<byte>)
    requires SignFromParent(scheme, codec, issue, key).Ok?
    ensures issue.callContext.Some? && Child(codec, issue).issuedAt < Child(codec, issue).expiresAt
  {
    hide Accepted, SignFromParent, Child, Capped, OperationId, GrantToken, SortedUnique, ValidKind, ValidBudget;
    ChildIsSigned(scheme, codec, issue, key);
  }

  // ---------- from an accepted parent to an accepted child ----------

  /**
   A parent accepted for a call covers that call's budget, and it may delegate for
   the call exactly when it entered from ms.
   */
  lemma AcceptedParentDelegates(scheme: Scheme, now: int64, grant: GoString, key: seq<byte>, b: RootBinding,
                                issue: Issue)
    requires VerifyRoot(scheme, now, grant, key, b) == Ok(issue.parent) && issue.callContext == b.callContext
    ensures issue.callContext.Some? && BudgetCovers(issue)
    ensures ParentDelegates(issue.parent) <==> issue.parent.entryRoute == MS
    ensures ParentDelegates(issue.parent) ==> ContextFits(issue) && issue.callContext.value.route == FROM_MS
    ensures now < issue.parent.expiresAt && issue.callContext.value.deadline <= issue.parent.entryDeadline
  {
    hide Open, Unmarshal, OperationId, GrantToken, SortedUnique, ValidTimes, ValidKind, RawKey, ParseRoute,
         ContextToken, Contains;
    RoutesDiffer();
  }

  lemma RoutesDiffer()
    ensures MS != AGENT && PRODUCT != AGENT && FROM_MS != FROM_AGENT
  {
    assert |MS| == 2 && |AGENT| == 5 && |PRODUCT| == 7;
  }

  /**
   From one boundary to the next: a child issued for the call that its parent was
   accepted with is accepted there exactly while it lives; the budget never stands
   in the way.
   */
  lemma ExchangeComplete(scheme: Scheme, seen: int64, parentGrant: GoString, parentKey: seq<byte>, b: RootBinding,
                         codec: Codec, issue: Issue, key: seq<byte>, now: int64)
    requires Sound(scheme) && RawKey(scheme.public(key), PUBLIC_KEY_SIZE)
    requires VerifyRoot(scheme, seen, parentGrant, parentKey, b) == Ok(issue.parent)
    requires issue.callContext == b.callContext && SignFromParent(scheme, codec, issue, key).Ok?
    ensures issue.callContext.Some?
    ensures var grant, c := SignFromParent(scheme, codec, issue, key).value, Child(codec, issue);
            VerifyDelegation(scheme, now, grant, scheme.public(key), MatchingBinding(issue))
            == if |grant| > DEFAULT_MAX_SIZE then Err(GrantTooLarge)
               else if !IntsStable(c) then Err(InvalidGrant)
               else if now < c.issuedAt then Err(GrantNotYetValid)
               else if now >= c.expiresAt then Err(GrantExpired)
               else Ok(c)
  {
    hide Accepted, Child, Capped, SignFromParent, VerifyDelegation, BudgetCovers, IntsStable, Sound, MatchingBinding,
         RawKey, VerifyRoot, ParentDelegates, ContextFits;
    AcceptedParentDelegates(scheme, seen, parentGrant, parentKey, b, issue);
    DelegationComplete(scheme, codec, issue, key, now);
  }

  lemma SmallClaimsStable(c: GrantClaims)
    requires 0 < c.issuedAt <= TWO_53 && 0 <= c.expiresAt <= TWO_53 && 0 <= c.entryDeadline <= TWO_53
    requires ValidGeneration(c.accountGeneration)
    ensures IntsStable(c)
  {
    SmallIntText(c.issuedAt);
    SmallIntText(c.expiresAt);
    SmallIntText(c.entryDeadline);
    SmallIntText(c.accountGeneration);
  }
}
