/**
 What acceptance fixes: for every verifier, exactly which requests it accepts
 with authenticated claims. Agreement with valid claims makes the verifiers'
 own completeness checks redundant, so they do not appear here.
 */
module Acceptance {
  import opened Basics
  import opened BoundaryRoutes
  import opened CallRoute
  import opened ControlGrants
  import opened Delegation
  import opened Envelope
  import opened Grants
  import opened GrantWire
  import opened Json
  import opened KeyOrder
  import opened Tokens

  lemma NodeNames()
    ensures MS == Ascii("ms") && AGENT == Ascii("agent") && PRODUCT == Ascii("product")
  {
  }

  /** The call has come from `entry` to `terminal` along the one route between them. */
  predicate Arrives(entry: GoString, ctx: CallContext, terminal: GoString) {
    var path := PathBetween(entry, terminal);
    path[0] == entry && ctx.route == RouteText(path) && ctx.hop == |path|
  }

  /** The parts of a call context that no claim fixes. */
  predicate FreeParts(ctx: CallContext, deadline: int64) {
    0 < ctx.deadline <= deadline && (ctx.parentCallId == [] || OperationId(ctx.parentCallId))
  }

  predicate Ascend(scopes: seq<GoString>) {
    forall i, j :: 0 <= i < j < |scopes| ==> CompareUnits(scopes[i], scopes[j]) < 0
  }

  /** Request and call are those of the claims, and ask for no more than they grant. */
  predicate Presented(c: GrantClaims, b: RootBinding, terminal: GoString) {
    && b.callContext.Some?
    && var ctx := b.callContext.value;
       && ctx.chainId == c.chainId
       && ctx.rootOperationId == c.rootOperationId && b.rootOperationId == c.rootOperationId
       && b.ownerId == c.ownerId && b.accountGeneration == c.accountGeneration
       && b.rootRequestDigest == c.rootRequestDigest
       && b.requiredScopes != [] && Ascend(b.requiredScopes)
       && (forall s :: s in b.requiredScopes ==> s in c.scopes)
       && FreeParts(ctx, c.entryDeadline)
       && Arrives(c.entryRoute, ctx, terminal) && ctx.hop <= c.maxHop && |ctx.route| <= c.maxRouteLength
  }

  predicate RootPresented(c: GrantClaims, b: RootBinding, terminal: GoString) {
    c.grantKind == Ascii("root") && Presented(c, b, terminal)
  }

  predicate DescriptorPresented(c: GrantClaims, d: Descriptor) {
    && d.capabilityId == c.rootCapabilityId && d.operation == c.rootOperation
    && d.catalogDigest == c.catalogDigest && d.schemaDigest == c.schemaDigest
  }

  /** The text that a child grant carries for its target. */
  predicate TargetNamed(kind: TargetKind, text: GoString) {
    (kind.Query? && text == Ascii("query")) || (kind.StartOperation? && text == Ascii("start_operation"))
  }

  /** A short-lived child grant, presented with the request and the nested call that it was derived for. */
  predicate ChildPresented(c: GrantClaims, b: ProductBinding) {
    && c.grantKind == Ascii("product-child")
    && TargetNamed(b.target, c.productTargetKind) && b.childOperationId == c.childOperationId
    && c.expiresAt - c.issuedAt <= 120_000
    && Presented(c, b.root, PRODUCT)
    && DescriptorPresented(c, b.descriptor)
  }

  // ---------- routes ----------

  lemma FitsMeansArrives(c: GrantClaims, ctx: CallContext, terminal: GoString)
    requires ValidEntry(c.entryRoute, c.entryHop) && (terminal == AGENT || terminal == PRODUCT)
    ensures RouteFits(c, ctx, terminal)
            <==> Arrives(c.entryRoute, ctx, terminal) && ctx.hop <= c.maxHop && |ctx.route| <= c.maxRouteLength
  {
    hide RouteText, ValidEntry;
    EntryNode(c.entryRoute, c.entryHop);
    PathTexts();
    NodesDiffer();
  }

  /** A call that has arrived is well formed apart from its identifiers and deadline. */
  lemma ArrivedStrict(entry: GoString, ctx: CallContext, terminal: GoString)
    requires (entry == MS || entry == AGENT) && Arrives(entry, ctx, terminal)
    requires OperationId(ctx.chainId)
    ensures ValidateStrictCallContext(ctx).None?
            <==> OperationId(ctx.rootOperationId) && ctx.deadline > 0
                 && (ctx.parentCallId == [] || OperationId(ctx.parentCallId))
  {
    hide RouteText, ParseRoute, LegalPath, OperationId, ContextToken;
    var path := PathBetween(entry, terminal);
    PathIsLegal(entry, terminal);
    LegalRoute(path);
    OperationIdIsToken(ctx.chainId);
    if OperationId(ctx.rootOperationId) {
      OperationIdIsToken(ctx.rootOperationId);
    }
    if OperationId(ctx.parentCallId) {
      OperationIdIsToken(ctx.parentCallId);
    }
  }

  // ---------- scopes ----------

  /** Scopes are sorted tokens exactly when all of them are tokens and each pair ascends. */
  lemma ScopesMeaning(scopes: seq<GoString>)
    ensures SortedUnique(scopes) <==> Ascend(scopes) && forall s :: s in scopes ==> GrantToken(s, 128)
  {
    hide CompareUnits, GrantToken;
    if SortedUnique(scopes) {
      forall i, j | 0 <= i < j < |scopes|
        ensures CompareUnits(scopes[i], scopes[j]) < 0
      {
        ScopesAscend(scopes, i, j);
      }
    }
    if forall s :: s in scopes ==> GrantToken(s, 128) {
      assert forall i :: 0 <= i < |scopes| ==> scopes[i] in scopes;
    }
  }

  lemma ScopesOfValid(c: GrantClaims, required: seq<GoString>)
    requires SortedUnique(c.scopes)
    ensures SortedUnique(required) && Contains(c.scopes, required)
            <==> Ascend(required) && forall s :: s in required ==> s in c.scopes
  {
    hide CompareUnits, GrantToken, SortedUnique, Ascend;
    ScopesMeaning(c.scopes);
    ScopesMeaning(required);
    assert forall i :: 0 <= i < |required| ==> required[i] in required;
  }

  // ---------- the root binding ----------

  lemma ValidParts(c: GrantClaims, maxTtl: int64)
    requires ValidClaims(c, maxTtl)
    ensures OperationId(c.chainId) && OperationId(c.rootOperationId) && c.rootOperationId != [] && c.ownerId != []
    ensures c.accountGeneration > 0 && |c.rootRequestDigest| == |c.catalogDigest| == |c.schemaDigest| == 32
    ensures c.rootCapabilityId != [] && c.rootOperation != []
    ensures c.entryDeadline <= c.expiresAt && SortedUnique(c.scopes)
    ensures ValidKind(c) && ValidEntry(c.entryRoute, c.entryHop)
  {
    hide OperationId, SortedUnique, ValidKind, ValidEntry, Trimmed;
    OperationIdIsToken(c.rootOperationId);
  }

  /** Against valid claims the root check accepts exactly the requests presented with them. */
  lemma BoundMeansPresented(c: GrantClaims, maxTtl: int64, b: RootBinding, terminal: GoString)
    requires ValidClaims(c, maxTtl) && (terminal == AGENT || terminal == PRODUCT)
    ensures RootBound(c, b, terminal) <==> Presented(c, b, terminal)
  {
    hide ValidClaims, OperationId, SortedUnique, ValidKind, ValidEntry, Contains, RouteFits, Arrives, Ascend,
         ValidateStrictCallContext;
    ValidParts(c, maxTtl);
    EntryNode(c.entryRoute, c.entryHop);
    ScopesOfValid(c, b.requiredScopes);
    if b.callContext.Some? {
      var ctx := b.callContext.value;
      FitsMeansArrives(c, ctx, terminal);
      if Arrives(c.entryRoute, ctx, terminal) && ctx.chainId == c.chainId {
        ArrivedStrict(c.entryRoute, ctx, terminal);
      }
    }
  }

  lemma DescriptorMeaning(c: GrantClaims, maxTtl: int64, d: Descriptor)
    requires ValidClaims(c, maxTtl)
    ensures DescriptorBound(c, d) <==> DescriptorPresented(c, d)
  {
    hide ValidClaims, OperationId, SortedUnique, ValidKind, ValidEntry;
    ValidParts(c, maxTtl);
  }

  lemma SignedClaimsValid(scheme: Scheme, now: int64, grant: GoString, key: seq<byte>)
    requires VerifySigned(scheme, ClockOnly(now), grant, key).Ok?
    ensures ValidClaims(VerifySigned(scheme, ClockOnly(now), grant, key).value, DEFAULT_TTL)
  {
    hide Open, Unmarshal, ValidClaims, RawKey;
  }

  /** The Product boundary accepts a root grant with exactly the requests presented with its claims. */
  lemma RootMeaning(scheme: Scheme, now: int64, grant: GoString, key: seq<byte>, b: RootBinding)
    ensures var signed, r := VerifySigned(scheme, ClockOnly(now), grant, key), VerifyRoot(scheme, now, grant, key, b);
            && (r.Ok? ==> r == signed)
            && (r.Ok? <==> signed.Ok? && RootPresented(signed.value, b, PRODUCT))
  {
    hide VerifySigned, ValidClaims, RootBound, Presented, Ascii;
    var signed := VerifySigned(scheme, ClockOnly(now), grant, key);
    if signed.Ok? {
      SignedClaimsValid(scheme, now, grant, key);
      BoundMeansPresented(signed.value, DEFAULT_TTL, b, PRODUCT);
      RootHasNoChild(signed.value);
    }
  }

  lemma RootHasNoChild(c: GrantClaims)
    requires ValidClaims(c, DEFAULT_TTL)
    ensures c.grantKind == KIND_ROOT ==> c.childOperationId == [] && c.productTargetKind == []
  {
    hide OperationId, GrantToken, SortedUnique, ValidTimes, ValidBudget;
  }

  /** The Agent boundary, where the descriptor must be the one granted. */
  lemma AgentRootMeaning(scheme: Scheme, now: int64, grant: GoString, key: seq<byte>, b: RootBinding, d: Descriptor)
    ensures var signed := VerifySigned(scheme, ClockOnly(now), grant, key);
            var r := VerifyAgentRoot(scheme, now, grant, key, b, d);
            && (r.Ok? ==> r == signed)
            && (r.Ok? <==> && signed.Ok? && RootPresented(signed.value, b, AGENT)
                           && DescriptorPresented(signed.value, d))
  {
    hide VerifySigned, ValidClaims, RootBound, DescriptorBound, DescriptorPresented, Presented, Ascii;
    var signed := VerifySigned(scheme, ClockOnly(now), grant, key);
    if signed.Ok? {
      SignedClaimsValid(scheme, now, grant, key);
      BoundMeansPresented(signed.value, DEFAULT_TTL, b, AGENT);
      DescriptorMeaning(signed.value, DEFAULT_TTL, d);
      RootHasNoChild(signed.value);
    }
  }

  lemma ChildMeaning(c: GrantClaims, b: ProductBinding)
    requires ValidClaims(c, DEFAULT_TTL)
    ensures BindingComplete(b) && ChildBound(c, b) <==> ChildPresented(c, b)
  {
    hide ValidClaims, OperationId, SortedUnique, ValidEntry, Ascii, Arrives, Ascend, FreeParts,
         ValidateStrictCallContext, Contains, SamePrincipal, RouteFits;
    ValidParts(c, DEFAULT_TTL);
    BoundMeansPresented(c, DEFAULT_TTL, b.root, PRODUCT);
    DescriptorMeaning(c, DEFAULT_TTL, b.descriptor);
    TargetsDiffer();
  }

  /** The delegation verifier: descriptor, target and child operation must be the granted ones too. */
  lemma DelegationMeaning(scheme: Scheme, now: int64, grant: GoString, key: seq<byte>, b: ProductBinding)
    ensures var signed := VerifySigned(scheme, ClockOnly(now), grant, key);
            var r := VerifyDelegation(scheme, now, grant, key, b);
            && (r.Ok? ==> r == signed)
            && (r.Ok? <==> signed.Ok? && ChildPresented(signed.value, b))
  {
    hide VerifySigned, ValidClaims, ChildBound, BindingComplete, ChildPresented;
    var signed := VerifySigned(scheme, ClockOnly(now), grant, key);
    if signed.Ok? {
      SignedClaimsValid(scheme, now, grant, key);
      ChildMeaning(signed.value, b);
    }
  }

  // ---------- control grants ----------

  /** The one scope that goes with each control action. */
  predicate ControlNamed(action: GoString, scope: GoString) {
    && (action == Ascii("get") || action == Ascii("watch") || action == Ascii("cancel") || action == Ascii("reconcile"))
    && scope == Ascii("operation:control:") + action
  }

  /** Well-formed control claims that live for `ttl` nanoseconds and two minutes at most. */
  predicate ControlProper(c: ControlGrant, ttl: int64) {
    && OperationId(c.chainId) && OperationId(c.operationId) && GrantToken(c.ownerId, 256)
    && 1 <= c.accountGeneration < 0x20_0000_0000_0000
    && ControlNamed(c.action, c.scope)
    && (c.entryRoute == MS || c.entryRoute == AGENT) && c.entryHop == 1
    && 0 < c.issuedAt < c.expiresAt && 0 < c.deadline <= c.expiresAt
    && c.expiresAt - c.issuedAt <= (if ttl < 120_000_000_000 then ttl / 1_000_000 else 120_000)
  }

  /** Control claims that a verifier with normalised settings may accept now. */
  predicate ControlLive(codec: Codec, c: ControlGrant) {
    && ControlProper(c, codec.maxTtl)
    && c.issuedAt <= Wrap64(codec.now + codec.clockSkew / 1_000_000) && codec.now < c.expiresAt
  }

  /** Request and call are those of the control claims. */
  predicate ControlPresented(c: ControlGrant, b: ControlBinding, terminal: GoString) {
    && b.callContext.Some?
    && var ctx := b.callContext.value;
       && ctx.chainId == c.chainId
       && b.ownerId == c.ownerId && b.accountGeneration == c.accountGeneration
       && b.operationId == c.operationId && b.action == c.action && b.scope == c.scope
       && OperationId(ctx.rootOperationId) && FreeParts(ctx, c.deadline)
       && (terminal == AGENT || terminal == PRODUCT) && Arrives(c.entryRoute, ctx, terminal)
  }

  lemma SingleEntry(route: GoString, hop: int)
    ensures ValidEntry(route, hop) <==> (route == MS || route == AGENT) && hop == 1
  {
    SingleNodes();
    if ValidEntry(route, hop) {
      EntryNode(route, hop);
    }
  }

  lemma ControlProperMeaning(codec: Codec, c: ControlGrant)
    requires codec == Normalized(codec)
    ensures ValidControl(c, ControlCodec(codec).maxTtl) <==> ControlProper(c, codec.maxTtl)
  {
    hide OperationId, GrantToken, ValidEntry, Ascii;
    SingleEntry(c.entryRoute, c.entryHop);
  }

  lemma ControlArrives(c: ControlGrant, ctx: CallContext, terminal: GoString)
    requires (c.entryRoute == MS || c.entryRoute == AGENT) && c.entryHop == 1
    ensures ControlRoute(c, terminal) == Ok((ctx.route, ctx.hop))
            <==> (terminal == AGENT || terminal == PRODUCT) && Arrives(c.entryRoute, ctx, terminal)
  {
    hide RouteText;
    PathTexts();
    NodesDiffer();
  }

  lemma ControlBoundMeaning(c: ControlGrant, b: ControlBinding, terminal: GoString)
    requires OperationId(c.chainId) && OperationId(c.operationId) && GrantToken(c.ownerId, 256)
    requires c.accountGeneration > 0 && ControlNamed(c.action, c.scope)
    requires (c.entryRoute == MS || c.entryRoute == AGENT) && c.entryHop == 1
    ensures ControlBound(c, b, terminal) <==> ControlPresented(c, b, terminal)
  {
    hide OperationId, Ascii, ControlRoute, Arrives, ValidateStrictCallContext, Trimmed;
    OperationIdIsToken(c.operationId);
    if b.callContext.Some? {
      var ctx := b.callContext.value;
      ControlArrives(c, ctx, terminal);
      if Arrives(c.entryRoute, ctx, terminal) && ctx.chainId == c.chainId {
        ArrivedStrict(c.entryRoute, ctx, terminal);
      }
    }
  }

  lemma ControlClock(codec: Codec, c: ControlGrant, b: ControlBinding, terminal: GoString)
    requires codec.clockSkew >= 0
    ensures ControlInTime(codec, c, b, terminal).Ok?
            <==> && c.issuedAt <= Wrap64(codec.now + codec.clockSkew / 1_000_000) && codec.now < c.expiresAt
                 && ControlBound(c, b, terminal)
  {
    hide ControlBound;
  }

  /** The steps of a control verifier before its clock and binding checks. */
  lemma ControlSteps(scheme: Scheme, codec: Codec, grant: GoString, key: seq<byte>, b: ControlBinding,
                     terminal: GoString, c: ControlGrant)
    ensures var v := ControlCodec(codec);
            VerifyControl(scheme, codec, grant, key, b, terminal) == Ok(c)
            <==> && RawKey(key, 32) && 0 < |grant| <= v.maxSize && AuthenticControl(scheme, key, grant, c)
                 && ValidControl(c, v.maxTtl) && ControlInTime(v, c, b, terminal).Ok?
  {
    hide Open, UnmarshalControl, ValidControl, ControlInTime, ControlCodec, RawKey, CanonicalizeJSON, Verifies;
    ControlClockOk(ControlCodec(codec), b, terminal);
    if Open(grant, CONTROL_PREFIX).Some? {
      var payload := Open(grant, CONTROL_PREFIX).value.0;
      if UnmarshalControl(payload).Ok? {
        UnmarshalControlIsCanonical(payload);
      }
    }
  }

  lemma ControlClockOk(codec: Codec, b: ControlBinding, terminal: GoString)
    ensures forall c: ControlGrant :: ControlInTime(codec, c, b, terminal).Ok? ==>
                                        ControlInTime(codec, c, b, terminal) == Ok(c)
  {
    hide ControlBound;
  }

  /** A control verifier returns exactly the live claims that the grant authentically spells, with their own request. */
  lemma ControlMeaning(scheme: Scheme, codec: Codec, grant: GoString, key: seq<byte>, b: ControlBinding,
                       terminal: GoString, c: ControlGrant)
    ensures VerifyControl(scheme, codec, grant, key, b, terminal) == Ok(c)
            <==> && RawKey(key, 32) && 0 < |grant| <= Normalized(codec).maxSize
                 && AuthenticControl(scheme, key, grant, c)
                 && ControlLive(Normalized(codec), c) && ControlPresented(c, b, terminal)
  {
    hide VerifyControl, AuthenticControl, ValidControl, ControlInTime, ControlBound, RawKey, ControlPresented,
         ControlProper, ControlCodec, Normalized, OperationId, GrantToken, ControlNamed, Wrap64;
    ControlSettings(codec);
    ControlSteps(scheme, codec, grant, key, b, terminal, c);
    ControlProperMeaning(Normalized(codec), c);
    ControlClock(ControlCodec(codec), c, b, terminal);
    if ControlProper(c, Normalized(codec).maxTtl) {
      ControlParts(c, Normalized(codec).maxTtl);
      ControlBoundMeaning(c, b, terminal);
    }
  }

  lemma ControlSettings(codec: Codec)
    ensures var v, n := ControlCodec(codec), Normalized(codec);
            && v == n.(maxTtl := v.maxTtl) && n.clockSkew >= 0
            && ControlCodec(n) == v && Normalized(n) == n
  {
  }

  lemma ControlParts(c: ControlGrant, ttl: int64)
    requires ControlProper(c, ttl)
    ensures OperationId(c.chainId) && OperationId(c.operationId) && GrantToken(c.ownerId, 256)
    ensures c.accountGeneration > 0 && ControlNamed(c.action, c.scope)
    ensures (c.entryRoute == MS || c.entryRoute == AGENT) && c.entryHop == 1
  {
    hide OperationId, GrantToken, ControlNamed;
  }

  // ---------- authenticated claims ----------

  /** The three shapes of a grant: a root, a child for a query, a child for one nested operation. */
  predicate Purpose(kind: GoString, target: GoString, childOperationId: GoString) {
    || (kind == Ascii("root") && target == [] && childOperationId == [])
    || (kind == Ascii("product-child") && target == Ascii("query") && childOperationId == [])
    || (kind == Ascii("product-child") && target == Ascii("start_operation") && OperationId(childOperationId))
  }

  predicate ScopeList(scopes: seq<GoString>) {
    scopes != [] && Ascend(scopes) && forall s :: s in scopes ==> GrantToken(s, 128)
  }

  /** Well-formed claims that live for `ttl` nanoseconds at most. */
  predicate Proper(c: GrantClaims, ttl: int64) {
    && OperationId(c.chainId) && OperationId(c.rootOperationId)
    && Purpose(c.grantKind, c.productTargetKind, c.childOperationId)
    && GrantToken(c.ownerId, 256) && GrantToken(c.rootCapabilityId, 256) && GrantToken(c.rootOperation, 256)
    && 1 <= c.accountGeneration < 0x20_0000_0000_0000
    && |c.rootRequestDigest| == 32 && |c.catalogDigest| == 32 && |c.schemaDigest| == 32
    && ScopeList(c.scopes)
    && (c.entryRoute == MS || c.entryRoute == AGENT) && c.entryHop == 1
    && 1 <= c.maxHop <= 3 && |c.entryRoute| <= c.maxRouteLength <= 256
    && 0 < c.issuedAt <= c.entryDeadline <= c.expiresAt
    && c.issuedAt < c.expiresAt <= c.issuedAt + ttl / 1_000_000
  }

  /** Claims that a verifier with normalised settings may accept now. */
  predicate Live(codec: Codec, c: GrantClaims) {
    && Proper(c, codec.maxTtl)
    && c.issuedAt <= Wrap64(codec.now + codec.clockSkew / 1_000_000) && codec.now < c.expiresAt
  }

  lemma PurposeMeaning(c: GrantClaims)
    ensures ValidKind(c) <==> Purpose(c.grantKind, c.productTargetKind, c.childOperationId)
  {
    hide OperationId, Ascii;
    TargetsDiffer();
    NilIsNoId();
  }

  lemma NilIsNoId()
    ensures !OperationId([])
  {
  }

  /** Validation accepts exactly the well-formed claims. */
  lemma ProperMeaning(c: GrantClaims, ttl: int64)
    requires ttl > 0
    ensures ValidClaims(c, ttl) <==> Proper(c, ttl)
  {
    hide OperationId, GrantToken, ValidEntry, ValidKind, Purpose, SortedUnique, Ascend;
    SingleEntry(c.entryRoute, c.entryHop);
    PurposeMeaning(c);
    ScopesMeaning(c.scopes);
  }

  lemma NothingIsNoPayload()
    ensures Unmarshal([]).Err?
  {
  }

  /**
   A verifier returns exactly the live claims that the grant authentically
   spells: signed under its key, in canonical bytes, within its size.
   */
  lemma SignedMeaning(scheme: Scheme, codec: Codec, grant: GoString, key: seq<byte>, c: GrantClaims)
    ensures VerifySigned(scheme, codec, grant, key) == Ok(c)
            <==> && RawKey(key, 32) && 0 < |grant| <= Normalized(codec).maxSize
                 && Authentic(scheme, key, grant, c) && Live(Normalized(codec), c)
  {
    hide Open, Unmarshal, ValidClaims, RawKey, CanonicalizeJSON, Proper, Normalized;
    ProperMeaning(c, Normalized(codec).maxTtl);
    NothingIsNoPayload();
    if Open(grant, GRANT_PREFIX).Some? {
      var payload := Open(grant, GRANT_PREFIX).value.0;
      if Unmarshal(payload) == Ok(c) {
        UnmarshalIsCanonical(payload);
      }
    }
  }

  // ---------- one grant, one request ----------

  /** Two requests that differ in nothing but the scopes asked for and what no claim fixes about a call. */
  predicate SameRequest(a: RootBinding, b: RootBinding) {
    && a.callContext.Some? && b.callContext.Some?
    && b == a.(callContext := b.callContext, requiredScopes := b.requiredScopes)
    && var ctx := b.callContext.value;
       ctx == a.callContext.value.(deadline := ctx.deadline, parentCallId := ctx.parentCallId)
  }

  lemma PresentedAgree(c: GrantClaims, a: RootBinding, b: RootBinding, terminal: GoString)
    requires Presented(c, a, terminal) && Presented(c, b, terminal)
    ensures SameRequest(a, b)
  {
    hide Ascend, OperationId, RouteText;
  }

  /** Whatever the keys and clocks, one root grant is accepted at a boundary for one request only. */
  lemma OneRootRequest(s1: Scheme, t1: int64, k1: seq<byte>, a: RootBinding, s2: Scheme, t2: int64, k2: seq<byte>,
                       b: RootBinding, grant: GoString)
    requires VerifyRoot(s1, t1, grant, k1, a).Ok? && VerifyRoot(s2, t2, grant, k2, b).Ok?
    ensures SameRequest(a, b) && VerifyRoot(s1, t1, grant, k1, a) == VerifyRoot(s2, t2, grant, k2, b)
  {
    hide VerifySigned, VerifyRoot, Open, Unmarshal, Presented, SameRequest, Ascii;
    RootMeaning(s1, t1, grant, k1, a);
    RootMeaning(s2, t2, grant, k2, b);
    VerifiedClaims(s1, ClockOnly(t1), grant, k1);
    VerifiedClaims(s2, ClockOnly(t2), grant, k2);
    PresentedAgree(VerifyRoot(s1, t1, grant, k1, a).value, a, b, PRODUCT);
  }

  /** The same at the Agent boundary, where the descriptor is fixed too. */
  lemma OneAgentRequest(s1: Scheme, t1: int64, k1: seq<byte>, a: RootBinding, d1: Descriptor, s2: Scheme, t2: int64,
                        k2: seq<byte>, b: RootBinding, d2: Descriptor, grant: GoString)
    requires VerifyAgentRoot(s1, t1, grant, k1, a, d1).Ok? && VerifyAgentRoot(s2, t2, grant, k2, b, d2).Ok?
    ensures SameRequest(a, b) && d1 == d2
  {
    hide VerifySigned, VerifyAgentRoot, Open, Unmarshal, Presented, SameRequest, Ascii;
    AgentRootMeaning(s1, t1, grant, k1, a, d1);
    AgentRootMeaning(s2, t2, grant, k2, b, d2);
    VerifiedClaims(s1, ClockOnly(t1), grant, k1);
    VerifiedClaims(s2, ClockOnly(t2), grant, k2);
    PresentedAgree(VerifyAgentRoot(s1, t1, grant, k1, a, d1).value, a, b, AGENT);
  }

  /** A child grant also fixes the target, the nested operation and the descriptor. */
  lemma OneChildRequest(s1: Scheme, t1: int64, k1: seq<byte>, a: ProductBinding, s2: Scheme, t2: int64, k2: seq<byte>,
                        b: ProductBinding, grant: GoString)
    requires VerifyDelegation(s1, t1, grant, k1, a).Ok? && VerifyDelegation(s2, t2, grant, k2, b).Ok?
    ensures SameRequest(a.root, b.root) && b == a.(root := b.root)
  {
    hide VerifySigned, VerifyDelegation, Open, Unmarshal, Presented, SameRequest, Ascii;
    DelegationMeaning(s1, t1, grant, k1, a);
    DelegationMeaning(s2, t2, grant, k2, b);
    VerifiedClaims(s1, ClockOnly(t1), grant, k1);
    VerifiedClaims(s2, ClockOnly(t2), grant, k2);
    TargetsDifferHere();
    PresentedAgree(VerifyDelegation(s1, t1, grant, k1, a).value, a.root, b.root, PRODUCT);
  }

  lemma TargetsDifferHere()
    ensures Ascii("query") != Ascii("start_operation")
  {
    assert |Ascii("query")| == 5;
  }
}
