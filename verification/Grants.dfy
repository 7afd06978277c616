/**
 Signing and verifying `grant-v1` capability grants, and binding them to a call
 at the Agent and Product boundaries.
 */
module Grants {
  import opened Basics
  import opened CallRoute
  import opened Envelope
  import opened GoHeap
  import opened GrantWire
  import opened Json
  import opened JsonRoundTrip
  import opened KeyOrder
  import opened Payload
  import opened Tokens

  const GRANT_PREFIX := Ascii("grant-v1")
  const KIND_ROOT := Ascii("root")
  const KIND_PRODUCT_CHILD := Ascii("product-child")
  const TARGET_QUERY := Ascii("query")
  const TARGET_START := Ascii("start_operation")

  const MAX_ACCOUNT_GENERATION: int := 0x1F_FFFF_FFFF_FFFF

  predicate ValidGeneration(n: int) {
    0 < n <= MAX_ACCOUNT_GENERATION
  }

  // ---------- claims ----------

  /** `isSortedUnique`: scope tokens in strictly ascending byte order. */
  predicate SortedUnique(scopes: seq<GoString>) {
    forall i :: 0 <= i < |scopes| ==>
      GrantToken(scopes[i], 128) && (i > 0 ==> CompareUnits(scopes[i - 1], scopes[i]) < 0)
  }

  lemma OneScope(scope: GoString)
    requires GrantToken(scope, 128)
    ensures SortedUnique([scope])
  {
    hide GrantToken, CompareUnits;
  }

  /** `validateEntryRoute`. */
  predicate ValidEntry(route: GoString, hop: int) {
    ParseRoute(route).Ok? && hop == 1
    && (ParseRoute(route).value == [MS] || ParseRoute(route).value == [AGENT])
  }

  /** The purpose fields agree with one another. */
  predicate ValidKind(c: GrantClaims) {
    && (c.grantKind == KIND_ROOT || c.grantKind == KIND_PRODUCT_CHILD)
    && (c.childOperationId != [] ==> OperationId(c.childOperationId))
    && (c.grantKind == KIND_ROOT ==> c.productTargetKind == [] && c.childOperationId == [])
    && (c.grantKind == KIND_PRODUCT_CHILD ==>
          c.productTargetKind == TARGET_QUERY || c.productTargetKind == TARGET_START)
    && (c.productTargetKind == TARGET_QUERY ==> c.childOperationId == [])
    && (c.productTargetKind == TARGET_START ==> c.childOperationId != [])
  }

  predicate ValidTimes(c: GrantClaims, maxTtl: int64) {
    && 0 < c.issuedAt < c.expiresAt
    && c.issuedAt <= c.entryDeadline <= c.expiresAt
    && c.expiresAt - c.issuedAt <= Millis(if maxTtl <= 0 then DEFAULT_TTL else maxTtl)
  }

  predicate ValidBudget(c: GrantClaims) {
    && 0 < c.maxHop <= MAX_CALL_HOP
    && 0 < c.maxRouteLength <= MAX_ROUTE_LENGTH
    && ValidEntry(c.entryRoute, c.entryHop)
    && |c.entryRoute| <= c.maxRouteLength
  }

  /** `ValidateGrantClaims` returns no error. */
  predicate ValidClaims(c: GrantClaims, maxTtl: int64) {
    && OperationId(c.chainId) && OperationId(c.rootOperationId)
    && ValidKind(c)
    && GrantToken(c.ownerId, 256)
    && ValidGeneration(c.accountGeneration)
    && GrantToken(c.rootCapabilityId, 256) && GrantToken(c.rootOperation, 256)
    && |c.rootRequestDigest| == 32 && |c.catalogDigest| == 32 && |c.schemaDigest| == 32
    && c.scopes != [] && SortedUnique(c.scopes)
    && ValidTimes(c, maxTtl)
    && ValidBudget(c)
  }

  // ---------- signing ----------

  /** The claims that `Sign` validates: zero fields take their defaults. */
  function Filled(codec: Codec, c: GrantClaims): GrantClaims {
    var issued: int64 := if c.issuedAt == 0 then codec.now else c.issuedAt;
    var expires: int64 := if c.expiresAt == 0 then Wrap64(issued + Millis(codec.maxTtl)) else c.expiresAt;
    c.(
    issuedAt := issued,
    expiresAt := expires,
    entryDeadline := if c.entryDeadline == 0 then expires else c.entryDeadline,
    grantKind := if c.grantKind == [] then KIND_ROOT else c.grantKind,
    maxRouteLength := if c.maxRouteLength == 0 then MAX_ROUTE_LENGTH else c.maxRouteLength)
  }

  /**
   Filling touches only zero fields, leaves no kind or route length empty and,
   under a positive clock, no time zero; filling again changes nothing.
   */
  lemma DefaultsFilled(codec: Codec, c: GrantClaims)
    requires codec == Normalized(codec)
    ensures var f := Filled(codec, c);
            && f == c.(issuedAt := f.issuedAt, expiresAt := f.expiresAt, entryDeadline := f.entryDeadline,
                       grantKind := f.grantKind, maxRouteLength := f.maxRouteLength)
            && (c.issuedAt != 0 ==> f.issuedAt == c.issuedAt)
            && (c.expiresAt != 0 ==> f.expiresAt == c.expiresAt)
            && (c.entryDeadline != 0 ==> f.entryDeadline == c.entryDeadline)
            && (c.grantKind != [] ==> f.grantKind == c.grantKind)
            && (c.maxRouteLength != 0 ==> f.maxRouteLength == c.maxRouteLength)
            && f.grantKind != [] && f.maxRouteLength != 0
            && (codec.now > 0 && c.issuedAt >= 0 ==> f.issuedAt > 0 && f.expiresAt != 0 && f.entryDeadline != 0)
    ensures Filled(codec, Filled(codec, c)) == Filled(codec, c)
  {
    KindNotEmpty();
    hide Ascii;
  }

  lemma KindNotEmpty()
    ensures KIND_ROOT != []
  {
    assert |KIND_ROOT| == 4;
  }

  /** Claims without times get the whole lifetime from now on, and it is valid unless it leaves 64 bits. */
  lemma DefaultTimesValid(codec: Codec, c: GrantClaims)
    requires codec == Normalized(codec) && c.issuedAt == c.expiresAt == c.entryDeadline == 0
    ensures var f, ttl := Filled(codec, c), Millis(codec.maxTtl);
            && (ValidTimes(f, codec.maxTtl) <==> 0 < codec.now && 0 < ttl && codec.now + ttl < LIMIT64)
            && (ValidTimes(f, codec.maxTtl) ==> f.expiresAt - f.issuedAt == ttl && f.entryDeadline == f.expiresAt)
  {
  }

  /**
   Whatever the issue time, claims without an expiry live for the codec's whole
   lifetime from it, unless the sum leaves 64 bits; then they end before they begin.
   A zero deadline is the expiry, an empty kind is root, and a zero route length is 256.
   */
  lemma DefaultsChosen(codec: Codec, c: GrantClaims)
    requires codec == Normalized(codec)
    ensures var f, ttl := Filled(codec, c), codec.maxTtl / 1_000_000;
            && f.issuedAt == (if c.issuedAt == 0 then codec.now else c.issuedAt)
            && (c.expiresAt == 0 ==>
                  if f.issuedAt + ttl < 0x8000_0000_0000_0000 then f.expiresAt - f.issuedAt == ttl
                  else f.expiresAt < f.issuedAt)
            && (c.entryDeadline == 0 ==> f.entryDeadline == f.expiresAt)
            && (c.grantKind == [] ==> f.grantKind == Ascii("root"))
            && (c.maxRouteLength == 0 ==> f.maxRouteLength == 256)
  {
  }

  /** So claims without an expiry have valid times exactly when their deadline, if any, lies in that lifetime. */
  lemma DefaultExpiryValid(codec: Codec, c: GrantClaims)
    requires codec == Normalized(codec) && c.expiresAt == 0
    ensures var f, ttl := Filled(codec, c), codec.maxTtl / 1_000_000;
            ValidTimes(f, codec.maxTtl) <==>
              && 0 < f.issuedAt && 0 < ttl && f.issuedAt + ttl < 0x8000_0000_0000_0000
              && (c.entryDeadline == 0 || f.issuedAt <= c.entryDeadline <= f.issuedAt + ttl)
  {
    DefaultsChosen(codec, c);
    hide Ascii;
  }

  /** What signing already filled-in claims gives. */
  function SignClaims(scheme: Scheme, codec: Codec, c: GrantClaims, key: seq<byte>): Result<GoString> {
    if !ValidClaims(c, codec.maxTtl) then Err(InvalidGrant)
    else
      var payload :- Marshal(c);
      var grant := Seal(GRANT_PREFIX, payload, scheme.sign(key, payload));
      if |grant| > codec.maxSize then Err(GrantTooLarge) else Ok(grant)
  }

  function SignGrant(scheme: Scheme, codec: Codec, c: GrantClaims, key: seq<byte>): Result<GoString> {
    if !RawKey(key, PRIVATE_KEY_SIZE) then Err(GrantKey)
    else SignClaims(scheme, Normalized(codec), Filled(Normalized(codec), c), key)
  }

  /** The defaults of `Sign`, filled in one field at a time; later ones use earlier ones. */
  method FillDefaults(codec: Codec, claims: GrantClaims) returns (filled: GrantClaims)
    ensures filled == Filled(codec, claims)
  {
    filled := claims;
    if filled.issuedAt == 0 {
      filled := filled.(issuedAt := codec.now);
    }
    if filled.grantKind == [] {
      filled := filled.(grantKind := KIND_ROOT);
    }
    if filled.expiresAt == 0 {
      filled := filled.(expiresAt := Wrap64(filled.issuedAt + Millis(codec.maxTtl)));
    }
    if filled.entryDeadline == 0 {
      filled := filled.(entryDeadline := filled.expiresAt);
    }
    if filled.maxRouteLength == 0 {
      filled := filled.(maxRouteLength := MAX_ROUTE_LENGTH);
    }
  }

  method Sign(scheme: Scheme, codec: Codec, claims: GrantClaims, key: seq<byte>) returns (r: Result<GoString>)
    ensures r == SignGrant(scheme, codec, claims, key)
  {
    hide Filled, Seal, ValidClaims, RawKey, PayloadMembers, PayloadHeap, CanonGraph, Normalized;
    if !RawKey(key, PRIVATE_KEY_SIZE) {
      return Err(GrantKey);
    }
    var c := Normalized(codec);
    var filled := FillDefaults(c, claims);
    if !ValidClaims(filled, c.maxTtl) {
      return Err(InvalidGrant);
    }
    var canonicalizer := new Canonicalizer(PayloadHeap(PayloadMembers(filled), filled.scopes));
    var payload :- canonicalizer.CanonicalizeValue(Ref(MAP_ADDR));
    var grant := Seal(GRANT_PREFIX, payload, scheme.sign(key, payload));
    if |grant| > c.maxSize {
      return Err(GrantTooLarge);
    }
    return Ok(grant);
  }

  // ---------- verifying ----------

  /** The clock checks that end `verifySigned`. */
  function InTime(codec: Codec, c: GrantClaims): Result<GrantClaims> {
    if Wrap64(codec.now + Millis(codec.clockSkew)) < c.issuedAt then Err(GrantNotYetValid)
    else if codec.now >= c.expiresAt then Err(GrantExpired)
    else Ok(c)
  }

  /** The package-level verifiers allow no clock skew. */
  lemma ClockOnlySettings(now: int64, c: GrantClaims)
    ensures var v := Normalized(ClockOnly(now));
            && v.maxTtl == DEFAULT_TTL && v.maxSize == DEFAULT_MAX_SIZE
            && InTime(v, c) == if now < c.issuedAt then Err(GrantNotYetValid)
                               else if now >= c.expiresAt then Err(GrantExpired)
                               else Ok(c)
  {
  }

  /**
   A skew lets claims in early by its milliseconds and never late; one that
   carries the clock out of 64 bits refuses every claim instead.
   */
  lemma SkewMeaning(codec: Codec, c: GrantClaims)
    requires codec == Normalized(codec) && 0 < c.issuedAt
    ensures var skew := codec.clockSkew / 1_000_000;
            && (codec.now + skew < 0x8000_0000_0000_0000 ==>
                  (InTime(codec, c) == Ok(c) <==> c.issuedAt <= codec.now + skew && codec.now < c.expiresAt))
            && (codec.now + skew >= 0x8000_0000_0000_0000 ==> InTime(codec, c) == Err(GrantNotYetValid))
  {
  }

  /** `verifySigned`: signature, payload, claims and clock. */
  function VerifySigned(scheme: Scheme, codec: Codec, grant: GoString, key: seq<byte>): Result<GrantClaims> {
    var c := Normalized(codec);
    if !RawKey(key, PUBLIC_KEY_SIZE) then Err(GrantKey)
    else if grant == [] then Err(InvalidGrant)
    else if |grant| > c.maxSize then Err(GrantTooLarge)
    else match Open(grant, GRANT_PREFIX)
      case None => Err(InvalidGrant)
      case Some((payload, signature)) =>
        if payload == [] || !Verifies(scheme, key, payload, signature) then Err(InvalidGrant)
        else
          var claims :- Unmarshal(payload);
          if !ValidClaims(claims, c.maxTtl) then Err(InvalidGrant) else InTime(c, claims)
  }

  /** What a verifier with normalised settings must say of a well-signed grant of `c`. */
  function Judged(codec: Codec, c: GrantClaims, size: nat): Result<GrantClaims> {
    if size > codec.maxSize then Err(GrantTooLarge)
    else if !IntsStable(c) || !ValidClaims(c, codec.maxTtl) then Err(InvalidGrant)
    else InTime(codec, c)
  }

  lemma PrefixHasNoDot()
    ensures '.' as int !in GRANT_PREFIX
  {
  }

  lemma PayloadNotEmpty(c: GrantClaims)
    requires Marshal(c).Ok?
    ensures Marshal(c).value != []
  {
    hide Canon, Print, Field, FieldNames, PayloadMembers;
    MembersShaped(c);
    PrintTree(PayloadMembers(c), c.scopes);
    CanonHead(PayloadTree(PayloadMembers(c), c.scopes));
  }

  /** A verifier's decision on a signed grant depends only on the claims, its size and the settings. */
  lemma SignedIsJudged(scheme: Scheme, signer: Codec, verifier: Codec, claims: GrantClaims, key: seq<byte>)
    requires Sound(scheme) && RawKey(scheme.public(key), PUBLIC_KEY_SIZE)
    requires SignGrant(scheme, signer, claims, key).Ok?
    ensures var c := Filled(Normalized(signer), claims);
            var grant := SignGrant(scheme, signer, claims, key).value;
            && ValidClaims(c, Normalized(signer).maxTtl)
            && VerifySigned(scheme, verifier, grant, scheme.public(key)) == Judged(Normalized(verifier), c, |grant|)
  {
    hide Filled, Marshal, Unmarshal, Seal, Open, Normalized, IntsStable, SortedUnique, ValidKind, ValidTimes,
         ValidBudget, OperationId, GrantToken, InTime;
    var c := Filled(Normalized(signer), claims);
    var payload := Marshal(c).value;
    var signature := scheme.sign(key, payload);
    PrefixHasNoDot();
    OpenSealed(GRANT_PREFIX, payload, signature);
    PayloadNotEmpty(c);
    PayloadRoundTrip(c);
    assert Seal(GRANT_PREFIX, payload, signature) != [] by {
      SealNotEmpty(GRANT_PREFIX, payload, signature);
    }
  }

  lemma SealNotEmpty(prefix: GoString, payload: GoString, signature: seq<byte>)
    ensures Seal(prefix, payload, signature) != []
  {
  }

  // ---------- what every accepted grant guarantees ----------

  lemma AdjacentScopes(scopes: seq<GoString>, j: nat)
    requires SortedUnique(scopes) && 0 < j < |scopes|
    ensures CompareUnits(scopes[j - 1], scopes[j]) < 0
  {
    hide CompareUnits, GrantToken;
  }

  lemma {:induction false} ScopesAscend(scopes: seq<GoString>, i: nat, j: nat)
    requires SortedUnique(scopes) && i < j < |scopes|
    ensures CompareUnits(scopes[i], scopes[j]) < 0 && scopes[i] != scopes[j]
    decreases j - i
  {
    hide CompareUnits, SortedUnique;
    AdjacentScopes(scopes, j);
    if i + 1 < j {
      ScopesAscend(scopes, i, j - 1);
      CompareTransitive(scopes[i], scopes[j - 1], scopes[j]);
    }
    CompareMeaning(scopes[i], scopes[j]);
  }

  /** The grant holds canonical bytes that spell the claims, and a signature of just these bytes. */
  predicate Authentic(scheme: Scheme, key: seq<byte>, grant: GoString, c: GrantClaims) {
    match Open(grant, GRANT_PREFIX)
    case None => false
    case Some((payload, signature)) =>
      && Verifies(scheme, key, payload, signature)
      && CanonicalizeJSON(payload) == Ok(payload)
      && Unmarshal(payload) == Ok(c)
  }

  /** No scope twice, a bounded budget, and one node of entry within it. */
  ghost predicate Bounded(c: GrantClaims) {
    && (forall i, j :: 0 <= i < j < |c.scopes| ==> c.scopes[i] != c.scopes[j])
    && c.scopes != [] && 1 <= c.maxHop <= 3 && |c.entryRoute| <= c.maxRouteLength <= 256
    && 1 <= c.accountGeneration < 0x20_0000_0000_0000
  }

  lemma UnmarshalIsCanonical(payload: GoString)
    requires Unmarshal(payload).Ok?
    ensures CanonicalizeJSON(payload) == Ok(payload)
  {
    hide CanonicalizeJSON, DecodeJSON, FieldNames, FieldsDecode;
  }

  lemma ValidIsBounded(c: GrantClaims, maxTtl: int64)
    requires ValidClaims(c, maxTtl)
    ensures Bounded(c)
  {
    hide OperationId, GrantToken, ValidEntry, ValidKind, ValidTimes, CompareUnits;
    forall i, j | 0 <= i < j < |c.scopes|
      ensures c.scopes[i] != c.scopes[j]
    {
      ScopesAscend(c.scopes, i, j);
    }
  }

  /**
   Whatever bytes a verifier accepts were signed under its key, are canonical,
   and carry bounded claims whose lifetime includes the present.
   */
  lemma AcceptedIsAuthentic(scheme: Scheme, codec: Codec, grant: GoString, key: seq<byte>)
    requires VerifySigned(scheme, codec, grant, key).Ok?
    ensures var c := VerifySigned(scheme, codec, grant, key).value;
            var v := Normalized(codec);
            && Authentic(scheme, key, grant, c) && Bounded(c)
            && c.issuedAt <= Wrap64(v.now + Millis(v.clockSkew)) && v.now < c.expiresAt
            && c.issuedAt <= c.entryDeadline <= c.expiresAt <= c.issuedAt + Millis(v.maxTtl)
  {
    hide Unmarshal, Bounded, Open, Normalized, ValidKind, ValidBudget, OperationId, GrantToken, SortedUnique, RawKey,
         CanonicalizeJSON;
    var c := VerifySigned(scheme, codec, grant, key).value;
    var (payload, signature) := Open(grant, GRANT_PREFIX).value;
    UnmarshalIsCanonical(payload);
    ValidIsBounded(c, Normalized(codec).maxTtl);
  }

  // ---------- binding to a call ----------

  predicate Contains(scopes: seq<GoString>, required: seq<GoString>) {
    forall i :: 0 <= i < |required| ==> required[i] in scopes
  }

  /** `expectedBoundaryRoute`: the route that a call entered by `c` has at the boundary. */
  function BoundaryRoute(c: GrantClaims, terminal: GoString): Result<(GoString, int)> {
    if terminal == AGENT then
      if c.entryRoute != MS then Err(GrantBinding) else Ok((MS + ARROW + AGENT, c.entryHop + 1))
    else if terminal != PRODUCT then Err(GrantBinding)
    else if c.entryRoute == MS then Ok((MS + ARROW + AGENT + ARROW + PRODUCT, c.entryHop + 2))
    else Ok((c.entryRoute + ARROW + PRODUCT, c.entryHop + 1))
  }

  /** The request that a grant is presented with; None is a nil call context. */
  datatype RootBinding = RootBinding(
    callContext: Option<CallContext>,
    rootOperationId: GoString,
    ownerId: GoString,
    accountGeneration: int64,
    rootRequestDigest: seq<byte>,
    requiredScopes: seq<GoString>)

  predicate Complete(b: RootBinding) {
    && b.callContext.Some? && b.rootOperationId != [] && b.ownerId != [] && b.accountGeneration > 0
    && |b.rootRequestDigest| == 32 && b.requiredScopes != [] && SortedUnique(b.requiredScopes)
    && ValidateStrictCallContext(b.callContext.value).None?
  }

  predicate SamePrincipal(c: GrantClaims, b: RootBinding)
    requires b.callContext.Some?
  {
    && c.chainId == b.callContext.value.chainId
    && c.rootOperationId == b.rootOperationId == b.callContext.value.rootOperationId
    && c.ownerId == b.ownerId
    && c.accountGeneration == b.accountGeneration
    && c.rootRequestDigest == b.rootRequestDigest
  }

  predicate RouteFits(c: GrantClaims, ctx: CallContext, terminal: GoString) {
    match BoundaryRoute(c, terminal)
    case Err(_) => false
    case Ok((route, hop)) =>
      ctx.route == route && ctx.hop == hop && ctx.hop <= c.maxHop && |ctx.route| <= c.maxRouteLength
  }

  /** `validateRootBinding` returns no error. */
  predicate RootBound(c: GrantClaims, b: RootBinding, terminal: GoString) {
    && Complete(b)
    && SamePrincipal(c, b)
    && b.callContext.value.deadline <= c.entryDeadline && b.callContext.value.deadline <= c.expiresAt
    && Contains(c.scopes, b.requiredScopes)
    && RouteFits(c, b.callContext.value, terminal)
  }

  datatype Descriptor = Descriptor(
    capabilityId: GoString,
    operation: GoString,
    catalogDigest: seq<byte>,
    schemaDigest: seq<byte>)

  /** `validateAgentGrantDescriptor` returns no error. */
  predicate DescriptorBound(c: GrantClaims, d: Descriptor) {
    && d.capabilityId != [] && d.operation != [] && |d.catalogDigest| == 32 && |d.schemaDigest| == 32
    && c.rootCapabilityId == d.capabilityId && c.rootOperation == d.operation
    && c.catalogDigest == d.catalogDigest && c.schemaDigest == d.schemaDigest
  }

  predicate IsRoot(c: GrantClaims) {
    c.grantKind == KIND_ROOT && c.childOperationId == []
  }

  /** `VerifyRootBinding`: a root grant at the Product boundary. */
  function VerifyRoot(scheme: Scheme, now: int64, grant: GoString, key: seq<byte>, b: RootBinding)
    : Result<GrantClaims>
  {
    var c :- VerifySigned(scheme, ClockOnly(now), grant, key);
    if IsRoot(c) && RootBound(c, b, PRODUCT) then Ok(c) else Err(GrantBinding)
  }

  /** `VerifyAgentRootBinding`: a root grant at the Agent boundary. */
  function VerifyAgentRoot(scheme: Scheme, now: int64, grant: GoString, key: seq<byte>, b: RootBinding,
                                 d: Descriptor): Result<GrantClaims>
  {
    var c :- VerifySigned(scheme, ClockOnly(now), grant, key);
    if IsRoot(c) && RootBound(c, b, AGENT) && DescriptorBound(c, d) then Ok(c) else Err(GrantBinding)
  }
}
