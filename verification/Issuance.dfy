/**
 What is issued: exactly when signing succeeds and what it writes, for grants,
 control grants, and children derived from a parent.
 */
module Issuance {
  import opened Acceptance
  import opened Basics
  import opened BoundaryRoutes
  import opened CallRoute
  import opened ControlGrants
  import opened Delegation
  import opened Envelope
  import opened Grants
  import opened GrantWire
  import opened Tokens
  import Base64

  /** Raw key material has the wanted size and holds no PEM header anywhere. */
  lemma KeyMeaning(key: seq<byte>, size: nat)
    ensures RawKey(key, size)
            <==> && |key| == size
                 && forall before: seq<byte>, after: seq<byte> :: key != before + Ascii("-----BEGIN") + after
  {
    hide Ascii;
    forall before: seq<byte>, after: seq<byte> | key == before + PEM_BEGIN + after
      ensures |before| <= |key| && PEM_BEGIN <= key[|before|..]
    {
      assert key[|before|..] == PEM_BEGIN + after;
    }
    forall i | 0 <= i <= |key| && PEM_BEGIN <= key[i..]
      ensures key == key[..i] + PEM_BEGIN + key[i..][|PEM_BEGIN|..]
    {
      assert key == key[..i] + key[i..];
      assert key[i..] == PEM_BEGIN + key[i..][|PEM_BEGIN|..];
    }
  }

  /** The package's own settings, in milliseconds and bytes. */
  lemma Settings(codec: Codec)
    ensures var c := Normalized(codec);
            && c.now == codec.now
            && c.maxTtl == (if codec.maxTtl > 0 then codec.maxTtl else 900_000_000_000)
            && c.clockSkew == (if codec.clockSkew > 0 then codec.clockSkew else 0)
            && c.maxSize == (if codec.maxSize > 0 then codec.maxSize else 8192)
    ensures Normalized(ClockOnly(codec.now)) == Codec(codec.now, 900_000_000_000, 0, 8192)
    ensures ControlCodec(codec)
            == Normalized(codec).(maxTtl := if 0 < codec.maxTtl <= 120_000_000_000 then codec.maxTtl
                                            else 120_000_000_000)
    ensures Capped(codec) == ControlCodec(codec)
  {
  }

  /** A grant as it travels: prefix, payload and signature, separated by dots. */
  function Envelope3(prefix: GoString, payload: GoString, signature: seq<byte>): GoString {
    prefix + ['.' as int] + Base64.Url(payload) + ['.' as int] + Base64.Url(signature)
  }

  /**
   Signing succeeds exactly for well-formed claims that print, under a raw 64-byte
   key and within the size, and writes the canonical payload and its signature.
   */
  lemma SignMeaning(scheme: Scheme, codec: Codec, claims: GrantClaims, key: seq<byte>, grant: GoString)
    ensures var n := Normalized(codec);
            var c := Filled(n, claims);
            SignGrant(scheme, codec, claims, key) == Ok(grant)
            <==> && RawKey(key, 64) && Proper(c, n.maxTtl)
                 && var payload := Marshal(c);
                    && payload.Ok?
                    && grant == Envelope3(Ascii("grant-v1"), payload.value, scheme.sign(key, payload.value))
                    && |grant| <= n.maxSize
  {
    hide RawKey, Proper, ValidClaims, Marshal, Filled, Ascii, Base64.Url;
    var n := Normalized(codec);
    ProperMeaning(Filled(n, claims), n.maxTtl);
  }

  lemma ControlSignMeaning(scheme: Scheme, codec: Codec, claims: ControlGrant, key: seq<byte>, grant: GoString)
    ensures var n := Normalized(codec);
            var c := FilledControl(ControlCodec(codec), claims);
            SignControlGrant(scheme, codec, claims, key) == Ok(grant)
            <==> && RawKey(key, 64) && ControlProper(c, n.maxTtl)
                 && var payload := MarshalControl(c);
                    && payload.Ok?
                    && grant == Envelope3(Ascii("control-grant-v1"), payload.value, scheme.sign(key, payload.value))
                    && |grant| <= n.maxSize
  {
    hide RawKey, ControlProper, ValidControl, MarshalControl, FilledControl, Ascii, Base64.Url;
    var n := Normalized(codec);
    ControlSettings(codec);
    ControlProperMeaning(n, FilledControl(ControlCodec(codec), claims));
  }

  // ---------- children ----------

  /** The own guards of the child signer refuse nothing that signing would not refuse. */
  lemma ChildGuardsRedundant(scheme: Scheme, codec: Codec, claims: GrantClaims, key: seq<byte>)
    ensures var signed := SignGrant(scheme, Capped(codec), claims.(grantKind := Ascii("product-child")), key);
            signed.Ok? ==> SignChild(scheme, codec, claims, key) == signed
    ensures SignChild(scheme, codec, claims, key).Ok?
            <==> SignGrant(scheme, Capped(codec), claims.(grantKind := Ascii("product-child")), key).Ok?
  {
    hide Ascii, Marshal, Seal, RawKey, Proper, Capped, OperationId, SignClaims;
    var c := claims.(grantKind := KIND_PRODUCT_CHILD);
    var signed := SignGrant(scheme, Capped(codec), c, key);
    if signed.Ok? {
      SignedChildFits(scheme, Capped(codec), c, key);
    }
  }

  lemma SignedChildFits(scheme: Scheme, codec: Codec, c: GrantClaims, key: seq<byte>)
    requires SignGrant(scheme, codec, c, key).Ok? && c.grantKind == KIND_PRODUCT_CHILD
    ensures || (c.productTargetKind == TARGET_QUERY && c.childOperationId == [])
            || (c.productTargetKind == TARGET_START && OperationId(c.childOperationId))
  {
    hide Ascii, Marshal, Seal, RawKey, OperationId, GrantToken, SortedUnique, ValidTimes, ValidBudget;
    TargetsDiffer();
  }

  /** The nested call of a delegation: it stands at product, on a route that came through agent. */
  predicate NestedCall(ctx: CallContext) {
    || (ctx.route == RouteText([MS, AGENT, PRODUCT]) && ctx.hop == 3)
    || (ctx.route == RouteText([AGENT, PRODUCT]) && ctx.hop == 2)
  }

  /** A root grant entered from ms, for this call, that holds the scopes asked for. */
  predicate Delegable(issue: Issue) {
    var p := issue.parent;
    && Proper(p, 900_000_000_000) && p.grantKind == Ascii("root") && p.entryRoute == MS
    && issue.callContext.Some?
    && var ctx := issue.callContext.value;
       && ctx.chainId == p.chainId && ctx.rootOperationId == p.rootOperationId
       && ctx.deadline > 0 && (ctx.parentCallId == [] || OperationId(ctx.parentCallId))
       && NestedCall(ctx)
       && issue.requiredScopes != [] && Ascend(issue.requiredScopes)
       && (forall s :: s in issue.requiredScopes ==> s in p.scopes)
  }

  predicate TargetFits(kind: TargetKind, childOperationId: GoString) {
    || (kind.Query? && childOperationId == [])
    || (kind.StartOperation? && OperationId(childOperationId))
  }

  lemma NestedStrict(ctx: CallContext)
    requires OperationId(ctx.chainId) && OperationId(ctx.rootOperationId)
    ensures ValidateStrictCallContext(ctx).None? && (ctx.route == FROM_MS || ctx.route == FROM_AGENT)
            <==> && NestedCall(ctx) && ctx.deadline > 0
                 && (ctx.parentCallId == [] || OperationId(ctx.parentCallId))
  {
    ProductRoutes();
    hide RouteText, ParseRoute, OperationId, LegalPath, ContextToken;
    NodesDiffer();
    if ctx.route == FROM_MS && ctx.hop == 3 {
      ArrivedStrict(MS, ctx, PRODUCT);
    }
    if ctx.route == FROM_AGENT && ctx.hop == 2 {
      ArrivedStrict(AGENT, ctx, PRODUCT);
    }
    assert ValidateStrictCallContext(ctx).None? ==> ValidateCallContext(ctx).None?;
  }

  lemma RootsParts(p: GrantClaims)
    requires ValidClaims(p, DEFAULT_TTL)
    ensures OperationId(p.chainId) && OperationId(p.rootOperationId) && SortedUnique(p.scopes)
    ensures p.grantKind == Ascii("root") <==> IsRoot(p)
    ensures p.entryHop == 1
  {
    hide OperationId, GrantToken, SortedUnique, ValidTimes, ParseRoute;
  }

  /** The guards of `SignProductDelegationFromParent`, each said once. */
  lemma IssueMeaning(issue: Issue)
    ensures Accepted(issue)
            <==> && Delegable(issue) && TargetFits(issue.target, issue.childOperationId)
                 && ReplayToken(issue.descriptor.capabilityId) && ReplayToken(issue.descriptor.operation)
                 && |issue.rootRequestDigest| == 32
                 && |issue.descriptor.catalogDigest| == 32 && |issue.descriptor.schemaDigest| == 32
  {
    hide ValidClaims, Proper, OperationId, SortedUnique, Ascend, Contains, ReplayToken, ValidateStrictCallContext,
         NestedCall, IsRoot, Ascii;
    var p := issue.parent;
    ProperMeaning(p, DEFAULT_TTL);
    if ValidClaims(p, DEFAULT_TTL) {
      RootsParts(p);
      ScopesOfValid(p, issue.requiredScopes);
      if issue.callContext.Some? {
        var ctx := issue.callContext.value;
        if ctx.chainId == p.chainId && ctx.rootOperationId == p.rootOperationId {
          NestedStrict(ctx);
        }
      }
    }
  }

  /** A child cannot be a parent: nobody delegates twice. */
  lemma ChildIsNoParent(scheme: Scheme, codec: Codec, issue: Issue, key: seq<byte>, next: Issue)
    requires SignFromParent(scheme, codec, issue, key).Ok? && issue.callContext.Some?
    requires next.parent == Child(codec, issue)
    ensures !Accepted(next)
  {
    hide Accepted, Proper, Ascii;
    IssueMeaning(next);
    TargetsDiffer();
  }
}
