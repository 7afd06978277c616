/**
 Operation control grants: short-lived grants under their own prefix, and the
 complete set that a replayed start returns.
 */
module ControlGrants {
  import opened Basics
  import opened BoundaryRoutes
  import opened CallRoute
  import opened Envelope
  import opened GoHeap
  import opened GrantWire
  import opened Grants
  import opened Json
  import opened JsonNumber
  import opened JsonRoundTrip
  import opened Payload
  import opened Tokens
  import Delegation

  datatype ControlGrant = ControlGrant(
    chainId: GoString,
    ownerId: GoString,
    accountGeneration: int64,
    operationId: GoString,
    action: GoString,
    scope: GoString,
    entryRoute: GoString,
    entryHop: int32,
    deadline: int64,
    issuedAt: int64,
    expiresAt: int64)

  const CONTROL_PREFIX := Ascii("control-grant-v1")
  const CONTROL_VERSION: int := 1
  const CONTROL_TTL: int64 := 2 * MINUTE
  const CONTROL_SCOPE_PREFIX := Ascii("operation:control:")

  const GET := Ascii("get")
  const WATCH := Ascii("watch")
  const CANCEL := Ascii("cancel")
  const RECONCILE := Ascii("reconcile")

  const OPERATION_ID := Ascii("operation_id")
  const CONTROL_ACTION := Ascii("control_action")
  const CONTROL_SCOPE := Ascii("control_scope")
  const DEADLINE := Ascii("deadline_unix_ms")

  /** `isControlAction`. */
  predicate ControlAction(action: GoString) {
    action == GET || action == WATCH || action == CANCEL || action == RECONCILE
  }

  function ScopeOf(action: GoString): GoString {
    CONTROL_SCOPE_PREFIX + action
  }

  /** `ValidateOperationControlGrant` returns no error. */
  predicate ValidControl(c: ControlGrant, maxTtl: int64) {
    && OperationId(c.chainId) && OperationId(c.operationId)
    && GrantToken(c.ownerId, 256)
    && ValidGeneration(c.accountGeneration)
    && c.deadline > 0 && 0 < c.issuedAt < c.expiresAt && c.deadline <= c.expiresAt
    && ControlAction(c.action) && c.scope == ScopeOf(c.action)
    && ValidEntry(c.entryRoute, c.entryHop)
    && c.expiresAt - c.issuedAt <= Millis(if maxTtl <= 0 then CONTROL_TTL else maxTtl)
  }

  // ---------- payload ----------

  function ControlNames(): set<GoString> {
    {V, CHAIN_ID, OWNER_ID, ACCOUNT_GENERATION, OPERATION_ID, CONTROL_ACTION, CONTROL_SCOPE, ENTRY_ROUTE, ENTRY_HOP,
     DEADLINE, ISSUED_AT, EXPIRES_AT}
  }

  function ControlField(c: ControlGrant, name: GoString): GoValue
    requires name in ControlNames()
  {
    if name == V then Int(CONTROL_VERSION)
    else if name == CHAIN_ID then Text(c.chainId)
    else if name == OWNER_ID then Text(c.ownerId)
    else if name == ACCOUNT_GENERATION then Int(c.accountGeneration)
    else if name == OPERATION_ID then Text(c.operationId)
    else if name == CONTROL_ACTION then Text(c.action)
    else if name == CONTROL_SCOPE then Text(c.scope)
    else if name == ENTRY_ROUTE then Text(c.entryRoute)
    else if name == ENTRY_HOP then Int(c.entryHop)
    else if name == DEADLINE then Int(c.deadline)
    else if name == ISSUED_AT then Int(c.issuedAt)
    else Int(c.expiresAt)
  }

  function ControlMembers(c: ControlGrant): Fields {
    map name | name in ControlNames() :: ControlField(c, name)
  }

  function MarshalControl(c: ControlGrant): Result<GoString> {
    Print(ControlMembers(c), [])
  }

  predicate ControlDecodes(m: map<GoString, Json>) {
    && StringField(m, CHAIN_ID).Some? && StringField(m, OWNER_ID).Some?
    && IntField(m, ACCOUNT_GENERATION, LIMIT64).Some? && StringField(m, OPERATION_ID).Some?
    && StringField(m, CONTROL_ACTION).Some? && StringField(m, CONTROL_SCOPE).Some?
    && StringField(m, ENTRY_ROUTE).Some? && IntField(m, ENTRY_HOP, LIMIT32).Some?
    && IntField(m, DEADLINE, LIMIT64).Some? && IntField(m, ISSUED_AT, LIMIT64).Some?
    && IntField(m, EXPIRES_AT, LIMIT64).Some?
    && IntField(m, V, LIMIT32) == Some(CONTROL_VERSION)
  }

  function DecodedControl(m: map<GoString, Json>): ControlGrant
    requires ControlDecodes(m)
  {
    ControlGrant(
      StringField(m, CHAIN_ID).value,
      StringField(m, OWNER_ID).value,
      IntField(m, ACCOUNT_GENERATION, LIMIT64).value,
      StringField(m, OPERATION_ID).value,
      StringField(m, CONTROL_ACTION).value,
      StringField(m, CONTROL_SCOPE).value,
      StringField(m, ENTRY_ROUTE).value,
      IntField(m, ENTRY_HOP, LIMIT32).value,
      IntField(m, DEADLINE, LIMIT64).value,
      IntField(m, ISSUED_AT, LIMIT64).value,
      IntField(m, EXPIRES_AT, LIMIT64).value)
  }

  function UnmarshalControl(payload: GoString): Result<ControlGrant> {
    match Members(payload, ControlNames())
    case None => Err(InvalidControlGrant)
    case Some(m) => if ControlDecodes(m) then Ok(DecodedControl(m)) else Err(InvalidControlGrant)
  }

  lemma ControlTags()
    ensures NameTag(OPERATION_ID) == 3183 && NameTag(CONTROL_ACTION) == 3683
    ensures NameTag(CONTROL_SCOPE) == 3427 && NameTag(DEADLINE) == 4196
  {
  }

  lemma ControlFields(c: ControlGrant)
    ensures
      && ControlField(c, V) == Int(CONTROL_VERSION)
      && ControlField(c, CHAIN_ID) == Text(c.chainId)
      && ControlField(c, OWNER_ID) == Text(c.ownerId)
      && ControlField(c, ACCOUNT_GENERATION) == Int(c.accountGeneration)
      && ControlField(c, OPERATION_ID) == Text(c.operationId)
      && ControlField(c, CONTROL_ACTION) == Text(c.action)
      && ControlField(c, CONTROL_SCOPE) == Text(c.scope)
      && ControlField(c, ENTRY_ROUTE) == Text(c.entryRoute)
      && ControlField(c, ENTRY_HOP) == Int(c.entryHop)
      && ControlField(c, DEADLINE) == Int(c.deadline)
      && ControlField(c, ISSUED_AT) == Int(c.issuedAt)
      && ControlField(c, EXPIRES_AT) == Int(c.expiresAt)
  {
    hide Ascii, NameTag;
    CommonTags();
    ControlTags();
  }

  lemma ControlShaped(c: ControlGrant)
    ensures Shaped(ControlMembers(c)) && ControlMembers(c).Keys == ControlNames()
  {
    hide Ascii, ControlNames;
  }

  predicate ControlIntsStable(c: ControlGrant) {
    && StableInt(c.accountGeneration) && StableInt(c.deadline)
    && StableInt(c.issuedAt) && StableInt(c.expiresAt)
  }

  lemma ControlStable(c: ControlGrant)
    ensures ControlIntsStable(c) <==> FieldsStable(ControlMembers(c))
  {
    hide StableInt, Ascii, ControlField;
    ControlFields(c);
    SmallIntStable(CONTROL_VERSION);
    SmallIntStable(c.entryHop);
    var m := ControlMembers(c);
    if FieldsStable(m) {
      assert FieldStable(m[ACCOUNT_GENERATION]) && FieldStable(m[DEADLINE]);
      assert FieldStable(m[ISSUED_AT]) && FieldStable(m[EXPIRES_AT]);
    }
  }

  lemma ControlIsDecoded(c: ControlGrant, m: map<GoString, Json>)
    requires FieldsRead(m, ControlMembers(c), [])
    ensures ControlDecodes(m) && DecodedControl(m) == c
  {
    hide Ascii, ControlField, IntField, StringField;
    ControlFields(c);
    var fields := ControlMembers(c);
    forall name | name in ControlNames()
      ensures FieldReads(m, name, ControlField(c, name), [])
    {
      assert fields[name] == ControlField(c, name);
    }
    hide ControlMembers, FieldReads;
    assert FieldReads(m, V, Int(CONTROL_VERSION), []);
  }

  lemma ControlRoundTrip(c: ControlGrant)
    requires MarshalControl(c).Ok?
    ensures MarshalControl(c).value != []
    ensures UnmarshalControl(MarshalControl(c).value)
            == if ControlIntsStable(c) then Ok(c) else Err(InvalidControlGrant)
  {
    hide ControlMembers, ControlNames, FieldsRead, ControlDecodes, DecodedControl, ControlIntsStable, Print, Members,
         FieldsStable, Shaped, Canon;
    ControlShaped(c);
    ControlStable(c);
    PrintedMembers(ControlMembers(c), []);
    PrintTree(ControlMembers(c), []);
    CanonHead(PayloadTree(ControlMembers(c), []));
    if ControlIntsStable(c) {
      ControlIsDecoded(c, Members(MarshalControl(c).value, ControlNames()).value);
    }
  }

  // ---------- signing and verifying ----------

  function FilledControl(codec: Codec, c: ControlGrant): ControlGrant {
    var issued: int64 := if c.issuedAt == 0 then codec.now else c.issuedAt;
    var expires: int64 := if c.expiresAt == 0 then Wrap64(issued + Millis(codec.maxTtl)) else c.expiresAt;
    c.(issuedAt := issued, expiresAt := expires, deadline := if c.deadline == 0 then expires else c.deadline)
  }

  /** Control grants live two minutes at most, whatever the codec allows. */
  function ControlCodec(codec: Codec): Codec {
    var c := Normalized(codec);
    if c.maxTtl > CONTROL_TTL then c.(maxTtl := CONTROL_TTL) else c
  }

  /**
   A control grant without an expiry lives for the codec's lifetime, or two minutes
   if that is longer or unset, from its issue time, unless the sum leaves 64 bits.
   A zero deadline is the expiry; nothing else is filled in.
   */
  lemma ControlDefaultsChosen(codec: Codec, c: ControlGrant)
    ensures var f := FilledControl(ControlCodec(codec), c);
            var ttl := if 0 < codec.maxTtl <= 120_000_000_000 then codec.maxTtl / 1_000_000 else 120_000;
            && f == c.(issuedAt := f.issuedAt, expiresAt := f.expiresAt, deadline := f.deadline)
            && f.issuedAt == (if c.issuedAt == 0 then codec.now else c.issuedAt)
            && (c.expiresAt != 0 ==> f.expiresAt == c.expiresAt)
            && (c.expiresAt == 0 ==>
                  if f.issuedAt + ttl < 0x8000_0000_0000_0000 then f.expiresAt - f.issuedAt == ttl
                  else f.expiresAt < f.issuedAt)
            && f.deadline == (if c.deadline == 0 then f.expiresAt else c.deadline)
  {
  }

  function SignControlGrant(scheme: Scheme, codec: Codec, claims: ControlGrant, key: seq<byte>): Result<GoString> {
    var c := ControlCodec(codec);
    if !RawKey(key, PRIVATE_KEY_SIZE) then Err(GrantKey)
    else if !ValidControl(FilledControl(c, claims), c.maxTtl) then Err(InvalidControlGrant)
    else
      var payload :- MarshalControl(FilledControl(c, claims));
      var grant := Seal(CONTROL_PREFIX, payload, scheme.sign(key, payload));
      if |grant| > c.maxSize then Err(GrantTooLarge) else Ok(grant)
  }

  /** `SignOperationControlGrant`: defaults step by step, then the payload, then the envelope. */
  method SignControl(scheme: Scheme, codec: Codec, claims: ControlGrant, key: seq<byte>) returns (r: Result<GoString>)
    ensures r == SignControlGrant(scheme, codec, claims, key)
  {
    hide Seal, ValidControl, RawKey, ControlMembers, PayloadHeap, CanonGraph, ControlCodec;
    if !RawKey(key, PRIVATE_KEY_SIZE) {
      return Err(GrantKey);
    }
    var c := ControlCodec(codec);
    var filled := claims;
    if filled.issuedAt == 0 {
      filled := filled.(issuedAt := c.now);
    }
    if filled.expiresAt == 0 {
      filled := filled.(expiresAt := Wrap64(filled.issuedAt + Millis(c.maxTtl)));
    }
    if filled.deadline == 0 {
      filled := filled.(deadline := filled.expiresAt);
    }
    assert filled == FilledControl(c, claims);
    if !ValidControl(filled, c.maxTtl) {
      return Err(InvalidControlGrant);
    }
    var canonicalizer := new Canonicalizer(PayloadHeap(ControlMembers(filled), []));
    var payload :- canonicalizer.CanonicalizeValue(Ref(MAP_ADDR));
    var grant := Seal(CONTROL_PREFIX, payload, scheme.sign(key, payload));
    if |grant| > c.maxSize {
      return Err(GrantTooLarge);
    }
    return Ok(grant);
  }

  /** The request that a control grant is presented with; None is a nil call context. */
  datatype ControlBinding = ControlBinding(
    callContext: Option<CallContext>,
    ownerId: GoString,
    accountGeneration: int64,
    operationId: GoString,
    action: GoString,
    scope: GoString)

  /** `expectedControlBoundaryRoute`. */
  function ControlRoute(c: ControlGrant, terminal: GoString): Result<(GoString, int)> {
    if terminal == AGENT then
      if c.entryRoute != MS then Err(GrantBinding) else Ok((MS + ARROW + AGENT, c.entryHop + 1))
    else if terminal != PRODUCT then Err(GrantBinding)
    else if c.entryRoute == MS then Ok((MS + ARROW + AGENT + ARROW + PRODUCT, c.entryHop + 2))
    else Ok((AGENT + ARROW + PRODUCT, c.entryHop + 1))
  }

  /** `validateControlBinding` returns no error. */
  predicate ControlBound(c: ControlGrant, b: ControlBinding, terminal: GoString) {
    && b.callContext.Some? && b.ownerId != [] && b.operationId != [] && b.accountGeneration > 0
    && b.action != [] && b.scope != []
    && var ctx := b.callContext.value;
       && ValidateStrictCallContext(ctx).None?
       && c.chainId == ctx.chainId && c.ownerId == b.ownerId && c.accountGeneration == b.accountGeneration
       && c.operationId == b.operationId && c.action == b.action && c.scope == b.scope
       && ctx.deadline <= c.deadline
       && ControlRoute(c, terminal) == Ok((ctx.route, ctx.hop))
  }

  /** Clock and binding checks, in the order in which the verifier makes them. */
  function ControlInTime(codec: Codec, c: ControlGrant, b: ControlBinding, terminal: GoString): Result<ControlGrant> {
    if codec.now >= c.expiresAt then Err(ControlGrantExpired)
    else if Wrap64(codec.now + Millis(codec.clockSkew)) < c.issuedAt then Err(GrantNotYetValid)
    else if ControlBound(c, b, terminal) then Ok(c)
    else Err(GrantBinding)
  }

  /** `verifyOperationControlGrant` at the boundary `terminal`. */
  function VerifyControl(scheme: Scheme, codec: Codec, grant: GoString, key: seq<byte>, b: ControlBinding,
                         terminal: GoString): Result<ControlGrant>
  {
    var c := ControlCodec(codec);
    if !RawKey(key, PUBLIC_KEY_SIZE) then Err(GrantKey)
    else if grant == [] then Err(InvalidControlGrant)
    else if |grant| > c.maxSize then Err(GrantTooLarge)
    else match Open(grant, CONTROL_PREFIX)
      case None => Err(InvalidControlGrant)
      case Some((payload, signature)) =>
        if !Verifies(scheme, key, payload, signature) then Err(InvalidControlGrant)
        else
          var claims :- UnmarshalControl(payload);
          if !ValidControl(claims, c.maxTtl) then Err(InvalidControlGrant)
          else ControlInTime(c, claims, b, terminal)
  }

  /** What a verifier must say of a well-signed control grant of `c`. */
  function ControlJudged(codec: Codec, c: ControlGrant, size: nat, b: ControlBinding, terminal: GoString)
    : Result<ControlGrant>
  {
    if size > codec.maxSize then Err(GrantTooLarge)
    else if !ControlIntsStable(c) || !ValidControl(c, codec.maxTtl) then Err(InvalidControlGrant)
    else ControlInTime(codec, c, b, terminal)
  }

  lemma ControlPrefixHasNoDot()
    ensures '.' as int !in CONTROL_PREFIX
  {
  }

  /** A verifier's decision on a signed control grant depends only on the claims, size, settings and request. */
  lemma ControlIsJudged(scheme: Scheme, signer: Codec, verifier: Codec, claims: ControlGrant, key: seq<byte>,
                        b: ControlBinding, terminal: GoString)
    requires Sound(scheme) && RawKey(scheme.public(key), PUBLIC_KEY_SIZE)
    requires SignControlGrant(scheme, signer, claims, key).Ok?
    ensures var c := FilledControl(ControlCodec(signer), claims);
            var grant := SignControlGrant(scheme, signer, claims, key).value;
            VerifyControl(scheme, verifier, grant, scheme.public(key), b, terminal)
            == ControlJudged(ControlCodec(verifier), c, |grant|, b, terminal)
  {
    hide FilledControl, MarshalControl, UnmarshalControl, Seal, Open, ControlCodec, ControlIntsStable, ValidControl,
         ControlInTime;
    var c := FilledControl(ControlCodec(signer), claims);
    var payload := MarshalControl(c).value;
    var signature := scheme.sign(key, payload);
    ControlPrefixHasNoDot();
    OpenSealed(CONTROL_PREFIX, payload, signature);
    ControlRoundTrip(c);
    SealNotEmpty(CONTROL_PREFIX, payload, signature);
  }

  /** The grant holds canonical bytes that spell the claims, and a signature of just these bytes. */
  predicate AuthenticControl(scheme: Scheme, key: seq<byte>, grant: GoString, c: ControlGrant) {
    match Open(grant, CONTROL_PREFIX)
    case None => false
    case Some((payload, signature)) =>
      && Verifies(scheme, key, payload, signature)
      && CanonicalizeJSON(payload) == Ok(payload)
      && UnmarshalControl(payload) == Ok(c)
  }

  lemma UnmarshalControlIsCanonical(payload: GoString)
    requires UnmarshalControl(payload).Ok?
    ensures CanonicalizeJSON(payload) == Ok(payload)
  {
    hide CanonicalizeJSON, DecodeJSON, ControlNames, ControlDecodes;
  }

  /**
   Whatever bytes a control verifier accepts were signed under its key, and owner,
   generation, operation, action, scope and chain are those of request and call,
   which stands at the boundary within the grant's deadline.
   */
  lemma AcceptedControlIsAuthentic(scheme: Scheme, codec: Codec, grant: GoString, key: seq<byte>, b: ControlBinding,
                                   terminal: GoString)
    requires VerifyControl(scheme, codec, grant, key, b, terminal).Ok?
    ensures var c := VerifyControl(scheme, codec, grant, key, b, terminal).value;
            && AuthenticControl(scheme, key, grant, c)
            && codec.now < c.expiresAt <= c.issuedAt + 120_000
            && ControlAction(c.action) && c.scope == ScopeOf(c.action)
            && ControlBound(c, b, terminal)
            && b.callContext.Some?
            && b == ControlBinding(b.callContext, c.ownerId, c.accountGeneration, c.operationId, c.action, c.scope)
            && b.callContext.value.chainId == c.chainId && b.callContext.value.deadline <= c.deadline <= c.expiresAt
            && ControlRoute(c, terminal) == Ok((b.callContext.value.route, b.callContext.value.hop))
  {
    hide Open, UnmarshalControl, CanonicalizeJSON, ControlRoute, ValidateStrictCallContext,
         OperationId, GrantToken, ValidEntry, ControlAction, ScopeOf, RawKey;
    UnmarshalControlIsCanonical(Open(grant, CONTROL_PREFIX).value.0);
  }

  /** Control grants and root grants with the same entry predict the same boundary route. */
  lemma ControlRouteAgrees(c: ControlGrant, g: GrantClaims, terminal: GoString)
    requires ValidEntry(c.entryRoute, c.entryHop)
    requires g.entryRoute == c.entryRoute && g.entryHop == c.entryHop
    ensures ControlRoute(c, terminal) == BoundaryRoute(g, terminal)
  {
    EntryNode(c.entryRoute, c.entryHop);
  }

  // ---------- one purpose per grant ----------

  lemma PrefixesDiffer()
    ensures GRANT_PREFIX != CONTROL_PREFIX && KIND_ROOT != KIND_PRODUCT_CHILD
  {
    assert |GRANT_PREFIX| == 8 && |CONTROL_PREFIX| == 16 && |KIND_ROOT| == 4 && |KIND_PRODUCT_CHILD| == 13;
  }

  /** What an accepted grant says depends on its bytes alone. */
  lemma VerifiedClaims(scheme: Scheme, codec: Codec, grant: GoString, key: seq<byte>)
    requires VerifySigned(scheme, codec, grant, key).Ok?
    ensures Open(grant, GRANT_PREFIX).Some?
    ensures Unmarshal(Open(grant, GRANT_PREFIX).value.0) == VerifySigned(scheme, codec, grant, key)
  {
    hide Open, Unmarshal, ValidClaims, Normalized;
  }

  /**
   No bytes serve two purposes: of the root verifiers, the delegation verifier
   and the control verifiers at most one kind accepts a given text, whatever the
   keys, clocks and requests.
   */
  lemma PurposesSeparate(s1: Scheme, s2: Scheme, s3: Scheme, grant: GoString, k1: seq<byte>, k2: seq<byte>,
                         k3: seq<byte>, t1: int64, t2: int64, codec: Codec, root: RootBinding, d: Descriptor,
                         product: Delegation.ProductBinding, control: ControlBinding, terminal: GoString)
    ensures var asRoot := VerifyRoot(s1, t1, grant, k1, root).Ok? || VerifyAgentRoot(s1, t1, grant, k1, root, d).Ok?;
            var asChild := Delegation.VerifyDelegation(s2, t2, grant, k2, product).Ok?;
            var asControl := VerifyControl(s3, codec, grant, k3, control, terminal).Ok?;
            !(asRoot && asChild) && !(asRoot && asControl) && !(asChild && asControl)
  {
    hide VerifySigned, Open, Unmarshal, RootBound, DescriptorBound, Ascii, UnmarshalControl, ValidControl,
         ControlInTime, ControlCodec, Delegation.BindingComplete;
    PrefixesDiffer();
    if VerifySigned(s1, ClockOnly(t1), grant, k1).Ok? {
      VerifiedClaims(s1, ClockOnly(t1), grant, k1);
    }
    if VerifySigned(s2, ClockOnly(t2), grant, k2).Ok? {
      VerifiedClaims(s2, ClockOnly(t2), grant, k2);
    }
    if Open(grant, GRANT_PREFIX).Some? && Open(grant, CONTROL_PREFIX).Some? {
      OnePrefix(grant, GRANT_PREFIX, CONTROL_PREFIX);
    }
  }
}
