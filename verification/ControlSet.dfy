/**
 The complete set of control grants that a replayed start returns: one grant per
 required action, each verified at the boundary of the actual call.
 */
module ControlSet {
  import opened Basics
  import opened CallRoute
  import opened ControlGrants
  import opened Envelope
  import opened Tokens

  const MAX_ENVELOPES: nat := 4

  datatype ControlEnvelope = ControlEnvelope(action: GoString, grant: GoString, expiresAt: int64)

  /** One envelope on its own; None is a nil pointer. */
  predicate EnvelopeFits(e: Option<ControlEnvelope>, now: int64) {
    && e.Some?
    && ControlAction(e.value.action)
    && 0 < |e.value.grant| <= DEFAULT_MAX_SIZE && CONTROL_PREFIX + DOT <= e.value.grant
    && now < e.value.expiresAt && e.value.expiresAt - now <= Millis(CONTROL_TTL)
  }

  predicate DistinctActions(envelopes: seq<Option<ControlEnvelope>>)
    requires forall i :: 0 <= i < |envelopes| ==> envelopes[i].Some?
  {
    forall i, j :: 0 <= i < j < |envelopes| ==> envelopes[i].value.action != envelopes[j].value.action
  }

  predicate EnvelopesValid(envelopes: seq<Option<ControlEnvelope>>, now: int64) {
    envelopes == []
    || (&& |envelopes| <= MAX_ENVELOPES && now > 0
        && (forall i :: 0 <= i < |envelopes| ==> EnvelopeFits(envelopes[i], now))
        && DistinctActions(envelopes))
  }

  /** `ValidateOperationControlGrantEnvelopes`: the actions seen so far are kept in a set. */
  method ValidateEnvelopes(envelopes: seq<Option<ControlEnvelope>>, now: int64) returns (ok: bool)
    ensures ok <==> EnvelopesValid(envelopes, now)
  {
    hide Ascii, Millis, ControlAction;
    if envelopes == [] {
      return true;
    }
    if |envelopes| > MAX_ENVELOPES || now <= 0 {
      return false;
    }
    var seen: set<GoString> := {};
    for i := 0 to |envelopes|
      invariant forall k :: 0 <= k < i ==> EnvelopeFits(envelopes[k], now)
      invariant seen == set k | 0 <= k < i :: envelopes[k].value.action
      invariant DistinctActions(envelopes[..i])
    {
      if envelopes[i].None? || !ControlAction(envelopes[i].value.action) {
        return false;
      }
      var e := envelopes[i].value;
      if e.action in seen {
        assert exists k :: 0 <= k < i && envelopes[k].value.action == e.action;
        return false;
      }
      seen := seen + {e.action};
      if |e.grant| == 0 || |e.grant| > DEFAULT_MAX_SIZE || !(CONTROL_PREFIX + DOT <= e.grant) {
        return false;
      }
      if e.expiresAt <= now || e.expiresAt - now > Millis(CONTROL_TTL) {
        return false;
      }
    }
    assert envelopes[..|envelopes|] == envelopes;
    return true;
  }

  // ---------- the set as a whole ----------

  datatype SetBinding = SetBinding(
    callContext: Option<CallContext>,
    ownerId: GoString,
    accountGeneration: int64,
    operationId: GoString,
    requiredActions: seq<GoString>)

  /** `validateControlGrantEnvelopeBinding` returns no error. */
  predicate SetBindingFits(b: SetBinding) {
    && b.callContext.Some? && b.ownerId != [] && b.accountGeneration > 0 && b.operationId != []
    && b.requiredActions != []
    && ValidateStrictCallContext(b.callContext.value).None?
    && OperationId(b.operationId)
    && ReplayToken(b.ownerId)
  }

  /** The boundary that a call on this route has reached. */
  function BoundaryOf(route: GoString): Option<GoString> {
    if route == MS + ARROW + AGENT then Some(AGENT)
    else if route == MS + ARROW + AGENT + ARROW + PRODUCT || route == AGENT + ARROW + PRODUCT then Some(PRODUCT)
    else None
  }

  function ActionBinding(b: SetBinding, action: GoString): ControlBinding {
    ControlBinding(b.callContext, b.ownerId, b.accountGeneration, b.operationId, action, ScopeOf(action))
  }

  /** What one envelope of the set contributes. */
  function EnvelopeClaims(scheme: Scheme, codec: Codec, key: seq<byte>, b: SetBinding, e: ControlEnvelope)
    : Result<ControlGrant>
    requires b.callContext.Some?
  {
    match BoundaryOf(b.callContext.value.route)
    case None => Err(ControlGrantRefresh)
    case Some(terminal) =>
      match VerifyControl(scheme, codec, e.grant, key, ActionBinding(b, e.action), terminal)
      case Err(_) => Err(ControlGrantRefresh)
      case Ok(c) => if c.expiresAt == e.expiresAt then Ok(c) else Err(ControlGrantRefresh)
  }

  predicate DistinctItems(s: seq<GoString>) {
    forall i, j :: 0 <= i < j < |s| ==> s[i] != s[j]
  }

  function ItemSet(s: seq<GoString>): set<GoString> {
    set x | x in s
  }

  function Actions(envelopes: seq<Option<ControlEnvelope>>): seq<GoString>
    requires forall i :: 0 <= i < |envelopes| ==> envelopes[i].Some?
  {
    seq(|envelopes|, i requires 0 <= i < |envelopes| => envelopes[i].value.action)
  }

  lemma {:induction false} DistinctCount(s: seq<GoString>)
    requires DistinctItems(s)
    ensures |ItemSet(s)| == |s|
  {
    if s != [] {
      var last := s[|s| - 1];
      DistinctCount(s[..|s| - 1]);
      assert s == s[..|s| - 1] + [last];
      assert ItemSet(s) == ItemSet(s[..|s| - 1]) + {last};
    } else {
      assert ItemSet(s) == {};
    }
  }

  lemma {:induction false} SubsetOfSameSize(a: set<GoString>, b: set<GoString>)
    requires a <= b && |a| == |b|
    ensures a == b
    decreases |a|
  {
    if x :| x in b && x !in a {
      SubsetSize(a, b - {x});
    }
  }

  /** As many distinct actions as are required, all of them required: none is missing. */
  lemma ExactCover(offered: seq<GoString>, required: seq<GoString>)
    requires DistinctItems(offered) && DistinctItems(required) && |offered| == |required|
    requires forall x :: x in offered ==> x in required
    ensures ItemSet(offered) == ItemSet(required)
  {
    DistinctCount(offered);
    DistinctCount(required);
    SubsetOfSameSize(ItemSet(offered), ItemSet(required));
  }

  /** The claims that a set may carry for an action. */
  predicate ClaimFits(c: ControlGrant, action: GoString, b: SetBinding, now: int64) {
    && c.action == action && c.scope == ScopeOf(action)
    && c.ownerId == b.ownerId && c.accountGeneration == b.accountGeneration && c.operationId == b.operationId
    && b.callContext.Some? && c.chainId == b.callContext.value.chainId
    && b.callContext.value.deadline <= c.deadline <= c.expiresAt
    && now < c.expiresAt <= c.issuedAt + 120_000
    && BoundaryOf(b.callContext.value.route).Some?
    && ControlRoute(c, BoundaryOf(b.callContext.value.route).value)
       == Ok((b.callContext.value.route, b.callContext.value.hop))
  }

  lemma AcceptedClaimFits(scheme: Scheme, codec: Codec, key: seq<byte>, b: SetBinding, e: ControlEnvelope)
    requires b.callContext.Some? && EnvelopeClaims(scheme, codec, key, b, e).Ok?
    ensures var c := EnvelopeClaims(scheme, codec, key, b, e).value;
            ClaimFits(c, e.action, b, codec.now) && c.expiresAt == e.expiresAt
  {
    hide Open, UnmarshalControl, VerifyControl, AuthenticControl, BoundaryOf, ScopeOf, ControlRoute, ControlBound;
    var terminal := BoundaryOf(b.callContext.value.route).value;
    AcceptedControlIsAuthentic(scheme, codec, e.grant, key, ActionBinding(b, e.action), terminal);
  }

  /** When a set is accepted. */
  predicate SetAccepted(scheme: Scheme, codec: Codec, envelopes: seq<Option<ControlEnvelope>>, key: seq<byte>,
                        b: SetBinding)
  {
    && SetBindingFits(b)
    && EnvelopesValid(envelopes, codec.now)
    && |envelopes| == |b.requiredActions|
    && (forall x :: x in b.requiredActions ==> ControlAction(x))
    && DistinctItems(b.requiredActions)
    && (forall i :: 0 <= i < |envelopes| ==>
          && envelopes[i].Some?
          && envelopes[i].value.action in b.requiredActions
          && EnvelopeClaims(scheme, codec, key, b, envelopes[i].value).Ok?)
  }

  /** `m` holds the claims of the first `n` envelopes under their actions, and nothing else. */
  predicate Collected(m: map<GoString, ControlGrant>, scheme: Scheme, codec: Codec, key: seq<byte>, b: SetBinding,
                      envelopes: seq<Option<ControlEnvelope>>, n: nat)
    requires b.callContext.Some? && n <= |envelopes|
    requires forall i :: 0 <= i < |envelopes| ==> envelopes[i].Some?
  {
    && m.Keys == ItemSet(Actions(envelopes)[..n])
    && (forall k :: 0 <= k < n ==>
          && envelopes[k].value.action in m
          && EnvelopeClaims(scheme, codec, key, b, envelopes[k].value) == Ok(m[envelopes[k].value.action]))
  }

  lemma CollectNext(m: map<GoString, ControlGrant>, scheme: Scheme, codec: Codec, key: seq<byte>, b: SetBinding,
                    envelopes: seq<Option<ControlEnvelope>>, n: nat, c: ControlGrant)
    requires b.callContext.Some? && n < |envelopes|
    requires forall i :: 0 <= i < |envelopes| ==> envelopes[i].Some?
    requires Collected(m, scheme, codec, key, b, envelopes, n) && DistinctItems(Actions(envelopes))
    requires EnvelopeClaims(scheme, codec, key, b, envelopes[n].value) == Ok(c)
    ensures Collected(m[envelopes[n].value.action := c], scheme, codec, key, b, envelopes, n + 1)
  {
    hide EnvelopeClaims;
    var all, action := Actions(envelopes), envelopes[n].value.action;
    assert all[..n + 1] == all[..n] + [action];
    assert forall k :: 0 <= k < n ==> all[k] != all[n];
    assert m[action := c].Keys == m.Keys + {action};
  }

  lemma CollectedFits(m: map<GoString, ControlGrant>, scheme: Scheme, codec: Codec, key: seq<byte>, b: SetBinding,
                      envelopes: seq<Option<ControlEnvelope>>)
    requires b.callContext.Some? && (forall i :: 0 <= i < |envelopes| ==> envelopes[i].Some?)
    requires Collected(m, scheme, codec, key, b, envelopes, |envelopes|)
    ensures forall action :: action in m ==> ClaimFits(m[action], action, b, codec.now)
  {
    hide EnvelopeClaims, ClaimFits;
    forall action | action in m
      ensures ClaimFits(m[action], action, b, codec.now)
    {
      assert action in Actions(envelopes)[..|envelopes|];
      var k :| 0 <= k < |envelopes| && Actions(envelopes)[k] == action;
      AcceptedClaimFits(scheme, codec, key, b, envelopes[k].value);
    }
  }

  /** The loop that verifies the envelopes one by one; None as soon as one is refused. */
  method CollectClaims(scheme: Scheme, codec: Codec, envelopes: seq<Option<ControlEnvelope>>, key: seq<byte>,
                       b: SetBinding, required: set<GoString>) returns (r: Option<map<GoString, ControlGrant>>)
    requires b.callContext.Some? && (forall i :: 0 <= i < |envelopes| ==> envelopes[i].Some?)
    requires DistinctItems(Actions(envelopes))
    ensures r.Some? <==> forall i :: 0 <= i < |envelopes| ==>
                           && envelopes[i].value.action in required
                           && EnvelopeClaims(scheme, codec, key, b, envelopes[i].value).Ok?
    ensures r.Some? ==> Collected(r.value, scheme, codec, key, b, envelopes, |envelopes|)
  {
    hide EnvelopeClaims;
    var claimsByAction: map<GoString, ControlGrant> := map[];
    for i := 0 to |envelopes|
      invariant Collected(claimsByAction, scheme, codec, key, b, envelopes, i)
      invariant forall k :: 0 <= k < i ==> envelopes[k].value.action in required
    {
      var e := envelopes[i].value;
      if e.action !in required {
        return None;
      }
      var claims := EnvelopeClaims(scheme, codec, key, b, e);
      if claims.Err? {
        return None;
      }
      CollectNext(claimsByAction, scheme, codec, key, b, envelopes, i, claims.value);
      claimsByAction := claimsByAction[e.action := claims.value];
    }
    return Some(claimsByAction);
  }

  /**
   `VerifyControlGrantEnvelopeSet`: on success the map has exactly the required
   actions as keys, and each holds the verified claims of the one envelope with
   that action.
   */
  method VerifyEnvelopeSet(scheme: Scheme, codec: Codec, envelopes: seq<Option<ControlEnvelope>>, key: seq<byte>,
                           b: SetBinding) returns (r: Result<map<GoString, ControlGrant>>)
    ensures r.Ok? <==> SetAccepted(scheme, Normalized(codec), envelopes, key, b)
    ensures r.Err? ==> r.error == ControlGrantRefresh
    ensures r.Ok? ==> r.value.Keys == ItemSet(b.requiredActions) && |r.value| == |envelopes|
    ensures r.Ok? ==> forall i :: 0 <= i < |envelopes| ==>
                        && envelopes[i].Some? && envelopes[i].value.action in r.value
                        && EnvelopeClaims(scheme, Normalized(codec), key, b, envelopes[i].value)
                           == Ok(r.value[envelopes[i].value.action])
    ensures r.Ok? ==> forall action :: action in r.value ==> ClaimFits(r.value[action], action, b, codec.now)
  {
    hide SetBindingFits, EnvelopesValid, EnvelopeClaims, ControlAction, ClaimFits, Normalized;
    if !SetBindingFits(b) {
      return Err(ControlGrantRefresh);
    }
    BindingHasContext(b);
    var c := Normalized(codec);
    var valid := ValidateEnvelopes(envelopes, c.now);
    if !valid || |envelopes| != |b.requiredActions| {
      return Err(ControlGrantRefresh);
    }
    ValidEnvelopes(envelopes, c.now);
    var required := RequiredSet(b.requiredActions);
    if required.None? {
      return Err(ControlGrantRefresh);
    }
    var collected := CollectClaims(scheme, c, envelopes, key, b, required.value);
    if collected.None? {
      return Err(ControlGrantRefresh);
    }
    assert Actions(envelopes)[..|envelopes|] == Actions(envelopes);
    assert forall k :: 0 <= k < |envelopes| ==> Actions(envelopes)[k] in b.requiredActions;
    ExactCover(Actions(envelopes), b.requiredActions);
    DistinctCount(b.requiredActions);
    CollectedFits(collected.value, scheme, c, key, b, envelopes);
    return Ok(collected.value);
  }

  /** The required actions as a set, when they are control actions without repetition. */
  method RequiredSet(actions: seq<GoString>) returns (required: Option<set<GoString>>)
    ensures required.Some? <==> (forall x :: x in actions ==> ControlAction(x)) && DistinctItems(actions)
    ensures required.Some? ==> required.value == ItemSet(actions)
  {
    hide ControlAction;
    var seen: set<GoString> := {};
    for i := 0 to |actions|
      invariant seen == ItemSet(actions[..i]) && DistinctItems(actions[..i])
      invariant forall x :: x in actions[..i] ==> ControlAction(x)
    {
      if !ControlAction(actions[i]) {
        assert actions[i] in actions;
        return None;
      }
      if actions[i] in seen {
        assert exists k :: 0 <= k < i && actions[k] == actions[i];
        return None;
      }
      seen := seen + {actions[i]};
      assert actions[..i + 1] == actions[..i] + [actions[i]];
    }
    assert actions[..|actions|] == actions;
    return Some(seen);
  }

  lemma BindingHasContext(b: SetBinding)
    requires SetBindingFits(b)
    ensures b.callContext.Some?
  {
  }

  lemma ValidEnvelopes(envelopes: seq<Option<ControlEnvelope>>, now: int64)
    requires EnvelopesValid(envelopes, now)
    ensures forall i :: 0 <= i < |envelopes| ==> envelopes[i].Some?
    ensures DistinctItems(Actions(envelopes))
  {
  }
}
