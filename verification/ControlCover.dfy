/**
 What a set of control grants must be: the set verifier accepts exactly the sets
 whose grants are accepted one by one and cover the required actions.
 */
module ControlCover {
  import opened Acceptance
  import opened Basics
  import opened BoundaryRoutes
  import opened CallRoute
  import opened ControlGrants
  import opened ControlSet
  import opened Envelope
  import opened Tokens
  import Replay

  predicate ActionNamed(action: GoString) {
    action == Ascii("get") || action == Ascii("watch") || action == Ascii("cancel") || action == Ascii("reconcile")
  }

  /** An envelope names a control action, and carries a control grant that has at most two minutes to live. */
  predicate EnvelopeShaped(e: Option<ControlEnvelope>, now: int64) {
    && e.Some?
    && ActionNamed(e.value.action)
    && Ascii("control-grant-v1.") <= e.value.grant && |e.value.grant| <= 8192
    && now < e.value.expiresAt <= now + 120_000
  }

  lemma PrefixText()
    ensures CONTROL_PREFIX + DOT == Ascii("control-grant-v1.")
  {
  }

  /** A list of envelopes is well formed when it is empty, or has up to four shaped envelopes for different actions. */
  lemma EnvelopesMeaning(envelopes: seq<Option<ControlEnvelope>>, now: int64)
    ensures EnvelopesValid(envelopes, now)
            <==> || envelopes == []
                 || (&& |envelopes| <= 4 && now > 0
                     && (forall i :: 0 <= i < |envelopes| ==> EnvelopeShaped(envelopes[i], now))
                     && (forall i, j :: 0 <= i < j < |envelopes| ==>
                           envelopes[i].value.action != envelopes[j].value.action))
  {
    PrefixText();
    hide Ascii;
    forall i | 0 <= i < |envelopes|
      ensures EnvelopeFits(envelopes[i], now) <==> EnvelopeShaped(envelopes[i], now)
    {
    }
    hide EnvelopeFits, EnvelopeShaped;
  }

  /** The envelope's grant is accepted for its action, as a grant that expires when the envelope says. */
  ghost predicate Granted(scheme: Scheme, codec: Codec, key: seq<byte>, b: SetBinding, e: ControlEnvelope) {
    exists terminal: GoString, c: ControlGrant ::
      && VerifyControl(scheme, codec, e.grant, key, ActionBinding(b, e.action), terminal) == Ok(c)
      && c.expiresAt == e.expiresAt
  }

  lemma BoundaryArrives(entry: GoString, ctx: CallContext, terminal: GoString)
    requires (entry == MS || entry == AGENT) && (terminal == AGENT || terminal == PRODUCT)
    requires Arrives(entry, ctx, terminal)
    ensures BoundaryOf(ctx.route) == Some(terminal)
  {
    hide RouteText;
    PathTexts();
    NodesDiffer();
    RoutesApart();
  }

  lemma RoutesApart()
    ensures MS + ARROW + AGENT != MS + ARROW + AGENT + ARROW + PRODUCT
    ensures MS + ARROW + AGENT != AGENT + ARROW + PRODUCT
  {
    assert |MS + ARROW + AGENT| == 10 && |AGENT + ARROW + PRODUCT| == 15;
    assert |MS + ARROW + AGENT + ARROW + PRODUCT| == 20;
  }

  lemma OpensWithPrefix(grant: GoString)
    requires Open(grant, CONTROL_PREFIX).Some?
    ensures CONTROL_PREFIX + DOT <= grant
  {
    ControlPrefixHasNoDot();
    hide Ascii;
    var (payload, signature) := Open(grant, CONTROL_PREFIX).value;
    OpenMeaning(grant, CONTROL_PREFIX, payload, signature);
  }

  lemma OwnerReplays(owner: GoString)
    requires GrantToken(owner, 256)
    ensures ReplayToken(owner) && owner != []
  {
    Replay.GrantTokenReplays(owner);
  }

  /** What one accepted grant says about the set's binding. */
  lemma GrantedFits(scheme: Scheme, codec: Codec, key: seq<byte>, b: SetBinding, e: ControlEnvelope)
    requires codec == Normalized(codec) && Granted(scheme, codec, key, b, e) && b.requiredActions != []
    ensures SetBindingFits(b) && ActionNamed(e.action)
    ensures EnvelopeClaims(scheme, codec, key, b, e).Ok?
    ensures CONTROL_PREFIX + DOT <= e.grant && codec.now < e.expiresAt
  {
    hide VerifyControl, Open, UnmarshalControl, AuthenticControl, GrantToken, OperationId, ReplayToken, Ascii, Arrives,
         BoundaryOf, ValidateStrictCallContext, RawKey, Normalized;
    var terminal: GoString, c: ControlGrant :|
      && VerifyControl(scheme, codec, e.grant, key, ActionBinding(b, e.action), terminal) == Ok(c)
      && c.expiresAt == e.expiresAt;
    ControlMeaning(scheme, codec, e.grant, key, ActionBinding(b, e.action), terminal, c);
    var ctx := b.callContext.value;
    OwnerReplays(c.ownerId);
    OperationIdIsToken(c.operationId);
    BoundaryArrives(c.entryRoute, ctx, terminal);
    ArrivedStrict(c.entryRoute, ctx, terminal);
    AuthenticOpens(scheme, key, e.grant, c);
    OpensWithPrefix(e.grant);
  }

  lemma AuthenticOpens(scheme: Scheme, key: seq<byte>, grant: GoString, c: ControlGrant)
    requires AuthenticControl(scheme, key, grant, c)
    ensures Open(grant, CONTROL_PREFIX).Some?
  {
    hide Open, UnmarshalControl;
  }

  lemma ClaimsGranted(scheme: Scheme, codec: Codec, key: seq<byte>, b: SetBinding, e: ControlEnvelope)
    requires b.callContext.Some? && EnvelopeClaims(scheme, codec, key, b, e).Ok?
    ensures Granted(scheme, codec, key, b, e)
  {
    hide VerifyControl, BoundaryOf;
    var terminal := BoundaryOf(b.callContext.value.route).value;
    var c := EnvelopeClaims(scheme, codec, key, b, e).value;
    assert VerifyControl(scheme, codec, e.grant, key, ActionBinding(b, e.action), terminal) == Ok(c);
  }

  /** One envelope of an accepted set. */
  ghost predicate Holds(scheme: Scheme, codec: Codec, key: seq<byte>, b: SetBinding, e: Option<ControlEnvelope>) {
    && e.Some? && e.value.action in b.requiredActions
    && |e.value.grant| <= 8192 && e.value.expiresAt <= codec.now + 120_000
    && Granted(scheme, codec, key, b, e.value)
  }

  /** Up to four envelopes that hold, for as many different actions as are required. */
  ghost predicate Covers(scheme: Scheme, codec: Codec, envelopes: seq<Option<ControlEnvelope>>, key: seq<byte>,
                         b: SetBinding)
  {
    && codec.now > 0 && 1 <= |envelopes| <= 4 && |envelopes| == |b.requiredActions| && DistinctItems(b.requiredActions)
    && (forall i :: 0 <= i < |envelopes| ==> Holds(scheme, codec, key, b, envelopes[i]))
    && (forall i, j :: 0 <= i < j < |envelopes| ==> envelopes[i].value.action != envelopes[j].value.action)
  }

  lemma AcceptedCovers(scheme: Scheme, codec: Codec, envelopes: seq<Option<ControlEnvelope>>, key: seq<byte>,
                       b: SetBinding)
    requires codec == Normalized(codec) && SetAccepted(scheme, codec, envelopes, key, b)
    ensures Covers(scheme, codec, envelopes, key, b)
  {
    hide EnvelopeClaims, Ascii, Granted, EnvelopeShaped, Normalized;
    EnvelopesMeaning(envelopes, codec.now);
    forall i | 0 <= i < |envelopes|
      ensures Holds(scheme, codec, key, b, envelopes[i])
    {
      ClaimsGranted(scheme, codec, key, b, envelopes[i].value);
      ShapeLimits(envelopes[i], codec.now);
    }
  }

  lemma ShapeLimits(e: Option<ControlEnvelope>, now: int64)
    requires EnvelopeShaped(e, now)
    ensures |e.value.grant| <= 8192 && e.value.expiresAt <= now + 120_000
  {
    hide Ascii;
  }

  /** Every required action is that of an envelope, so it is a control action. */
  lemma RequiredNamed(envelopes: seq<Option<ControlEnvelope>>, required: seq<GoString>)
    requires |envelopes| == |required| && DistinctItems(required)
    requires forall i :: 0 <= i < |envelopes| ==>
               envelopes[i].Some? && envelopes[i].value.action in required && ActionNamed(envelopes[i].value.action)
    requires forall i, j :: 0 <= i < j < |envelopes| ==> envelopes[i].value.action != envelopes[j].value.action
    ensures forall x :: x in required ==> ControlAction(x)
  {
    hide Ascii;
    var offered := Actions(envelopes);
    assert forall k :: 0 <= k < |offered| ==> offered[k] in required;
    ExactCover(offered, required);
    forall x | x in required
      ensures ControlAction(x)
    {
      assert x in ItemSet(offered);
    }
  }

  lemma CoversAccepted(scheme: Scheme, codec: Codec, envelopes: seq<Option<ControlEnvelope>>, key: seq<byte>,
                       b: SetBinding)
    requires codec == Normalized(codec) && Covers(scheme, codec, envelopes, key, b)
    ensures SetAccepted(scheme, codec, envelopes, key, b)
  {
    hide EnvelopeClaims, Ascii, Granted, SetBindingFits, Normalized, ActionNamed, EnvelopesValid;
    PrefixText();
    assert b.requiredActions != [];
    forall i | 0 <= i < |envelopes|
      ensures EnvelopeShaped(envelopes[i], codec.now) && SetBindingFits(b)
      ensures b.callContext.Some? && EnvelopeClaims(scheme, codec, key, b, envelopes[i].value).Ok?
    {
      assert Holds(scheme, codec, key, b, envelopes[i]);
      GrantedFits(scheme, codec, key, b, envelopes[i].value);
      BindingHasContext(b);
    }
    hide EnvelopeShaped;
    assert SetBindingFits(b) by {
      assert EnvelopeShaped(envelopes[0], codec.now);
    }
    forall i | 0 <= i < |envelopes|
      ensures envelopes[i].Some? && ActionNamed(envelopes[i].value.action)
    {
      ShapeNames(envelopes[i], codec.now);
    }
    EnvelopesMeaning(envelopes, codec.now);
    RequiredNamed(envelopes, b.requiredActions);
  }

  lemma ShapeNames(e: Option<ControlEnvelope>, now: int64)
    requires EnvelopeShaped(e, now)
    ensures e.Some? && ActionNamed(e.value.action)
  {
  }

  /**
   The set verifier accepts exactly the covers: what it checks about the binding
   and the required actions on its own follows from the grants.
   */
  lemma SetMeaning(scheme: Scheme, codec: Codec, envelopes: seq<Option<ControlEnvelope>>, key: seq<byte>,
                   b: SetBinding)
    ensures SetAccepted(scheme, Normalized(codec), envelopes, key, b)
            <==> Covers(scheme, Normalized(codec), envelopes, key, b)
  {
    hide SetAccepted, Covers;
    ControlSettings(codec);
    if SetAccepted(scheme, Normalized(codec), envelopes, key, b) {
      AcceptedCovers(scheme, Normalized(codec), envelopes, key, b);
    }
    if Covers(scheme, Normalized(codec), envelopes, key, b) {
      CoversAccepted(scheme, Normalized(codec), envelopes, key, b);
    }
  }
}
