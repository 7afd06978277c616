/**
 Concrete grants: a child that outlives its parent, a descriptor that the
 delegation guards accept and the grant rules refuse, and a signed grant that no
 verifier reads.
 */
module DelegationWitness {
  import opened Basics
  import opened Binary64
  import opened CallRoute
  import opened Delegation
  import opened Envelope
  import opened Grants
  import opened GrantSize
  import opened GrantWire
  import opened JsonNumber
  import opened JsonString
  import opened Payload
  import opened RootBoundary
  import opened Tokens
  import InexactWitness
  import Numerals
  import Scaling
  import Utf8

  const ID := Ascii("11111111-1111-1111-1111-111111111111")

  const OWNER := Ascii("owner")
  const AGENT_CAPABILITY := Ascii("agent.chat")
  const PRODUCT_CAPABILITY := Ascii("product.contacts")
  const LIST := Ascii("list")
  const SCOPE := Ascii("contacts:read")
  const DIGEST := Ascii("00000000000000000000000000000000")

  /** A root grant that enters from ms, with the given times. */
  function Root(issuedAt: int64, expiresAt: int64): GrantClaims {
    GrantClaims(ID, ID, [], KIND_ROOT, [], OWNER, 1, [SCOPE], AGENT_CAPABILITY, LIST, DIGEST, DIGEST, DIGEST,
                issuedAt, expiresAt, expiresAt, MS, 1, 3, 256)
  }

  lemma IdIsOperationId()
    ensures OperationId(ID) && PlainText(ID)
  {
    PlainLiteral("11111111-1111-1111-1111-111111111111");
    assert ID[0] == 0x31;
  }

  lemma NamesAreTokens()
    ensures OWNER != [] && PlainText(OWNER) && GrantToken(OWNER, 256)
    ensures PlainText(AGENT_CAPABILITY) && GrantToken(AGENT_CAPABILITY, 256)
    ensures PlainText(PRODUCT_CAPABILITY) && GrantToken(PRODUCT_CAPABILITY, 256) && ReplayToken(PRODUCT_CAPABILITY)
    ensures PlainText(LIST) && GrantToken(LIST, 256) && ReplayToken(LIST)
    ensures PlainText(SCOPE) && GrantToken(SCOPE, 128) && |SCOPE| == 13
  {
    hide PlainText, GrantToken, ReplayToken, ContextToken;
    TokenLiteral("owner");
    TokenLiteral("agent.chat");
    TokenLiteral("product.contacts");
    TokenLiteral("list");
    TokenLiteral("contacts:read");
  }

  lemma TokenLiteral(s: string)
    requires s != [] && |s| <= 128
    requires forall i :: 0 <= i < |s| ==> 0x21 <= (s[i] as int) < 0x7F && s[i] != '\"' && s[i] != '\\'
    ensures PlainText(Ascii(s)) && GrantToken(Ascii(s), 128) && GrantToken(Ascii(s), 256) && ReplayToken(Ascii(s))
  {
    hide GrantToken, ReplayToken, ContextToken, Utf8.Valid, Utf8.Runes, Trimmed;
    PlainLiteral(s);
    PrintableToken(Ascii(s));
  }

  lemma KindsPlain()
    ensures PlainText(KIND_ROOT) && PlainText(KIND_PRODUCT_CHILD) && PlainText(TARGET_QUERY) && PlainText([])
    ensures PlainText(MS) && PlainText(AGENT)
  {
    PlainLiteral("root");
    PlainLiteral("product-child");
    PlainLiteral("query");
  }

  lemma ScopesSorted()
    ensures SortedUnique([SCOPE])
  {
    hide GrantToken, SortedUnique, Ascii, PlainText, ReplayToken, OperationId;
    NamesAreTokens();
    OneScope(SCOPE);
  }

  /** Any times that fit the default lifetime make a valid root grant. */
  lemma RootValid(issuedAt: int64, expiresAt: int64)
    requires 0 < issuedAt < expiresAt && expiresAt - issuedAt <= 900_000
    ensures ValidClaims(Root(issuedAt, expiresAt), DEFAULT_TTL) && IsRoot(Root(issuedAt, expiresAt))
    ensures ParentDelegates(Root(issuedAt, expiresAt))
  {
    IdIsOperationId();
    NamesAreTokens();
    ScopesSorted();
    SingleNodes();
    TargetsDiffer();
    hide OperationId, GrantToken, ReplayToken, SortedUnique, ValidEntry, PlainText, Ascii;
  }

  lemma RootPlain(issuedAt: int64, expiresAt: int64)
    requires IntAccepted(issuedAt) && IntAccepted(expiresAt)
    ensures PlainClaims(Root(issuedAt, expiresAt))
  {
    hide IntAccepted, PlainText, Ascii, GrantToken, ReplayToken, OperationId;
    IdIsOperationId();
    NamesAreTokens();
    KindsPlain();
    SmallIntAccepted(1);
    assert [SCOPE][1..] == [];
    assert ListLength([SCOPE]) == |SCOPE| + 3;
  }

  // ---------- a child that outlives its parent ----------

  /** The parent of the example lives from 1 000 000 to 1 060 000; the call ends before it does. */
  const PARENT: GrantClaims := Root(1_000_000, 1_060_000)
  const CALL: CallContext := CallContext(ID, ID, [], 3, FROM_MS, 1_055_000)
  const ISSUE: Issue :=
    Issue(PARENT, Some(CALL), [], [SCOPE], Query, DIGEST, Descriptor(PRODUCT_CAPABILITY, LIST, DIGEST, DIGEST))

  /** The child is signed at 1 050 000 with the default settings. */
  const SIGNER: Codec := Codec(1_050_000, 0, 0, 0)

  lemma CallValid()
    ensures ValidateStrictCallContext(CALL).None?
  {
    hide OperationId, ContextToken, ParseRoute;
    IdIsOperationId();
    OperationIdIsToken(ID);
    ProductRoutes();
    assert |FROM_MS| <= 30 by {
      LegalRoute([MS, AGENT, PRODUCT]);
    }
    LegalNodes([MS, AGENT, PRODUCT]);
  }

  lemma IssueAccepted()
    ensures Accepted(ISSUE) && BudgetCovers(ISSUE)
  {
    hide OperationId, GrantToken, ReplayToken, SortedUnique, ParentDelegates, ValidateStrictCallContext, Ascii;
    RootValid(1_000_000, 1_060_000);
    CallValid();
    NamesAreTokens();
    ScopesSorted();
    assert |FROM_MS| <= 30 by {
      ProductRoutes();
      LegalRoute([MS, AGENT, PRODUCT]);
    }
  }

  lemma SignerSettings()
    ensures Capped(SIGNER) == Codec(1_050_000, DELEGATION_TTL, 0, DEFAULT_MAX_SIZE)
    ensures Normalized(SIGNER).maxSize == DEFAULT_MAX_SIZE
    ensures Millis(DELEGATION_TTL) == 120_000
  {
  }

  lemma EntryIsMs()
    ensures !(AGENT + ARROW <= FROM_MS)
  {
    ProductRoutes();
  }

  /** The claims that are signed, field by field. */
  lemma ChildIs()
    ensures Child(SIGNER, ISSUE) == GrantClaims(
              ID, ID, [], KIND_PRODUCT_CHILD, TARGET_QUERY, OWNER, 1, [SCOPE], PRODUCT_CAPABILITY, LIST,
              DIGEST, DIGEST, DIGEST, 1_050_000, 1_170_000, 1_055_000, MS, 1, 3, 256)
  {
    hide Ascii;
    SignerSettings();
    EntryIsMs();
    TargetsDiffer();
  }

  lemma ChildPlain()
    ensures PlainClaims(Child(SIGNER, ISSUE)) && IntsStable(Child(SIGNER, ISSUE))
  {
    ChildIs();
    hide IntAccepted, PlainText, Ascii, GrantToken, ReplayToken, OperationId, Child, StableInt;
    IdIsOperationId();
    NamesAreTokens();
    KindsPlain();
    SmallIntAccepted(1);
    SmallIntAccepted(1_050_000);
    SmallIntAccepted(1_170_000);
    SmallIntAccepted(1_055_000);
    SmallIntStable(1);
    SmallIntStable(1_050_000);
    SmallIntStable(1_170_000);
    SmallIntStable(1_055_000);
    assert [SCOPE][1..] == [];
    assert ListLength([SCOPE]) == |SCOPE| + 3;
  }

  lemma ChildClaimsValid()
    ensures ISSUE.callContext.Some? && ValidClaims(Child(SIGNER, ISSUE), Capped(SIGNER).maxTtl)
  {
    hide OperationId, GrantToken, ReplayToken, SortedUnique, ValidClaims, Accepted, Child, Ascii;
    IssueAccepted();
    SignerSettings();
    ChildIs();
    NamesAreTokens();
    ChildValid(SIGNER, ISSUE);
  }

  /** Every key signs this child. */
  lemma ChildSigned(scheme: Scheme, key: seq<byte>)
    requires Sound(scheme) && RawKey(key, PRIVATE_KEY_SIZE)
    ensures SignFromParent(scheme, SIGNER, ISSUE, key).Ok?
    ensures |SignFromParent(scheme, SIGNER, ISSUE, key).value| <= DEFAULT_MAX_SIZE
  {
    hide Accepted, ValidClaims, PlainClaims, IntsStable, SignFromParent, SignGrant, Filled, Capped, RawKey, Sound;
    IssueAccepted();
    IssueIsSigned(scheme, SIGNER, ISSUE, key);
    CappedSettings(SIGNER);
    SignerSettings();
    ChildClaimsValid();
    ChildPlain();
    PlainClaimsSign(scheme, Capped(SIGNER), ChildClaims(ISSUE), key);
  }

  /**
   A child that outlives its parent: issued by the book, it is accepted at the
   Product boundary 40 seconds after its parent has expired.
   */
  lemma ChildOutlivesParent(scheme: Scheme, key: seq<byte>)
    requires Sound(scheme) && RawKey(key, PRIVATE_KEY_SIZE) && RawKey(scheme.public(key), PUBLIC_KEY_SIZE)
    ensures Accepted(ISSUE) && SignFromParent(scheme, SIGNER, ISSUE, key).Ok?
    ensures var c := Child(SIGNER, ISSUE);
            && c.expiresAt == 1_170_000 > PARENT.expiresAt
            && VerifyDelegation(scheme, 1_100_000, SignFromParent(scheme, SIGNER, ISSUE, key).value,
                                scheme.public(key), MatchingBinding(ISSUE)) == Ok(c)
  {
    hide Accepted, ValidClaims, PlainClaims, IntsStable, SignFromParent, VerifyDelegation, Child, MatchingBinding,
         BudgetCovers, RawKey, Sound;
    IssueAccepted();
    ChildSigned(scheme, key);
    ChildIs();
    ChildPlain();
    DelegationComplete(scheme, SIGNER, ISSUE, key, 1_100_000);
  }

  // ---------- and its parent ----------

  /** The parent was signed at 1 000 000 with the default settings. */
  const PARENT_SIGNER: Codec := Codec(1_000_000, 0, 0, 0)
  const ORIGIN: CallContext := CallContext(ID, ID, [], 0, [], 1_055_000)

  lemma ParentFilled()
    ensures Normalized(PARENT_SIGNER).maxTtl == DEFAULT_TTL
    ensures Normalized(PARENT_SIGNER).maxSize == DEFAULT_MAX_SIZE
    ensures Filled(Normalized(PARENT_SIGNER), PARENT) == PARENT
  {
    hide Ascii;
    KindNotEmpty();
  }

  lemma CallStands()
    ensures CallMatches(PARENT, CALL, ORIGIN, [MS, AGENT, PRODUCT], [SCOPE])
    ensures CallCovered(PARENT, CALL, [MS, AGENT, PRODUCT], PRODUCT)
  {
    hide OperationId, GrantToken, SortedUnique, ValidateStrictCallContext, ParseRoute, Ascii;
    ProductRoutes();
    CallValid();
    ScopesSorted();
    assert |FROM_MS| <= 30 by {
      LegalRoute([MS, AGENT, PRODUCT]);
    }
    hide RouteText;
  }

  lemma ParentStable()
    ensures IntsStable(PARENT)
  {
    hide StableInt, Ascii;
    SmallIntStable(1);
    SmallIntStable(1_000_000);
    SmallIntStable(1_060_000);
  }

  /** The parent is signed, and for this call its boundary accepts it until 1 060 000 and no longer. */
  lemma ParentVerdict(scheme: Scheme, key: seq<byte>, now: int64)
    requires Sound(scheme) && RawKey(key, PRIVATE_KEY_SIZE) && RawKey(scheme.public(key), PUBLIC_KEY_SIZE)
    ensures SignGrant(scheme, PARENT_SIGNER, PARENT, key).Ok?
    ensures VerifyRoot(scheme, now, SignGrant(scheme, PARENT_SIGNER, PARENT, key).value, scheme.public(key),
                       MatchingRoot(PARENT, CALL, [SCOPE]))
            == if now < 1_000_000 then Err(GrantNotYetValid)
               else if now >= 1_060_000 then Err(GrantExpired)
               else Ok(PARENT)
  {
    hide ValidClaims, PlainClaims, IntsStable, SignGrant, VerifyRoot, Filled, Normalized, RawKey, Sound, CallMatches,
         CallCovered, MatchingRoot, IntAccepted;
    RootValid(1_000_000, 1_060_000);
    SmallIntAccepted(1_000_000);
    SmallIntAccepted(1_060_000);
    RootPlain(1_000_000, 1_060_000);
    ParentFilled();
    ParentStable();
    CallStands();
    PlainClaimsSign(scheme, PARENT_SIGNER, PARENT, key);
    RootComplete(scheme, PARENT_SIGNER, PARENT, key, now, CALL, ORIGIN, [MS, AGENT, PRODUCT], [SCOPE]);
  }

  // ---------- a descriptor that only the delegation guards accept ----------

  /** U+0080, a C1 control character. */
  const CONTROL_NAME: GoString := [0xC2, 0x80]

  lemma ControlNameTokens()
    ensures ReplayToken(CONTROL_NAME) && !GrantToken(CONTROL_NAME, 256)
  {
    Utf8.RunesEncoded([0x80]);
    assert Utf8.Encode([0x80]) == CONTROL_NAME by {
      assert [0x80 as Utf8.rune][1..] == [];
      assert Utf8.EncodeRune(0x80) == CONTROL_NAME;
    }
    assert Utf8.Runes(CONTROL_NAME)[0] == 0x80;
  }

  /** An issue with that capability passes every guard and is refused by every signer. */
  lemma GuardsAdmitControlName(scheme: Scheme, codec: Codec, key: seq<byte>)
    ensures var issue := ISSUE.(descriptor := ISSUE.descriptor.(capabilityId := CONTROL_NAME));
            Accepted(issue) && SignFromParent(scheme, codec, issue, key).Err?
  {
    hide ReplayToken, GrantToken, ParentDelegates, SortedUnique, SignFromParent, OperationId, RawKey, Ascii,
         ValidateStrictCallContext, ChildFits, Contains, Marshal, Seal, DeadlineFits;
    IssueAccepted();
    ControlNameTokens();
    DelegationSigns(scheme, codec, ISSUE.(descriptor := ISSUE.descriptor.(capabilityId := CONTROL_NAME)), key);
  }

  // ---------- a signed grant that no verifier reads ----------

  const TWO_62: int64 := 4_611_686_018_427_387_904
  const UNSTABLE: GrantClaims := Root(TWO_62 - 512_000, TWO_62)

  lemma TimesAccepted()
    ensures IntAccepted(TWO_62) && IntAccepted(TWO_62 - 512_000)
  {
    hide CanonicalNumber, Numerals.IntText;
    InexactWitness.TwoTo62Unstable();
    var m := TWO_53 - 1_000;
    assert Scaling.IntShift(m, 9) == TWO_62 - 512_000 by {
      Shift512(m);
    }
    assert ShiftedSignificand(TWO_62 - 512_000);
    assert TWO_62 - 512_000 < Limit() by {
      BelowLimit();
    }
    IntTextAccepted(TWO_62 - 512_000);
  }

  lemma Shift512(n: int)
    ensures Scaling.IntShift(n, 9) == 512 * n
  {
    assert Scaling.IntShift(n, 0) == n && Scaling.IntShift(n, 1) == 2 * n && Scaling.IntShift(n, 2) == 4 * n;
    assert Scaling.IntShift(n, 3) == 8 * n && Scaling.IntShift(n, 4) == 16 * n && Scaling.IntShift(n, 5) == 32 * n;
    assert Scaling.IntShift(n, 6) == 64 * n && Scaling.IntShift(n, 7) == 128 * n && Scaling.IntShift(n, 8) == 256 * n;
  }

  lemma BelowLimit()
    ensures TWO_62 - 512_000 < Limit()
  {
    hide Scaling.Shift, Scaling.IntShift;
    Scaling.ShiftOfInt(TWO_53, MAX_EXPONENT);
    Scaling.ShiftOfInt(TWO_53, 9);
    Scaling.ShiftGrows(TWO_53 as real, 9, MAX_EXPONENT);
    Shift512(TWO_53);
  }

  lemma UnstableSettings(signer: Codec)
    requires signer.maxTtl == 0 && signer.maxSize == 0
    ensures Normalized(signer).maxTtl == DEFAULT_TTL && Normalized(signer).maxSize == DEFAULT_MAX_SIZE
    ensures Filled(Normalized(signer), UNSTABLE) == UNSTABLE
  {
    hide Ascii;
    KindNotEmpty();
  }

  /**
   Every key signs these claims with the default settings, and every verifier that
   admits the grant's size refuses it, whatever its clock: the expiry that was
   printed is not the expiry that is read.
   */
  lemma SignedAndUnreadable(scheme: Scheme, signer: Codec, verifier: Codec, key: seq<byte>)
    requires Sound(scheme) && RawKey(key, PRIVATE_KEY_SIZE) && RawKey(scheme.public(key), PUBLIC_KEY_SIZE)
    requires signer.maxTtl == 0 && signer.maxSize == 0
    ensures ValidClaims(UNSTABLE, DEFAULT_TTL) && SignGrant(scheme, signer, UNSTABLE, key).Ok?
    ensures var grant := SignGrant(scheme, signer, UNSTABLE, key).value;
            |grant| <= DEFAULT_MAX_SIZE
            && (|grant| <= Normalized(verifier).maxSize ==>
                  VerifySigned(scheme, verifier, grant, scheme.public(key)) == Err(InvalidGrant))
  {
    hide ValidClaims, PlainClaims, Filled, SignGrant, VerifySigned, Normalized, RawKey, Sound, StableInt, Root,
         IntAccepted;
    RootIs();
    RootValid(TWO_62 - 512_000, TWO_62);
    TimesAccepted();
    RootPlain(TWO_62 - 512_000, TWO_62);
    UnstableSettings(signer);
    PlainClaimsSign(scheme, signer, UNSTABLE, key);
    InexactWitness.TwoTo62Unstable();
    SignedIsJudged(scheme, signer, verifier, UNSTABLE, key);
  }

  lemma RootIs()
    ensures UNSTABLE.expiresAt == TWO_62 == InexactWitness.TWO_62
  {
  }
}
