/**
 How long signed grants are: plain claims always fit the default size, so the
 signer accepts them.
 */
module GrantSize {
  import opened Basics
  import opened Binary64
  import opened Envelope
  import opened GoHeap
  import opened GrantWire
  import opened Grants
  import opened Json
  import opened JsonNumber
  import opened JsonRoundTrip
  import opened JsonString
  import opened KeyOrder
  import opened Numerals
  import opened Payload
  import opened ShortestDecimal
  import opened Tokens
  import Base64
  import Utf8

  // ---------- plain text ----------

  lemma {:induction false} UrlPlain(b: seq<byte>)
    ensures PlainText(Base64.Url(b))
  {
    hide Base64.Char;
    forall v: Base64.sextet
      ensures PlainByte(Base64.Char(v, true))
    {
      CharPlain(v);
    }
    if |b| >= 3 {
      UrlPlain(b[3..]);
      var g := Base64.Group(b[0], b[1], b[2], true);
      assert Base64.Url(b) == g + Base64.Url(b[3..]);
    }
  }

  lemma CharPlain(v: Base64.sextet)
    ensures PlainByte(Base64.Char(v, true))
  {
  }

  // ---------- the length of printed parts ----------

  lemma IntLength(n: int)
    requires -LIMIT64 <= n < LIMIT64 && IntAccepted(n)
    ensures |CanonicalNumber(IntText(n)).value| <= 22
  {
    hide Format, CanonicalNumber, IntText, ParseFloat, Round;
    if n == 0 {
      ZeroIsStable();
    } else {
      var m: nat := if n < 0 then -n else n;
      NonZeroExact(n, m);
      NonZeroText(n, m);
      TenTo19();
      RoundRepresentable(m as real);
      ShortestOfExactInt(m);
      FormatLength(n < 0, m as real);
    }
  }

  lemma FormatLength(negative: bool, x: real)
    requires Positive(x) && Shortest(x).quantum >= 0 && Shortest(x).quantum + Length(Shortest(x).sig) <= 21
    ensures |Format(negative, x)| <= 22
  {
    hide Shortest, Digits, Body;
    var d := Shortest(x);
    var ds := Digits(d.sig);
    DigitsLength(d.sig);
    LayoutForm(negative, ds, d.quantum + |ds| - 1);
  }

  /** The length of the elements of a list of plain texts, each with its quotes and a separator. */
  function ListLength(texts: seq<GoString>): nat {
    if texts == [] then 0 else |texts[0]| + 3 + ListLength(texts[1..])
  }

  lemma {:induction false} TextItemsLength(texts: seq<GoString>, first: bool)
    requires forall t :: t in texts ==> PlainText(t)
    ensures CanonItems(TextItems(texts), first).Ok?
    ensures |CanonItems(TextItems(texts), first).value| <= ListLength(texts) + 1
    decreases |texts|
  {
    hide PlainText, Quote;
    if texts != [] {
      PlainQuotes(texts[0]);
      TextItemsLength(texts[1..], false);
      assert TextItems(texts)[0] == Str(texts[0]);
      assert TextItems(texts)[1..] == TextItems(texts[1..]);
    }
  }

  const PART_LIMIT: nat := 258

  /** A member of the payload and its separator take at most 284 bytes. */
  predicate ShortMember(t: Json, k: GoString) {
    && t.Obj? && k in t.members && Quote(k).Ok? && Canon(t.members[k]).Ok?
    && |Quote(k).value| <= 24 && |Canon(t.members[k]).value| <= PART_LIMIT
  }

  lemma {:induction false} MembersLength(t: Json, keys: seq<GoString>, first: bool)
    requires t.Obj? && forall k :: k in keys ==> k in t.members && ShortMember(t, k)
    ensures CanonMembers(t, keys, first).Ok?
    ensures |CanonMembers(t, keys, first).value| <= 284 * |keys| + 1
    decreases |keys|
  {
    hide Canon, Quote;
    if keys != [] {
      assert ShortMember(t, keys[0]);
      MembersLength(t, keys[1..], false);
    }
  }

  lemma {:induction false} SortedCount(keys: set<GoString>)
    requires AllValid(keys)
    ensures |SortedKeys(keys)| == |keys|
    decreases |keys|
  {
    hide IsLeast, Ascending, Utf8.Valid;
    if keys != {} {
      var sorted := SortedKeys(keys);
      assert sorted[0] in Elements(sorted);
      var rest := keys - {sorted[0]};
      SortedCount(rest);
      assert keys == rest + {sorted[0]};
    }
  }

  lemma CountSeven(a: GoString, b: GoString, c: GoString, d: GoString, e: GoString, f: GoString, g: GoString)
    ensures |{a, b, c, d, e, f, g}| <= 7
  {
  }

  lemma NamesCount()
    ensures |FieldNames()| <= 21
  {
    hide Ascii, IsAscii;
    CountSeven(V, CHAIN_ID, ROOT_OPERATION_ID, CHILD_OPERATION_ID, GRANT_KIND, PRODUCT_TARGET_KIND, OWNER_ID);
    CountSeven(ACCOUNT_GENERATION, SCOPES, ROOT_CAPABILITY_ID, ROOT_OPERATION, ROOT_REQUEST_DIGEST, CATALOG_DIGEST,
               SCHEMA_DIGEST);
    CountSeven(ISSUED_AT, EXPIRES_AT, ENTRY_DEADLINE, ENTRY_ROUTE, ENTRY_HOP, MAX_HOP, MAX_ROUTE);
    UnionCount(
      {V, CHAIN_ID, ROOT_OPERATION_ID, CHILD_OPERATION_ID, GRANT_KIND, PRODUCT_TARGET_KIND, OWNER_ID},
      {ACCOUNT_GENERATION, SCOPES, ROOT_CAPABILITY_ID, ROOT_OPERATION, ROOT_REQUEST_DIGEST, CATALOG_DIGEST,
       SCHEMA_DIGEST},
      {ISSUED_AT, EXPIRES_AT, ENTRY_DEADLINE, ENTRY_ROUTE, ENTRY_HOP, MAX_HOP, MAX_ROUTE},
      FieldNames());
  }

  lemma UnionCount(a: set<GoString>, b: set<GoString>, c: set<GoString>, all: set<GoString>)
    requires forall x :: x in all ==> x in a || x in b || x in c
    ensures |all| <= |a| + |b| + |c|
  {
    SubsetSize(all, a + b + c);
    assert |a + b| <= |a| + |b|;
    assert |a + b + c| <= |a + b| + |c|;
  }

  lemma PayloadLength(c: GrantClaims)
    requires forall name :: name in FieldNames() ==>
               ShortMember(PayloadTree(PayloadMembers(c), c.scopes), name)
    ensures Marshal(c).Ok? && |Marshal(c).value| <= 5966
  {
    hide FieldNames, Field, Canon, CanonMembers, Print, SortedKeys, ShortMember;
    var t := PayloadTree(PayloadMembers(c), c.scopes);
    MembersShaped(c);
    PrintTree(PayloadMembers(c), c.scopes);
    NamesValid();
    NamesCount();
    assert t.members.Keys == FieldNames();
    SortedCount(FieldNames());
    SortedKeysAre(t);
    MembersLength(t, SortedKeys(FieldNames()), true);
    CanonOfObject(t);
  }

  lemma CanonOfObject(t: Json)
    requires t.Obj? && KeysValid(t)
    ensures forall k :: k in SortedKeys(t.members.Keys) ==> k in t.members
    ensures Canon(t) == Prepend([OPEN_OBJECT], CanonMembers(t, SortedKeys(t.members.Keys), true))
  {
    SortedKeysAre(t);
  }

  // ---------- plain claims ----------

  /** Plain texts, accepted integers, and a list of scopes that prints in at most 258 bytes. */
  predicate PlainClaims(c: GrantClaims) {
    && PlainText(c.chainId) && PlainText(c.rootOperationId) && PlainText(c.childOperationId)
    && PlainText(c.grantKind) && PlainText(c.productTargetKind) && PlainText(c.ownerId)
    && PlainText(c.rootCapabilityId) && PlainText(c.rootOperation) && PlainText(c.entryRoute)
    && (forall s :: s in c.scopes ==> PlainText(s)) && ListLength(c.scopes) <= 256
    && IntAccepted(c.accountGeneration) && IntAccepted(c.issuedAt)
    && IntAccepted(c.expiresAt) && IntAccepted(c.entryDeadline)
  }

  predicate ShortText(s: GoString) {
    PlainText(s) && |s| <= 256
  }

  lemma TextsShort(c: GrantClaims, maxTtl: int64)
    requires ValidClaims(c, maxTtl) && PlainClaims(c)
    ensures ShortText(c.chainId) && ShortText(c.rootOperationId) && ShortText(c.childOperationId)
    ensures ShortText(c.grantKind) && ShortText(c.productTargetKind) && ShortText(c.ownerId)
    ensures ShortText(c.rootCapabilityId) && ShortText(c.rootOperation) && ShortText(c.entryRoute)
    ensures ShortText(Base64.Url(c.rootRequestDigest)) && ShortText(Base64.Url(c.catalogDigest))
    ensures ShortText(Base64.Url(c.schemaDigest))
  {
    hide Ascii, PlainText, ValidTimes, SortedUnique, ValidEntry, Base64.Url, IntAccepted, Trimmed;
    UrlPlain(c.rootRequestDigest);
    UrlPlain(c.catalogDigest);
    UrlPlain(c.schemaDigest);
    Base64.UrlLength(c.rootRequestDigest);
    Base64.UrlLength(c.catalogDigest);
    Base64.UrlLength(c.schemaDigest);
    KindLengths();
  }

  lemma KindLengths()
    ensures |KIND_ROOT| == 4 && |KIND_PRODUCT_CHILD| == 13 && |TARGET_QUERY| == 5 && |TARGET_START| == 15
  {
  }

  /** What each field of valid plain claims prints. */
  predicate FieldIsShort(v: GoValue, texts: seq<GoString>) {
    match v
    case Int(i) => -LIMIT64 <= i < LIMIT64 && IntAccepted(i)
    case Text(s) => ShortText(s)
    case Ref(_) => (forall t :: t in texts ==> PlainText(t)) && ListLength(texts) <= 256
    case _ => false
  }

  lemma FieldShort(c: GrantClaims, maxTtl: int64, name: GoString)
    requires ValidClaims(c, maxTtl) && PlainClaims(c) && name in FieldNames()
    ensures FieldIsShort(Field(c, name), c.scopes)
  {
    hide Ascii, IsAscii, ShortText, IntAccepted, PlainText, ListLength, ValidClaims, Base64.Url, Field;
    ClaimFields(c);
    TextsShort(c, maxTtl);
    SmallIntAccepted(GRANT_VERSION);
    SmallIntAccepted(c.entryHop);
    SmallIntAccepted(c.maxHop);
    SmallIntAccepted(c.maxRouteLength);
  }

  lemma ValueLength(v: GoValue, texts: seq<GoString>)
    requires FieldIsShort(v, texts)
    ensures Canon(FieldTree(v, texts)).Ok? && |Canon(FieldTree(v, texts)).value| <= PART_LIMIT
  {
    hide CanonicalNumber, Quote, TextItems, CanonItems, PlainText, ListLength, IntText;
    match v
    case Int(i) =>
      IntLength(i);
    case Text(s) =>
      PlainQuotes(s);
    case Ref(_) =>
      TextItemsLength(texts, true);
  }

  lemma NameShort(name: GoString)
    requires name in FieldNames()
    ensures |name| <= 22
  {
    hide Ascii, IsAscii;
  }

  lemma NamePlain(name: GoString)
    requires name in FieldNames()
    ensures Quote(name).Ok? && |Quote(name).value| <= 24
  {
    NameShort(name);
    NameIsPlain(name);
    hide FieldNames, Quote, PlainText;
    PlainQuotes(name);
  }

  lemma PlainLiteral(s: string)
    requires forall i :: 0 <= i < |s| ==> 0x20 <= (s[i] as int) < 0x7F && s[i] != '\"' && s[i] != '\\'
    ensures PlainText(Ascii(s))
  {
  }

  lemma CommonNamesPlain()
    ensures PlainText(V) && PlainText(CHAIN_ID) && PlainText(OWNER_ID)
    ensures PlainText(ACCOUNT_GENERATION) && PlainText(ISSUED_AT) && PlainText(EXPIRES_AT)
    ensures PlainText(ENTRY_ROUTE) && PlainText(ENTRY_HOP)
  {
    hide Ascii, PlainText;
    PlainLiteral("v");
    PlainLiteral("chain_id");
    PlainLiteral("owner_id");
    PlainLiteral("account_generation");
    PlainLiteral("issued_at_unix_ms");
    PlainLiteral("expires_at_unix_ms");
    PlainLiteral("entry_route");
    PlainLiteral("entry_hop");
  }

  lemma IdentityNamesPlain()
    ensures PlainText(ROOT_OPERATION_ID) && PlainText(CHILD_OPERATION_ID) && PlainText(GRANT_KIND)
    ensures PlainText(PRODUCT_TARGET_KIND) && PlainText(SCOPES)
  {
    hide Ascii, PlainText;
    PlainLiteral("root_operation_id");
    PlainLiteral("child_operation_id");
    PlainLiteral("grant_kind");
    PlainLiteral("product_target_kind");
    PlainLiteral("scopes");
  }

  lemma DescriptorNamesPlain()
    ensures PlainText(ROOT_CAPABILITY_ID) && PlainText(ROOT_OPERATION) && PlainText(ROOT_REQUEST_DIGEST)
    ensures PlainText(CATALOG_DIGEST) && PlainText(SCHEMA_DIGEST)
  {
    hide Ascii, PlainText;
    PlainLiteral("root_capability_id");
    PlainLiteral("root_operation");
    PlainLiteral("root_request_digest");
    PlainLiteral("catalog_digest");
    PlainLiteral("schema_digest");
  }

  lemma BudgetNamesPlain()
    ensures PlainText(ENTRY_DEADLINE) && PlainText(MAX_HOP) && PlainText(MAX_ROUTE)
  {
    hide Ascii, PlainText;
    PlainLiteral("entry_deadline_unix_ms");
    PlainLiteral("max_hop");
    PlainLiteral("max_route_length");
  }

  lemma NameIsPlain(name: GoString)
    requires name in FieldNames()
    ensures PlainText(name)
  {
    hide Ascii, IsAscii, PlainText;
    CommonNamesPlain();
    IdentityNamesPlain();
    DescriptorNamesPlain();
    BudgetNamesPlain();
  }

  lemma MemberIsShort(c: GrantClaims, maxTtl: int64, name: GoString)
    requires ValidClaims(c, maxTtl) && PlainClaims(c) && name in FieldNames()
    ensures ShortMember(PayloadTree(PayloadMembers(c), c.scopes), name)
  {
    hide ValidClaims, PlainClaims, FieldNames, Field, FieldIsShort, FieldTree, Canon, Quote;
    FieldShort(c, maxTtl, name);
    ValueLength(Field(c, name), c.scopes);
    NamePlain(name);
  }

  /** Valid plain claims print, in fewer than six thousand bytes. */
  lemma PlainClaimsPrint(c: GrantClaims, maxTtl: int64)
    requires ValidClaims(c, maxTtl) && PlainClaims(c)
    ensures Marshal(c).Ok? && |Marshal(c).value| <= 5966
  {
    hide ValidClaims, PlainClaims, FieldNames, ShortMember, Marshal;
    forall name | name in FieldNames()
      ensures ShortMember(PayloadTree(PayloadMembers(c), c.scopes), name)
    {
      MemberIsShort(c, maxTtl, name);
    }
    PayloadLength(c);
  }

  lemma SealLength(payload: GoString, signature: seq<byte>)
    requires |payload| <= 5966 && |signature| == SIGNATURE_SIZE
    ensures |Seal(GRANT_PREFIX, payload, signature)| <= DEFAULT_MAX_SIZE
  {
    Base64.UrlLength(payload);
    Base64.UrlLength(signature);
    hide Base64.Url;
    assert |GRANT_PREFIX| == 8;
  }

  /** Every key signs valid plain claims, within the default size. */
  lemma PlainClaimsSign(scheme: Scheme, codec: Codec, c: GrantClaims, key: seq<byte>)
    requires Sound(scheme) && RawKey(key, PRIVATE_KEY_SIZE)
    requires Normalized(codec).maxSize >= DEFAULT_MAX_SIZE
    requires var f := Filled(Normalized(codec), c); ValidClaims(f, Normalized(codec).maxTtl) && PlainClaims(f)
    ensures SignGrant(scheme, codec, c, key).Ok?
    ensures |SignGrant(scheme, codec, c, key).value| <= DEFAULT_MAX_SIZE
  {
    hide ValidClaims, PlainClaims, Filled, Normalized, Seal, Marshal, Ascii;
    var f := Filled(Normalized(codec), c);
    PlainClaimsPrint(f, Normalized(codec).maxTtl);
    var payload := Marshal(f).value;
    SealLength(payload, scheme.sign(key, payload));
  }
}
