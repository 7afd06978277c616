/**
 The claims of a capability grant, their canonical JSON payload, and when a
 signed payload is read back as the claims it was printed from.
 */
module GrantWire {
  import opened Basics
  import opened GoHeap
  import opened Json
  import opened JsonNumber
  import opened Numerals
  import opened Payload
  import Base64
  import InexactWitness
  import KeyOrder
  import Utf8

  datatype GrantClaims = GrantClaims(
    chainId: GoString,
    rootOperationId: GoString,
    childOperationId: GoString,
    grantKind: GoString,
    productTargetKind: GoString,
    ownerId: GoString,
    accountGeneration: int64,
    scopes: seq<GoString>,
    rootCapabilityId: GoString,
    rootOperation: GoString,
    rootRequestDigest: seq<byte>,
    catalogDigest: seq<byte>,
    schemaDigest: seq<byte>,
    issuedAt: int64,
    expiresAt: int64,
    entryDeadline: int64,
    entryRoute: GoString,
    entryHop: int32,
    maxHop: int32,
    maxRouteLength: int32)

  const GRANT_VERSION: int := 1

  const ROOT_OPERATION_ID := Ascii("root_operation_id")
  const CHILD_OPERATION_ID := Ascii("child_operation_id")
  const GRANT_KIND := Ascii("grant_kind")
  const PRODUCT_TARGET_KIND := Ascii("product_target_kind")
  const SCOPES := Ascii("scopes")
  const ROOT_CAPABILITY_ID := Ascii("root_capability_id")
  const ROOT_OPERATION := Ascii("root_operation")
  const ROOT_REQUEST_DIGEST := Ascii("root_request_digest")
  const CATALOG_DIGEST := Ascii("catalog_digest")
  const SCHEMA_DIGEST := Ascii("schema_digest")
  const ENTRY_DEADLINE := Ascii("entry_deadline_unix_ms")
  const MAX_HOP := Ascii("max_hop")
  const MAX_ROUTE := Ascii("max_route_length")

  function FieldNames(): set<GoString> {
    {V, CHAIN_ID, ROOT_OPERATION_ID, CHILD_OPERATION_ID, GRANT_KIND, PRODUCT_TARGET_KIND, OWNER_ID,
     ACCOUNT_GENERATION, SCOPES, ROOT_CAPABILITY_ID, ROOT_OPERATION, ROOT_REQUEST_DIGEST, CATALOG_DIGEST,
     SCHEMA_DIGEST, ISSUED_AT, EXPIRES_AT, ENTRY_DEADLINE, ENTRY_ROUTE, ENTRY_HOP, MAX_HOP, MAX_ROUTE}
  }

  /** The value that `marshalGrantClaims` puts under each field name. */
  function Field(c: GrantClaims, name: GoString): GoValue
    requires name in FieldNames()
  {
    if name == V then Int(GRANT_VERSION)
    else if name == CHAIN_ID then Text(c.chainId)
    else if name == ROOT_OPERATION_ID then Text(c.rootOperationId)
    else if name == CHILD_OPERATION_ID then Text(c.childOperationId)
    else if name == GRANT_KIND then Text(c.grantKind)
    else if name == PRODUCT_TARGET_KIND then Text(c.productTargetKind)
    else if name == OWNER_ID then Text(c.ownerId)
    else if name == ACCOUNT_GENERATION then Int(c.accountGeneration)
    else if name == SCOPES then Ref(LIST_ADDR)
    else if name == ROOT_CAPABILITY_ID then Text(c.rootCapabilityId)
    else if name == ROOT_OPERATION then Text(c.rootOperation)
    else if name == ROOT_REQUEST_DIGEST then Text(Base64.Url(c.rootRequestDigest))
    else if name == CATALOG_DIGEST then Text(Base64.Url(c.catalogDigest))
    else if name == SCHEMA_DIGEST then Text(Base64.Url(c.schemaDigest))
    else if name == ISSUED_AT then Int(c.issuedAt)
    else if name == EXPIRES_AT then Int(c.expiresAt)
    else if name == ENTRY_DEADLINE then Int(c.entryDeadline)
    else if name == ENTRY_ROUTE then Text(c.entryRoute)
    else if name == ENTRY_HOP then Int(c.entryHop)
    else if name == MAX_HOP then Int(c.maxHop)
    else Int(c.maxRouteLength)
  }

  /** The map that is signed. */
  function PayloadMembers(c: GrantClaims): Fields {
    map name | name in FieldNames() :: Field(c, name)
  }

  /** `marshalGrantClaims`. */
  function Marshal(c: GrantClaims): Result<GoString> {
    Print(PayloadMembers(c), c.scopes)
  }

  predicate FieldsDecode(m: map<GoString, Json>) {
    && StringField(m, CHAIN_ID).Some? && StringField(m, ROOT_OPERATION_ID).Some?
    && StringField(m, CHILD_OPERATION_ID).Some? && StringField(m, GRANT_KIND).Some?
    && StringField(m, PRODUCT_TARGET_KIND).Some? && StringField(m, OWNER_ID).Some?
    && IntField(m, ACCOUNT_GENERATION, LIMIT64).Some? && StringsField(m, SCOPES).Some?
    && StringField(m, ROOT_CAPABILITY_ID).Some? && StringField(m, ROOT_OPERATION).Some?
    && DigestField(m, ROOT_REQUEST_DIGEST).Some? && DigestField(m, CATALOG_DIGEST).Some?
    && DigestField(m, SCHEMA_DIGEST).Some?
    && IntField(m, ISSUED_AT, LIMIT64).Some? && IntField(m, EXPIRES_AT, LIMIT64).Some?
    && IntField(m, ENTRY_DEADLINE, LIMIT64).Some? && StringField(m, ENTRY_ROUTE).Some?
    && IntField(m, ENTRY_HOP, LIMIT32).Some? && IntField(m, MAX_HOP, LIMIT32).Some?
    && IntField(m, MAX_ROUTE, LIMIT32).Some?
    && IntField(m, V, LIMIT32) == Some(GRANT_VERSION)
  }

  function DecodedClaims(m: map<GoString, Json>): GrantClaims
    requires FieldsDecode(m)
  {
    GrantClaims(
      StringField(m, CHAIN_ID).value,
      StringField(m, ROOT_OPERATION_ID).value,
      StringField(m, CHILD_OPERATION_ID).value,
      StringField(m, GRANT_KIND).value,
      StringField(m, PRODUCT_TARGET_KIND).value,
      StringField(m, OWNER_ID).value,
      IntField(m, ACCOUNT_GENERATION, LIMIT64).value,
      StringsField(m, SCOPES).value,
      StringField(m, ROOT_CAPABILITY_ID).value,
      StringField(m, ROOT_OPERATION).value,
      DigestField(m, ROOT_REQUEST_DIGEST).value,
      DigestField(m, CATALOG_DIGEST).value,
      DigestField(m, SCHEMA_DIGEST).value,
      IntField(m, ISSUED_AT, LIMIT64).value,
      IntField(m, EXPIRES_AT, LIMIT64).value,
      IntField(m, ENTRY_DEADLINE, LIMIT64).value,
      StringField(m, ENTRY_ROUTE).value,
      IntField(m, ENTRY_HOP, LIMIT32).value,
      IntField(m, MAX_HOP, LIMIT32).value,
      IntField(m, MAX_ROUTE, LIMIT32).value)
  }

  /** `unmarshalGrantClaims`: canonical bytes, known fields, version 1. */
  function Unmarshal(payload: GoString): Result<GrantClaims> {
    match Members(payload, FieldNames())
    case None => Err(InvalidGrant)
    case Some(m) => if FieldsDecode(m) then Ok(DecodedClaims(m)) else Err(InvalidGrant)
  }

  lemma NameTags()
    ensures NameTag(ROOT_OPERATION_ID) == 4466 && NameTag(CHILD_OPERATION_ID) == 4707
    ensures NameTag(ROOT_CAPABILITY_ID) == 4722
    ensures NameTag(GRANT_KIND) == 2663 && NameTag(PRODUCT_TARGET_KIND) == 4976 && NameTag(ROOT_REQUEST_DIGEST) == 4978
    ensures NameTag(SCOPES) == 1651 && NameTag(ROOT_OPERATION) == 3698 && NameTag(CATALOG_DIGEST) == 3683
    ensures NameTag(SCHEMA_DIGEST) == 3443 && NameTag(ENTRY_DEADLINE) == 5733 && NameTag(MAX_HOP) == 1901
    ensures NameTag(MAX_ROUTE) == 4205
  {
  }

  lemma IdentityFields(c: GrantClaims)
    ensures
      && Field(c, V) == Int(GRANT_VERSION)
      && Field(c, CHAIN_ID) == Text(c.chainId)
      && Field(c, ROOT_OPERATION_ID) == Text(c.rootOperationId)
      && Field(c, CHILD_OPERATION_ID) == Text(c.childOperationId)
      && Field(c, GRANT_KIND) == Text(c.grantKind)
      && Field(c, PRODUCT_TARGET_KIND) == Text(c.productTargetKind)
      && Field(c, OWNER_ID) == Text(c.ownerId)
      && Field(c, ACCOUNT_GENERATION) == Int(c.accountGeneration)
  {
    hide Ascii, NameTag;
    CommonTags();
    NameTags();
  }

  lemma DescriptorFields(c: GrantClaims)
    ensures
      && Field(c, SCOPES) == Ref(LIST_ADDR)
      && Field(c, ROOT_CAPABILITY_ID) == Text(c.rootCapabilityId)
      && Field(c, ROOT_OPERATION) == Text(c.rootOperation)
      && Field(c, ROOT_REQUEST_DIGEST) == Text(Base64.Url(c.rootRequestDigest))
      && Field(c, CATALOG_DIGEST) == Text(Base64.Url(c.catalogDigest))
      && Field(c, SCHEMA_DIGEST) == Text(Base64.Url(c.schemaDigest))
  {
    hide Ascii, NameTag;
    CommonTags();
    NameTags();
  }

  lemma BudgetFields(c: GrantClaims)
    ensures
      && Field(c, ISSUED_AT) == Int(c.issuedAt)
      && Field(c, EXPIRES_AT) == Int(c.expiresAt)
      && Field(c, ENTRY_DEADLINE) == Int(c.entryDeadline)
      && Field(c, ENTRY_ROUTE) == Text(c.entryRoute)
      && Field(c, ENTRY_HOP) == Int(c.entryHop)
      && Field(c, MAX_HOP) == Int(c.maxHop)
      && Field(c, MAX_ROUTE) == Int(c.maxRouteLength)
  {
    hide Ascii, NameTag;
    CommonTags();
    NameTags();
  }

  /** Each claim stands in the payload under its own name. */
  lemma ClaimFields(c: GrantClaims)
    ensures
      && Field(c, V) == Int(GRANT_VERSION)
      && Field(c, CHAIN_ID) == Text(c.chainId)
      && Field(c, ROOT_OPERATION_ID) == Text(c.rootOperationId)
      && Field(c, CHILD_OPERATION_ID) == Text(c.childOperationId)
      && Field(c, GRANT_KIND) == Text(c.grantKind)
      && Field(c, PRODUCT_TARGET_KIND) == Text(c.productTargetKind)
      && Field(c, OWNER_ID) == Text(c.ownerId)
      && Field(c, ACCOUNT_GENERATION) == Int(c.accountGeneration)
      && Field(c, SCOPES) == Ref(LIST_ADDR)
      && Field(c, ROOT_CAPABILITY_ID) == Text(c.rootCapabilityId)
      && Field(c, ROOT_OPERATION) == Text(c.rootOperation)
      && Field(c, ROOT_REQUEST_DIGEST) == Text(Base64.Url(c.rootRequestDigest))
      && Field(c, CATALOG_DIGEST) == Text(Base64.Url(c.catalogDigest))
      && Field(c, SCHEMA_DIGEST) == Text(Base64.Url(c.schemaDigest))
      && Field(c, ISSUED_AT) == Int(c.issuedAt)
      && Field(c, EXPIRES_AT) == Int(c.expiresAt)
      && Field(c, ENTRY_DEADLINE) == Int(c.entryDeadline)
      && Field(c, ENTRY_ROUTE) == Text(c.entryRoute)
      && Field(c, ENTRY_HOP) == Int(c.entryHop)
      && Field(c, MAX_HOP) == Int(c.maxHop)
      && Field(c, MAX_ROUTE) == Int(c.maxRouteLength)
  {
    hide Ascii, Field;
    IdentityFields(c);
    DescriptorFields(c);
    BudgetFields(c);
  }

  lemma FieldIsShaped(c: GrantClaims, name: GoString)
    requires name in FieldNames()
    ensures FieldShaped(Field(c, name))
  {
    hide Ascii, FieldNames;
  }

  lemma MembersShaped(c: GrantClaims)
    ensures Shaped(PayloadMembers(c)) && PayloadMembers(c).Keys == FieldNames()
  {
    hide FieldNames, Field, FieldShaped;
    forall name | name in FieldNames()
      ensures FieldShaped(Field(c, name))
    {
      FieldIsShaped(c, name);
    }
  }

  // ---------- when claims print ----------

  lemma NameIsAscii(name: GoString)
    requires name in FieldNames()
    ensures IsAscii(name)
  {
    hide Ascii, IsAscii;
  }

  lemma NamesValid()
    ensures KeyOrder.AllValid(FieldNames())
  {
    hide FieldNames, Utf8.Valid;
    forall name | name in FieldNames()
      ensures Utf8.Valid(name)
    {
      NameIsAscii(name);
      Utf8.AsciiValid(name);
    }
  }

  predicate IntAccepted(n: int) {
    CanonicalNumber(IntText(n)).Ok?
  }

  /** The texts are valid UTF-8 and the integers are binary64 values. */
  predicate Printable(c: GrantClaims) {
    && Utf8.Valid(c.chainId) && Utf8.Valid(c.rootOperationId) && Utf8.Valid(c.childOperationId)
    && Utf8.Valid(c.grantKind) && Utf8.Valid(c.productTargetKind) && Utf8.Valid(c.ownerId)
    && Utf8.Valid(c.rootCapabilityId) && Utf8.Valid(c.rootOperation) && Utf8.Valid(c.entryRoute)
    && (forall s :: s in c.scopes ==> Utf8.Valid(s))
    && IntAccepted(c.accountGeneration) && IntAccepted(c.issuedAt)
    && IntAccepted(c.expiresAt) && IntAccepted(c.entryDeadline)
  }

  lemma SmallIntAccepted(n: int)
    requires -LIMIT32 <= n < LIMIT32
    ensures IntAccepted(n)
  {
    SmallIntText(n);
  }

  lemma UrlValid(b: seq<byte>)
    ensures Utf8.Valid(Base64.Url(b))
  {
    Base64.EncodedPlain(b);
    Utf8.AsciiValid(Base64.Url(b));
  }

  lemma PrintableValues(c: GrantClaims)
    requires Printable(c)
    ensures FieldPrints(Text(c.chainId), c.scopes) && FieldPrints(Text(c.rootOperationId), c.scopes)
    ensures FieldPrints(Text(c.childOperationId), c.scopes) && FieldPrints(Text(c.grantKind), c.scopes)
    ensures FieldPrints(Text(c.productTargetKind), c.scopes) && FieldPrints(Text(c.ownerId), c.scopes)
    ensures FieldPrints(Text(c.rootCapabilityId), c.scopes) && FieldPrints(Text(c.rootOperation), c.scopes)
    ensures FieldPrints(Text(c.entryRoute), c.scopes) && FieldPrints(Ref(LIST_ADDR), c.scopes)
    ensures FieldPrints(Text(Base64.Url(c.rootRequestDigest)), c.scopes)
    ensures FieldPrints(Text(Base64.Url(c.catalogDigest)), c.scopes)
    ensures FieldPrints(Text(Base64.Url(c.schemaDigest)), c.scopes)
    ensures FieldPrints(Int(c.accountGeneration), c.scopes) && FieldPrints(Int(c.issuedAt), c.scopes)
    ensures FieldPrints(Int(c.expiresAt), c.scopes) && FieldPrints(Int(c.entryDeadline), c.scopes)
    ensures FieldPrints(Int(GRANT_VERSION), c.scopes) && FieldPrints(Int(c.entryHop), c.scopes)
    ensures FieldPrints(Int(c.maxHop), c.scopes) && FieldPrints(Int(c.maxRouteLength), c.scopes)
  {
    hide Ascii, IsAscii, IntAccepted, Utf8.Valid, Base64.Url;
    FieldPrintsInt();
    SmallIntAccepted(GRANT_VERSION);
    SmallIntAccepted(c.entryHop);
    SmallIntAccepted(c.maxHop);
    SmallIntAccepted(c.maxRouteLength);
    UrlValid(c.rootRequestDigest);
    UrlValid(c.catalogDigest);
    UrlValid(c.schemaDigest);
  }

  lemma PrintableFields(c: GrantClaims, name: GoString)
    requires Printable(c) && name in FieldNames()
    ensures FieldPrints(Field(c, name), c.scopes)
  {
    hide Ascii, IsAscii, FieldPrints, Printable, Base64.Url, Field;
    ClaimFields(c);
    PrintableValues(c);
  }

  lemma FieldPrintsAs(c: GrantClaims, name: GoString, value: GoValue)
    requires name in FieldNames() && Field(c, name) == value
    requires forall k :: k in FieldNames() ==> FieldPrints(Field(c, k), c.scopes)
    ensures FieldPrints(value, c.scopes)
  {
    hide FieldPrints, Field, FieldNames;
  }

  lemma FieldsPrintable(c: GrantClaims)
    requires forall k :: k in FieldNames() ==> FieldPrints(Field(c, k), c.scopes)
    ensures Printable(c)
  {
    hide Ascii, IsAscii, Field, IntAccepted, Utf8.Valid, FieldPrints;
    ClaimFields(c);
    FieldPrintsAs(c, CHAIN_ID, Text(c.chainId));
    FieldPrintsAs(c, ROOT_OPERATION_ID, Text(c.rootOperationId));
    FieldPrintsAs(c, CHILD_OPERATION_ID, Text(c.childOperationId));
    FieldPrintsAs(c, GRANT_KIND, Text(c.grantKind));
    FieldPrintsAs(c, PRODUCT_TARGET_KIND, Text(c.productTargetKind));
    FieldPrintsAs(c, OWNER_ID, Text(c.ownerId));
    FieldPrintsAs(c, ROOT_CAPABILITY_ID, Text(c.rootCapabilityId));
    FieldPrintsAs(c, ROOT_OPERATION, Text(c.rootOperation));
    FieldPrintsAs(c, ENTRY_ROUTE, Text(c.entryRoute));
    FieldPrintsAs(c, SCOPES, Ref(LIST_ADDR));
    FieldPrintsAs(c, ACCOUNT_GENERATION, Int(c.accountGeneration));
    FieldPrintsAs(c, ISSUED_AT, Int(c.issuedAt));
    FieldPrintsAs(c, EXPIRES_AT, Int(c.expiresAt));
    FieldPrintsAs(c, ENTRY_DEADLINE, Int(c.entryDeadline));
    PrintingValues(c);
  }

  lemma PrintingValues(c: GrantClaims)
    requires FieldPrints(Text(c.chainId), c.scopes) && FieldPrints(Text(c.rootOperationId), c.scopes)
    requires FieldPrints(Text(c.childOperationId), c.scopes) && FieldPrints(Text(c.grantKind), c.scopes)
    requires FieldPrints(Text(c.productTargetKind), c.scopes) && FieldPrints(Text(c.ownerId), c.scopes)
    requires FieldPrints(Text(c.rootCapabilityId), c.scopes) && FieldPrints(Text(c.rootOperation), c.scopes)
    requires FieldPrints(Text(c.entryRoute), c.scopes) && FieldPrints(Ref(LIST_ADDR), c.scopes)
    requires FieldPrints(Int(c.accountGeneration), c.scopes) && FieldPrints(Int(c.issuedAt), c.scopes)
    requires FieldPrints(Int(c.expiresAt), c.scopes) && FieldPrints(Int(c.entryDeadline), c.scopes)
    ensures Printable(c)
  {
    hide IntAccepted, Utf8.Valid;
    FieldPrintsInt();
  }

  lemma FieldPrintsInt()
    ensures forall i: int, texts: seq<GoString> :: FieldPrints(Int(i), texts) <==> IntAccepted(i)
  {
  }

  /** Claims are printed exactly when they are printable; nothing else about them can stop a signer here. */
  lemma MarshalSucceeds(c: GrantClaims)
    ensures Marshal(c).Ok? <==> Printable(c)
  {
    hide Printable, FieldPrints, Field, FieldNames, Print, Shaped, KeyOrder.AllValid;
    MembersShaped(c);
    NamesValid();
    PrintSucceeds(PayloadMembers(c), c.scopes);
    if Printable(c) {
      forall k | k in FieldNames()
        ensures FieldPrints(Field(c, k), c.scopes)
      {
        PrintableFields(c, k);
      }
    }
    if forall k :: k in FieldNames() ==> FieldPrints(Field(c, k), c.scopes) {
      FieldsPrintable(c);
    }
  }

  /** Every timestamp and the generation is the integer its canonical text spells. */
  predicate IntsStable(c: GrantClaims) {
    && StableInt(c.accountGeneration) && StableInt(c.issuedAt)
    && StableInt(c.expiresAt) && StableInt(c.entryDeadline)
  }

  lemma ClaimsStable(c: GrantClaims)
    ensures IntsStable(c) <==> FieldsStable(PayloadMembers(c))
  {
    hide StableInt, Ascii, Field;
    ClaimFields(c);
    SmallIntStable(GRANT_VERSION);
    SmallIntStable(c.entryHop);
    SmallIntStable(c.maxHop);
    SmallIntStable(c.maxRouteLength);
    var m := PayloadMembers(c);
    if FieldsStable(m) {
      assert FieldStable(m[ACCOUNT_GENERATION]) && FieldStable(m[ISSUED_AT]);
      assert FieldStable(m[EXPIRES_AT]) && FieldStable(m[ENTRY_DEADLINE]);
    }
  }

  lemma FieldAt(c: GrantClaims, m: map<GoString, Json>, name: GoString)
    requires FieldsRead(m, PayloadMembers(c), c.scopes) && name in FieldNames()
    ensures FieldReads(m, name, Field(c, name), c.scopes)
  {
    hide FieldReads, Field, FieldNames;
    assert PayloadMembers(c)[name] == Field(c, name);
  }

  lemma TextFieldsDecode(c: GrantClaims, m: map<GoString, Json>)
    requires FieldsRead(m, PayloadMembers(c), c.scopes)
    ensures StringField(m, CHAIN_ID) == Some(c.chainId) && StringField(m, OWNER_ID) == Some(c.ownerId)
    ensures StringField(m, ROOT_OPERATION_ID) == Some(c.rootOperationId)
    ensures StringField(m, CHILD_OPERATION_ID) == Some(c.childOperationId)
    ensures StringField(m, GRANT_KIND) == Some(c.grantKind)
    ensures StringField(m, PRODUCT_TARGET_KIND) == Some(c.productTargetKind)
    ensures StringField(m, ROOT_CAPABILITY_ID) == Some(c.rootCapabilityId)
    ensures StringField(m, ROOT_OPERATION) == Some(c.rootOperation)
    ensures StringField(m, ENTRY_ROUTE) == Some(c.entryRoute)
    ensures StringsField(m, SCOPES) == Some(c.scopes)
  {
    hide Ascii, Field, IntField, StringField, StringsField, FieldsRead, PayloadMembers;
    ClaimFields(c);
    FieldAt(c, m, CHAIN_ID);
    FieldAt(c, m, OWNER_ID);
    FieldAt(c, m, ROOT_OPERATION_ID);
    FieldAt(c, m, CHILD_OPERATION_ID);
    FieldAt(c, m, GRANT_KIND);
    FieldAt(c, m, PRODUCT_TARGET_KIND);
    FieldAt(c, m, ROOT_CAPABILITY_ID);
    FieldAt(c, m, ROOT_OPERATION);
    FieldAt(c, m, ENTRY_ROUTE);
    FieldAt(c, m, SCOPES);
  }

  lemma DigestFieldsDecode(c: GrantClaims, m: map<GoString, Json>)
    requires FieldsRead(m, PayloadMembers(c), c.scopes)
    requires |c.rootRequestDigest| == 32 && |c.catalogDigest| == 32 && |c.schemaDigest| == 32
    ensures DigestField(m, ROOT_REQUEST_DIGEST) == Some(c.rootRequestDigest)
    ensures DigestField(m, CATALOG_DIGEST) == Some(c.catalogDigest)
    ensures DigestField(m, SCHEMA_DIGEST) == Some(c.schemaDigest)
  {
    hide Ascii, Field, IntField, StringField, StringsField, FieldsRead, PayloadMembers, Base64.Url, Base64.DecodeUrl;
    ClaimFields(c);
    FieldAt(c, m, ROOT_REQUEST_DIGEST);
    FieldAt(c, m, CATALOG_DIGEST);
    FieldAt(c, m, SCHEMA_DIGEST);
    Base64.UrlInverse(c.rootRequestDigest);
    Base64.UrlInverse(c.catalogDigest);
    Base64.UrlInverse(c.schemaDigest);
  }

  lemma IntFieldsDecode(c: GrantClaims, m: map<GoString, Json>)
    requires FieldsRead(m, PayloadMembers(c), c.scopes)
    ensures IntField(m, V, LIMIT32) == Some(GRANT_VERSION)
    ensures IntField(m, ACCOUNT_GENERATION, LIMIT64) == Some(c.accountGeneration)
    ensures IntField(m, ISSUED_AT, LIMIT64) == Some(c.issuedAt)
    ensures IntField(m, EXPIRES_AT, LIMIT64) == Some(c.expiresAt)
    ensures IntField(m, ENTRY_DEADLINE, LIMIT64) == Some(c.entryDeadline)
    ensures IntField(m, ENTRY_HOP, LIMIT32) == Some(c.entryHop)
    ensures IntField(m, MAX_HOP, LIMIT32) == Some(c.maxHop)
    ensures IntField(m, MAX_ROUTE, LIMIT32) == Some(c.maxRouteLength)
  {
    hide Ascii, Field, IntField, StringField, StringsField, FieldsRead, PayloadMembers;
    ClaimFields(c);
    FieldAt(c, m, V);
    FieldAt(c, m, ACCOUNT_GENERATION);
    FieldAt(c, m, ISSUED_AT);
    FieldAt(c, m, EXPIRES_AT);
    FieldAt(c, m, ENTRY_DEADLINE);
    FieldAt(c, m, ENTRY_HOP);
    FieldAt(c, m, MAX_HOP);
    FieldAt(c, m, MAX_ROUTE);
  }

  /** When every field holds what was put there, the claims decode to themselves. */
  lemma ClaimsDecode(c: GrantClaims, m: map<GoString, Json>)
    requires FieldsRead(m, PayloadMembers(c), c.scopes)
    requires |c.rootRequestDigest| == 32 && |c.catalogDigest| == 32 && |c.schemaDigest| == 32
    ensures FieldsDecode(m) && DecodedClaims(m) == c
  {
    hide Ascii, Field, IntField, StringField, StringsField, DigestField, FieldsRead, PayloadMembers;
    TextFieldsDecode(c, m);
    DigestFieldsDecode(c, m);
    IntFieldsDecode(c, m);
  }

  /**
   Signed claims are read back exactly when their generation and timestamps are
   stable integers; otherwise the verifier refuses what the signer printed.
   */
  lemma PayloadRoundTrip(c: GrantClaims)
    requires |c.rootRequestDigest| == 32 && |c.catalogDigest| == 32 && |c.schemaDigest| == 32
    requires Marshal(c).Ok?
    ensures Unmarshal(Marshal(c).value) == if IntsStable(c) then Ok(c) else Err(InvalidGrant)
  {
    hide PayloadMembers, FieldNames, FieldsRead, FieldsDecode, DecodedClaims, IntsStable, Print, Members,
         FieldsStable, Shaped;
    MembersShaped(c);
    ClaimsStable(c);
    PrintedMembers(PayloadMembers(c), c.scopes);
    if IntsStable(c) {
      ClaimsDecode(c, Members(Marshal(c).value, FieldNames()).value);
    }
  }

  /** A concrete failure: whatever else they claim, grants that expire at 2^62 are signed and never read back. */
  lemma UnstableExpiryRefused(c: GrantClaims)
    requires |c.rootRequestDigest| == 32 && |c.catalogDigest| == 32 && |c.schemaDigest| == 32
    requires Marshal(c).Ok? && c.expiresAt == InexactWitness.TWO_62
    ensures Unmarshal(Marshal(c).value) == Err(InvalidGrant)
  {
    hide Marshal, Unmarshal, StableInt;
    InexactWitness.TwoTo62Unstable();
    PayloadRoundTrip(c);
  }
}
