/**
 What a signed payload may look like: the relation between payload bytes and the
 claims that they are read as, field by field.
 */
module WireMeaning {
  import opened Basics
  import opened ControlGrants
  import opened GrantWire
  import opened Json
  import opened JsonNumber
  import opened JsonStrictness
  import opened JsonString
  import opened Numerals
  import opened Payload
  import Base64

  type Object = map<GoString, Json>

  /** The member is missing or null, which both stand for the zero value. */
  predicate Zero(m: Object, name: GoString) {
    name !in m || m[name] == Null
  }

  predicate TextHeld(m: Object, name: GoString, s: GoString) {
    if Zero(m, name) then s == [] else m[name] == Str(s)
  }

  /** The member spells the integer without point and exponent. */
  predicate IntHeld(m: Object, name: GoString, n: int, limit: int) {
    if Zero(m, name) then n == 0
    else
      && m[name].Num? && IsIntegerLexeme(m[name].lexeme)
      && IntOf(m[name].lexeme) == n && -limit <= n < limit
  }

  /** A list of strings, where null stands for the empty string. */
  predicate TextsHeld(m: Object, name: GoString, texts: seq<GoString>) {
    if Zero(m, name) then texts == []
    else
      && m[name].Arr? && |m[name].items| == |texts|
      && forall i :: 0 <= i < |texts| ==>
           m[name].items[i] == Str(texts[i]) || (m[name].items[i] == Null && texts[i] == [])
  }

  ghost predicate DigestHeld(m: Object, name: GoString, d: seq<byte>) {
    exists s: GoString :: TextHeld(m, name, s) && Base64.DecodeUrl(s) == Some(d) && |d| == 32
  }

  lemma TextMeaning(m: Object, name: GoString, s: GoString)
    ensures StringField(m, name) == Some(s) <==> TextHeld(m, name, s)
  {
  }

  lemma IntMeaning(m: Object, name: GoString, n: int, limit: int)
    ensures IntField(m, name, limit) == Some(n) <==> IntHeld(m, name, n, limit)
  {
    hide IsIntegerLexeme, IntOf;
  }

  lemma TextsMeaning(m: Object, name: GoString, texts: seq<GoString>)
    ensures StringsField(m, name) == Some(texts) <==> TextsHeld(m, name, texts)
  {
    if !Zero(m, name) && m[name].Arr? {
      var items := m[name].items;
      if StringItems(items).Some? && |items| == |texts| {
        var read := StringItems(items).value;
        assert read == texts <==> forall i :: 0 <= i < |texts| ==> read[i] == texts[i];
      }
    }
  }

  lemma DigestMeaning(m: Object, name: GoString, d: seq<byte>)
    ensures DigestField(m, name) == Some(d) <==> DigestHeld(m, name, d)
  {
    hide StringField, TextHeld, Base64.DecodeUrl;
    if StringField(m, name).Some? {
      TextMeaning(m, name, StringField(m, name).value);
    }
    forall s: GoString | TextHeld(m, name, s)
      ensures StringField(m, name) == Some(s)
    {
      TextMeaning(m, name, s);
    }
  }

  /** Every field of the claims stands under its name. */
  ghost predicate ClaimsHeld(m: Object, c: GrantClaims) {
    && TextHeld(m, CHAIN_ID, c.chainId) && TextHeld(m, ROOT_OPERATION_ID, c.rootOperationId)
    && TextHeld(m, CHILD_OPERATION_ID, c.childOperationId) && TextHeld(m, GRANT_KIND, c.grantKind)
    && TextHeld(m, PRODUCT_TARGET_KIND, c.productTargetKind) && TextHeld(m, OWNER_ID, c.ownerId)
    && IntHeld(m, ACCOUNT_GENERATION, c.accountGeneration, LIMIT64) && TextsHeld(m, SCOPES, c.scopes)
    && TextHeld(m, ROOT_CAPABILITY_ID, c.rootCapabilityId) && TextHeld(m, ROOT_OPERATION, c.rootOperation)
    && DigestHeld(m, ROOT_REQUEST_DIGEST, c.rootRequestDigest) && DigestHeld(m, CATALOG_DIGEST, c.catalogDigest)
    && DigestHeld(m, SCHEMA_DIGEST, c.schemaDigest)
    && IntHeld(m, ISSUED_AT, c.issuedAt, LIMIT64) && IntHeld(m, EXPIRES_AT, c.expiresAt, LIMIT64)
    && IntHeld(m, ENTRY_DEADLINE, c.entryDeadline, LIMIT64) && TextHeld(m, ENTRY_ROUTE, c.entryRoute)
    && IntHeld(m, ENTRY_HOP, c.entryHop, LIMIT32) && IntHeld(m, MAX_HOP, c.maxHop, LIMIT32)
    && IntHeld(m, MAX_ROUTE, c.maxRouteLength, LIMIT32)
    && IntHeld(m, V, 1, LIMIT32)
  }

  lemma TextFieldsMeaning(m: Object, c: GrantClaims)
    ensures StringField(m, CHAIN_ID) == Some(c.chainId) <==> TextHeld(m, CHAIN_ID, c.chainId)
    ensures StringField(m, ROOT_OPERATION_ID) == Some(c.rootOperationId)
            <==> TextHeld(m, ROOT_OPERATION_ID, c.rootOperationId)
    ensures StringField(m, CHILD_OPERATION_ID) == Some(c.childOperationId)
            <==> TextHeld(m, CHILD_OPERATION_ID, c.childOperationId)
    ensures StringField(m, GRANT_KIND) == Some(c.grantKind) <==> TextHeld(m, GRANT_KIND, c.grantKind)
    ensures StringField(m, PRODUCT_TARGET_KIND) == Some(c.productTargetKind)
            <==> TextHeld(m, PRODUCT_TARGET_KIND, c.productTargetKind)
    ensures StringField(m, OWNER_ID) == Some(c.ownerId) <==> TextHeld(m, OWNER_ID, c.ownerId)
    ensures StringField(m, ROOT_CAPABILITY_ID) == Some(c.rootCapabilityId)
            <==> TextHeld(m, ROOT_CAPABILITY_ID, c.rootCapabilityId)
    ensures StringField(m, ROOT_OPERATION) == Some(c.rootOperation) <==> TextHeld(m, ROOT_OPERATION, c.rootOperation)
    ensures StringField(m, ENTRY_ROUTE) == Some(c.entryRoute) <==> TextHeld(m, ENTRY_ROUTE, c.entryRoute)
    ensures StringsField(m, SCOPES) == Some(c.scopes) <==> TextsHeld(m, SCOPES, c.scopes)
  {
    hide StringField, StringsField, TextHeld, TextsHeld, Ascii;
    TextMeaning(m, CHAIN_ID, c.chainId);
    TextMeaning(m, ROOT_OPERATION_ID, c.rootOperationId);
    TextMeaning(m, CHILD_OPERATION_ID, c.childOperationId);
    TextMeaning(m, GRANT_KIND, c.grantKind);
    TextMeaning(m, PRODUCT_TARGET_KIND, c.productTargetKind);
    TextMeaning(m, OWNER_ID, c.ownerId);
    TextMeaning(m, ROOT_CAPABILITY_ID, c.rootCapabilityId);
    TextMeaning(m, ROOT_OPERATION, c.rootOperation);
    TextMeaning(m, ENTRY_ROUTE, c.entryRoute);
    TextsMeaning(m, SCOPES, c.scopes);
  }

  lemma NumberFieldsMeaning(m: Object, c: GrantClaims)
    ensures IntField(m, ACCOUNT_GENERATION, LIMIT64) == Some(c.accountGeneration)
            <==> IntHeld(m, ACCOUNT_GENERATION, c.accountGeneration, LIMIT64)
    ensures IntField(m, ISSUED_AT, LIMIT64) == Some(c.issuedAt) <==> IntHeld(m, ISSUED_AT, c.issuedAt, LIMIT64)
    ensures IntField(m, EXPIRES_AT, LIMIT64) == Some(c.expiresAt) <==> IntHeld(m, EXPIRES_AT, c.expiresAt, LIMIT64)
    ensures IntField(m, ENTRY_DEADLINE, LIMIT64) == Some(c.entryDeadline)
            <==> IntHeld(m, ENTRY_DEADLINE, c.entryDeadline, LIMIT64)
    ensures IntField(m, ENTRY_HOP, LIMIT32) == Some(c.entryHop) <==> IntHeld(m, ENTRY_HOP, c.entryHop, LIMIT32)
    ensures IntField(m, MAX_HOP, LIMIT32) == Some(c.maxHop) <==> IntHeld(m, MAX_HOP, c.maxHop, LIMIT32)
    ensures IntField(m, MAX_ROUTE, LIMIT32) == Some(c.maxRouteLength)
            <==> IntHeld(m, MAX_ROUTE, c.maxRouteLength, LIMIT32)
    ensures IntField(m, V, LIMIT32) == Some(1) <==> IntHeld(m, V, 1, LIMIT32)
    ensures DigestField(m, ROOT_REQUEST_DIGEST) == Some(c.rootRequestDigest)
            <==> DigestHeld(m, ROOT_REQUEST_DIGEST, c.rootRequestDigest)
    ensures DigestField(m, CATALOG_DIGEST) == Some(c.catalogDigest) <==> DigestHeld(m, CATALOG_DIGEST, c.catalogDigest)
    ensures DigestField(m, SCHEMA_DIGEST) == Some(c.schemaDigest) <==> DigestHeld(m, SCHEMA_DIGEST, c.schemaDigest)
  {
    hide IntField, DigestField, IntHeld, DigestHeld, Ascii;
    IntMeaning(m, ACCOUNT_GENERATION, c.accountGeneration, LIMIT64);
    IntMeaning(m, ISSUED_AT, c.issuedAt, LIMIT64);
    IntMeaning(m, EXPIRES_AT, c.expiresAt, LIMIT64);
    IntMeaning(m, ENTRY_DEADLINE, c.entryDeadline, LIMIT64);
    IntMeaning(m, ENTRY_HOP, c.entryHop, LIMIT32);
    IntMeaning(m, MAX_HOP, c.maxHop, LIMIT32);
    IntMeaning(m, MAX_ROUTE, c.maxRouteLength, LIMIT32);
    IntMeaning(m, V, 1, LIMIT32);
    DigestMeaning(m, ROOT_REQUEST_DIGEST, c.rootRequestDigest);
    DigestMeaning(m, CATALOG_DIGEST, c.catalogDigest);
    DigestMeaning(m, SCHEMA_DIGEST, c.schemaDigest);
  }

  lemma DecodedMeaning(m: Object, c: GrantClaims)
    ensures FieldsDecode(m) && DecodedClaims(m) == c <==> ClaimsHeld(m, c)
  {
    hide IntField, StringField, StringsField, DigestField, IntHeld, TextHeld, TextsHeld, DigestHeld, Ascii;
    TextFieldsMeaning(m, c);
    NumberFieldsMeaning(m, c);
  }

  /** The decoded members of a canonical payload, which may also be the literal null. */
  lemma MembersMeaning(payload: GoString, known: set<GoString>, m: Object)
    ensures Members(payload, known) == Some(m)
            <==> && CanonicalizeJSON(payload) == Ok(payload) && m.Keys <= known
                 && (DecodeJSON(payload, true) == Ok(Obj(m)) || (DecodeJSON(payload, true) == Ok(Null) && m == map[]))
  {
    hide Canon, ScanAll, TrimSpace, DecodeJSON;
    if CanonicalizeJSON(payload) == Ok(payload) {
      AcceptedReadsStrictly(payload);
    }
  }

  lemma NullHoldsNoVersion(m: Object)
    requires m == map[]
    ensures !IntHeld(m, V, 1, LIMIT32)
  {
  }

  /**
   A payload is read as `c` exactly when its bytes are canonical, it is an object
   with no unknown member, and each field of `c` stands in it under its name; what
   is missing or null reads as zero, and the version is 1.
   */
  lemma UnmarshalMeaning(payload: GoString, c: GrantClaims)
    ensures Unmarshal(payload) == Ok(c)
            <==> && CanonicalizeJSON(payload) == Ok(payload)
                 && DecodeJSON(payload, true).Ok? && DecodeJSON(payload, true).value.Obj?
                 && var m := DecodeJSON(payload, true).value.members;
                    m.Keys <= FieldNames() && ClaimsHeld(m, c)
  {
    hide CanonicalizeJSON, DecodeJSON, FieldNames, FieldsDecode, DecodedClaims, Members, ClaimsHeld;
    if Unmarshal(payload) == Ok(c) {
      var m := Members(payload, FieldNames()).value;
      MembersMeaning(payload, FieldNames(), m);
      DecodedMeaning(m, c);
      HeldVersion(m, c);
    }
    if DecodeJSON(payload, true).Ok? && DecodeJSON(payload, true).value.Obj? {
      var m := DecodeJSON(payload, true).value.members;
      MembersMeaning(payload, FieldNames(), m);
      DecodedMeaning(m, c);
    }
  }

  lemma HeldVersion(m: Object, c: GrantClaims)
    requires ClaimsHeld(m, c)
    ensures m != map[]
  {
    hide TextHeld, TextsHeld, DigestHeld, Ascii;
    if m == map[] {
      NullHoldsNoVersion(m);
    }
  }

  /** The names that a grant may use. */
  lemma GrantNames()
    ensures FieldNames() == {
      Ascii("v"), Ascii("chain_id"), Ascii("root_operation_id"), Ascii("child_operation_id"), Ascii("grant_kind"),
      Ascii("product_target_kind"), Ascii("owner_id"), Ascii("account_generation"), Ascii("scopes"),
      Ascii("root_capability_id"), Ascii("root_operation"), Ascii("root_request_digest"), Ascii("catalog_digest"),
      Ascii("schema_digest"), Ascii("issued_at_unix_ms"), Ascii("expires_at_unix_ms"),
      Ascii("entry_deadline_unix_ms"), Ascii("entry_route"), Ascii("entry_hop"), Ascii("max_hop"),
      Ascii("max_route_length")
    }
  {
    hide Ascii;
  }

  // ---------- control grants ----------

  ghost predicate ControlHeld(m: Object, c: ControlGrant) {
    && TextHeld(m, CHAIN_ID, c.chainId) && TextHeld(m, OWNER_ID, c.ownerId)
    && IntHeld(m, ACCOUNT_GENERATION, c.accountGeneration, LIMIT64) && TextHeld(m, OPERATION_ID, c.operationId)
    && TextHeld(m, CONTROL_ACTION, c.action) && TextHeld(m, CONTROL_SCOPE, c.scope)
    && TextHeld(m, ENTRY_ROUTE, c.entryRoute) && IntHeld(m, ENTRY_HOP, c.entryHop, LIMIT32)
    && IntHeld(m, DEADLINE, c.deadline, LIMIT64) && IntHeld(m, ISSUED_AT, c.issuedAt, LIMIT64)
    && IntHeld(m, EXPIRES_AT, c.expiresAt, LIMIT64)
    && IntHeld(m, V, 1, LIMIT32)
  }

  lemma ControlDecodedMeaning(m: Object, c: ControlGrant)
    ensures ControlDecodes(m) && DecodedControl(m) == c <==> ControlHeld(m, c)
  {
    hide IntField, StringField, IntHeld, TextHeld, Ascii;
    TextMeaning(m, CHAIN_ID, c.chainId);
    TextMeaning(m, OWNER_ID, c.ownerId);
    TextMeaning(m, OPERATION_ID, c.operationId);
    TextMeaning(m, CONTROL_ACTION, c.action);
    TextMeaning(m, CONTROL_SCOPE, c.scope);
    TextMeaning(m, ENTRY_ROUTE, c.entryRoute);
    IntMeaning(m, ACCOUNT_GENERATION, c.accountGeneration, LIMIT64);
    IntMeaning(m, ENTRY_HOP, c.entryHop, LIMIT32);
    IntMeaning(m, DEADLINE, c.deadline, LIMIT64);
    IntMeaning(m, ISSUED_AT, c.issuedAt, LIMIT64);
    IntMeaning(m, EXPIRES_AT, c.expiresAt, LIMIT64);
    IntMeaning(m, V, 1, LIMIT32);
  }

  /** The same for control payloads. */
  lemma UnmarshalControlMeaning(payload: GoString, c: ControlGrant)
    ensures UnmarshalControl(payload) == Ok(c)
            <==> && CanonicalizeJSON(payload) == Ok(payload)
                 && DecodeJSON(payload, true).Ok? && DecodeJSON(payload, true).value.Obj?
                 && var m := DecodeJSON(payload, true).value.members;
                    m.Keys <= ControlNames() && ControlHeld(m, c)
  {
    hide CanonicalizeJSON, DecodeJSON, ControlNames, ControlDecodes, DecodedControl, Members, ControlHeld;
    if UnmarshalControl(payload) == Ok(c) {
      var m := Members(payload, ControlNames()).value;
      MembersMeaning(payload, ControlNames(), m);
      ControlDecodedMeaning(m, c);
      ControlHeldVersion(m, c);
    }
    if DecodeJSON(payload, true).Ok? && DecodeJSON(payload, true).value.Obj? {
      var m := DecodeJSON(payload, true).value.members;
      MembersMeaning(payload, ControlNames(), m);
      ControlDecodedMeaning(m, c);
    }
  }

  lemma ControlHeldVersion(m: Object, c: ControlGrant)
    requires ControlHeld(m, c)
    ensures m != map[]
  {
    hide TextHeld, Ascii;
    if m == map[] {
      NullHoldsNoVersion(m);
    }
  }

  lemma ControlGrantNames()
    ensures ControlNames() == {
      Ascii("v"), Ascii("chain_id"), Ascii("owner_id"), Ascii("account_generation"), Ascii("operation_id"),
      Ascii("control_action"), Ascii("control_scope"), Ascii("entry_route"), Ascii("entry_hop"),
      Ascii("deadline_unix_ms"), Ascii("issued_at_unix_ms"), Ascii("expires_at_unix_ms")
    }
  {
    hide Ascii;
  }
}
