/**
 The canonical preimage that `computeRequestDigest` hashes, and why equal
 preimages bind every field of the request.
 */
module RequestDigest {
  import opened Basics
  import opened Json
  import opened JsonNumber
  import opened JsonRoundTrip
  import opened JsonString
  import opened Numerals
  import Base64
  import Utf8

  /** The arguments of the digest; None is Go's nil, and a root digest has no grant. */
  datatype Request = Request(
    protocolMajor: int,
    capabilityId: GoString,
    capabilityVersion: GoString,
    schemaDigest: seq<byte>,
    operation: GoString,
    expectedRevision: int,
    businessInput: Option<map<GoString, Json>>,
    attachments: Option<seq<seq<byte>>>,
    grantDigest: Option<seq<byte>>)

  const SHA256_SIZE: nat := 32

  const PROTOCOL_MAJOR := Ascii("protocol_major")
  const CAPABILITY_ID := Ascii("capability_id")
  const CAPABILITY_VERSION := Ascii("capability_version")
  const SCHEMA_DIGEST := Ascii("schema_digest")
  const OPERATION := Ascii("operation")
  const EXPECTED_REVISION := Ascii("expected_revision")
  const BUSINESS_INPUT := Ascii("business_input")
  const ATTACHMENT_REF_DIGESTS := Ascii("attachment_ref_digests")
  const PERMISSION_GRANT_DIGEST := Ascii("permission_grant_digest")

  function BytesValue(b: seq<byte>): Json {
    Str(Base64.Std(b))
  }

  function BytesValues(bs: seq<seq<byte>>): seq<Json> {
    if bs == [] then [] else [BytesValue(bs[0])] + BytesValues(bs[1..])
  }

  /** A nil map prints as an empty object. */
  function BusinessValue(m: Option<map<GoString, Json>>): Json {
    Obj(if m.Some? then m.value else map[])
  }

  /** A nil slice prints as null, an empty one as an empty array. */
  function AttachmentsValue(a: Option<seq<seq<byte>>>): Json {
    if a.Some? then Arr(BytesValues(a.value)) else Null
  }

  function BaseMembers(q: Request): map<GoString, Json> {
    map[
      PROTOCOL_MAJOR := Num(IntText(q.protocolMajor)),
      CAPABILITY_ID := Str(q.capabilityId),
      CAPABILITY_VERSION := Str(q.capabilityVersion),
      SCHEMA_DIGEST := BytesValue(q.schemaDigest),
      OPERATION := Str(q.operation),
      EXPECTED_REVISION := Num(IntText(q.expectedRevision)),
      BUSINESS_INPUT := BusinessValue(q.businessInput),
      ATTACHMENT_REF_DIGESTS := AttachmentsValue(q.attachments)
    ]
  }

  function DigestInput(q: Request): Json {
    Obj(if q.grantDigest.Some?
        then BaseMembers(q)[PERMISSION_GRANT_DIGEST := BytesValue(q.grantDigest.value)]
        else BaseMembers(q))
  }

  predicate DigestsShaped(q: Request) {
    && |q.schemaDigest| == SHA256_SIZE
    && (q.grantDigest.Some? ==> |q.grantDigest.value| == SHA256_SIZE)
    && (q.attachments.Some? ==> forall i :: 0 <= i < |q.attachments.value| ==> |q.attachments.value[i]| == SHA256_SIZE)
  }

  /** The bytes that are hashed. */
  function Preimage(q: Request): Result<GoString> {
    if !DigestsShaped(q) then Err(InvalidDigest) else Canon(DigestInput(q))
  }

  // ---------- when a request has a preimage ----------

  lemma BytesPrint(b: seq<byte>)
    ensures Canon(BytesValue(b)).Ok?
  {
    Base64.StdPlain(b);
    Utf8.AsciiValid(Base64.Std(b));
    hide Base64.Std, Utf8.Valid, Utf8.Runes, EscapeAll;
  }

  lemma {:induction false} BytesValuesPrint(bs: seq<seq<byte>>, first: bool)
    ensures CanonItems(BytesValues(bs), first).Ok?
    decreases |bs|
  {
    hide BytesValue, Canon;
    if bs != [] {
      BytesPrint(bs[0]);
      BytesValuesPrint(bs[1..], false);
      assert BytesValues(bs)[1..] == BytesValues(bs[1..]);
    }
  }

  lemma AttachmentsPrint(a: Option<seq<seq<byte>>>)
    ensures Canon(AttachmentsValue(a)).Ok?
  {
    if a.Some? {
      BytesValuesPrint(a.value, true);
    }
  }

  lemma InputKeysValid(q: Request)
    ensures DigestInput(q).Obj? && KeysValid(DigestInput(q))
  {
    InputMembers(q);
    hide DigestInput, Ascii, Utf8.Valid;
    forall k | k in DigestInput(q).members
      ensures Utf8.Valid(k)
    {
      InputNameAscii(q, k);
      Utf8.AsciiValid(k);
    }
  }

  lemma InputNameAscii(q: Request, k: GoString)
    requires k in DigestInput(q).members
    ensures IsAscii(k)
  {
    hide Ascii, IsAscii, IntText, BytesValue, BusinessValue, AttachmentsValue;
  }

  /** What a digest can be computed of. */
  predicate Digestible(q: Request) {
    && DigestsShaped(q)
    && Utf8.Valid(q.capabilityId) && Utf8.Valid(q.capabilityVersion) && Utf8.Valid(q.operation)
    && CanonicalNumber(IntText(q.protocolMajor)).Ok? && CanonicalNumber(IntText(q.expectedRevision)).Ok?
    && Canon(BusinessValue(q.businessInput)).Ok?
  }

  lemma LeavesPrint(s: GoString, n: int)
    ensures Canon(Str(s)).Ok? <==> Utf8.Valid(s)
    ensures Canon(Num(IntText(n))).Ok? <==> CanonicalNumber(IntText(n)).Ok?
  {
    hide EscapeAll, CanonicalNumber, IntText;
  }

  /**
   A request has a preimage exactly when its digests have 32 bytes, its texts are
   valid UTF-8, its integers pass the gate and its business input prints.
   */
  lemma PreimageExists(q: Request)
    ensures Preimage(q).Ok? <==> Digestible(q)
  {
    hide Canon, Ascii, IntText, CanonicalNumber, BytesValue, BusinessValue, AttachmentsValue, Utf8.Valid, DigestsShaped;
    var t := DigestInput(q);
    InputKeysValid(q);
    ObjectPrints(t);
    InputMembers(q);
    LeavesPrint(q.capabilityId, q.protocolMajor);
    LeavesPrint(q.capabilityVersion, q.expectedRevision);
    LeavesPrint(q.operation, 0);
    BytesPrint(q.schemaDigest);
    AttachmentsPrint(q.attachments);
    if q.grantDigest.Some? {
      BytesPrint(q.grantDigest.value);
    }
    if Canon(t).Ok? {
      assert Canon(t.members[CAPABILITY_ID]).Ok? && Canon(t.members[CAPABILITY_VERSION]).Ok?;
      assert Canon(t.members[OPERATION]).Ok? && Canon(t.members[PROTOCOL_MAJOR]).Ok?;
      assert Canon(t.members[EXPECTED_REVISION]).Ok? && Canon(t.members[BUSINESS_INPUT]).Ok?;
    }
  }

  // ---------- equal preimages ----------

  /** Objects with the same text agree, member by member, up to the spelling of numbers. */
  lemma SameMember(t: Json, u: Json, key: GoString)
    requires t.Obj? && u.Obj? && Canon(t).Ok? && Canon(t) == Canon(u)
    ensures t.members.Keys == u.members.Keys
    ensures key in t.members ==>
              && Norm(t.members[key]) == Norm(u.members[key])
              && Canon(t.members[key]).Ok? && Canon(u.members[key]).Ok?
  {
    CanonInjective(t, u);
    assert Norm(t).members.Keys == t.members.Keys && Norm(u).members.Keys == u.members.Keys;
    if key in t.members {
      ObjectPrints(t);
      ObjectPrints(u);
      assert Norm(t).members[key] == Norm(t.members[key]);
      assert Norm(u).members[key] == Norm(u.members[key]);
    }
  }

  lemma SameInt(a: int, b: int)
    requires Canon(Num(IntText(a))).Ok? && Canon(Num(IntText(b))).Ok?
    requires Norm(Num(IntText(a))) == Norm(Num(IntText(b)))
    ensures a == b
  {
    hide CanonicalNumber;
    IntTextInjective(a, b);
  }

  lemma {:induction false} SameBytesValues(a: seq<seq<byte>>, b: seq<seq<byte>>)
    requires NormItems(BytesValues(a)) == NormItems(BytesValues(b))
    ensures a == b
  {
    if a == [] || b == [] {
    } else {
      var s, t := NormItems(BytesValues(a)), NormItems(BytesValues(b));
      assert s[0] == BytesValue(a[0]) && t[0] == BytesValue(b[0]);
      Base64.StdInjective(a[0], b[0]);
      assert s[1..] == NormItems(BytesValues(a[1..]));
      assert t[1..] == NormItems(BytesValues(b[1..]));
      SameBytesValues(a[1..], b[1..]);
      assert a == [a[0]] + a[1..] && b == [b[0]] + b[1..];
    }
  }

  /** What the field names tell apart. */
  ghost predicate NamesDiffer() {
    && |PROTOCOL_MAJOR| == 14 && PROTOCOL_MAJOR[0] == 'p' as int
    && |CAPABILITY_ID| == 13 && CAPABILITY_ID[0] == 'c' as int
    && |CAPABILITY_VERSION| == 18
    && |SCHEMA_DIGEST| == 13 && SCHEMA_DIGEST[0] == 's' as int
    && |OPERATION| == 9
    && |EXPECTED_REVISION| == 17
    && |BUSINESS_INPUT| == 14 && BUSINESS_INPUT[0] == 'b' as int
    && |ATTACHMENT_REF_DIGESTS| == 22
    && |PERMISSION_GRANT_DIGEST| == 23
  }

  /** Each field of a request stands under its own name. */
  lemma InputMembers(q: Request)
    ensures DigestInput(q).Obj?
    ensures var m := DigestInput(q).members;
            && PROTOCOL_MAJOR in m && m[PROTOCOL_MAJOR] == Num(IntText(q.protocolMajor))
            && CAPABILITY_ID in m && m[CAPABILITY_ID] == Str(q.capabilityId)
            && CAPABILITY_VERSION in m && m[CAPABILITY_VERSION] == Str(q.capabilityVersion)
            && SCHEMA_DIGEST in m && m[SCHEMA_DIGEST] == BytesValue(q.schemaDigest)
            && OPERATION in m && m[OPERATION] == Str(q.operation)
            && EXPECTED_REVISION in m && m[EXPECTED_REVISION] == Num(IntText(q.expectedRevision))
            && BUSINESS_INPUT in m && m[BUSINESS_INPUT] == BusinessValue(q.businessInput)
            && ATTACHMENT_REF_DIGESTS in m && m[ATTACHMENT_REF_DIGESTS] == AttachmentsValue(q.attachments)
            && (PERMISSION_GRANT_DIGEST in m <==> q.grantDigest.Some?)
            && (q.grantDigest.Some? ==> m[PERMISSION_GRANT_DIGEST] == BytesValue(q.grantDigest.value))
            && m.Keys == {PROTOCOL_MAJOR, CAPABILITY_ID, CAPABILITY_VERSION, SCHEMA_DIGEST, OPERATION,
                          EXPECTED_REVISION, BUSINESS_INPUT, ATTACHMENT_REF_DIGESTS}
                         + (if q.grantDigest.Some? then {PERMISSION_GRANT_DIGEST} else {})
  {
    hide Ascii, IntText, BytesValue, BusinessValue, AttachmentsValue;
    assert NamesDiffer();
  }

  /** Equal up to the spelling of numbers inside the business input, where nil and empty coincide. */
  ghost predicate SameRequest(q: Request, r: Request) {
    && q.protocolMajor == r.protocolMajor
    && q.capabilityId == r.capabilityId
    && q.capabilityVersion == r.capabilityVersion
    && q.schemaDigest == r.schemaDigest
    && q.operation == r.operation
    && q.expectedRevision == r.expectedRevision
    && Norm(BusinessValue(q.businessInput)) == Norm(BusinessValue(r.businessInput))
    && q.attachments == r.attachments
    && q.grantDigest == r.grantDigest
  }

  lemma SameNumbers(q: Request, r: Request)
    requires Preimage(q).Ok? && Preimage(q) == Preimage(r)
    ensures q.protocolMajor == r.protocolMajor && q.expectedRevision == r.expectedRevision
  {
    hide Canon, Norm, Ascii, IntText;
    var t, u := DigestInput(q), DigestInput(r);
    InputMembers(q);
    InputMembers(r);
    hide DigestInput;
    SameMember(t, u, PROTOCOL_MAJOR);
    SameInt(q.protocolMajor, r.protocolMajor);
    SameMember(t, u, EXPECTED_REVISION);
    SameInt(q.expectedRevision, r.expectedRevision);
  }

  lemma SameStrings(q: Request, r: Request)
    requires Preimage(q).Ok? && Preimage(q) == Preimage(r)
    ensures q.capabilityId == r.capabilityId && q.capabilityVersion == r.capabilityVersion
    ensures q.operation == r.operation && q.schemaDigest == r.schemaDigest
  {
    hide Canon, Ascii, IntText;
    var t, u := DigestInput(q), DigestInput(r);
    InputMembers(q);
    InputMembers(r);
    hide DigestInput;
    SameMember(t, u, CAPABILITY_ID);
    SameMember(t, u, CAPABILITY_VERSION);
    SameMember(t, u, OPERATION);
    SameMember(t, u, SCHEMA_DIGEST);
    Base64.StdInjective(q.schemaDigest, r.schemaDigest);
  }

  lemma SameOptions(q: Request, r: Request)
    requires Preimage(q).Ok? && Preimage(q) == Preimage(r)
    ensures Norm(BusinessValue(q.businessInput)) == Norm(BusinessValue(r.businessInput))
    ensures q.attachments == r.attachments && q.grantDigest == r.grantDigest
  {
    hide Canon, Ascii, IntText, BusinessValue;
    var t, u := DigestInput(q), DigestInput(r);
    InputMembers(q);
    InputMembers(r);
    hide DigestInput;
    SameMember(t, u, BUSINESS_INPUT);
    SameMember(t, u, ATTACHMENT_REF_DIGESTS);
    if q.attachments.Some? && r.attachments.Some? {
      SameBytesValues(q.attachments.value, r.attachments.value);
    }
    SameMember(t, u, PERMISSION_GRANT_DIGEST);
    assert PERMISSION_GRANT_DIGEST in t.members <==> PERMISSION_GRANT_DIGEST in u.members;
    if q.grantDigest.Some? {
      Base64.StdInjective(q.grantDigest.value, r.grantDigest.value);
    }
  }

  lemma SameBase(q: Request, r: Request)
    requires SameRequest(q, r)
    ensures BaseMembers(q).Keys == BaseMembers(r).Keys
    ensures forall k :: k in BaseMembers(q) ==> Norm(BaseMembers(q)[k]) == Norm(BaseMembers(r)[k])
  {
    hide Ascii, IsAscii, IntText, BytesValue, BusinessValue, AttachmentsValue, Norm;
  }

  lemma SameTree(q: Request, r: Request)
    requires SameRequest(q, r)
    ensures Norm(DigestInput(q)) == Norm(DigestInput(r))
  {
    hide Ascii, IsAscii, BytesValue, BaseMembers, BusinessValue;
    SameBase(q, r);
    assert DigestInput(q).members.Keys == DigestInput(r).members.Keys;
  }

  /**
   Two requests that print share their preimage exactly when they are the same
   request: every bound field counts, and nothing else does.
   */
  lemma PreimageBinds(q: Request, r: Request)
    requires Preimage(q).Ok? && Preimage(r).Ok?
    ensures Preimage(q) == Preimage(r) <==> SameRequest(q, r)
  {
    hide Canon, Norm, DigestInput, SameRequest;
    if Preimage(q) == Preimage(r) {
      SameFields(q, r);
    }
    if SameRequest(q, r) {
      SameTree(q, r);
      CanonInjective(DigestInput(q), DigestInput(r));
    }
  }

  lemma SameFields(q: Request, r: Request)
    requires Preimage(q).Ok? && Preimage(q) == Preimage(r)
    ensures SameRequest(q, r)
  {
    hide Preimage, DigestInput, BusinessValue, Norm;
    SameNumbers(q, r);
    SameStrings(q, r);
    SameOptions(q, r);
  }

  /** Nil and empty business input have one preimage; nil and empty attachments have two. */
  lemma NilInputs(q: Request)
    ensures Preimage(q.(businessInput := None)) == Preimage(q.(businessInput := Some(map[])))
    ensures Preimage(q.(attachments := None)).Ok?
            ==> Preimage(q.(attachments := None)) != Preimage(q.(attachments := Some([])))
  {
    var a, b := q.(attachments := None), q.(attachments := Some([]));
    if Preimage(a).Ok? && Preimage(a) == Preimage(b) {
      PreimageBinds(a, b);
    }
  }

  /** No root preimage is a final one, of whatever requests. */
  lemma RootIsNotFinal(q: Request, r: Request)
    requires q.grantDigest.None? && r.grantDigest.Some? && Preimage(q).Ok?
    ensures Preimage(q) != Preimage(r)
  {
    hide Preimage;
    if Preimage(q) == Preimage(r) {
      PreimageBinds(q, r);
    }
  }
}
