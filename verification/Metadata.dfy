/**
 The peer-authentication metadata of the private services: a capability token,
 an instance UUID and the account generation.
 */
module Metadata {
  import opened Basics
  import opened Grants
  import opened Numerals
  import opened Tokens
  import Base64
  import Utf8

  const AUTHORIZATION := Ascii("authorization")
  const INSTANCE := Ascii("x-dirextalk-instance-id")
  const GENERATION := Ascii("x-dirextalk-account-generation")
  const SCHEME := Ascii("DTX-Capability-Token")
  const SPACE: GoString := [0x20]

  const TOKEN_BYTES: nat := 32
  const TOKEN_LENGTH: nat := 43

  /** `validateCapabilityToken` returns no error. */
  predicate TokenValid(token: GoString) {
    && |token| == TOKEN_LENGTH && Trimmed(token)
    && Base64.DecodeUrl(token).Some?
    && var raw := Base64.DecodeUrl(token).value;
       |raw| == TOKEN_BYTES && Base64.Url(raw) == token
  }

  function FormatToken(token: GoString): Result<GoString> {
    if TokenValid(token) then Ok(SCHEME + SPACE + token) else Err(InvalidMetadata)
  }

  /** Exactly one space, between the scheme and the token. */
  function ParseToken(value: GoString): Result<GoString> {
    var parts := Split(value, SPACE);
    if |parts| != 2 || parts[0] != SCHEME || !TokenValid(parts[1]) then Err(InvalidMetadata)
    else Ok(parts[1])
  }

  datatype PeerMetadata = PeerMetadata(token: GoString, instanceId: GoString, accountGeneration: int64)

  /** `FormatCapabilityMetadata`. */
  function Format(m: PeerMetadata): Result<map<GoString, GoString>> {
    var authorization :- FormatToken(m.token);
    if !OperationId(m.instanceId) || !ValidGeneration(m.accountGeneration) then Err(InvalidMetadata)
    else Ok(map[AUTHORIZATION := authorization, INSTANCE := m.instanceId, GENERATION := IntText(m.accountGeneration)])
  }

  /** The values of one key; an absent key has none. */
  type Values = map<GoString, seq<GoString>>

  function GetOne(values: Values, key: GoString): Option<GoString> {
    if key in values && |values[key]| == 1 && Trimmed(values[key][0]) && values[key][0] != []
    then Some(values[key][0]) else None
  }

  /** `strconv.ParseInt` in base ten for 64 bits. */
  function ParseInt(s: GoString): Option<int64> {
    var signed := s != [] && (s[0] == MINUS || s[0] == PLUS);
    var ds := if signed then s[1..] else s;
    if ds == [] || !AllDigits(ds) then None
    else
      var m: int := NatOf(ds);
      var n := if signed && s[0] == MINUS then -m else m;
      if -0x8000_0000_0000_0000 <= n < 0x8000_0000_0000_0000 then Some(n) else None
  }

  /** The generation must be a positive decimal without sign or leading zero. */
  function ParseGeneration(s: GoString): Option<int64>
    requires s != []
  {
    if s == [ZERO] || (|s| > 1 && s[0] == ZERO) || s[0] == PLUS || s[0] == MINUS then None
    else match ParseInt(s)
      case None => None
      case Some(n) => if ValidGeneration(n) then Some(n) else None
  }

  /** `ParseCapabilityMetadata`; None is a nil map. */
  function Parse(values: Option<Values>): Result<PeerMetadata> {
    if values.None? || GetOne(values.value, AUTHORIZATION).None? then Err(InvalidMetadata)
    else
      var token :- ParseToken(GetOne(values.value, AUTHORIZATION).value);
      var instance, generation := GetOne(values.value, INSTANCE), GetOne(values.value, GENERATION);
      if instance.None? || !OperationId(instance.value) || generation.None? then Err(InvalidMetadata)
      else match ParseGeneration(generation.value)
        case None => Err(InvalidMetadata)
        case Some(n) => Ok(PeerMetadata(token, instance.value, n))
  }

  // ---------- tokens ----------

  lemma PlainTrimmed(s: GoString)
    requires forall i :: 0 <= i < |s| ==> s[i] < 0x80
    requires s != [] ==> s[0] > 0x20 && s[|s| - 1] > 0x20
    ensures Trimmed(s)
  {
    Utf8.AsciiValid(s);
  }

  /** The accepted tokens are exactly the unpadded base64url texts of 32 bytes; no other spelling passes. */
  lemma TokensAreCanonical(token: GoString)
    ensures TokenValid(token) <==> exists raw: seq<byte> :: |raw| == TOKEN_BYTES && token == Base64.Url(raw)
    ensures TokenValid(token) ==> forall i :: 0 <= i < |token| ==> 0x20 < token[i] < 0x80
  {
    hide Base64.Url, Base64.DecodeUrl, Trimmed;
    if TokenValid(token) {
      Base64.EncodedPlain(Base64.DecodeUrl(token).value);
    }
    if raw: seq<byte> :| |raw| == TOKEN_BYTES && token == Base64.Url(raw) {
      Base64.UrlInverse(raw);
      Base64.UrlLength(raw);
      Base64.EncodedPlain(raw);
      PlainTrimmed(token);
    }
  }

  lemma SchemePlain()
    ensures 0x20 !in SCHEME && SCHEME[0] > 0x20 && forall i :: 0 <= i < |SCHEME| ==> SCHEME[i] < 0x80
  {
  }

  /** Formatting a token and parsing an authorization value are inverse, both ways. */
  lemma TokenInverse(token: GoString, value: GoString)
    ensures FormatToken(token) == Ok(value) <==> ParseToken(value) == Ok(token)
    ensures FormatToken(token) == Ok(value) ==> Trimmed(value) && value != []
  {
    hide TokenValid, Trimmed, Split, Ascii;
    SchemePlain();
    TokensAreCanonical(token);
    if FormatToken(token) == Ok(value) {
      SplitJoin([SCHEME, token], SPACE);
      assert [SCHEME, token][1..] == [token];
      NonEmptyToken(token);
      PlainTrimmed(value);
    }
    if ParseToken(value) == Ok(token) {
      JoinSplit(value, SPACE);
      assert Split(value, SPACE) == [SCHEME, token];
      assert [SCHEME, token][1..] == [token];
    }
  }

  lemma NonEmptyToken(token: GoString)
    requires TokenValid(token)
    ensures token != []
  {
  }

  // ---------- generations ----------

  lemma DigitsPlain(ds: GoString)
    requires AllDigits(ds) && ds != []
    ensures Trimmed(ds) && ds[0] != PLUS && ds[0] != MINUS
  {
    PlainTrimmed(ds);
  }

  /** The only spelling of a generation is the one that formatting gives. */
  lemma GenerationInverse(n: int64, text: GoString)
    requires text != []
    ensures ParseGeneration(text) == Some(n) <==> ValidGeneration(n) && text == IntText(n)
    ensures ParseGeneration(text) == Some(n) ==> Trimmed(text)
  {
    hide Trimmed, NatOf, Digits;
    if ParseGeneration(text) == Some(n) {
      DigitsPlain(text);
      DigitsOfNat(text);
    }
    if ValidGeneration(n) && text == IntText(n) {
      DigitsPlain(text);
      NatOfDigits(n);
    }
  }

  // ---------- metadata ----------

  /** The values hold what formatting produced, each key once; other keys are ignored. */
  predicate Carries(values: Values, formatted: map<GoString, GoString>) {
    forall key :: key in formatted ==> key in values && values[key] == [formatted[key]]
  }

  lemma NamesDiffer()
    ensures AUTHORIZATION != INSTANCE && INSTANCE != GENERATION && AUTHORIZATION != GENERATION
  {
    assert |AUTHORIZATION| == 13 && |INSTANCE| == 23 && |GENERATION| == 30;
  }

  /**
   Parsing accepts exactly the values that formatting produces, and gives back
   exactly the metadata that was formatted.
   */
  lemma MetadataInverse(values: Values, m: PeerMetadata)
    ensures Parse(Some(values)) == Ok(m) <==> Format(m).Ok? && Carries(values, Format(m).value)
  {
    hide TokenValid, ParseToken, FormatToken, ParseGeneration, OperationId, Trimmed, IntText, Ascii, ValidGeneration;
    NamesDiffer();
    if Parse(Some(values)) == Ok(m) {
      var value := GetOne(values, AUTHORIZATION).value;
      TokenInverse(m.token, value);
      GenerationInverse(m.accountGeneration, GetOne(values, GENERATION).value);
      assert values[AUTHORIZATION] == [value];
      assert values[INSTANCE] == [m.instanceId];
      assert values[GENERATION] == [IntText(m.accountGeneration)];
    }
    if Format(m).Ok? && Carries(values, Format(m).value) {
      var formatted := Format(m).value;
      TokenInverse(m.token, formatted[AUTHORIZATION]);
      OperationIdIsToken(m.instanceId);
      NonEmptyInt(m.accountGeneration);
      GenerationInverse(m.accountGeneration, formatted[GENERATION]);
      assert GetOne(values, AUTHORIZATION) == Some(formatted[AUTHORIZATION]);
      assert GetOne(values, INSTANCE) == Some(m.instanceId);
      assert GetOne(values, GENERATION) == Some(formatted[GENERATION]);
    }
  }

  lemma NonEmptyInt(n: int)
    ensures IntText(n) != []
  {
  }
}
