/**
 JSON values, their canonical text (RFC 8785) and the reader that
 `CanonicalizeJSON` puts in front of the printer.
 */
module Json {
  import opened Basics
  import opened JsonNumber
  import opened JsonString
  import opened KeyOrder
  import opened Numerals
  import Utf8

  const COMMA: byte := 0x2C
  const COLON: byte := 0x3A
  const OPEN_ARRAY: byte := 0x5B
  const CLOSE_ARRAY: byte := 0x5D
  const OPEN_OBJECT: byte := 0x7B
  const CLOSE_OBJECT: byte := 0x7D
  const NULL_TEXT: GoString := [0x6E, 0x75, 0x6C, 0x6C]
  const TRUE_TEXT: GoString := [0x74, 0x72, 0x75, 0x65]
  const FALSE_TEXT: GoString := [0x66, 0x61, 0x6C, 0x73, 0x65]

  lemma LiteralTexts()
    ensures NULL_TEXT == Ascii("null") && TRUE_TEXT == Ascii("true") && FALSE_TEXT == Ascii("false")
    ensures [OPEN_OBJECT, CLOSE_OBJECT] == Ascii("{}") && [OPEN_ARRAY, CLOSE_ARRAY] == Ascii("[]")
    ensures [COMMA, COLON, QUOTE] == Ascii(",:\"")
  {
  }

  /** A decoded JSON value; numbers keep their text, as `json.Number` does. */
  datatype Json =
    | Null
    | Boolean(b: bool)
    | Num(lexeme: GoString)
    | Str(s: GoString)
    | Arr(items: seq<Json>)
    | Obj(members: map<GoString, Json>)

  // ---------- printing ----------

  function Separator(first: bool): GoString {
    if first then [] else [COMMA]
  }

  predicate KeysValid(t: Json)
    requires t.Obj?
  {
    AllValid(t.members.Keys)
  }

  /** The canonical text of a value. */
  function Canon(t: Json): Result<GoString>
    decreases t, 1
  {
    match t
    case Null => Ok(NULL_TEXT)
    case Boolean(b) => Ok(if b then TRUE_TEXT else FALSE_TEXT)
    case Num(lexeme) => CanonicalNumber(lexeme)
    case Str(s) => Quote(s)
    case Arr(items) => Prepend([OPEN_ARRAY], CanonItems(items, true))
    case Obj(members) =>
      if !KeysValid(t) then Err(InvalidUtf8)
      else Prepend([OPEN_OBJECT], CanonMembers(t, SortedKeys(members.Keys), true))
  }

  /** The elements from here on, with the closing bracket. */
  function CanonItems(items: seq<Json>, first: bool): Result<GoString>
    decreases items, 0
  {
    if items == [] then Ok([CLOSE_ARRAY])
    else
      var head :- Canon(items[0]);
      Prepend(Separator(first) + head, CanonItems(items[1..], false))
  }

  /** The members with keys `keys`, with the closing brace. */
  function CanonMembers(t: Json, keys: seq<GoString>, first: bool): Result<GoString>
    requires t.Obj? && forall k :: k in keys ==> k in t.members
    decreases t, 0, |keys|
  {
    if keys == [] then Ok([CLOSE_OBJECT])
    else
      var key :- Quote(keys[0]);
      var value :- Canon(t.members[keys[0]]);
      Prepend(Separator(first) + key + [COLON] + value, CanonMembers(t, keys[1..], false))
  }

  // ---------- reading ----------

  predicate IsJsonSpace(b: byte) {
    b == 0x20 || b == 0x09 || b == 0x0A || b == 0x0D
  }

  function SkipSpace(s: GoString): (r: GoString)
    ensures |r| <= |s|
    ensures r != [] ==> !IsJsonSpace(r[0])
  {
    if s != [] && IsJsonSpace(s[0]) then SkipSpace(s[1..]) else s
  }

  /** A literal at the front of `s`. */
  function ReadLiteral(s: GoString, text: GoString, value: Json): (r: Result<(Json, GoString)>)
    requires text != []
    ensures r.Ok? ==> |r.value.1| < |s|
  {
    if text <= s then Ok((value, s[|text|..])) else Err(InvalidJson)
  }

  function ReadNumber(s: GoString): (r: Result<(Json, GoString)>)
    ensures r.Ok? ==> |r.value.1| < |s|
  {
    match ScanNumber(s, true)
    case None => Err(InvalidJson)
    case Some((_, rest)) => Ok((Num(s[..|s| - |rest|]), rest))
  }

  /** One value at the front of `s` and what follows it, as `decodeJSONValue` consumes it. */
  function ReadValue(s: GoString, strict: bool): (r: Result<(Json, GoString)>)
    ensures r.Ok? ==> |r.value.1| < |s|
    decreases |s|, 0
  {
    var t := SkipSpace(s);
    if t == [] then Err(InvalidJson)
    else if t[0] == OPEN_OBJECT then ReadMembers(t[1..], map[], true, strict)
    else if t[0] == OPEN_ARRAY then ReadItems(t[1..], [], true, strict)
    else if t[0] == QUOTE then
      (match ReadBody(t[1..], strict)
       case None => Err(InvalidString)
       case Some((rs, rest)) => Ok((Str(Utf8.Encode(rs)), rest)))
    else if t[0] == TRUE_TEXT[0] then ReadLiteral(t, TRUE_TEXT, Boolean(true))
    else if t[0] == FALSE_TEXT[0] then ReadLiteral(t, FALSE_TEXT, Boolean(false))
    else if t[0] == NULL_TEXT[0] then ReadLiteral(t, NULL_TEXT, Null)
    else ReadNumber(t)
  }

  /** The elements of an array after `read`, up to its closing bracket. */
  function ReadItems(s: GoString, read: seq<Json>, first: bool, strict: bool): (r: Result<(Json, GoString)>)
    ensures r.Ok? ==> |r.value.1| < |s|
    decreases |s|, 1
  {
    var t := SkipSpace(s);
    if t == [] then Err(InvalidJson)
    else if t[0] == CLOSE_ARRAY then Ok((Arr(read), t[1..]))
    else if !first && t[0] != COMMA then Err(InvalidJson)
    else
      var (value, rest) :- ReadValue(if first then t else t[1..], strict);
      ReadItems(rest, read + [value], false, strict)
  }

  /** The members of an object after `read`, up to its closing brace. */
  function ReadMembers(s: GoString, read: map<GoString, Json>, first: bool, strict: bool)
    : (r: Result<(Json, GoString)>)
    ensures r.Ok? ==> |r.value.1| < |s|
    decreases |s|, 1
  {
    var t := SkipSpace(s);
    if t == [] then Err(InvalidJson)
    else if t[0] == CLOSE_OBJECT then Ok((Obj(read), t[1..]))
    else if !first && t[0] != COMMA then Err(InvalidJson)
    else
      var (key, rest) :- ReadKey(if first then t else t[1..], strict);
      if key in read then Err(DuplicateKey)
      else
        var (value, after) :- ReadMemberValue(rest, strict);
        ReadMembers(after, read[key := value], false, strict)
  }

  function ReadKey(s: GoString, strict: bool): (r: Result<(GoString, GoString)>)
    ensures r.Ok? ==> |r.value.1| < |s|
  {
    var t := SkipSpace(s);
    if !StartsWith(t, QUOTE) then Err(InvalidJson)
    else match ReadBody(t[1..], strict)
      case None => Err(InvalidString)
      case Some((rs, rest)) => Ok((Utf8.Encode(rs), rest))
  }

  function ReadMemberValue(s: GoString, strict: bool): (r: Result<(Json, GoString)>)
    ensures r.Ok? ==> |r.value.1| < |s|
    decreases |s|, 1
  {
    var t := SkipSpace(s);
    if !StartsWith(t, COLON) then Err(InvalidJson) else ReadValue(t[1..], strict)
  }

  /** One value with nothing but space after it. */
  function DecodeJSON(data: GoString, strict: bool): Result<Json> {
    var (value, rest) :- ReadValue(data, strict);
    if SkipSpace(rest) == [] then Ok(value) else Err(TrailingData)
  }

  function CanonicalizeJSON(data: GoString): Result<GoString> {
    if TrimSpace(data) == [] then Err(EmptyInput)
    else if !ScanAll(data) then Err(InvalidString)
    else
      var value :- DecodeJSON(data, false);
      Canon(value)
  }

  // ---------- normal forms ----------

  function NormNumber(lexeme: GoString): GoString {
    match CanonicalNumber(lexeme) case Ok(text) => text case Err(_) => lexeme
  }

  /** The value with every number in canonical spelling. */
  ghost function Norm(t: Json): Json {
    match t
    case Num(lexeme) => Num(NormNumber(lexeme))
    case Arr(items) => Arr(NormItems(items))
    case Obj(members) => Obj(map k | k in members :: Norm(members[k]))
    case _ => t
  }

  ghost function NormItems(items: seq<Json>): seq<Json> {
    if items == [] then [] else [Norm(items[0])] + NormItems(items[1..])
  }
}
