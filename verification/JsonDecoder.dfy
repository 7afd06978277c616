/**
 `decodeJSONValue` as the source runs it: a decoder that consumes its input
 token by token while it fills slices and maps.
 */
module JsonDecoder {
  import opened Basics
  import opened Json
  import opened JsonNumber
  import opened JsonString
  import opened Numerals
  import Utf8

  /** The outcome of a reading step, without the input it leaves. */
  function Outcome<T>(r: Result<(T, GoString)>): Result<T> {
    match r case Ok((value, _)) => Ok(value) case Err(e) => Err(e)
  }

  class Decoder {
    /** The bytes not yet consumed. */
    var input: GoString

    constructor (data: GoString)
      ensures input == data
    {
      input := data;
    }

    method SkipBlanks()
      modifies this
      ensures input == SkipSpace(old(input))
    {
      while input != [] && IsJsonSpace(input[0])
        invariant SkipSpace(input) == SkipSpace(old(input))
        decreases |input|
      {
        input := input[1..];
      }
    }

    /** A string token whose opening quote is next. */
    method StringToken() returns (r: Result<GoString>)
      requires StartsWith(input, QUOTE)
      modifies this
      ensures r == match ReadBody(old(input)[1..], false)
                   case None => Err(InvalidString)
                   case Some((rs, _)) => Ok(Utf8.Encode(rs))
      ensures r.Ok? ==> ReadBody(old(input)[1..], false).value.1 == input
    {
      match ReadBody(input[1..], false)
      case None => return Err(InvalidString);
      case Some((rs, rest)) =>
        input := rest;
        return Ok(Utf8.Encode(rs));
    }

    /** A literal or number token. */
    method ScalarToken() returns (r: Result<Json>)
      requires input != [] && !IsJsonSpace(input[0]) && input[0] !in {OPEN_OBJECT, OPEN_ARRAY, QUOTE}
      modifies this
      ensures r == Outcome(ReadValue(old(input), false))
      ensures r.Ok? ==> ReadValue(old(input), false).value.1 == input
    {
      var read := if input[0] == TRUE_TEXT[0] then ReadLiteral(input, TRUE_TEXT, Boolean(true))
                  else if input[0] == FALSE_TEXT[0] then ReadLiteral(input, FALSE_TEXT, Boolean(false))
                  else if input[0] == NULL_TEXT[0] then ReadLiteral(input, NULL_TEXT, Null)
                  else ReadNumber(input);
      if read.Ok? {
        input := read.value.1;
      }
      return Outcome(read);
    }

    method DecodeJSONValue() returns (r: Result<Json>)
      modifies this
      ensures r == Outcome(ReadValue(old(input), false))
      ensures r.Ok? ==> ReadValue(old(input), false).value.1 == input
      decreases |input|, 1
    {
      SkipBlanks();
      SkipTwice(old(input));
      if input == [] {
        return Err(InvalidJson);
      }
      if input[0] == OPEN_OBJECT {
        r := DecodeObject();
      } else if input[0] == OPEN_ARRAY {
        r := DecodeArray();
      } else if input[0] == QUOTE {
        var s := StringToken();
        return if s.Ok? then Ok(Str(s.value)) else Err(s.error);
      } else {
        r := ScalarToken();
      }
    }

    method DecodeArray() returns (r: Result<Json>)
      requires StartsWith(input, OPEN_ARRAY)
      modifies this
      ensures r == Outcome(ReadItems(old(input)[1..], [], true, false))
      ensures r.Ok? ==> ReadItems(old(input)[1..], [], true, false).value.1 == input
      decreases |input|, 0
    {
      hide ReadItems, ReadValue, SkipSpace;
      var items: seq<Json> := [];
      var first := true;
      input := input[1..];
      SkipBlanks();
      SkipTwice(old(input)[1..]);
      ItemsSkip(old(input)[1..], items, first);
      while input != [] && input[0] != CLOSE_ARRAY
        invariant |input| < |old(input)| && SkipSpace(input) == input
        invariant ReadItems(old(input)[1..], [], true, false) == ReadItems(input, items, first, false)
        decreases |input|
      {
        ItemsUnroll(input, items, first);
        if !first {
          if input[0] != COMMA {
            return Err(InvalidJson);
          }
          input := input[1..];
        }
        var value := DecodeJSONValue();
        if value.Err? {
          return value;
        }
        items := items + [value.value];
        first := false;
        ghost var left := input;
        SkipBlanks();
        SkipTwice(left);
        ItemsSkip(left, items, first);
      }
      ItemsUnroll(input, items, first);
      if input == [] {
        return Err(InvalidJson);
      }
      input := input[1..];
      return Ok(Arr(items));
    }

    method DecodeObject() returns (r: Result<Json>)
      requires StartsWith(input, OPEN_OBJECT)
      modifies this
      ensures r == Outcome(ReadMembers(old(input)[1..], map[], true, false))
      ensures r.Ok? ==> ReadMembers(old(input)[1..], map[], true, false).value.1 == input
      decreases |input|, 0
    {
      hide ReadMembers, ReadKey, ReadMemberValue, SkipSpace;
      var members: map<GoString, Json> := map[];
      var first := true;
      input := input[1..];
      SkipBlanks();
      SkipTwice(old(input)[1..]);
      MembersSkip(old(input)[1..], members, first);
      while input != [] && input[0] != CLOSE_OBJECT
        invariant |input| < |old(input)| && SkipSpace(input) == input
        invariant ReadMembers(old(input)[1..], map[], true, false) == ReadMembers(input, members, first, false)
        decreases |input|
      {
        MembersUnroll(input, members, first);
        if !first {
          if input[0] != COMMA {
            return Err(InvalidJson);
          }
          input := input[1..];
        }
        var key := DecodeKey();
        if key.Err? {
          return Err(key.error);
        }
        if key.value in members {
          return Err(DuplicateKey);
        }
        var value := DecodeMemberValue();
        if value.Err? {
          return value;
        }
        members := members[key.value := value.value];
        first := false;
        ghost var left := input;
        SkipBlanks();
        SkipTwice(left);
        MembersSkip(left, members, first);
      }
      MembersUnroll(input, members, first);
      if input == [] {
        return Err(InvalidJson);
      }
      input := input[1..];
      return Ok(Obj(members));
    }

    method DecodeKey() returns (r: Result<GoString>)
      modifies this
      ensures r == Outcome(ReadKey(old(input), false))
      ensures r.Ok? ==> ReadKey(old(input), false).value.1 == input
    {
      SkipBlanks();
      if !StartsWith(input, QUOTE) {
        return Err(InvalidJson);
      }
      r := StringToken();
    }

    method DecodeMemberValue() returns (r: Result<Json>)
      modifies this
      ensures r == Outcome(ReadMemberValue(old(input), false))
      ensures r.Ok? ==> ReadMemberValue(old(input), false).value.1 == input
      decreases |input|, 2
    {
      SkipBlanks();
      if !StartsWith(input, COLON) {
        return Err(InvalidJson);
      }
      input := input[1..];
      r := DecodeJSONValue();
    }
  }

  lemma MembersSkip(s: GoString, read: map<GoString, Json>, first: bool)
    ensures ReadMembers(SkipSpace(s), read, first, false) == ReadMembers(s, read, first, false)
  {
    hide ReadKey, ReadMemberValue;
    SkipTwice(s);
  }

  /** One turn of the object loop, as the reference reader takes it. */
  lemma MembersUnroll(s: GoString, read: map<GoString, Json>, first: bool)
    requires SkipSpace(s) == s
    ensures ReadMembers(s, read, first, false)
            == if s == [] then Err(InvalidJson)
               else if s[0] == CLOSE_OBJECT then Ok((Obj(read), s[1..]))
               else if !first && s[0] != COMMA then Err(InvalidJson)
               else
                 match ReadKey(if first then s else s[1..], false)
                 case Err(e) => Err(e)
                 case Ok((key, rest)) =>
                   if key in read then Err(DuplicateKey)
                   else match ReadMemberValue(rest, false)
                     case Err(e) => Err(e)
                     case Ok((value, after)) => ReadMembers(after, read[key := value], false, false)
  {
    hide ReadKey, ReadMemberValue, SkipSpace;
  }

  lemma ItemsSkip(s: GoString, read: seq<Json>, first: bool)
    ensures ReadItems(SkipSpace(s), read, first, false) == ReadItems(s, read, first, false)
  {
    hide ReadValue;
    SkipTwice(s);
  }

  /** One turn of the array loop, as the reference reader takes it. */
  lemma ItemsUnroll(s: GoString, read: seq<Json>, first: bool)
    requires SkipSpace(s) == s
    ensures ReadItems(s, read, first, false)
            == if s == [] then Err(InvalidJson)
               else if s[0] == CLOSE_ARRAY then Ok((Arr(read), s[1..]))
               else if !first && s[0] != COMMA then Err(InvalidJson)
               else
                 match ReadValue(if first then s else s[1..], false)
                 case Err(e) => Err(e)
                 case Ok((value, rest)) => ReadItems(rest, read + [value], false, false)
  {
    hide ReadValue, SkipSpace;
  }

  lemma {:induction false} SkipTwice(s: GoString)
    ensures SkipSpace(SkipSpace(s)) == SkipSpace(s)
  {
    if s != [] && IsJsonSpace(s[0]) {
      SkipTwice(s[1..]);
    }
  }

  /** `decodeJSON`: one value, then nothing but space. */
  method Decode(data: GoString) returns (r: Result<Json>)
    ensures r == DecodeJSON(data, false)
  {
    var decoder := new Decoder(data);
    r := decoder.DecodeJSONValue();
    if r.Ok? {
      decoder.SkipBlanks();
      if decoder.input != [] {
        return Err(TrailingData);
      }
    }
  }

  /** `CanonicalizeJSON` step by step: refuse blanks, scan the strings, decode, print. */
  method CanonicalizeBytes(data: GoString) returns (r: Result<GoString>)
    ensures r == CanonicalizeJSON(data)
  {
    hide TrimSpace, ScanAll, Canon, DecodeJSON;
    if TrimSpace(data) == [] {
      return Err(EmptyInput);
    }
    var scanned := ValidateJSONStrings(data);
    if !scanned {
      return Err(InvalidString);
    }
    var value :- Decode(data);
    return Canon(value);
  }
}
