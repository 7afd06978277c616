/**
 Why `CanonicalizeJSON` scans the raw bytes first: after the scan, the lenient
 decoder of `encoding/json` reads exactly what a strict decoder would read.
 */
module JsonStrictness {
  import opened Basics
  import opened Json
  import opened JsonRoundTrip
  import opened JsonString
  import opened Numerals

  /** `rest` is the end of `s`, and no quote stands before it. */
  predicate Consumed(s: GoString, rest: GoString) {
    && |rest| <= |s| && s[|s| - |rest|..] == rest
    && forall i :: 0 <= i < |s| - |rest| ==> s[i] != QUOTE
  }

  lemma ConsumedThrough(s: GoString, t: GoString, u: GoString)
    requires Consumed(s, t) && Consumed(t, u)
    ensures Consumed(s, u)
  {
    forall i | 0 <= i < |s| - |u|
      ensures s[i] != QUOTE
    {
      if i >= |s| - |t| {
        assert s[i] == t[i - (|s| - |t|)];
      }
    }
    assert s[|s| - |u|..] == t[|t| - |u|..];
  }

  lemma ConsumedScan(s: GoString, rest: GoString)
    requires Consumed(s, rest)
    ensures ScanAll(s) == ScanAll(rest)
  {
    var b := s[..|s| - |rest|];
    assert s == b + rest;
    ScanSkips(b, rest);
  }

  lemma {:induction false} SpaceConsumed(s: GoString)
    ensures Consumed(s, SkipSpace(s))
  {
    if s != [] && IsJsonSpace(s[0]) {
      SpaceConsumed(s[1..]);
      ConsumedThrough(s, s[1..], SkipSpace(s));
    }
  }

  lemma SpanConsumed(s: GoString)
    ensures Consumed(s, s[Span(s)..])
  {
    var n := Span(s);
    forall i | 0 <= i < n
      ensures s[i] != QUOTE
    {
      assert s[i] == s[..n][i];
    }
  }

  lemma ExponentConsumed(s: GoString)
    requires ScanExponent(s).Some?
    ensures Consumed(s, ScanExponent(s).value.1)
  {
    if StartsWith(s, SMALL_E) || StartsWith(s, BIG_E) {
      var t := s[1..];
      var u := if StartsWith(t, MINUS) || StartsWith(t, PLUS) then t[1..] else t;
      SpanConsumed(u);
      hide Span;
      ConsumedThrough(t, u, u[Span(u)..]);
      ConsumedThrough(s, t, u[Span(u)..]);
    }
  }

  lemma UnsignedConsumed(negative: bool, t: GoString)
    requires ScanUnsigned(negative, t, true).Some?
    ensures Consumed(t, ScanUnsigned(negative, t, true).value.1)
  {
    SpanConsumed(t);
    hide ScanExponent;
    var w := if StartsWith(t, ZERO) then 1 else Span(t);
    var u := t[w..];
    assert Consumed(t, u);
    if StartsWith(u, POINT) {
      SpanConsumed(u[1..]);
      var v := u[1..][Span(u[1..])..];
      hide Span;
      ConsumedThrough(u, u[1..], v);
      ExponentConsumed(v);
      ConsumedThrough(t, u, v);
      ConsumedThrough(t, v, ScanExponent(v).value.1);
    } else {
      hide Span;
      ExponentConsumed(u);
      ConsumedThrough(t, u, ScanExponent(u).value.1);
    }
  }

  lemma NumberConsumed(s: GoString)
    requires ScanNumber(s, true).Some?
    ensures Consumed(s, ScanNumber(s, true).value.1)
  {
    hide ScanUnsigned;
    if StartsWith(s, MINUS) {
      UnsignedConsumed(true, s[1..]);
      ConsumedThrough(s, s[1..], ScanNumber(s, true).value.1);
    } else {
      UnsignedConsumed(false, s);
    }
  }

  lemma LiteralConsumed(s: GoString, text: GoString, value: Json)
    requires text in {NULL_TEXT, TRUE_TEXT, FALSE_TEXT} && ReadLiteral(s, text, value).Ok?
    ensures Consumed(s, ReadLiteral(s, text, value).value.1)
  {
    assert s[..|text|] == text;
  }

  lemma BodyAfterScan(t: GoString)
    requires StartsWith(t, QUOTE) && ScanAll(t)
    ensures ReadBody(t[1..], false) == ReadBody(t[1..], true)
    ensures ReadBody(t[1..], false).Some? && ScanAll(ReadBody(t[1..], false).value.1)
  {
    NoSubstitution(t[1..]);
    ScanIsStrictReading(t[1..]);
  }

  /** After a successful scan both readings agree, and the scan covers what is left. */
  ghost predicate Agree(r: Result<(Json, GoString)>, strict: Result<(Json, GoString)>) {
    r == strict && (r.Ok? ==> ScanAll(r.value.1))
  }

  lemma LeafAfterScan(t: GoString)
    requires ScanAll(t) && t != [] && SkipSpace(t) == t && t[0] != OPEN_ARRAY && t[0] != OPEN_OBJECT
    ensures Agree(ReadValue(t, false), ReadValue(t, true))
  {
    hide ScanAll, ReadBody, ReadItems, ReadMembers, ScanNumber;
    if t[0] == QUOTE {
      BodyAfterScan(t);
    } else if t[0] == TRUE_TEXT[0] {
      if ReadLiteral(t, TRUE_TEXT, Boolean(true)).Ok? {
        LiteralConsumed(t, TRUE_TEXT, Boolean(true));
        ConsumedScan(t, ReadLiteral(t, TRUE_TEXT, Boolean(true)).value.1);
      }
    } else if t[0] == FALSE_TEXT[0] {
      if ReadLiteral(t, FALSE_TEXT, Boolean(false)).Ok? {
        LiteralConsumed(t, FALSE_TEXT, Boolean(false));
        ConsumedScan(t, ReadLiteral(t, FALSE_TEXT, Boolean(false)).value.1);
      }
    } else if t[0] == NULL_TEXT[0] {
      if ReadLiteral(t, NULL_TEXT, Null).Ok? {
        LiteralConsumed(t, NULL_TEXT, Null);
        ConsumedScan(t, ReadLiteral(t, NULL_TEXT, Null).value.1);
      }
    } else if ScanNumber(t, true).Some? {
      NumberConsumed(t);
      ConsumedScan(t, ScanNumber(t, true).value.1);
    }
  }

  lemma SpaceScan(s: GoString)
    requires ScanAll(s)
    ensures ScanAll(SkipSpace(s)) && SkipSpace(SkipSpace(s)) == SkipSpace(s)
    ensures SkipSpace(s) != [] && SkipSpace(s)[0] != QUOTE ==> ScanAll(SkipSpace(s)[1..])
  {
    SpaceConsumed(s);
    ConsumedScan(s, SkipSpace(s));
  }

  lemma {:induction false} ValueAfterScan(s: GoString)
    requires ScanAll(s)
    ensures Agree(ReadValue(s, false), ReadValue(s, true))
    decreases |s|, 0
  {
    hide ScanAll, ReadBody, ReadItems, ReadMembers, ReadNumber, ReadLiteral;
    var t := SkipSpace(s);
    SpaceScan(s);
    if t != [] {
      if t[0] == OPEN_ARRAY {
        ItemsAfterScan(t[1..], [], true);
      } else if t[0] == OPEN_OBJECT {
        MembersAfterScan(t[1..], map[], true);
      } else {
        LeafAfterScan(t);
      }
    }
  }

  lemma {:induction false} ItemsAfterScan(s: GoString, read: seq<Json>, first: bool)
    requires ScanAll(s)
    ensures Agree(ReadItems(s, read, first, false), ReadItems(s, read, first, true))
    decreases |s|, 1
  {
    hide ScanAll, ReadValue;
    var t := SkipSpace(s);
    SpaceScan(s);
    if t != [] && t[0] != CLOSE_ARRAY && (first || t[0] == COMMA) {
      var u := if first then t else t[1..];
      ValueAfterScan(u);
      var r := ReadValue(u, false);
      if r.Ok? {
        ItemsAfterScan(r.value.1, read + [r.value.0], false);
      }
    }
  }

  lemma KeyAfterScan(s: GoString)
    requires ScanAll(s)
    ensures ReadKey(s, false) == ReadKey(s, true)
    ensures ReadKey(s, false).Ok? ==> ScanAll(ReadKey(s, false).value.1)
  {
    SpaceScan(s);
    if StartsWith(SkipSpace(s), QUOTE) {
      BodyAfterScan(SkipSpace(s));
    }
  }

  lemma {:induction false} MembersAfterScan(s: GoString, read: map<GoString, Json>, first: bool)
    requires ScanAll(s)
    ensures Agree(ReadMembers(s, read, first, false), ReadMembers(s, read, first, true))
    decreases |s|, 1
  {
    hide ScanAll, ReadValue, ReadKey;
    var t := SkipSpace(s);
    SpaceScan(s);
    if t != [] && t[0] != CLOSE_OBJECT && (first || t[0] == COMMA) {
      var u := if first then t else t[1..];
      KeyAfterScan(u);
      var k := ReadKey(u, false);
      if k.Ok? {
        var w := SkipSpace(k.value.1);
        SpaceScan(k.value.1);
        if StartsWith(w, COLON) {
          ValueAfterScan(w[1..]);
          var r := ReadValue(w[1..], false);
          if r.Ok? {
            MembersAfterScan(r.value.1, read[k.value.0 := r.value.0], false);
          }
        }
      }
    }
  }

  /** Whatever `CanonicalizeJSON` accepts reads the same without any substitution. */
  lemma AcceptedReadsStrictly(data: GoString)
    requires CanonicalizeJSON(data).Ok?
    ensures DecodeJSON(data, true) == DecodeJSON(data, false)
    ensures DecodeJSON(data, true).Ok?
  {
    ValueAfterScan(data);
  }
}
