/**
 The grammar of RFC 8259 with its blanks, and the proof that the reader accepts
 exactly the texts of the grammar, with the values that the grammar gives them.
 */
module JsonGrammar {
  import opened Basics
  import opened Binary64
  import opened Json
  import opened JsonNumber
  import opened JsonRoundTrip
  import opened JsonStrictness
  import opened JsonString
  import opened Numerals
  import opened Scaling
  import opened ShortestDecimal
  import Utf8

  /** The exponent part of a number (section 6). */
  datatype ExponentPart = NoExponent | Exponent(mark: byte, sign: GoString, digits: GoString) {
    predicate WellFormed() {
      Exponent? ==>
        && (mark == 'e' as int || mark == 'E' as int)
        && (sign == [] || sign == ['+' as int] || sign == ['-' as int])
        && digits != [] && AllDigits(digits)
    }

    function Text(): GoString {
      if NoExponent? then [] else [mark] + (sign + digits)
    }

    /** The power of ten. */
    function Power(): int
      requires WellFormed()
    {
      if NoExponent? then 0 else if sign == ['-' as int] then 0 - NatOf(digits) else NatOf(digits)
    }
  }

  /** A JSON text without the blanks around it. */
  datatype Doc =
    | Constant(value: Json)
    | Numeral(negative: bool, whole: GoString, fraction: GoString, exponent: ExponentPart)
    | Chars(pieces: seq<Piece>)
    | List(space: GoString, items: seq<Item>)
    | Record(space: GoString, members: seq<Member>)

  /** A value with the blanks around it. */
  datatype Item = Item(before: GoString, doc: Doc, after: GoString)

  datatype Member = Member(before: GoString, key: seq<Piece>, afterKey: GoString, item: Item)

  /** The blanks of section 2. */
  predicate Blank(s: GoString) {
    forall i :: 0 <= i < |s| ==> s[i] == 0x20 || s[i] == 0x09 || s[i] == 0x0A || s[i] == 0x0D
  }

  function Characters(pieces: seq<Piece>): GoString {
    if AllWellFormed(pieces) then Utf8.Encode(Values(pieces)) else []
  }

  predicate DistinctKeys(members: seq<Member>) {
    forall i, j :: 0 <= i < j < |members| ==> Characters(members[i].key) != Characters(members[j].key)
  }

  predicate WellFormed(d: Doc)
    decreases d
  {
    match d
    case Constant(value) => value.Null? || value.Boolean?
    case Numeral(_, whole, fraction, exponent) =>
      && AllDigits(whole) && whole != [] && (|whole| > 1 ==> whole[0] != '0' as int)
      && AllDigits(fraction) && exponent.WellFormed()
    case Chars(pieces) => AllWellFormed(pieces)
    case List(space, items) =>
      Blank(space) && forall i | 0 <= i < |items| ::
        Blank(items[i].before) && WellFormed(items[i].doc) && Blank(items[i].after)
    case Record(space, members) =>
      && Blank(space) && DistinctKeys(members)
      && forall i | 0 <= i < |members| ::
           && Blank(members[i].before) && AllWellFormed(members[i].key) && Blank(members[i].afterKey)
           && Blank(members[i].item.before) && WellFormed(members[i].item.doc) && Blank(members[i].item.after)
  }

  function Text(d: Doc): GoString
    decreases d, 2
  {
    match d
    case Constant(value) =>
      if value == Null then Ascii("null") else if value == Boolean(true) then Ascii("true") else Ascii("false")
    case Numeral(negative, whole, fraction, exponent) =>
      SignText(negative) + (whole + (FractionText(fraction) + exponent.Text()))
    case Chars(pieces) => [QUOTE] + (Texts(pieces) + [QUOTE])
    case List(space, items) => ['[' as int] + (space + (ItemsText(items, true) + [']' as int]))
    case Record(space, members) => ['{' as int] + (space + (MembersText(members, true) + ['}' as int]))
  }

  function ItemText(item: Item): GoString
    decreases item, 1
  {
    item.before + (Text(item.doc) + item.after)
  }

  /** The items with a comma before each but the first. */
  function ItemsText(items: seq<Item>, first: bool): GoString
    decreases items, 0
  {
    if items == [] then []
    else Comma(first) + (ItemText(items[0]) + ItemsText(items[1..], false))
  }

  function MemberText(member: Member): GoString
    decreases member, 1
  {
    member.before + (KeyText(member.key) + (member.afterKey + ([':' as int] + ItemText(member.item))))
  }

  function MembersText(members: seq<Member>, first: bool): GoString
    decreases members, 0
  {
    if members == [] then []
    else Comma(first) + (MemberText(members[0]) + MembersText(members[1..], false))
  }

  function KeyText(key: seq<Piece>): GoString {
    [QUOTE] + (Texts(key) + [QUOTE])
  }

  function Comma(first: bool): GoString {
    if first then [] else [',' as int]
  }

  /** The value that the grammar gives a text; numbers keep their spelling. */
  function Value(d: Doc): Json
    decreases d, 1
  {
    match d
    case Constant(value) => value
    case Numeral(_, _, _, _) => Num(Text(d))
    case Chars(pieces) => Str(Characters(pieces))
    case List(_, items) => Arr(ItemValues(items))
    case Record(_, members) => Obj(MemberValues(members))
  }

  function ItemValues(items: seq<Item>): seq<Json>
    decreases items, 0
  {
    if items == [] then [] else [Value(items[0].doc)] + ItemValues(items[1..])
  }

  function MemberValues(members: seq<Member>): map<GoString, Json>
    decreases members, 0
  {
    if members == [] then map[]
    else map[Characters(members[0].key) := Value(members[0].item.doc)] + MemberValues(members[1..])
  }

  // ---------- blanks and constants ----------

  lemma {:induction false} BlankSkipped(before: GoString, s: GoString)
    requires Blank(before)
    ensures SkipSpace(before + s) == SkipSpace(s)
  {
    if before == [] {
      assert [] + s == s;
    } else {
      BlankSkipped(before[1..], s);
      assert (before + s)[1..] == before[1..] + s;
    }
  }

  lemma {:induction false} SkipsBlank(s: GoString) returns (before: GoString)
    ensures Blank(before) && s == before + SkipSpace(s)
  {
    if s != [] && IsJsonSpace(s[0]) {
      var more := SkipsBlank(s[1..]);
      before := [s[0]] + more;
      assert s == [s[0]] + s[1..];
      assert [s[0]] + more + SkipSpace(s) == [s[0]] + (more + SkipSpace(s));
    } else {
      before := [];
      assert [] + s == s;
    }
  }

  lemma BlankDelimits(after: GoString, s: GoString)
    requires Blank(after) && Delimited(s)
    ensures Delimited(after + s)
  {
    if after == [] {
      assert [] + s == s;
    } else {
      assert (after + s)[0] == after[0];
    }
  }

  lemma ValueAfterBlank(before: GoString, s: GoString, strict: bool)
    requires Blank(before)
    ensures ReadValue(before + s, strict) == ReadValue(s, strict)
  {
    BlankSkipped(before, s);
    hide SkipSpace, ReadItems, ReadMembers, ReadBody, ReadNumber, ReadLiteral;
  }

  // ---------- numbers ----------

  lemma SignedDigits(sign: GoString, digits: GoString, rest: GoString)
    requires sign == [] || sign == [PLUS] || sign == [MINUS]
    requires digits != [] && AllDigits(digits)
    ensures var t := sign + (digits + rest);
            && (StartsWith(t, MINUS) || StartsWith(t, PLUS) <==> sign != [])
            && (StartsWith(t, MINUS) <==> sign == [MINUS])
            && (if sign != [] then t[1..] else t) == digits + rest
  {
    assert IsDigit(digits[0]);
  }

  lemma MarkedReads(mark: byte, t: GoString, u: GoString)
    requires mark == SMALL_E || mark == BIG_E
    requires u == if StartsWith(t, MINUS) || StartsWith(t, PLUS) then t[1..] else t
    requires Span(u) > 0
    ensures var power: int := NatOf(u[..Span(u)]);
            ScanExponent([mark] + t) == Some((if StartsWith(t, MINUS) then -power else power, u[Span(u)..]))
  {
    hide Span, NatOf;
    assert ([mark] + t)[1..] == t;
  }

  lemma ExponentReads(e: ExponentPart, rest: GoString)
    requires e.WellFormed() && Delimited(rest)
    ensures ScanExponent(e.Text() + rest) == Some((e.Power(), rest))
    ensures e.Text() + rest != [] ==> !IsDigit((e.Text() + rest)[0]) && (e.Text() + rest)[0] != POINT
  {
    if e.NoExponent? {
      assert [] + rest == rest;
    } else {
      SpanExact(e.digits, rest);
      SignedDigits(e.sign, e.digits, rest);
      hide Span, ScanExponent, AllDigits, NatOf;
      Nest([e.mark], e.sign, e.digits, rest);
      MarkedReads(e.mark, e.sign + (e.digits + rest), e.digits + rest);
    }
  }

  lemma Nest(a: GoString, b: GoString, c: GoString, rest: GoString)
    ensures (a + b) + rest == a + (b + rest)
    ensures (a + (b + c)) + rest == a + (b + (c + rest))
  {
  }

  lemma Cut(s: GoString, rest: GoString)
    ensures (s + rest)[..|s + rest| - |rest|] == s
  {
  }

  lemma NumeralReads(d: Doc, rest: GoString)
    requires d.Numeral? && WellFormed(d) && Delimited(rest)
    ensures ReadNumber(Text(d) + rest) == Ok((Num(Text(d)), rest))
  {
    hide ScanNumber, ScanExponent, FractionText, SignText;
    var tail := d.exponent.Text() + rest;
    ExponentReads(d.exponent, rest);
    ScanAssembled(d.negative, d.whole, d.fraction, tail, true);
    Nest(SignText(d.negative), d.whole, FractionText(d.fraction) + d.exponent.Text(), rest);
    Nest(FractionText(d.fraction), d.exponent.Text(), [], rest);
    Cut(Text(d), rest);
  }

  lemma CutAt(s: GoString, i: nat)
    requires i <= |s|
    ensures s == s[..i] + s[i..]
  {
  }

  lemma CutThree(s: GoString, k: nat, n: nat)
    requires 1 <= k <= |s| && n <= |s| - k
    ensures s == [s[0]] + (s[1..k] + s[k..][..n]) + s[k..][n..]
  {
    CutAt(s[k..], n);
    assert s[1..] == s[1..k] + s[k..];
    assert s == [s[0]] + s[1..];
    Nest([s[0]], s[1..k], s[k..][..n], s[k..][n..]);
  }

  /** The mark, sign and digits of an exponent that scans. */
  lemma ExponentParts(s: GoString) returns (k: nat, n: nat)
    requires ScanExponent(s).Some? && (StartsWith(s, SMALL_E) || StartsWith(s, BIG_E))
    ensures 1 <= k <= 2 && k <= |s| && 0 < n <= |s| - k && AllDigits(s[k..][..n])
    ensures ScanExponent(s).value.1 == s[k..][n..]
    ensures s[1..k] == [] || s[1..k] == [MINUS] || s[1..k] == [PLUS]
  {
    hide Span, NatOf, AllDigits;
    k := if StartsWith(s[1..], MINUS) || StartsWith(s[1..], PLUS) then 2 else 1;
    n := Span(s[k..]);
    assert s[1..][1..] == s[2..];
    if k == 2 {
      assert s[1..2] == [s[1]];
    }
  }

  lemma ExponentParses(s: GoString) returns (e: ExponentPart)
    requires ScanExponent(s).Some?
    ensures e.WellFormed() && s == e.Text() + ScanExponent(s).value.1
  {
    if StartsWith(s, SMALL_E) || StartsWith(s, BIG_E) {
      hide ScanExponent, AllDigits;
      var k, n := ExponentParts(s);
      e := Exponent(s[0], s[1..k], s[k..][..n]);
      CutThree(s, k, n);
    } else {
      e := NoExponent;
      assert [] + s == s;
    }
  }

  /** The whole part, the fraction and what follows them in a number that scans. */
  lemma UnsignedParts(negative: bool, t: GoString) returns (whole: GoString, fraction: GoString, tail: GoString)
    requires ScanUnsigned(negative, t, true).Some?
    ensures AllDigits(whole) && whole != [] && (|whole| > 1 ==> whole[0] != ZERO) && AllDigits(fraction)
    ensures t == whole + (FractionText(fraction) + tail)
    ensures ScanUnsigned(negative, t, true) == ScanTail(negative, whole, fraction, tail)
  {
    var w := if StartsWith(t, ZERO) then 1 else Span(t);
    whole := t[..w];
    var u := t[w..];
    CutAt(t, w);
    if StartsWith(u, POINT) {
      var f := Span(u[1..]);
      hide Span, ScanTail;
      fraction, tail := u[1..][..f], u[1..][f..];
      CutAt(u[1..], f);
      CutAt(u, 1);
      assert u[..1] == [POINT];
      Nest([POINT], fraction, [], tail);
    } else {
      hide Span, ScanTail;
      fraction, tail := [], u;
      assert [] + u == u;
    }
  }

  lemma UnsignedParses(negative: bool, t: GoString) returns (whole: GoString, fraction: GoString, e: ExponentPart)
    requires ScanUnsigned(negative, t, true).Some?
    ensures WellFormed(Numeral(negative, whole, fraction, e))
    ensures t == whole + (FractionText(fraction) + (e.Text() + ScanUnsigned(negative, t, true).value.1))
  {
    hide ScanExponent, ScanUnsigned;
    var tail: GoString;
    whole, fraction, tail := UnsignedParts(negative, t);
    e := ExponentParses(tail);
  }

  lemma SignCut(s: GoString)
    ensures s == SignText(StartsWith(s, MINUS)) + (if StartsWith(s, MINUS) then s[1..] else s)
    ensures ScanNumber(s, true)
            == ScanUnsigned(StartsWith(s, MINUS), if StartsWith(s, MINUS) then s[1..] else s, true)
  {
    assert [] + s == s;
  }

  lemma NumberParses(s: GoString) returns (d: Doc)
    requires ReadNumber(s).Ok?
    ensures d.Numeral? && WellFormed(d) && s == Text(d) + ReadNumber(s).value.1
    ensures ReadNumber(s).value.0 == Value(d)
  {
    SignCut(s);
    hide ScanUnsigned, ScanNumber, SignText, FractionText, ExponentPart.Text;
    var negative := StartsWith(s, MINUS);
    var t := if negative then s[1..] else s;
    var whole, fraction, e := UnsignedParses(negative, t);
    d := Numeral(negative, whole, fraction, e);
    var rest := ReadNumber(s).value.1;
    Nest(SignText(negative), whole, FractionText(fraction) + e.Text(), rest);
    Nest(FractionText(fraction), e.Text(), [], rest);
    Cut(Text(d), rest);
  }

  // ---------- what a number of the grammar prints as ----------

  /** The magnitude that the digits and the exponent spell. */
  function NumeralValue(d: Doc): (v: real)
    requires d.Numeral? && WellFormed(d)
    ensures v >= 0.0
  {
    var n := Number(d.negative, d.whole, d.fraction, d.exponent.Power());
    MagnitudeNonNegative(n);
    Tens(NatOf(d.whole + d.fraction) as real, d.exponent.Power() - |d.fraction|)
  }

  predicate IsInteger(d: Doc)
    requires d.Numeral?
  {
    d.fraction == [] && d.exponent.NoExponent?
  }

  lemma NumeralScans(d: Doc)
    requires d.Numeral? && WellFormed(d)
    ensures ScanNumber(Text(d), false) == Some((Number(d.negative, d.whole, d.fraction, d.exponent.Power()), []))
  {
    hide ScanNumber, ScanExponent, FractionText, SignText, NatOf;
    ExponentReads(d.exponent, []);
    assert d.exponent.Text() + [] == d.exponent.Text();
    ScanAssembled(d.negative, d.whole, d.fraction, d.exponent.Text(), false);
  }

  lemma LastOf(a: GoString, b: GoString)
    requires b != []
    ensures (a + b)[|a + b| - 1] == b[|b| - 1]
  {
  }

  lemma NumeralEnds(d: Doc)
    requires d.Numeral? && WellFormed(d)
    ensures var s := Text(d); s != [] && !IsSpace(s[0]) && IsDigit(s[|s| - 1])
  {
    NumeralHead(d);
    var f, x := FractionText(d.fraction), d.exponent.Text();
    if x != [] {
      LastOf([d.exponent.mark] + d.exponent.sign, d.exponent.digits);
      Nest([d.exponent.mark], d.exponent.sign, [], d.exponent.digits);
      LastOf(f, x);
      LastOf(d.whole, f + x);
      LastOf(SignText(d.negative), d.whole + (f + x));
    } else if f != [] {
      assert f + x == f;
      LastOf([POINT], d.fraction);
      LastOf(d.whole, f + x);
      LastOf(SignText(d.negative), d.whole + (f + x));
    } else {
      assert d.whole + (f + x) == d.whole;
      LastOf(SignText(d.negative), d.whole);
    }
  }

  lemma NumeralLexeme(d: Doc)
    requires d.Numeral? && WellFormed(d)
    ensures IsIntegerLexeme(Text(d)) <==> IsInteger(d)
    ensures IsInteger(d) ==> LexemeDigits(Text(d)) == d.whole
  {
    var f, x := FractionText(d.fraction), d.exponent.Text();
    var body := d.whole + (f + x);
    assert IsDigit(body[0]);
    SignedLexeme(d.negative, body);
    if IsInteger(d) {
      assert body == d.whole;
      HeadTail(MINUS, d.whole, []);
      assert [] + d.whole == d.whole;
    } else {
      assert !IsDigit(body[|d.whole|]);
    }
  }

  /** The text of a binary64 magnitude: `0`, or its shortest digits as ECMA-262 lays them out. */
  function MagnitudeText(negative: bool, x: real): GoString
    requires x == 0.0 || Positive(x)
  {
    if x == 0.0 then Ascii("0")
    else
      var d := Shortest(x);
      (if negative then Ascii("-") else []) + EcmaText(Digits(d.sig), d.quantum + |Digits(d.sig)|)
  }

  lemma RoundedPositive(v: real)
    requires v >= 0.0 && Round(v).Some?
    ensures Round(v).value == 0.0 || Positive(Round(v).value)
  {
    hide Round;
    RoundRepresentable(v);
    RoundExact(Round(v).value);
  }

  lemma NumeralFloat(d: Doc)
    requires d.Numeral? && WellFormed(d)
    ensures ParseFloat(Text(d)) == match Round(NumeralValue(d))
                                   case None => Err(NumberRange)
                                   case Some(x) => Ok((d.negative, x))
  {
    hide Round, Tens, NatOf, ScanNumber, Text, AllDigits;
    NumeralScans(d);
    var n := Number(d.negative, d.whole, d.fraction, d.exponent.Power());
    assert n.Magnitude() == NumeralValue(d);
  }

  lemma NumeralGate(d: Doc)
    requires d.Numeral? && WellFormed(d)
    ensures IntegerGate(Text(d))
            == if !IsInteger(d) then None
               else match Round(NumeralValue(d))
                    case None => Some(NumberRange)
                    case Some(x) => if x == NumeralValue(d) then None else Some(InexactInteger)
  {
    hide Round, NatOf, Text, WellFormed, IsIntegerLexeme, LexemeDigits, NumeralValue;
    NumeralLexeme(d);
    if IsInteger(d) {
      WholeMagnitude(d);
    }
  }

  lemma MagnitudeFormat(negative: bool, x: real)
    requires Positive(x)
    ensures Format(negative, x) == MagnitudeText(negative, x)
  {
    hide Shortest, Digits, Layout, EcmaText, Ascii;
    var q := Shortest(x);
    LayoutIsEcma(negative, Digits(q.sig), q.quantum + |Digits(q.sig)| - 1);
  }

  /**
   Every number of the grammar prints as the nearest binary64 value, unless that is
   an infinity, or the number is written as an integer and is not that value itself.
   */
  lemma NumeralPrints(d: Doc)
    requires d.Numeral? && WellFormed(d)
    ensures var x := Round(NumeralValue(d));
            && (x.Some? ==> x.value == 0.0 || Positive(x.value))
            && CanonicalNumber(Text(d))
               == match x
                  case None => Err(NumberRange)
                  case Some(x) =>
                    if IsInteger(d) && x != NumeralValue(d) then Err(InexactInteger)
                    else Ok(MagnitudeText(d.negative, x))
  {
    hide Round, ParseFloat, IntegerGate, TrimSpace, Text, WellFormed, NumeralValue, Format, Shortest;
    NumeralFloat(d);
    NumeralGate(d);
    NumeralEnds(d);
    TrimmedEnds(Text(d));
    if Round(NumeralValue(d)).Some? {
      var x := Round(NumeralValue(d)).value;
      RoundedPositive(NumeralValue(d));
      if x != 0.0 {
        MagnitudeFormat(d.negative, x);
      }
    }
    assert Ascii("0") == [ZERO];
  }

  lemma WholeMagnitude(d: Doc)
    requires d.Numeral? && WellFormed(d) && IsInteger(d)
    ensures NumeralValue(d) == NatOf(d.whole) as real
  {
    assert d.whole + d.fraction == d.whole;
  }

  // ---------- every text of the grammar is read ----------

  predicate ItemFits(item: Item) {
    Blank(item.before) && WellFormed(item.doc) && Blank(item.after)
  }

  predicate MemberFits(member: Member) {
    Blank(member.before) && AllWellFormed(member.key) && Blank(member.afterKey) && ItemFits(member.item)
  }

  /** A text starts with no blank and none of the characters that close or separate. */
  lemma TextStarts(d: Doc)
    requires WellFormed(d)
    ensures Text(d) != [] && !IsJsonSpace(Text(d)[0]) && Text(d)[0] !in {COMMA, COLON, CLOSE_ARRAY, CLOSE_OBJECT}
    ensures !IsSpace(Text(d)[0])
  {
    hide AllWellFormed, ExponentPart.WellFormed, Texts;
    if d.Numeral? {
      assert IsDigit(d.whole[0]);
    }
  }

  lemma StringStarts(pieces: seq<Piece>, rest: GoString, strict: bool)
    requires AllWellFormed(pieces)
    ensures var s := KeyText(pieces) + rest;
            s != [] && s[0] == QUOTE && ReadBody(s[1..], strict) == Some((Values(pieces), rest))
  {
    hide ReadBody, Texts, Values;
    ReadPieces(pieces, rest, strict);
    var s := KeyText(pieces) + rest;
    Nest([QUOTE], Texts(pieces), [QUOTE], rest);
    assert s[1..] == Texts(pieces) + ([QUOTE] + rest);
    Nest(Texts(pieces), [QUOTE], [], rest);
  }

  lemma ConstantReads(value: Json, rest: GoString, strict: bool)
    requires value.Null? || value.Boolean?
    ensures ReadValue(Text(Constant(value)) + rest, strict) == Ok((value, rest))
  {
    hide ReadBody, ReadItems, ReadMembers, ReadNumber;
    var text := Text(Constant(value));
    var s := text + rest;
    LiteralTexts();
    NoLeadingSpace(s);
    assert s[..|text|] == text && s[|text|..] == rest;
  }

  lemma NumeralHead(d: Doc)
    requires d.Numeral? && WellFormed(d)
    ensures Text(d) != [] && (Text(d)[0] == MINUS || IsDigit(Text(d)[0]))
  {
    hide ExponentPart.WellFormed, FractionText, ExponentPart.Text;
    assert IsDigit(d.whole[0]);
    HeadOf(SignText(d.negative), d.whole, FractionText(d.fraction) + d.exponent.Text());
  }

  lemma HeadOf(sign: GoString, whole: GoString, more: GoString)
    requires whole != []
    ensures (sign + (whole + more))[0] == if sign == [] then whole[0] else sign[0]
  {
  }

  /** A number is what a value that starts with a sign or digit is read as. */
  lemma NumberStarts(s: GoString, strict: bool)
    requires s != [] && (s[0] == MINUS || IsDigit(s[0]))
    ensures ReadValue(s, strict) == ReadNumber(s)
  {
    hide ReadBody, ReadItems, ReadMembers, ReadNumber, ReadLiteral;
    NoLeadingSpace(s);
  }

  lemma NumeralStarts(d: Doc, rest: GoString, strict: bool)
    requires d.Numeral? && WellFormed(d) && Delimited(rest)
    ensures ReadValue(Text(d) + rest, strict) == Ok((Value(d), rest))
  {
    hide ReadValue, ReadNumber, WellFormed, Text;
    NumeralReads(d, rest);
    NumeralHead(d);
    NumberStarts(Text(d) + rest, strict);
  }

  lemma CharsReads(pieces: seq<Piece>, rest: GoString, strict: bool)
    requires AllWellFormed(pieces)
    ensures ReadValue(Text(Chars(pieces)) + rest, strict) == Ok((Value(Chars(pieces)), rest))
  {
    StringStarts(pieces, rest, strict);
    hide ReadBody, ReadItems, ReadMembers, ReadNumber, AllWellFormed, Values, Texts, Utf8.Encode;
    NoLeadingSpace(Text(Chars(pieces)) + rest);
  }

  /** The text of a list or record, opened. */
  lemma Opened(open: byte, space: GoString, body: GoString, close: byte, rest: GoString)
    ensures var s := [open] + (space + (body + [close])) + rest;
            s[0] == open && s[1..] == space + (body + ([close] + rest))
  {
    Nest([open], space, body + [close], rest);
    Nest(body, [close], [], rest);
  }

  lemma ItemsLayout(items: seq<Item>, first: bool, rest: GoString)
    requires items != []
    ensures var tail := items[0].after + (ItemsText(items[1..], false) + rest);
            ItemsText(items, first) + rest == Comma(first) + (items[0].before + (Text(items[0].doc) + tail))
  {
    var more := ItemsText(items[1..], false);
    hide Text;
    Nest(Comma(first), ItemText(items[0]), more, rest);
    Nest(items[0].before, Text(items[0].doc), items[0].after, more + rest);
  }

  lemma ItemsDelimited(items: seq<Item>, close: byte, rest: GoString)
    requires close in {CLOSE_ARRAY, CLOSE_OBJECT}
    ensures Delimited(ItemsText(items, false) + ([close] + rest))
  {
    hide ItemText;
    if items == [] {
      assert [] + ([close] + rest) == [close] + rest;
    }
  }

  /** One item is read off the front of a list's text. */
  lemma ItemReads(before: GoString, text: GoString, tail: GoString, pad: GoString, value: Json, read: seq<Json>,
                  first: bool, strict: bool)
    requires Blank(pad) && Blank(before)
    requires text != [] && !IsJsonSpace(text[0]) && text[0] !in {COMMA, CLOSE_ARRAY}
    requires ReadValue(text + tail, strict) == Ok((value, tail))
    ensures ReadItems(pad + (Comma(first) + (before + (text + tail))), read, first, strict)
            == ReadItems(tail, read + [value], false, strict)
  {
    hide ReadValue;
    var u := before + (text + tail);
    var s := Comma(first) + u;
    BlankSkipped(pad, s);
    if first {
      assert s == u;
      BlankSkipped(before, text + tail);
      NoLeadingSpace(text + tail);
    } else {
      NoLeadingSpace(s);
      assert s[1..] == u;
      ValueAfterBlank(before, text + tail, strict);
    }
  }

  lemma ItemsClose(pad: GoString, read: seq<Json>, first: bool, rest: GoString, strict: bool)
    requires Blank(pad)
    ensures ReadItems(pad + ([CLOSE_ARRAY] + rest), read, first, strict) == Ok((Arr(read), rest))
  {
    BlankSkipped(pad, [CLOSE_ARRAY] + rest);
    NoLeadingSpace([CLOSE_ARRAY] + rest);
    assert ([CLOSE_ARRAY] + rest)[1..] == rest;
  }

  /** Whatever may follow it, a text of the grammar is read up to its end, as its value. */
  lemma {:induction false} TextReads(d: Doc, rest: GoString, strict: bool)
    requires WellFormed(d) && Delimited(rest)
    ensures ReadValue(Text(d) + rest, strict) == Ok((Value(d), rest))
    decreases d, 1
  {
    hide ReadValue, ReadItems, ReadMembers;
    match d
    case Constant(value) =>
      ConstantReads(value, rest, strict);
    case Numeral(_, _, _, _) =>
      NumeralStarts(d, rest, strict);
    case Chars(pieces) =>
      CharsReads(pieces, rest, strict);
    case List(space, items) =>
      assert forall i :: 0 <= i < |items| ==> ItemFits(items[i]);
      ItemsRead(items, [], true, space, rest, strict);
      assert [] + ItemValues(items) == ItemValues(items);
      ListOpens(d, rest, strict);
    case Record(space, members) =>
      assert forall i :: 0 <= i < |members| ==> MemberFits(members[i]);
      MembersRead(members, map[], true, space, rest, strict);
      assert map[] + MemberValues(members) == MemberValues(members);
      RecordOpens(d, rest, strict);
  }

  lemma ListOpens(d: Doc, rest: GoString, strict: bool)
    requires d.List?
    ensures ReadValue(Text(d) + rest, strict)
            == ReadItems(d.space + (ItemsText(d.items, true) + ([CLOSE_ARRAY] + rest)), [], true, strict)
  {
    hide ReadItems, ReadMembers, ItemsText;
    Opened(OPEN_ARRAY, d.space, ItemsText(d.items, true), CLOSE_ARRAY, rest);
    NoLeadingSpace(Text(d) + rest);
  }

  lemma RecordOpens(d: Doc, rest: GoString, strict: bool)
    requires d.Record?
    ensures ReadValue(Text(d) + rest, strict)
            == ReadMembers(d.space + (MembersText(d.members, true) + ([CLOSE_OBJECT] + rest)), map[], true, strict)
  {
    hide ReadItems, ReadMembers, MembersText;
    Opened(OPEN_OBJECT, d.space, MembersText(d.members, true), CLOSE_OBJECT, rest);
    NoLeadingSpace(Text(d) + rest);
  }

  lemma {:induction false} ItemsRead(items: seq<Item>, read: seq<Json>, first: bool, pad: GoString, rest: GoString,
                                     strict: bool)
    requires (forall i :: 0 <= i < |items| ==> ItemFits(items[i])) && Blank(pad)
    ensures ReadItems(pad + (ItemsText(items, first) + ([CLOSE_ARRAY] + rest)), read, first, strict)
            == Ok((Arr(read + ItemValues(items)), rest))
    decreases items, 0
  {
    hide ReadItems, ReadValue, Text, Value, Blank;
    if items == [] {
      assert [] + ([CLOSE_ARRAY] + rest) == [CLOSE_ARRAY] + rest;
      assert read + [] == read;
      ItemsClose(pad, read, first, rest, strict);
    } else {
      assert ItemFits(items[0]);
      var d, tail := items[0].doc, items[0].after + (ItemsText(items[1..], false) + ([CLOSE_ARRAY] + rest));
      ItemsDelimited(items[1..], CLOSE_ARRAY, rest);
      BlankDelimits(items[0].after, ItemsText(items[1..], false) + ([CLOSE_ARRAY] + rest));
      ItemsLayout(items, first, [CLOSE_ARRAY] + rest);
      hide ItemsText, Delimited;
      TextReads(d, tail, strict);
      TextStarts(d);
      ItemReads(items[0].before, Text(d), tail, pad, Value(d), read, first, strict);
      ItemsRead(items[1..], read + [Value(d)], false, items[0].after, rest, strict);
      assert read + [Value(d)] + ItemValues(items[1..]) == read + ItemValues(items);
    }
  }

  // ---------- members ----------

  lemma MembersLayout(members: seq<Member>, first: bool, rest: GoString)
    requires members != []
    ensures var m := members[0];
            var tail := m.item.after + (MembersText(members[1..], false) + rest);
            MembersText(members, first) + rest
            == Comma(first) + (m.before + (KeyText(m.key) + (m.afterKey + ([COLON] + (m.item.before
               + (Text(m.item.doc) + tail))))))
  {
    var m, more := members[0], MembersText(members[1..], false);
    hide Text, KeyText, ItemText;
    Nest(Comma(first), MemberText(m), more, rest);
    Nest(m.before, KeyText(m.key), m.afterKey + ([COLON] + ItemText(m.item)), more + rest);
    Nest(m.afterKey, [COLON], ItemText(m.item), more + rest);
    ItemNest(m.item, more + rest);
  }

  lemma ItemNest(item: Item, rest: GoString)
    ensures ItemText(item) + rest == item.before + (Text(item.doc) + (item.after + rest))
  {
    hide Text;
    Nest(item.before, Text(item.doc), item.after, rest);
  }

  lemma MembersDelimited(members: seq<Member>, rest: GoString)
    ensures Delimited(MembersText(members, false) + ([CLOSE_OBJECT] + rest))
  {
    hide MemberText;
    if members == [] {
      assert [] + ([CLOSE_OBJECT] + rest) == [CLOSE_OBJECT] + rest;
    }
  }

  lemma KeyReads(before: GoString, key: seq<Piece>, rest: GoString, strict: bool)
    requires Blank(before) && AllWellFormed(key)
    ensures ReadKey(before + (KeyText(key) + rest), strict) == Ok((Characters(key), rest))
  {
    hide ReadBody, AllWellFormed, Values, KeyText;
    StringStarts(key, rest, strict);
    BlankSkipped(before, KeyText(key) + rest);
    NoLeadingSpace(KeyText(key) + rest);
  }

  lemma MemberValueReads(before: GoString, item: Item, value: Json, tail: GoString, strict: bool)
    requires Blank(before) && Blank(item.before)
    requires ReadValue(Text(item.doc) + tail, strict) == Ok((value, tail))
    ensures ReadMemberValue(before + ([COLON] + (item.before + (Text(item.doc) + tail))), strict) == Ok((value, tail))
  {
    hide ReadValue, Text;
    var u := item.before + (Text(item.doc) + tail);
    BlankSkipped(before, [COLON] + u);
    NoLeadingSpace([COLON] + u);
    assert ([COLON] + u)[1..] == u;
    ValueAfterBlank(item.before, Text(item.doc) + tail, strict);
  }

  /** One member is read off the front of a record's text. */
  lemma MemberOff(before: GoString, key: seq<Piece>, after: GoString, tail: GoString, pad: GoString, value: Json,
                    read: map<GoString, Json>, first: bool, strict: bool)
    requires Blank(pad) && Blank(before) && AllWellFormed(key) && Characters(key) !in read
    requires ReadMemberValue(after, strict) == Ok((value, tail))
    ensures ReadMembers(pad + (Comma(first) + (before + (KeyText(key) + after))), read, first, strict)
            == ReadMembers(tail, read[Characters(key) := value], false, strict)
  {
    var u := before + (KeyText(key) + after);
    var s := Comma(first) + u;
    KeyReads(before, key, after, strict);
    KeyReads([], key, after, strict);
    assert [] + (KeyText(key) + after) == KeyText(key) + after;
    assert (KeyText(key) + after)[0] == QUOTE;
    hide ReadMemberValue, ReadKey, KeyText, Characters, AllWellFormed;
    BlankSkipped(pad, s);
    if first {
      assert s == u;
      BlankSkipped(before, KeyText(key) + after);
      NoLeadingSpace(KeyText(key) + after);
    } else {
      NoLeadingSpace(s);
      assert s[1..] == u;
    }
  }

  lemma MembersClose(pad: GoString, read: map<GoString, Json>, first: bool, rest: GoString, strict: bool)
    requires Blank(pad)
    ensures ReadMembers(pad + ([CLOSE_OBJECT] + rest), read, first, strict) == Ok((Obj(read), rest))
  {
    BlankSkipped(pad, [CLOSE_OBJECT] + rest);
    NoLeadingSpace([CLOSE_OBJECT] + rest);
    assert ([CLOSE_OBJECT] + rest)[1..] == rest;
  }

  lemma {:induction false} MembersRead(members: seq<Member>, read: map<GoString, Json>, first: bool, pad: GoString,
                                       rest: GoString, strict: bool)
    requires (forall i :: 0 <= i < |members| ==> MemberFits(members[i])) && Blank(pad) && DistinctKeys(members)
    requires forall i :: 0 <= i < |members| ==> Characters(members[i].key) !in read
    ensures ReadMembers(pad + (MembersText(members, first) + ([CLOSE_OBJECT] + rest)), read, first, strict)
            == Ok((Obj(read + MemberValues(members)), rest))
    decreases members, 0
  {
    hide ReadMembers, ReadMemberValue, ReadValue, Text, Value, WellFormed, Blank, KeyText, Characters, AllWellFormed;
    if members == [] {
      assert [] + ([CLOSE_OBJECT] + rest) == [CLOSE_OBJECT] + rest;
      assert read + map[] == read;
      MembersClose(pad, read, first, rest, strict);
    } else {
      var m := members[0];
      assert MemberFits(m) && ItemFits(m.item);
      var tail := m.item.after + (MembersText(members[1..], false) + ([CLOSE_OBJECT] + rest));
      MembersDelimited(members[1..], rest);
      BlankDelimits(m.item.after, MembersText(members[1..], false) + ([CLOSE_OBJECT] + rest));
      MembersLayout(members, first, [CLOSE_OBJECT] + rest);
      hide MembersText, Delimited;
      TextReads(m.item.doc, tail, strict);
      MemberValueReads(m.afterKey, m.item, Value(m.item.doc), tail, strict);
      var after := m.afterKey + ([COLON] + (m.item.before + (Text(m.item.doc) + tail)));
      MemberOff(m.before, m.key, after, tail, pad, Value(m.item.doc), read, first, strict);
      var next := read[Characters(m.key) := Value(m.item.doc)];
      MembersRead(members[1..], next, false, m.item.after, rest, strict);
      assert next + MemberValues(members[1..]) == read + MemberValues(members);
    }
  }

  // ---------- whatever is read is a text of the grammar ----------

  lemma LeafParses(t: GoString) returns (d: Doc)
    requires ReadValue(t, true).Ok? && t != [] && SkipSpace(t) == t && t[0] !in {OPEN_ARRAY, OPEN_OBJECT}
    ensures WellFormed(d) && Value(d) == ReadValue(t, true).value.0
    ensures t == Text(d) + ReadValue(t, true).value.1
  {
    hide ReadItems, ReadMembers, ReadNumber, Pieces, Texts, Ascii, SkipSpace;
    LiteralTexts();
    var rest := ReadValue(t, true).value.1;
    if t[0] == QUOTE {
      d := CharsParses(t);
    } else if t[0] == TRUE_TEXT[0] {
      d := Constant(Boolean(true));
      assert t == TRUE_TEXT + t[4..];
    } else if t[0] == FALSE_TEXT[0] {
      d := Constant(Boolean(false));
      assert t == FALSE_TEXT + t[5..];
    } else if t[0] == NULL_TEXT[0] {
      d := Constant(Null);
      assert t == NULL_TEXT + t[4..];
    } else {
      d := NumberParses(t);
    }
  }

  /** The pieces of a string that reads strictly. */
  lemma StringParses(t: GoString) returns (pieces: seq<Piece>)
    requires StartsWith(t, QUOTE) && ReadBody(t[1..], true).Some?
    ensures AllWellFormed(pieces) && Values(pieces) == ReadBody(t[1..], true).value.0
    ensures t == KeyText(pieces) + ReadBody(t[1..], true).value.1
  {
    hide ReadBody, Texts, Values;
    pieces := Pieces(t[1..]);
    hide Pieces;
    var rest := ReadBody(t[1..], true).value.1;
    ReadPieces(pieces, rest, true);
    assert t == [QUOTE] + t[1..];
    Nest([QUOTE], Texts(pieces), [QUOTE], rest);
    Nest(Texts(pieces), [QUOTE], [], rest);
  }

  lemma CharsParses(t: GoString) returns (d: Doc)
    requires StartsWith(t, QUOTE) && ReadValue(t, true).Ok?
    ensures WellFormed(d) && Value(d) == ReadValue(t, true).value.0
    ensures t == Text(d) + ReadValue(t, true).value.1
  {
    hide ReadBody, AllWellFormed, Values, Texts, Utf8.Encode;
    NoLeadingSpace(t);
    var pieces := StringParses(t);
    d := Chars(pieces);
  }

  lemma {:induction false} ValueParses(s: GoString) returns (before: GoString, d: Doc)
    requires ReadValue(s, true).Ok?
    ensures Blank(before) && WellFormed(d) && Value(d) == ReadValue(s, true).value.0
    ensures s == before + (Text(d) + ReadValue(s, true).value.1)
    decreases |s|, 0
  {
    before := SkipsBlank(s);
    var t := SkipSpace(s);
    SpaceSkipped(s);
    hide Value, Text, ReadBody, ReadNumber, ReadLiteral, ReadItems, ReadMembers, SkipSpace, Blank;
    if t[0] == OPEN_ARRAY {
      var pad, items := ItemsParse(t[1..], [], true);
      d := ListOf(t, pad, items);
    } else if t[0] == OPEN_OBJECT {
      var pad, members := MembersParse(t[1..], map[], true);
      d := RecordOf(t, pad, members);
    } else {
      d := LeafParses(t);
    }
  }

  lemma SpaceSkipped(s: GoString)
    requires ReadValue(s, true).Ok?
    ensures SkipSpace(s) != [] && SkipSpace(SkipSpace(s)) == SkipSpace(s)
    ensures ReadValue(SkipSpace(s), true) == ReadValue(s, true)
  {
    hide ReadBody, ReadItems, ReadMembers, ReadNumber, ReadLiteral;
    if SkipSpace(s) != [] {
      NoLeadingSpace(SkipSpace(s));
    }
  }

  lemma ListOf(t: GoString, pad: GoString, items: seq<Item>) returns (d: Doc)
    requires t != [] && t[0] == OPEN_ARRAY && SkipSpace(t) == t && ReadItems(t[1..], [], true, true).Ok?
    requires Blank(pad) && forall i :: 0 <= i < |items| ==> ItemFits(items[i])
    requires var (v, rest) := ReadItems(t[1..], [], true, true).value;
             v == Arr([] + ItemValues(items)) && t[1..] == pad + (ItemsText(items, true) + ([CLOSE_ARRAY] + rest))
    ensures WellFormed(d) && ReadValue(t, true).Ok? && Value(d) == ReadValue(t, true).value.0
    ensures t == Text(d) + ReadValue(t, true).value.1
  {
    hide ReadItems, ReadMembers, ItemsText, Blank, SkipSpace;
    d := List(pad, items);
    assert forall i :: 0 <= i < |items| ==> ItemFits(items[i]);
    assert [] + ItemValues(items) == ItemValues(items);
    var rest := ReadItems(t[1..], [], true, true).value.1;
    Opened(OPEN_ARRAY, pad, ItemsText(items, true), CLOSE_ARRAY, rest);
    assert t == [OPEN_ARRAY] + t[1..];
    assert Text(d) + rest == [OPEN_ARRAY] + (Text(d) + rest)[1..];
  }

  lemma RecordOf(t: GoString, pad: GoString, members: seq<Member>) returns (d: Doc)
    requires t != [] && t[0] == OPEN_OBJECT && SkipSpace(t) == t && ReadMembers(t[1..], map[], true, true).Ok?
    requires Blank(pad) && (forall i :: 0 <= i < |members| ==> MemberFits(members[i])) && DistinctKeys(members)
    requires var (v, rest) := ReadMembers(t[1..], map[], true, true).value;
             && v == Obj(map[] + MemberValues(members))
             && t[1..] == pad + (MembersText(members, true) + ([CLOSE_OBJECT] + rest))
    ensures WellFormed(d) && ReadValue(t, true).Ok? && Value(d) == ReadValue(t, true).value.0
    ensures t == Text(d) + ReadValue(t, true).value.1
  {
    hide ReadItems, ReadMembers, MembersText, Blank, SkipSpace, Characters, AllWellFormed;
    d := Record(pad, members);
    assert forall i :: 0 <= i < |members| ==> MemberFits(members[i]) && ItemFits(members[i].item);
    assert map[] + MemberValues(members) == MemberValues(members);
    var rest := ReadMembers(t[1..], map[], true, true).value.1;
    Opened(OPEN_OBJECT, pad, MembersText(members, true), CLOSE_OBJECT, rest);
    assert t == [OPEN_OBJECT] + t[1..];
    assert Text(d) + rest == [OPEN_OBJECT] + (Text(d) + rest)[1..];
  }

  /** What reading one more item means. */
  lemma ItemsUnroll(s: GoString, read: seq<Json>, first: bool)
    requires ReadItems(s, read, first, true).Ok?
    ensures var t := SkipSpace(s);
            && t != []
            && (t[0] == CLOSE_ARRAY ==> ReadItems(s, read, first, true) == Ok((Arr(read), t[1..])))
            && (t[0] != CLOSE_ARRAY ==>
                  && (first || t[0] == COMMA)
                  && var r := ReadValue(if first then t else t[1..], true);
                     && r.Ok?
                     && ReadItems(s, read, first, true)
                        == ReadItems(r.value.1, read + [r.value.0], false, true))
  {
    hide ReadValue;
  }

  lemma ItemsFit(item: Item, more: seq<Item>)
    requires ItemFits(item) && forall i :: 0 <= i < |more| ==> ItemFits(more[i])
    ensures forall i :: 0 <= i < |[item] + more| ==> ItemFits(([item] + more)[i])
  {
    hide ItemFits;
  }

  lemma PushItem(item: Item, more: seq<Item>, read: seq<Json>, first: bool, rest: GoString)
    requires ItemFits(item) && forall i :: 0 <= i < |more| ==> ItemFits(more[i])
    ensures forall i :: 0 <= i < |[item] + more| ==> ItemFits(([item] + more)[i])
    ensures read + [Value(item.doc)] + ItemValues(more) == read + ItemValues([item] + more)
    ensures ItemsText([item] + more, first) + rest
            == Comma(first) + (item.before + (Text(item.doc) + (item.after + (ItemsText(more, false) + rest))))
  {
    hide ItemFits, Value, Text;
    var items := [item] + more;
    assert items[0] == item && items[1..] == more;
    ItemsLayout(items, first, rest);
    hide ItemsText;
    ItemsFit(item, more);
    assert ItemValues(items) == [Value(item.doc)] + ItemValues(more);
    assert read + [Value(item.doc)] + ItemValues(more) == read + ([Value(item.doc)] + ItemValues(more));
  }

  lemma {:induction false} ItemsParse(s: GoString, read: seq<Json>, first: bool)
    returns (pad: GoString, items: seq<Item>)
    requires ReadItems(s, read, first, true).Ok?
    ensures Blank(pad) && forall i :: 0 <= i < |items| ==> ItemFits(items[i])
    ensures ReadItems(s, read, first, true).value.0 == Arr(read + ItemValues(items))
    ensures s == pad + (ItemsText(items, first) + ([CLOSE_ARRAY] + ReadItems(s, read, first, true).value.1))
    decreases |s|, 1
  {
    pad := SkipsBlank(s);
    var t := SkipSpace(s);
    ItemsUnroll(s, read, first);
    hide ReadItems, ReadValue, SkipSpace, Text, Value, Blank;
    var rest := ReadItems(s, read, first, true).value.1;
    if t[0] == CLOSE_ARRAY {
      items := [];
      assert read + [] == read;
      CutAt(t, 1);
      assert t[..1] == [CLOSE_ARRAY] && [] + t == t;
    } else {
      var u := if first then t else t[1..];
      var before, d := ValueParses(u);
      var (value, tail) := ReadValue(u, true).value;
      var after, more := ItemsParse(tail, read + [value], false);
      items := [Item(before, d, after)] + more;
      PushItem(Item(before, d, after), more, read, first, [CLOSE_ARRAY] + rest);
      CommaCut(t, first);
    }
  }

  lemma CommaCut(t: GoString, first: bool)
    requires t != [] && (first || t[0] == COMMA)
    ensures t == Comma(first) + (if first then t else t[1..])
  {
    assert [] + t == t;
  }

  lemma MembersUnroll(s: GoString, read: map<GoString, Json>, first: bool)
    requires ReadMembers(s, read, first, true).Ok?
    ensures var t := SkipSpace(s);
            && t != []
            && (t[0] == CLOSE_OBJECT ==> ReadMembers(s, read, first, true) == Ok((Obj(read), t[1..])))
            && (t[0] != CLOSE_OBJECT ==>
                  && (first || t[0] == COMMA)
                  && var k := ReadKey(if first then t else t[1..], true);
                     && k.Ok? && k.value.0 !in read
                     && var r := ReadMemberValue(k.value.1, true);
                        && r.Ok?
                        && ReadMembers(s, read, first, true)
                           == ReadMembers(r.value.1, read[k.value.0 := r.value.0], false, true))
  {
    hide ReadMemberValue, ReadKey;
  }

  lemma KeyParses(s: GoString) returns (before: GoString, key: seq<Piece>)
    requires ReadKey(s, true).Ok?
    ensures Blank(before) && AllWellFormed(key) && Characters(key) == ReadKey(s, true).value.0
    ensures s == before + (KeyText(key) + ReadKey(s, true).value.1)
  {
    before := SkipsBlank(s);
    hide ReadBody, SkipSpace, AllWellFormed, Values, Texts, Utf8.Encode, Blank;
    key := StringParses(SkipSpace(s));
  }

  lemma {:induction false} MemberValueParses(s: GoString) returns (afterKey: GoString, before: GoString, d: Doc)
    requires ReadMemberValue(s, true).Ok?
    ensures Blank(afterKey) && Blank(before) && WellFormed(d) && Value(d) == ReadMemberValue(s, true).value.0
    ensures s == afterKey + ([COLON] + (before + (Text(d) + ReadMemberValue(s, true).value.1)))
    decreases |s|, 1
  {
    afterKey := SkipsBlank(s);
    hide SkipSpace, ReadValue, Text, Value, Blank;
    var t := SkipSpace(s);
    before, d := ValueParses(t[1..]);
    CutAt(t, 1);
    assert t[..1] == [COLON];
  }

  lemma PushText(m: Member, more: seq<Member>, first: bool, rest: GoString)
    ensures MembersText([m] + more, first) + rest
            == Comma(first) + (m.before + (KeyText(m.key) + (m.afterKey + ([COLON] + (m.item.before
               + (Text(m.item.doc) + (m.item.after + (MembersText(more, false) + rest))))))))
  {
    var members := [m] + more;
    assert members[1..] == more;
    MembersLayout(members, first, rest);
  }

  lemma PushMember(m: Member, more: seq<Member>, read: map<GoString, Json>, value: Json)
    requires MemberFits(m) && (forall i :: 0 <= i < |more| ==> MemberFits(more[i])) && DistinctKeys(more)
    requires Value(m.item.doc) == value && Characters(m.key) !in read
    requires forall i :: 0 <= i < |more| ==> Characters(more[i].key) !in read[Characters(m.key) := value]
    ensures (forall i :: 0 <= i < |[m] + more| ==> MemberFits(([m] + more)[i])) && DistinctKeys([m] + more)
    ensures forall i :: 0 <= i < |[m] + more| ==> Characters(([m] + more)[i].key) !in read
    ensures read[Characters(m.key) := value] + MemberValues(more) == read + MemberValues([m] + more)
  {
    hide MemberFits, Value, Characters;
    var members := [m] + more;
    assert members[1..] == more;
    assert forall i :: 1 <= i < |members| ==> members[i] == more[i - 1];
    assert MemberValues(members) == map[Characters(m.key) := value] + MemberValues(more);
  }

  lemma {:induction false} MembersParse(s: GoString, read: map<GoString, Json>, first: bool)
    returns (pad: GoString, members: seq<Member>)
    requires ReadMembers(s, read, first, true).Ok?
    ensures Blank(pad) && (forall i :: 0 <= i < |members| ==> MemberFits(members[i])) && DistinctKeys(members)
    ensures forall i :: 0 <= i < |members| ==> Characters(members[i].key) !in read
    ensures ReadMembers(s, read, first, true).value.0 == Obj(read + MemberValues(members))
    ensures s == pad + (MembersText(members, first) + ([CLOSE_OBJECT] + ReadMembers(s, read, first, true).value.1))
    decreases |s|, 1
  {
    pad := SkipsBlank(s);
    var t := SkipSpace(s);
    MembersUnroll(s, read, first);
    hide ReadMembers, ReadMemberValue, ReadKey, ReadValue, SkipSpace, Text, Value, Blank, KeyText, Characters,
         AllWellFormed;
    var rest := ReadMembers(s, read, first, true).value.1;
    if t[0] == CLOSE_OBJECT {
      members := [];
      assert read + map[] == read;
      CutAt(t, 1);
      assert t[..1] == [CLOSE_OBJECT] && [] + t == t;
    } else {
      var u := if first then t else t[1..];
      var beforeKey, key := KeyParses(u);
      var (name, r) := ReadKey(u, true).value;
      var afterKey, before, d := MemberValueParses(r);
      var (value, tail) := ReadMemberValue(r, true).value;
      var after, more := MembersParse(tail, read[name := value], false);
      var m := Member(beforeKey, key, afterKey, Item(before, d, after));
      members := [m] + more;
      PushMember(m, more, read, value);
      PushText(m, more, first, [CLOSE_OBJECT] + rest);
      CommaCut(t, first);
    }
  }

  // ---------- the scan before decoding refuses no text of the grammar ----------

  lemma ScanBlank(space: GoString, rest: GoString)
    requires Blank(space)
    ensures ScanAll(space + rest) == ScanAll(rest)
  {
    ScanSkips(space, rest);
  }

  lemma ScanByte(b: byte, rest: GoString)
    requires b != QUOTE
    ensures ScanAll([b] + rest) == ScanAll(rest)
  {
    ScanSkips([b], rest);
  }

  lemma ScanComma(first: bool, rest: GoString)
    ensures ScanAll(Comma(first) + rest) == ScanAll(rest)
  {
    ScanSkips(Comma(first), rest);
  }

  lemma ScanString(pieces: seq<Piece>, rest: GoString)
    requires AllWellFormed(pieces)
    ensures ScanAll(KeyText(pieces) + rest) == ScanAll(rest)
  {
    StringStarts(pieces, rest, true);
    hide ReadBody, ScanBody, KeyText;
    ScanIsStrictReading((KeyText(pieces) + rest)[1..]);
  }

  lemma NumeralUnquoted(d: Doc)
    requires d.Numeral? && WellFormed(d)
    ensures QUOTE !in Text(d)
  {
    assert QUOTE !in SignText(d.negative) && QUOTE !in d.whole && QUOTE !in FractionText(d.fraction);
    assert QUOTE !in d.exponent.Text();
    hide WellFormed, ExponentPart.Text, FractionText, SignText;
  }

  lemma ScanScalar(d: Doc, rest: GoString)
    requires (d.Constant? || d.Numeral?) && WellFormed(d)
    ensures ScanAll(Text(d) + rest) == ScanAll(rest)
  {
    if d.Numeral? {
      NumeralUnquoted(d);
    }
    assert QUOTE !in Text(d);
    hide WellFormed, Text, ScanAll;
    assert forall i :: 0 <= i < |Text(d)| ==> Text(d)[i] in Text(d);
    ScanSkips(Text(d), rest);
  }

  lemma {:induction false} ScanText(d: Doc, rest: GoString)
    requires WellFormed(d)
    ensures ScanAll(Text(d) + rest) == ScanAll(rest)
    decreases d, 1
  {
    hide ScanAll;
    match d
    case Constant(_) =>
      ScanScalar(d, rest);
    case Numeral(_, _, _, _) =>
      ScanScalar(d, rest);
    case Chars(pieces) =>
      ScanString(pieces, rest);
    case List(space, items) =>
      assert forall i :: 0 <= i < |items| ==> ItemFits(items[i]);
      ScanItems(items, true, [CLOSE_ARRAY] + rest);
      ScanEnclosed(OPEN_ARRAY, space, ItemsText(items, true), CLOSE_ARRAY, rest);
    case Record(space, members) =>
      assert forall i :: 0 <= i < |members| ==> MemberFits(members[i]);
      ScanMembers(members, true, [CLOSE_OBJECT] + rest);
      ScanEnclosed(OPEN_OBJECT, space, MembersText(members, true), CLOSE_OBJECT, rest);
  }

  lemma ScanEnclosed(open: byte, space: GoString, body: GoString, close: byte, rest: GoString)
    requires Blank(space) && open != QUOTE && close != QUOTE
    requires ScanAll(body + ([close] + rest)) == ScanAll([close] + rest)
    ensures ScanAll([open] + (space + (body + [close])) + rest) == ScanAll(rest)
  {
    hide ScanAll;
    Nest([open], space, body + [close], rest);
    Nest(body, [close], [], rest);
    ScanByte(open, space + (body + ([close] + rest)));
    ScanBlank(space, body + ([close] + rest));
    ScanByte(close, rest);
  }

  lemma {:induction false} ScanItems(items: seq<Item>, first: bool, rest: GoString)
    requires forall i :: 0 <= i < |items| ==> ItemFits(items[i])
    ensures ScanAll(ItemsText(items, first) + rest) == ScanAll(rest)
    decreases items, 0
  {
    hide ScanAll, Text, WellFormed, Blank;
    if items == [] {
      assert [] + rest == rest;
    } else {
      var item, more := items[0], ItemsText(items[1..], false) + rest;
      assert ItemFits(item);
      ItemsLayout(items, first, rest);
      hide ItemsText;
      ScanItems(items[1..], false, rest);
      ScanBlank(item.after, more);
      ScanText(item.doc, item.after + more);
      ScanBlank(item.before, Text(item.doc) + (item.after + more));
      ScanComma(first, item.before + (Text(item.doc) + (item.after + more)));
    }
  }

  lemma {:induction false} ScanMembers(members: seq<Member>, first: bool, rest: GoString)
    requires forall i :: 0 <= i < |members| ==> MemberFits(members[i])
    ensures ScanAll(MembersText(members, first) + rest) == ScanAll(rest)
    decreases members, 0
  {
    hide ScanAll, Text, WellFormed, Blank, KeyText, AllWellFormed;
    if members == [] {
      assert [] + rest == rest;
    } else {
      var m, more := members[0], MembersText(members[1..], false) + rest;
      assert MemberFits(m) && ItemFits(m.item);
      MembersLayout(members, first, rest);
      hide MembersText;
      ScanMembers(members[1..], false, rest);
      var value := m.item.before + (Text(m.item.doc) + (m.item.after + more));
      ScanBlank(m.item.after, more);
      ScanText(m.item.doc, m.item.after + more);
      ScanBlank(m.item.before, Text(m.item.doc) + (m.item.after + more));
      ScanByte(COLON, value);
      ScanBlank(m.afterKey, [COLON] + value);
      ScanString(m.key, m.afterKey + ([COLON] + value));
      ScanBlank(m.before, KeyText(m.key) + (m.afterKey + ([COLON] + value)));
      ScanComma(first, m.before + (KeyText(m.key) + (m.afterKey + ([COLON] + value))));
    }
  }

  // ---------- what is accepted ----------

  /** `data` is a text of the grammar that stands for `value`, with blanks around it. */
  ghost predicate Spells(data: GoString, value: Json) {
    exists before: GoString, d: Doc, after: GoString :: Spelled(data, value, before, d, after)
  }

  predicate Spelled(data: GoString, value: Json, before: GoString, d: Doc, after: GoString) {
    && Blank(before) && WellFormed(d) && Blank(after)
    && Value(d) == value && data == before + (Text(d) + after)
  }

  lemma SpelledReads(data: GoString, value: Json, before: GoString, d: Doc, after: GoString, strict: bool)
    requires Spelled(data, value, before, d, after)
    ensures DecodeJSON(data, strict) == Ok(value) && ScanAll(data) && TrimSpace(data) != []
  {
    hide ReadValue, ScanAll, Text, Value, WellFormed, SkipSpace, TrimSpace;
    BlankEnds(after);
    TextReads(d, after, strict);
    ValueAfterBlank(before, Text(d) + after, strict);
    ScanText(d, after);
    ScanBlank(before, Text(d) + after);
    ScanBlank(after, []);
    assert after + [] == after;
    EmptyScans();
    TextStarts(d);
    assert data[|before|] == Text(d)[0];
    TrimKeeps(data, |before|);
  }

  lemma EmptyScans()
    ensures ScanAll([])
  {
  }

  lemma BlankEnds(after: GoString)
    requires Blank(after)
    ensures Delimited(after) && SkipSpace(after) == []
  {
    BlankSkipped(after, []);
    assert after + [] == after;
  }

  lemma {:induction false} TrimKeeps(s: GoString, i: nat)
    requires i < |s| && !IsSpace(s[i])
    ensures TrimSpace(s) != []
    decreases |s|
  {
    if IsSpace(s[0]) {
      TrimKeeps(s[1..], i - 1);
    } else if IsSpace(s[|s| - 1]) {
      TrimKeeps(s[..|s| - 1], i);
    }
  }

  lemma ReadIsSpelled(data: GoString)
    requires DecodeJSON(data, true).Ok?
    ensures Spells(data, DecodeJSON(data, true).value)
  {
    hide ReadValue, Text, Value, WellFormed, SkipSpace;
    var before, d := ValueParses(data);
    var rest := ReadValue(data, true).value.1;
    var after := SkipsBlank(rest);
    assert after + [] == after;
    assert Spelled(data, DecodeJSON(data, true).value, before, d, after);
  }

  /** A strict decoder accepts exactly the texts of the grammar whose keys do not repeat, with their values. */
  lemma StrictGrammar(data: GoString, value: Json)
    ensures DecodeJSON(data, true) == Ok(value) <==> Spells(data, value)
  {
    hide DecodeJSON, Spelled;
    if DecodeJSON(data, true) == Ok(value) {
      ReadIsSpelled(data);
    }
    forall before: GoString, d: Doc, after: GoString | Spelled(data, value, before, d, after)
      ensures DecodeJSON(data, true) == Ok(value)
    {
      SpelledReads(data, value, before, d, after, true);
    }
  }

  /**
   With the blank check and the scan before it, so does the lenient decoder:
   `CanonicalizeJSON` succeeds exactly on texts of the grammar whose value prints,
   and prints that value.
   */
  lemma CanonicalizeGrammar(data: GoString, text: GoString)
    ensures CanonicalizeJSON(data) == Ok(text)
            <==> exists value: Json :: Spells(data, value) && Canon(value) == Ok(text)
  {
    hide DecodeJSON, Spelled, Canon, ScanAll, TrimSpace;
    if CanonicalizeJSON(data) == Ok(text) {
      AcceptedReadsStrictly(data);
      ReadIsSpelled(data);
    }
    forall value: Json, before: GoString, d: Doc, after: GoString |
      Spelled(data, value, before, d, after) && Canon(value) == Ok(text)
      ensures CanonicalizeJSON(data) == Ok(text)
    {
      SpelledReads(data, value, before, d, after, false);
    }
  }
}
