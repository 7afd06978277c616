/**
 Canonical text reads back as the value that it was printed from, so it is
 injective; and when canonicalising it again changes nothing.
 */
module JsonRoundTrip {
  import opened Basics
  import opened Json
  import opened JsonNumber
  import opened JsonString
  import opened KeyOrder
  import opened Numerals
  import ShortestDecimal
  import Utf8

  // ---------- leaves ----------

  lemma NumberHead(s: GoString)
    requires CanonicalNumber(s).Ok?
    ensures var o := CanonicalNumber(s).value; o != [] && (o[0] == MINUS || IsDigit(o[0]))
    ensures forall b :: b in CanonicalNumber(s).value ==> b != QUOTE
  {
    ValueDomain(s);
    if ValueOf(s) != 0.0 {
      FormatText(IsNegative(s), ValueOf(s));
    }
  }

  lemma FormatText(negative: bool, x: real)
    requires ShortestDecimal.Positive(x)
    ensures var o := Format(negative, x); o != [] && (o[0] == MINUS || IsDigit(o[0]))
    ensures forall b :: b in Format(negative, x) ==> b != QUOTE
  {
    var d := ShortestDecimal.Shortest(x);
    var ds := Digits(d.sig);
    var e := d.quantum + |ds| - 1;
    hide ShortestDecimal.Shortest;
    BodyEnds(ds, e);
    BodyUnquoted(ds, e);
  }

  lemma BodyUnquoted(ds: GoString, e: int)
    requires AllDigits(ds) && ds != []
    ensures forall b :: b in Body(ds, e) ==> b != QUOTE
  {
  }

  lemma NumberReads(s: GoString, rest: GoString)
    requires CanonicalNumber(s).Ok? && Delimited(rest)
    ensures ReadNumber(CanonicalNumber(s).value + rest) == Ok((Num(CanonicalNumber(s).value), rest))
  {
    hide ScanNumber, Format, ParseFloat, IntegerGate, TrimSpace, ShortestDecimal.Shortest, IntText;
    var o := CanonicalNumber(s).value;
    ValueDomain(s);
    ZeroIsStable();
    if ValueOf(s) == 0.0 {
      IntTextScans(0, rest, true);
    } else {
      FormatScans(IsNegative(s), ValueOf(s), rest, true);
    }
    assert (o + rest)[..|o|] == o;
  }

  lemma NoLeadingSpace(s: GoString)
    requires s != [] && !IsJsonSpace(s[0])
    ensures SkipSpace(s) == s
  {
  }

  /** Canonical text starts with no space and no structural character. */
  lemma CanonHead(t: Json)
    requires Canon(t).Ok?
    ensures var b := Canon(t).value;
            b != [] && !IsSpace(b[0]) && b[0] !in {COMMA, COLON, CLOSE_ARRAY, CLOSE_OBJECT}
  {
    if t.Num? {
      NumberHead(t.lexeme);
    }
  }

  lemma StringReads(s: GoString, rest: GoString, strict: bool)
    requires Quote(s).Ok?
    ensures ReadBody((Quote(s).value + rest)[1..], strict) == Some((Utf8.Runes(s), rest))
    ensures Utf8.Encode(Utf8.Runes(s)) == s
    ensures ScanBody((Quote(s).value + rest)[1..]) == Some(rest)
  {
    hide EscapeAll, ReadBody, ScanBody, Utf8.Runes, Utf8.Valid, Utf8.Encode;
    QuoteInverse(s, rest, strict);
    assert (Quote(s).value + rest)[1..] == Quote(s).value[1..] + rest;
  }

  // ---------- printer and reader are inverse ----------

  lemma ReadLeaf(t: Json, rest: GoString, strict: bool)
    requires Canon(t).Ok? && Delimited(rest) && !t.Arr? && !t.Obj?
    ensures ReadValue(Canon(t).value + rest, strict) == Ok((Norm(t), rest))
  {
    hide CanonicalNumber, ReadBody, ReadItems, ReadMembers, ReadNumber;
    var s := Canon(t).value + rest;
    CanonHead(t);
    NoLeadingSpace(s);
    match t
    case Null =>
      assert s[..4] == NULL_TEXT && s[4..] == rest;
    case Boolean(b) =>
      if b {
        assert s[..4] == TRUE_TEXT && s[4..] == rest;
      } else {
        assert s[..5] == FALSE_TEXT && s[5..] == rest;
      }
    case Num(lexeme) =>
      NumberHead(lexeme);
      NumberReads(lexeme, rest);
    case Str(str) =>
      StringReads(str, rest, strict);
  }

  /** One element is read off the front of an array's text. */
  lemma ItemStep(head: GoString, tail: GoString, value: Json, read: seq<Json>, first: bool, strict: bool)
    requires head != [] && !IsJsonSpace(head[0]) && head[0] !in {COMMA, CLOSE_ARRAY}
    requires ReadValue(head + tail, strict) == Ok((value, tail))
    ensures ReadItems(Separator(first) + (head + tail), read, first, strict)
            == ReadItems(tail, read + [value], false, strict)
  {
    hide ReadValue;
    var s := Separator(first) + (head + tail);
    NoLeadingSpace(s);
    assert (if first then s else s[1..]) == head + tail;
  }

  lemma ItemsEnd(read: seq<Json>, first: bool, rest: GoString, strict: bool)
    ensures ReadItems([CLOSE_ARRAY] + rest, read, first, strict) == Ok((Arr(read), rest))
  {
    NoLeadingSpace([CLOSE_ARRAY] + rest);
    assert ([CLOSE_ARRAY] + rest)[1..] == rest;
  }

  lemma MembersEnd(read: map<GoString, Json>, first: bool, rest: GoString, strict: bool)
    ensures ReadMembers([CLOSE_OBJECT] + rest, read, first, strict) == Ok((Obj(read), rest))
  {
    NoLeadingSpace([CLOSE_OBJECT] + rest);
    assert ([CLOSE_OBJECT] + rest)[1..] == rest;
  }

  lemma OpenReads(open: byte, body: GoString, rest: GoString, strict: bool)
    requires open in {OPEN_ARRAY, OPEN_OBJECT}
    ensures ReadValue([open] + body + rest, strict)
            == if open == OPEN_ARRAY then ReadItems(body + rest, [], true, strict)
               else ReadMembers(body + rest, map[], true, strict)
  {
    hide ReadItems, ReadMembers;
    var s := [open] + body + rest;
    NoLeadingSpace(s);
    assert s[1..] == body + rest;
  }

  /**
   For every value that prints, reading the text gives the value back with its
   numbers in canonical spelling, and leaves what follows untouched.
   */
  lemma {:induction false} ReadCanon(t: Json, rest: GoString, strict: bool)
    requires Canon(t).Ok? && Delimited(rest)
    ensures ReadValue(Canon(t).value + rest, strict) == Ok((Norm(t), rest))
    decreases t, 1
  {
    hide ReadValue, ReadItems, ReadMembers;
    match t
    case Arr(items) =>
      ReadCanonItems(items, [], true, rest, strict);
      assert [] + NormItems(items) == NormItems(items);
      OpenReads(OPEN_ARRAY, CanonItems(items, true).value, rest, strict);
    case Obj(members) =>
      var keys := SortedKeys(members.Keys);
      ReadCanonMembers(t, keys, map[], true, rest, strict);
      OpenReads(OPEN_OBJECT, CanonMembers(t, keys, true).value, rest, strict);
      NormAllMembers(t);
    case _ =>
      ReadLeaf(t, rest, strict);
  }

  lemma NormAllMembers(t: Json)
    requires t.Obj? && KeysValid(t)
    ensures map[] + NormMembers(t, SortedKeys(t.members.Keys)) == Norm(t).members
  {
    var keys := SortedKeys(t.members.Keys);
    assert forall k :: k in keys <==> k in Elements(keys);
  }

  lemma {:induction false} ReadCanonItems(items: seq<Json>, read: seq<Json>, first: bool, rest: GoString, strict: bool)
    requires CanonItems(items, first).Ok?
    ensures ReadItems(CanonItems(items, first).value + rest, read, first, strict)
            == Ok((Arr(read + NormItems(items)), rest))
    decreases items, 0
  {
    hide ReadValue, ReadItems, Canon, Norm;
    if items == [] {
      ItemsEnd(read, first, rest, strict);
      assert read + [] == read;
    } else {
      var head, tail := Canon(items[0]).value, CanonItems(items[1..], false).value;
      CanonItemsDelimited(items[1..], rest);
      ReadCanon(items[0], tail + rest, strict);
      ReadCanonItems(items[1..], read + [Norm(items[0])], false, rest, strict);
      assert read + [Norm(items[0])] + NormItems(items[1..]) == read + NormItems(items);
      CanonHead(items[0]);
      ItemStep(head, tail + rest, Norm(items[0]), read, first, strict);
      Bracket([], Separator(first), head, tail + rest);
      Bracket(Separator(first), head, tail, rest);
      assert CanonItems(items, first).value + rest == Separator(first) + (head + (tail + rest));
    }
  }

  lemma CanonItemsDelimited(items: seq<Json>, rest: GoString)
    requires CanonItems(items, false).Ok?
    ensures Delimited(CanonItems(items, false).value + rest)
  {
    var b := CanonItems(items, false).value;
    assert b[0] == if items == [] then CLOSE_ARRAY else COMMA;
  }

  lemma CanonMembersDelimited(t: Json, keys: seq<GoString>, rest: GoString)
    requires t.Obj? && (forall k :: k in keys ==> k in t.members)
    requires CanonMembers(t, keys, false).Ok?
    ensures Delimited(CanonMembers(t, keys, false).value + rest)
  {
    var b := CanonMembers(t, keys, false).value;
    assert b[0] == if keys == [] then CLOSE_OBJECT else COMMA;
  }

  ghost function NormMembers(t: Json, keys: seq<GoString>): map<GoString, Json>
    requires t.Obj? && forall k :: k in keys ==> k in t.members
  {
    map k | k in keys :: Norm(t.members[k])
  }

  lemma MemberReads(t: Json, key: GoString, tail: GoString, strict: bool)
    requires t.Obj? && key in t.members && Quote(key).Ok? && Canon(t.members[key]).Ok?
    requires ReadValue(Canon(t.members[key]).value + tail, strict) == Ok((Norm(t.members[key]), tail))
    ensures var value := [COLON] + Canon(t.members[key]).value + tail;
            && ReadKey(Quote(key).value + value, strict) == Ok((key, value))
            && ReadMemberValue(value, strict) == Ok((Norm(t.members[key]), tail))
  {
    hide ReadValue, ReadBody, Canon, Norm;
    var value := [COLON] + Canon(t.members[key]).value + tail;
    NoLeadingSpace(value);
    assert value[1..] == Canon(t.members[key]).value + tail;
    NoLeadingSpace(Quote(key).value + value);
    StringReads(key, value, strict);
  }

  /** One member is read off the front of an object's text. */
  lemma MemberStep(t: Json, key: GoString, tail: GoString, read: map<GoString, Json>, first: bool, strict: bool)
    requires t.Obj? && key in t.members && Quote(key).Ok? && Canon(t.members[key]).Ok? && key !in read
    requires ReadValue(Canon(t.members[key]).value + tail, strict) == Ok((Norm(t.members[key]), tail))
    ensures ReadMembers(Separator(first) + (Quote(key).value + ([COLON] + Canon(t.members[key]).value + tail)),
                        read, first, strict)
            == ReadMembers(tail, read[key := Norm(t.members[key])], false, strict)
  {
    MemberReads(t, key, tail, strict);
    var quoted := Quote(key).value;
    assert quoted[0] == QUOTE;
    hide ReadValue, ReadKey, ReadMemberValue, Canon, Norm, Quote;
    var text := quoted + ([COLON] + Canon(t.members[key]).value + tail);
    var s := Separator(first) + text;
    NoLeadingSpace(s);
    assert (if first then s else s[1..]) == text;
  }

  lemma {:induction false} ReadCanonMembers(t: Json, keys: seq<GoString>, read: map<GoString, Json>, first: bool,
                                            rest: GoString, strict: bool)
    requires t.Obj? && (forall k :: k in keys ==> k in t.members && k !in read)
    requires Ascending(keys)
    requires CanonMembers(t, keys, first).Ok?
    ensures ReadMembers(CanonMembers(t, keys, first).value + rest, read, first, strict)
            == Ok((Obj(read + NormMembers(t, keys)), rest))
    decreases t, 0, |keys|
  {
    hide ReadValue, ReadMembers, Canon, Norm, Quote, Ascending;
    if keys == [] {
      MembersEnd(read, first, rest, strict);
      assert read + map[] == read;
    } else {
      var key := keys[0];
      var tail := CanonMembers(t, keys[1..], false).value;
      CanonMembersDelimited(t, keys[1..], rest);
      ReadCanon(t.members[key], tail + rest, strict);
      AscendingTail(keys);
      var next := read[key := Norm(t.members[key])];
      ReadCanonMembers(t, keys[1..], next, false, rest, strict);
      assert next + NormMembers(t, keys[1..]) == read + NormMembers(t, keys);
      MemberStep(t, key, tail + rest, read, first, strict);
      MemberLayout(Separator(first), Quote(key).value, Canon(t.members[key]).value, tail, rest);
    }
  }

  lemma MemberLayout(separator: GoString, key: GoString, value: GoString, tail: GoString, rest: GoString)
    ensures separator + key + [COLON] + value + tail + rest
            == separator + (key + ([COLON] + value + (tail + rest)))
  {
    Bracket([], separator + key, [COLON], value);
    Bracket([], separator, key, [COLON] + value);
    Bracket([], separator + key + [COLON] + value, tail, rest);
    Bracket(separator, key, [COLON] + value, tail + rest);
  }

  lemma DecodeCanon(t: Json, strict: bool)
    requires Canon(t).Ok?
    ensures DecodeJSON(Canon(t).value, strict) == Ok(Norm(t))
  {
    hide ReadValue, Canon, Norm;
    ReadCanon(t, [], strict);
    assert Canon(t).value + [] == Canon(t).value;
  }

  // ---------- what prints ----------

  lemma {:induction false} MembersPrint(t: Json, keys: seq<GoString>, first: bool)
    requires t.Obj? && forall k :: k in keys ==> k in t.members
    ensures CanonMembers(t, keys, first).Ok?
            <==> forall k :: k in keys ==> Quote(k).Ok? && Canon(t.members[k]).Ok?
    decreases |keys|
  {
    hide Canon, Quote;
    if keys != [] {
      MembersPrint(t, keys[1..], false);
      assert forall k :: k in keys <==> k == keys[0] || k in keys[1..];
    }
  }

  /** An object prints exactly when its keys are valid UTF-8 and all of its members print. */
  lemma ObjectPrints(t: Json)
    requires t.Obj?
    ensures Canon(t).Ok? <==> KeysValid(t) && forall k :: k in t.members ==> Canon(t.members[k]).Ok?
  {
    hide CanonMembers, SortedKeys, EscapeAll, Utf8.Valid, Utf8.Runes;
    if KeysValid(t) {
      SortedKeysAre(t);
      MembersPrint(t, SortedKeys(t.members.Keys), true);
    }
  }

  /** An array prints exactly when all of its elements print. */
  lemma {:induction false} ItemsPrint(items: seq<Json>, first: bool)
    ensures CanonItems(items, first).Ok? <==> forall u :: u in items ==> Canon(u).Ok?
    decreases |items|
  {
    hide Canon;
    if items != [] {
      ItemsPrint(items[1..], false);
      assert items[0] in items && forall u :: u in items[1..] ==> u in items;
      assert forall u :: u in items ==> u == items[0] || u in items[1..];
    }
  }

  // ---------- canonical text is a name for the value ----------

  lemma SameNormLeaf(t: Json, u: Json)
    requires Canon(t).Ok? && Canon(u).Ok? && Norm(t) == Norm(u) && !t.Arr? && !t.Obj?
    ensures Canon(t) == Canon(u)
  {
    hide CanonicalNumber, Quote;
  }

  /** Printable values that differ in the spelling of numbers at most print alike. */
  lemma {:induction false} SameNormPrints(t: Json, u: Json)
    requires Canon(t).Ok? && Canon(u).Ok? && Norm(t) == Norm(u)
    ensures Canon(t) == Canon(u)
    decreases t, 1
  {
    hide CanonicalNumber, Quote, SortedKeys, CanonItems, CanonMembers, NormItems;
    match t
    case Arr(items) =>
      SameNormItems(items, u.items, true);
    case Obj(members) =>
      NormKeysKept(t);
      NormKeysKept(u);
      SortedKeysAre(t);
      SameNormMembers(t, u, SortedKeys(members.Keys), true);
    case _ =>
      SameNormLeaf(t, u);
  }

  lemma NormKeysKept(t: Json)
    requires t.Obj?
    ensures Norm(t).Obj? && Norm(t).members.Keys == t.members.Keys
    ensures forall k :: k in t.members ==> Norm(t).members[k] == Norm(t.members[k])
  {
  }

  lemma SortedKeysAre(t: Json)
    requires t.Obj? && KeysValid(t)
    ensures forall k :: k in SortedKeys(t.members.Keys) <==> k in t.members
  {
    assert forall k :: k in SortedKeys(t.members.Keys) <==> k in Elements(SortedKeys(t.members.Keys));
  }

  lemma {:induction false} SameNormItems(items: seq<Json>, others: seq<Json>, first: bool)
    requires CanonItems(items, first).Ok? && CanonItems(others, first).Ok? && NormItems(items) == NormItems(others)
    ensures CanonItems(items, first) == CanonItems(others, first)
    decreases items, 0
  {
    hide Canon, Norm;
    if items != [] && others != [] {
      var s, t := NormItems(items), NormItems(others);
      assert s[0] == Norm(items[0]) && t[0] == Norm(others[0]);
      assert s[1..] == NormItems(items[1..]) && t[1..] == NormItems(others[1..]);
      SameNormPrints(items[0], others[0]);
      SameNormItems(items[1..], others[1..], false);
    }
  }

  lemma {:induction false} SameNormMembers(t: Json, u: Json, keys: seq<GoString>, first: bool)
    requires t.Obj? && u.Obj? && forall k :: k in keys ==> k in t.members && k in u.members
    requires forall k :: k in keys ==> Norm(t.members[k]) == Norm(u.members[k])
    requires CanonMembers(t, keys, first).Ok? && CanonMembers(u, keys, first).Ok?
    ensures CanonMembers(t, keys, first) == CanonMembers(u, keys, first)
    decreases t, 0, |keys|
  {
    hide Canon, Norm, Quote;
    if keys != [] {
      SameNormPrints(t.members[keys[0]], u.members[keys[0]]);
      SameNormMembers(t, u, keys[1..], false);
    }
  }

  /** Printable values share their canonical text exactly when they are equal up to the spelling of numbers. */
  lemma CanonInjective(t: Json, u: Json)
    requires Canon(t).Ok? && Canon(u).Ok?
    ensures Canon(t) == Canon(u) <==> Norm(t) == Norm(u)
  {
    hide Canon, Norm;
    DecodeCanon(t, false);
    DecodeCanon(u, false);
    if Norm(t) == Norm(u) {
      SameNormPrints(t, u);
    }
  }

  // ---------- the scanner accepts canonical text ----------

  lemma {:induction false} ScanSkips(b: GoString, rest: GoString)
    requires forall i :: 0 <= i < |b| ==> b[i] != QUOTE
    ensures ScanAll(b + rest) == ScanAll(rest)
  {
    if b == [] {
      assert b + rest == rest;
    } else {
      ScanSkips(b[1..], rest);
      assert (b + rest)[1..] == b[1..] + rest;
    }
  }

  lemma ScanSkipsString(s: GoString, rest: GoString)
    requires Quote(s).Ok?
    ensures ScanAll(Quote(s).value + rest) == ScanAll(rest)
  {
    StringReads(s, rest, true);
    assert (Quote(s).value + rest)[0] == QUOTE;
    hide Quote, ScanBody;
  }

  lemma ScanLeaf(t: Json, rest: GoString)
    requires Canon(t).Ok? && !t.Arr? && !t.Obj?
    ensures ScanAll(Canon(t).value + rest) == ScanAll(rest)
  {
    hide ScanAll, CanonicalNumber, Quote;
    match t
    case Num(lexeme) =>
      NumberHead(lexeme);
      var o := CanonicalNumber(lexeme).value;
      assert forall i :: 0 <= i < |o| ==> o[i] in o;
      ScanSkips(o, rest);
    case Str(str) =>
      ScanSkipsString(str, rest);
    case Null =>
      ScanSkips(NULL_TEXT, rest);
    case Boolean(b) =>
      ScanSkips(if b then TRUE_TEXT else FALSE_TEXT, rest);
  }

  lemma {:induction false} ScanCanon(t: Json, rest: GoString)
    requires Canon(t).Ok?
    ensures ScanAll(Canon(t).value + rest) == ScanAll(rest)
    decreases t, 1
  {
    hide ScanAll, CanonicalNumber, Quote, CanonItems, CanonMembers;
    match t
    case Arr(items) =>
      var body := CanonItems(items, true).value;
      ScanCanonItems(items, true, rest);
      ScanSkips([OPEN_ARRAY], body + rest);
      Bracket([], [OPEN_ARRAY], body, rest);
      assert [OPEN_ARRAY] + body + rest == [OPEN_ARRAY] + (body + rest);
    case Obj(members) =>
      var body := CanonMembers(t, SortedKeys(members.Keys), true).value;
      ScanCanonMembers(t, SortedKeys(members.Keys), true, rest);
      ScanSkips([OPEN_OBJECT], body + rest);
      assert [OPEN_OBJECT] + body + rest == [OPEN_OBJECT] + (body + rest);
    case _ =>
      ScanLeaf(t, rest);
  }

  lemma {:induction false} ScanCanonItems(items: seq<Json>, first: bool, rest: GoString)
    requires CanonItems(items, first).Ok?
    ensures ScanAll(CanonItems(items, first).value + rest) == ScanAll(rest)
    decreases items, 0
  {
    hide ScanAll, Canon;
    if items == [] {
      ScanSkips([CLOSE_ARRAY], rest);
    } else {
      var head, tail := Canon(items[0]).value, CanonItems(items[1..], false).value;
      ScanCanon(items[0], tail + rest);
      ScanCanonItems(items[1..], false, rest);
      ScanSkips(Separator(first), head + (tail + rest));
      Bracket([], Separator(first), head, tail + rest);
      Bracket(Separator(first), head, tail, rest);
      assert CanonItems(items, first).value + rest == Separator(first) + (head + (tail + rest));
    }
  }

  lemma {:induction false} ScanCanonMembers(t: Json, keys: seq<GoString>, first: bool, rest: GoString)
    requires t.Obj? && (forall k :: k in keys ==> k in t.members)
    requires CanonMembers(t, keys, first).Ok?
    ensures ScanAll(CanonMembers(t, keys, first).value + rest) == ScanAll(rest)
    decreases t, 0, |keys|
  {
    hide ScanAll, Canon, Quote;
    if keys == [] {
      ScanSkips([CLOSE_OBJECT], rest);
    } else {
      var key, value := Quote(keys[0]).value, Canon(t.members[keys[0]]).value;
      var tail := CanonMembers(t, keys[1..], false).value;
      ScanCanon(t.members[keys[0]], tail + rest);
      ScanCanonMembers(t, keys[1..], false, rest);
      ScanSkips([COLON], value + (tail + rest));
      assert [COLON] + value + (tail + rest) == [COLON] + (value + (tail + rest));
      ScanSkipsString(keys[0], [COLON] + value + (tail + rest));
      ScanSkips(Separator(first), key + ([COLON] + value + (tail + rest)));
      MemberLayout(Separator(first), key, value, tail, rest);
    }
  }

  // ---------- idempotence and its boundary ----------

  /** Every number in `t` survives printing and reading through the exactness gate. */
  ghost predicate AllStable(t: Json) {
    match t
    case Num(lexeme) =>
      CanonicalNumber(lexeme).Ok? ==>
        (ValueDomain(lexeme);
         Stable(ValueOf(lexeme)))
    case Arr(items) => forall i :: 0 <= i < |items| ==> AllStable(items[i])
    case Obj(members) => forall k :: k in members ==> AllStable(members[k])
    case _ => true
  }

  /** What printing the normal form gives: the same text, or the gate's refusal. */
  function Again(stable: bool, r: Result<GoString>): Result<GoString> {
    if stable then r else Err(InexactInteger)
  }

  lemma {:induction false} CanonNorm(t: Json)
    requires Canon(t).Ok?
    ensures Canon(Norm(t)) == Again(AllStable(t), Canon(t))
    decreases t, 1
  {
    match t
    case Num(lexeme) =>
      NumberIdempotent(lexeme);
    case Arr(items) =>
      CanonNormItems(items, true);
      assert AllStable(t) <==> forall u :: u in items ==> AllStable(u);
    case Obj(members) =>
      var keys := SortedKeys(members.Keys);
      assert Norm(t).members.Keys == members.Keys;
      CanonNormMembers(t, keys, true);
      assert forall k :: k in keys <==> k in Elements(keys);
    case _ =>
  }

  lemma {:induction false} CanonNormItems(items: seq<Json>, first: bool)
    requires CanonItems(items, first).Ok?
    ensures CanonItems(NormItems(items), first)
            == Again(forall u :: u in items ==> AllStable(u), CanonItems(items, first))
    decreases items, 0
  {
    if items != [] {
      hide Canon, Norm, AllStable;
      CanonNorm(items[0]);
      CanonNormItems(items[1..], false);
      assert NormItems(items)[1..] == NormItems(items[1..]);
      assert forall u :: u in items <==> u == items[0] || u in items[1..];
    }
  }

  lemma {:induction false} CanonNormMembers(t: Json, keys: seq<GoString>, first: bool)
    requires t.Obj? && (forall k :: k in keys ==> k in t.members)
    requires CanonMembers(t, keys, first).Ok?
    ensures Norm(t).Obj? && forall k :: k in keys ==> k in Norm(t).members
    ensures CanonMembers(Norm(t), keys, first)
            == Again(forall k :: k in keys ==> AllStable(t.members[k]), CanonMembers(t, keys, first))
    decreases t, 0, |keys|
  {
    var u := Norm(t);
    if keys != [] {
      hide Canon, AllStable, Quote;
      CanonNorm(t.members[keys[0]]);
      CanonNormMembers(t, keys[1..], false);
      assert u.members[keys[0]] == Norm(t.members[keys[0]]);
      assert forall k :: k in keys <==> k == keys[0] || k in keys[1..];
    }
  }

  lemma {:induction false} TrimKeepsFirst(s: GoString)
    requires s != [] && !IsSpace(s[0])
    ensures TrimSpace(s) != []
    decreases |s|
  {
    if IsSpace(s[|s| - 1]) {
      TrimKeepsFirst(s[..|s| - 1]);
    }
  }

  /** The value that `CanonicalizeJSON` prints. */
  function Decoded(data: GoString): Json
    requires DecodeJSON(data, false).Ok?
  {
    DecodeJSON(data, false).value
  }

  /** Printed text canonicalises to itself exactly when every number in it is stable. */
  lemma PrintedAgain(t: Json)
    requires Canon(t).Ok?
    ensures CanonicalizeJSON(Canon(t).value) == Again(AllStable(t), Canon(t))
  {
    var b := Canon(t).value;
    CanonHead(t);
    TrimKeepsFirst(b);
    ScanCanon(t, []);
    assert b + [] == b;
    DecodeCanon(t, false);
    CanonNorm(t);
    hide Canon, Norm, AllStable, ScanAll, DecodeJSON, TrimSpace;
  }

  /**
   Canonical text canonicalises to itself if and only if every number in the
   input is stable; otherwise the second pass refuses an inexact integer.
   */
  lemma CanonicalizeTwice(data: GoString)
    requires CanonicalizeJSON(data).Ok?
    ensures CanonicalizeJSON(CanonicalizeJSON(data).value)
            == Again(AllStable(Decoded(data)), CanonicalizeJSON(data))
  {
    PrintedAgain(Decoded(data));
  }

  // ---------- integers on their own ----------

  lemma DigitsHaveNoQuote(ds: GoString)
    requires AllDigits(ds)
    ensures forall i :: 0 <= i < |ds| ==> ds[i] != QUOTE
  {
  }

  lemma IntTextHead(n: int)
    ensures var s := IntText(n); s != [] && !IsSpace(s[0]) && !IsJsonSpace(s[0])
    ensures var b := IntText(n)[0]; b == MINUS || IsDigit(b)
    ensures forall i :: 0 <= i < |IntText(n)| ==> IntText(n)[i] != QUOTE
  {
    hide IntText, Digits, NatOf, TrimSpace, IsIntegerLexeme, LexemeDigits;
    var m: nat := if n < 0 then -n else n;
    IntTextShape(n);
    DigitsHaveNoQuote(Digits(m));
  }

  lemma IntTextDecodes(n: int)
    ensures DecodeJSON(IntText(n), false) == Ok(Num(IntText(n)))
  {
    hide ScanNumber, IntText, Digits;
    var s := IntText(n);
    IntTextHead(n);
    IntTextScans(n, [], true);
    assert s + [] == s;
    NoLeadingSpace(s);
    assert ReadNumber(s) == Ok((Num(s), [])) by {
      assert s[..|s|] == s;
    }
    hide ReadNumber, ReadItems, ReadMembers, ReadBody;
    assert ReadValue(s, false) == Ok((Num(s), []));
  }

  /** A document that is one integer is canonicalised by the number printer alone. */
  lemma IntTextCanonicalizes(n: int)
    ensures CanonicalizeJSON(IntText(n)) == CanonicalNumber(IntText(n))
  {
    hide CanonicalNumber, IntText, DecodeJSON, TrimSpace;
    IntTextHead(n);
    TrimKeepsFirst(IntText(n));
    ScanSkips(IntText(n), []);
    assert IntText(n) + [] == IntText(n);
    IntTextDecodes(n);
  }
}
