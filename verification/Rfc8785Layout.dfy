/**
 The printed text read as section 3.2 of RFC 8785 writes it: which parts stand
 between which brackets, and in which order.
 */
module Rfc8785Layout {
  import opened Basics
  import opened GoHeap
  import opened Json
  import opened JsonNumber
  import opened JsonRoundTrip
  import opened JsonString
  import opened KeyOrder
  import opened Numerals
  import Base64
  import Utf8

  const SEPARATOR: GoString := [COMMA]

  // ---------- arrays ----------

  /** The texts of the elements, in their order. */
  ghost predicate ElementTexts(items: seq<Json>, parts: seq<GoString>) {
    |parts| == |items| && forall i :: 0 <= i < |items| ==> Canon(items[i]) == Ok(parts[i])
  }

  lemma JoinTail(part: GoString, rest: seq<GoString>)
    ensures Join([part] + rest, SEPARATOR) == if rest == [] then part else part + SEPARATOR + Join(rest, SEPARATOR)
  {
    assert ([part] + rest)[1..] == rest;
  }

  /** The rest of an array behind an element: each element after a comma, then the bracket. */
  lemma {:induction false} ItemsLayout(items: seq<Json>, first: bool) returns (parts: seq<GoString>)
    requires CanonItems(items, first).Ok?
    ensures ElementTexts(items, parts)
    ensures CanonItems(items, first).value
            == (if first || items == [] then [] else SEPARATOR) + Join(parts, SEPARATOR) + [CLOSE_ARRAY]
    decreases |items|
  {
    hide Canon;
    if items == [] {
      parts := [];
    } else {
      var head, tail := Canon(items[0]).value, CanonItems(items[1..], false).value;
      var rest := ItemsLayout(items[1..], false);
      parts := [head] + rest;
      JoinTail(head, rest);
      forall i | 0 <= i < |items|
        ensures Canon(items[i]) == Ok(parts[i])
      {
        if i > 0 {
          assert items[i] == items[1..][i - 1];
        }
      }
      hide Join;
      Regroup(Separator(first), head, Join(rest, SEPARATOR), rest == []);
    }
  }

  lemma Regroup(front: GoString, head: GoString, joined: GoString, last: bool)
    ensures front + head + ((if last then [] else SEPARATOR) + joined + [CLOSE_ARRAY])
            == front + (head + (if last then [] else SEPARATOR) + joined) + [CLOSE_ARRAY]
  {
  }

  /** An array prints its elements in order, separated by commas, between brackets. */
  lemma ArrayLayout(t: Json) returns (parts: seq<GoString>)
    requires t.Arr? && Canon(t).Ok?
    ensures ElementTexts(t.items, parts)
    ensures Canon(t).value == [OPEN_ARRAY] + Join(parts, SEPARATOR) + [CLOSE_ARRAY]
  {
    parts := ItemsLayout(t.items, true);
    hide CanonItems, Join;
    var joined := Join(parts, SEPARATOR);
    assert [OPEN_ARRAY] + ([] + joined + [CLOSE_ARRAY]) == [OPEN_ARRAY] + joined + [CLOSE_ARRAY];
  }

  // ---------- objects ----------

  /** The texts of the members with keys `keys`: each key as a string, a colon, its value. */
  ghost predicate MemberTexts(t: Json, keys: seq<GoString>, values: seq<GoString>, parts: seq<GoString>)
    requires t.Obj?
  {
    && |values| == |keys| && |parts| == |keys|
    && (forall i :: 0 <= i < |keys| ==> keys[i] in t.members && Canon(t.members[keys[i]]) == Ok(values[i]))
    && (forall i :: 0 <= i < |keys| ==> Quote(keys[i]).Ok? && parts[i] == Quote(keys[i]).value + [COLON] + values[i])
  }

  lemma MembersStep(t: Json, keys: seq<GoString>, first: bool)
    requires t.Obj? && keys != [] && forall k :: k in keys ==> k in t.members
    requires CanonMembers(t, keys, first).Ok?
    ensures Quote(keys[0]).Ok? && Canon(t.members[keys[0]]).Ok? && CanonMembers(t, keys[1..], false).Ok?
    ensures CanonMembers(t, keys, first).value
            == Separator(first) + Quote(keys[0]).value + [COLON] + Canon(t.members[keys[0]]).value
               + CanonMembers(t, keys[1..], false).value
  {
    hide Canon, Quote;
  }

  lemma MemberTextsCons(t: Json, keys: seq<GoString>, values: seq<GoString>, parts: seq<GoString>)
    requires t.Obj? && keys != [] && keys[0] in t.members && MemberTexts(t, keys[1..], values, parts)
    requires Quote(keys[0]).Ok? && Canon(t.members[keys[0]]).Ok?
    ensures var value := Canon(t.members[keys[0]]).value;
            MemberTexts(t, keys, [value] + values, [Quote(keys[0]).value + [COLON] + value] + parts)
  {
    hide Canon, Quote;
    forall i | 0 < i < |keys|
      ensures keys[i] == keys[1..][i - 1]
    {
    }
  }

  lemma {:induction false} MembersLayout(t: Json, keys: seq<GoString>, first: bool)
    returns (values: seq<GoString>, parts: seq<GoString>)
    requires t.Obj? && forall k :: k in keys ==> k in t.members
    requires CanonMembers(t, keys, first).Ok?
    ensures MemberTexts(t, keys, values, parts)
    ensures CanonMembers(t, keys, first).value
            == (if first || keys == [] then [] else SEPARATOR) + Join(parts, SEPARATOR) + [CLOSE_OBJECT]
    decreases |keys|
  {
    if keys == [] {
      values, parts := [], [];
    } else {
      hide Canon, Quote, CanonMembers, MemberTexts, Join;
      MembersStep(t, keys, first);
      var key, value := Quote(keys[0]).value, Canon(t.members[keys[0]]).value;
      var values', rest := MembersLayout(t, keys[1..], false);
      MemberTextsCons(t, keys, values', rest);
      MemberTextsSize(t, keys[1..], values', rest);
      values, parts := [value] + values', [key + [COLON] + value] + rest;
      JoinTail(key + [COLON] + value, rest);
      RegroupMember(Separator(first), key, value, Join(rest, SEPARATOR));
      assert rest == [] ==> Join(rest, SEPARATOR) == [] by {
        JoinNothing(rest);
      }
    }
  }

  lemma MemberTextsSize(t: Json, keys: seq<GoString>, values: seq<GoString>, parts: seq<GoString>)
    requires t.Obj? && MemberTexts(t, keys, values, parts)
    ensures |values| == |keys| == |parts|
  {
  }

  lemma JoinNothing(parts: seq<GoString>)
    ensures parts == [] ==> Join(parts, SEPARATOR) == []
  {
  }

  lemma RegroupMember(front: GoString, key: GoString, value: GoString, joined: GoString)
    ensures front + key + [COLON] + value + (SEPARATOR + joined + [CLOSE_OBJECT])
            == front + (key + [COLON] + value + SEPARATOR + joined) + [CLOSE_OBJECT]
    ensures front + key + [COLON] + value + ([] + [] + [CLOSE_OBJECT])
            == front + (key + [COLON] + value) + [CLOSE_OBJECT]
  {
  }

  /** Ascending in the order of UTF-16 code units. */
  predicate UnitsAscend(keys: seq<GoString>) {
    forall i, j :: 0 <= i < j < |keys| ==> CompareUnits(KeyUnits(keys[i]), KeyUnits(keys[j])) < 0
  }

  lemma AscendingUnits(keys: seq<GoString>)
    requires Ascending(keys)
    ensures UnitsAscend(keys)
  {
    hide CompareUnits, KeyUnits;
  }

  /**
   An object prints its members between braces, separated by commas, in ascending
   order of their keys' UTF-16 code units.
   */
  lemma ObjectLayout(t: Json) returns (keys: seq<GoString>, values: seq<GoString>, parts: seq<GoString>)
    requires t.Obj? && Canon(t).Ok?
    ensures Elements(keys) == t.members.Keys && UnitsAscend(keys)
    ensures MemberTexts(t, keys, values, parts)
    ensures Canon(t).value == [OPEN_OBJECT] + Join(parts, SEPARATOR) + [CLOSE_OBJECT]
  {
    hide SortedKeys, Join, Quote, CanonMembers, MemberTexts, Ascending, UnitsAscend, Elements;
    keys := SortedKeys(t.members.Keys);
    SortedKeysAre(t);
    AscendingUnits(keys);
    values, parts := MembersLayout(t, keys, true);
    var joined := Join(parts, SEPARATOR);
    assert [OPEN_OBJECT] + ([] + joined + [CLOSE_OBJECT]) == [OPEN_OBJECT] + joined + [CLOSE_OBJECT];
  }

  // ---------- the same for Go values ----------

  lemma ChildPrints(h: Heap, v: GoValue, depth: nat)
    requires Unfold(h, v, depth).Some?
    ensures Canonicalize(h, v) == Canon(Unfold(h, v, depth).value)
  {
    CanonicalizeMeaning(h, v);
  }

  lemma PrintedDepth(h: Heap, v: GoValue) returns (depth: nat)
    requires Canonicalize(h, v).Ok?
    ensures depth > 0 && Unfold(h, v, depth).Some? && Canonicalize(h, v) == Canon(Unfold(h, v, depth).value)
  {
    hide Unfold, Canon, CanonGraph;
    PrintedUnfolds(h, v, {});
    depth := |h.Keys - {}| + 1;
    UnfoldMonotone(h, v, depth - 1, depth);
    ChildPrints(h, v, depth);
  }

  /** A Go map prints its entries in ascending key order, each value as it prints on its own. */
  lemma MapLayout(h: Heap, a: Addr) returns (keys: seq<GoString>, values: seq<GoString>, parts: seq<GoString>)
    requires a in h && h[a].Mapping? && Canonicalize(h, Ref(a)).Ok?
    ensures Elements(keys) == h[a].members.Keys && UnitsAscend(keys)
    ensures |values| == |keys| == |parts|
    ensures forall i :: 0 <= i < |keys| ==>
              && keys[i] in h[a].members && Canonicalize(h, h[a].members[keys[i]]) == Ok(values[i])
              && Quote(keys[i]).Ok? && parts[i] == Quote(keys[i]).value + [COLON] + values[i]
    ensures Canonicalize(h, Ref(a)).value == [OPEN_OBJECT] + Join(parts, SEPARATOR) + [CLOSE_OBJECT]
  {
    hide Canon, Canonicalize, Join, Quote, UnitsAscend, Elements;
    var depth := PrintedDepth(h, Ref(a));
    var t := Unfold(h, Ref(a), depth).value;
    assert t.Obj? && t.members.Keys == h[a].members.Keys;
    keys, values, parts := ObjectLayout(t);
    forall i | 0 <= i < |keys|
      ensures keys[i] in h[a].members && Canonicalize(h, h[a].members[keys[i]]) == Ok(values[i])
    {
      var child := h[a].members[keys[i]];
      assert Unfold(h, child, depth - 1) == Some(t.members[keys[i]]);
      ChildPrints(h, child, depth - 1);
    }
  }

  /** A Go slice prints its elements in order, each as it prints on its own. */
  lemma SliceLayout(h: Heap, a: Addr) returns (parts: seq<GoString>)
    requires a in h && h[a].Slice? && Canonicalize(h, Ref(a)).Ok?
    ensures |parts| == |h[a].items|
    ensures forall i :: 0 <= i < |parts| ==> Canonicalize(h, h[a].items[i]) == Ok(parts[i])
    ensures Canonicalize(h, Ref(a)).value == [OPEN_ARRAY] + Join(parts, SEPARATOR) + [CLOSE_ARRAY]
  {
    hide Canon, Canonicalize, Join;
    var depth := PrintedDepth(h, Ref(a));
    var t := Unfold(h, Ref(a), depth).value;
    assert t.Arr? && |t.items| == |h[a].items|;
    parts := ArrayLayout(t);
    forall i | 0 <= i < |parts|
      ensures Canonicalize(h, h[a].items[i]) == Ok(parts[i])
    {
      assert Unfold(h, h[a].items[i], depth - 1) == Some(t.items[i]);
      ChildPrints(h, h[a].items[i], depth - 1);
    }
  }

  /** A pointer prints as what it points to. */
  lemma PointerLayout(h: Heap, a: Addr)
    requires a in h && h[a].Pointee? && Canonicalize(h, Ref(a)).Ok?
    ensures Canonicalize(h, Ref(a)) == Canonicalize(h, h[a].target)
  {
    hide Canon, Canonicalize;
    var depth := PrintedDepth(h, Ref(a));
    assert Unfold(h, h[a].target, depth - 1) == Unfold(h, Ref(a), depth);
    ChildPrints(h, h[a].target, depth - 1);
  }

  lemma LeafOutcome(h: Heap, v: GoValue)
    requires !v.Ref?
    ensures Canonicalize(h, v) == Canon(Leaf(v))
  {
  }

  lemma NilMapLayout(h: Heap)
    ensures Canonicalize(h, NilMap) == Ok(Ascii("{}"))
  {
    hide Canon, Canonicalize, Ascii;
    LeafOutcome(h, NilMap);
    EmptyObject(Leaf(NilMap));
    LiteralTexts();
  }

  /** Values without an address: literals, decimal integers, strings, base64 of bytes; a nil map is an empty object. */
  lemma LeafLayout(h: Heap, b: bool, i: int, s: GoString, bs: seq<byte>)
    ensures Canonicalize(h, Nil) == Ok(Ascii("null")) && Canonicalize(h, NilMap) == Ok(Ascii("{}"))
    ensures Canonicalize(h, Bool(b)) == Ok(if b then Ascii("true") else Ascii("false"))
    ensures Canonicalize(h, Int(i)) == Canonicalize(h, GoValue.Number(IntText(i)))
    ensures Canonicalize(h, GoValue.Number(s)) == CanonicalNumber(s)
    ensures Canonicalize(h, Text(s)) == Quote(s)
    ensures Canonicalize(h, Bytes(bs)) == Ok([QUOTE] + Base64.Std(bs) + [QUOTE])
  {
    hide Canonicalize, CanonItems, CanonMembers, SortedKeys, Quote, CanonicalNumber, IntText, Base64.Std, Ascii;
    LeafOutcome(h, Nil);
    NilMapLayout(h);
    LeafOutcome(h, Bool(b));
    LeafOutcome(h, Int(i));
    LeafOutcome(h, GoValue.Number(IntText(i)));
    LeafOutcome(h, GoValue.Number(s));
    LeafOutcome(h, Text(s));
    LeafOutcome(h, Bytes(bs));
    LiteralTexts();
    BytesLayout(bs);
  }

  lemma BytesLayout(bs: seq<byte>)
    ensures Quote(Base64.Std(bs)) == Ok([QUOTE] + Base64.Std(bs) + [QUOTE])
  {
    Base64.StdPlain(bs);
    Utf8.AsciiValid(Base64.Std(bs));
    PlainEscapes(Base64.Std(bs));
  }

  // ---------- the units that keys are ordered by ----------

  /** A character is one UTF-16 unit, or the surrogate pair that JSON strings combine into it. */
  lemma UnitsMeaning(r: Utf8.rune, rest: seq<Utf8.rune>)
    ensures r < 0x1_0000 ==> Utf8.Utf16([r] + rest) == [r] + Utf8.Utf16(rest)
    ensures r >= 0x1_0000 ==>
              exists high: nat, low: nat ::
                && IsHigh(high) && IsLow(low) && Combine(high, low) == r
                && Utf8.Utf16([r] + rest) == [high, low] + Utf8.Utf16(rest)
  {
    assert ([r] + rest)[1..] == rest;
    if r >= 0x1_0000 {
      var high: nat, low: nat := Utf8.Units(r)[0], Utf8.Units(r)[1];
      assert IsHigh(high) && IsLow(low) && Combine(high, low) == r;
    }
  }
}
