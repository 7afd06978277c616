/**
 Flat payloads of integers, texts and one list of texts: how they are printed,
 and how the decoder of a wire struct reads them back.
 */
module Payload {
  import opened Basics
  import opened GoHeap
  import opened Json
  import opened JsonNumber
  import opened JsonRoundTrip
  import opened JsonString
  import opened Numerals
  import Base64
  import KeyOrder
  import Utf8

  const LIMIT64: int := 0x8000_0000_0000_0000
  const LIMIT32: int := 0x8000_0000

  /** Where the payload map and its list live in the heap. */
  const MAP_ADDR: Addr := 1
  const LIST_ADDR: Addr := 2

  type Fields = map<GoString, GoValue>

  predicate FieldShaped(v: GoValue) {
    match v
    case Int(i) => -LIMIT64 <= i < LIMIT64
    case Text(_) => true
    case Ref(a) => a == LIST_ADDR
    case _ => false
  }

  predicate Shaped(fields: Fields) {
    forall k :: k in fields ==> FieldShaped(fields[k])
  }

  function TextValues(texts: seq<GoString>): seq<GoValue> {
    seq(|texts|, i requires 0 <= i < |texts| => Text(texts[i]))
  }

  function PayloadHeap(fields: Fields, texts: seq<GoString>): Heap {
    map[MAP_ADDR := Mapping(fields), LIST_ADDR := Slice(TextValues(texts))]
  }

  function TextItems(texts: seq<GoString>): seq<Json> {
    seq(|texts|, i requires 0 <= i < |texts| => Str(texts[i]))
  }

  /** The JSON value of one field; the only reference is to the list. */
  function FieldTree(v: GoValue, texts: seq<GoString>): Json {
    if v.Ref? then Arr(TextItems(texts)) else Leaf(v)
  }

  /** The JSON value that the payload map unfolds into. */
  function PayloadTree(fields: Fields, texts: seq<GoString>): Json {
    Obj(map k | k in fields :: FieldTree(fields[k], texts))
  }

  /** The payload as `Canonicalize` prints it. */
  function Print(fields: Fields, texts: seq<GoString>): Result<GoString> {
    Canonicalize(PayloadHeap(fields, texts), Ref(MAP_ADDR))
  }

  lemma ListUnfolds(fields: Fields, texts: seq<GoString>)
    ensures Unfold(PayloadHeap(fields, texts), Ref(LIST_ADDR), 1) == Some(Arr(TextItems(texts)))
  {
    assert TextItems(texts) == Unfold(PayloadHeap(fields, texts), Ref(LIST_ADDR), 1).value.items;
  }

  lemma PayloadUnfolds(fields: Fields, texts: seq<GoString>)
    requires Shaped(fields)
    ensures Unfold(PayloadHeap(fields, texts), Ref(MAP_ADDR), 2) == Some(PayloadTree(fields, texts))
  {
    hide TextItems, TextValues;
    var h := PayloadHeap(fields, texts);
    ListUnfolds(fields, texts);
    forall k | k in fields
      ensures Unfold(h, fields[k], 1) == Some(FieldTree(fields[k], texts))
    {
      assert FieldShaped(fields[k]);
    }
    hide FieldTree;
    assert PayloadTree(fields, texts).members == map k | k in fields :: Unfold(h, fields[k], 1).value;
  }

  lemma PrintTree(fields: Fields, texts: seq<GoString>)
    requires Shaped(fields)
    ensures Print(fields, texts) == Canon(PayloadTree(fields, texts))
  {
    hide Unfold, Canon, PayloadHeap, PayloadTree, Canonicalize, Shaped;
    PayloadUnfolds(fields, texts);
    CanonicalizeMeaning(PayloadHeap(fields, texts), Ref(MAP_ADDR));
  }

  /** A field that the canonical printer accepts. */
  predicate FieldPrints(v: GoValue, texts: seq<GoString>) {
    match v
    case Int(i) => CanonicalNumber(IntText(i)).Ok?
    case Text(s) => Utf8.Valid(s)
    case _ => forall t :: t in texts ==> Utf8.Valid(t)
  }

  lemma TextsPrint(texts: seq<GoString>)
    ensures Canon(Arr(TextItems(texts))).Ok? <==> forall t :: t in texts ==> Utf8.Valid(t)
  {
    ItemsPrint(TextItems(texts), true);
    var items := TextItems(texts);
    forall t | t in texts
      ensures Str(t) in items
    {
      var i :| 0 <= i < |texts| && texts[i] == t;
      assert items[i] == Str(t);
    }
    assert forall u :: u in items ==> u.Str? && u.s in texts;
    hide TextItems, CanonItems, EscapeAll;
    if forall u :: u in items ==> Canon(u).Ok? {
      forall t | t in texts
        ensures Utf8.Valid(t)
      {
        assert Canon(Str(t)).Ok?;
      }
    }
  }

  lemma ValuePrints(v: GoValue, texts: seq<GoString>)
    requires FieldShaped(v)
    ensures Canon(FieldTree(v, texts)).Ok? <==> FieldPrints(v, texts)
  {
    hide CanonicalNumber, TextItems, EscapeAll;
    if v.Ref? {
      TextsPrint(texts);
    }
  }

  /** A payload prints exactly when its names and texts are valid UTF-8 and its integers pass the gate. */
  lemma PrintSucceeds(fields: Fields, texts: seq<GoString>)
    requires Shaped(fields)
    ensures Print(fields, texts).Ok?
            <==> KeyOrder.AllValid(fields.Keys) && forall k :: k in fields ==> FieldPrints(fields[k], texts)
  {
    hide Canon, Print, FieldTree, FieldPrints, FieldShaped;
    PrintTree(fields, texts);
    var t := PayloadTree(fields, texts);
    ObjectPrints(t);
    assert t.members.Keys == fields.Keys;
    forall k | k in fields
      ensures Canon(t.members[k]).Ok? <==> FieldPrints(fields[k], texts)
    {
      ValuePrints(fields[k], texts);
    }
  }

  // ---------- the decoder of a wire struct ----------

  /** A string field of the decoded struct; an absent or null field stays empty. */
  function StringField(m: map<GoString, Json>, key: GoString): Option<GoString> {
    if key !in m || m[key].Null? then Some([])
    else if m[key].Str? then Some(m[key].s) else None
  }

  /** An integer field of the decoded struct, of the given width. */
  function IntField(m: map<GoString, Json>, key: GoString, limit: int): (r: Option<int>)
    ensures r.Some? ==> r.value == 0 || -limit <= r.value < limit
  {
    if key !in m || m[key].Null? then Some(0)
    else if m[key].Num? && IsIntegerLexeme(m[key].lexeme) && -limit <= IntOf(m[key].lexeme) < limit
    then Some(IntOf(m[key].lexeme)) else None
  }

  function StringItems(items: seq<Json>): Option<seq<GoString>> {
    if forall i :: 0 <= i < |items| ==> items[i].Str? || items[i].Null?
    then Some(seq(|items|, i requires 0 <= i < |items| => if items[i].Str? then items[i].s else []))
    else None
  }

  function StringsField(m: map<GoString, Json>, key: GoString): Option<seq<GoString>> {
    if key !in m || m[key].Null? then Some([])
    else if m[key].Arr? then StringItems(m[key].items) else None
  }

  /** A string field holding the URL-safe base64 of 32 bytes. */
  function DigestField(m: map<GoString, Json>, key: GoString): Option<seq<byte>> {
    match StringField(m, key)
    case None => None
    case Some(s) =>
      match Base64.DecodeUrl(s)
      case None => None
      case Some(d) => if |d| == 32 then Some(d) else None
  }

  /** The members handed to the struct decoder: canonical bytes with known fields only. */
  function Members(payload: GoString, known: set<GoString>): Option<map<GoString, Json>> {
    if CanonicalizeJSON(payload) != Ok(payload) then None
    else
      var t := DecodeJSON(payload, false).value;
      var m := if t.Obj? then t.members else map[];
      if (t.Obj? || t.Null?) && m.Keys <= known then Some(m) else None
  }

  // ---------- what was printed is read back ----------

  /** An integer field is the integer that its canonical text spells. */
  predicate FieldStable(v: GoValue) {
    v.Int? ==> StableInt(v.i)
  }

  predicate FieldsStable(fields: Fields) {
    forall k :: k in fields ==> FieldStable(fields[k])
  }

  lemma SmallIntStable(n: int)
    requires -LIMIT32 <= n < LIMIT32
    ensures StableInt(n)
  {
    SmallIntText(n);
  }

  lemma NumberStable(n: int)
    requires -LIMIT64 <= n < LIMIT64 && Canon(Num(IntText(n))).Ok?
    ensures AllStable(Num(IntText(n))) <==> StableInt(n)
  {
    hide Stable, CanonicalNumber, IntText, StableInt;
    CanonicalInt(n);
  }

  lemma TextsStable(texts: seq<GoString>)
    ensures AllStable(Arr(TextItems(texts)))
  {
    assert forall i :: 0 <= i < |texts| ==> AllStable(TextItems(texts)[i]);
  }

  lemma ValueStable(v: GoValue, texts: seq<GoString>)
    requires FieldShaped(v) && Canon(FieldTree(v, texts)).Ok?
    ensures AllStable(FieldTree(v, texts)) <==> FieldStable(v)
  {
    hide StableInt, Stable, CanonicalNumber, TextItems;
    match v
    case Int(i) => NumberStable(i);
    case Text(_) =>
    case Ref(_) => TextsStable(texts);
  }

  lemma MemberPrints(fields: Fields, texts: seq<GoString>, k: GoString)
    requires k in fields && Canon(PayloadTree(fields, texts)).Ok?
    ensures Canon(FieldTree(fields[k], texts)).Ok?
  {
    hide Canon, FieldTree;
    ObjectPrints(PayloadTree(fields, texts));
    assert PayloadTree(fields, texts).members[k] == FieldTree(fields[k], texts);
  }

  lemma TreeStable(fields: Fields, texts: seq<GoString>)
    requires Shaped(fields) && Canon(PayloadTree(fields, texts)).Ok?
    ensures AllStable(PayloadTree(fields, texts)) <==> FieldsStable(fields)
  {
    hide FieldStable, FieldTree, FieldShaped, Canon;
    forall k | k in fields
      ensures AllStable(FieldTree(fields[k], texts)) <==> FieldStable(fields[k])
    {
      MemberPrints(fields, texts, k);
      ValueStable(fields[k], texts);
    }
    assert PayloadTree(fields, texts).members.Keys == fields.Keys;
  }

  lemma NumberReads(m: map<GoString, Json>, name: GoString, n: int, limit: int)
    requires name in m && m[name] == Norm(Num(IntText(n))) && Canon(Num(IntText(n))).Ok?
    requires StableInt(n) && -limit <= n < limit <= LIMIT64
    ensures IntField(m, name, limit) == Some(n)
  {
    hide Stable, IntText, IsIntegerLexeme;
    CanonicalInt(n);
  }

  lemma {:induction false} NormTexts(texts: seq<GoString>)
    ensures NormItems(TextItems(texts)) == TextItems(texts)
  {
    if texts != [] {
      NormTexts(texts[1..]);
      TextItemsCons(texts);
      hide TextItems;
      assert NormItems(TextItems(texts)) == [Norm(Str(texts[0]))] + NormItems(TextItems(texts[1..]));
    }
  }

  lemma TextItemsCons(texts: seq<GoString>)
    requires texts != []
    ensures TextItems(texts) == [Str(texts[0])] + TextItems(texts[1..])
    ensures TextItems(texts) != [] && TextItems(texts)[0] == Str(texts[0])
    ensures TextItems(texts)[1..] == TextItems(texts[1..])
  {
  }

  lemma TextsRead(m: map<GoString, Json>, name: GoString, texts: seq<GoString>)
    requires name in m && m[name] == Norm(Arr(TextItems(texts)))
    ensures StringsField(m, name) == Some(texts)
  {
    NormTexts(texts);
    assert StringItems(TextItems(texts)).Some?;
    assert StringItems(TextItems(texts)).value == texts;
  }

  /** The decoded field holds what was put there, when its integer fits the field's width. */
  predicate FieldReads(m: map<GoString, Json>, name: GoString, v: GoValue, texts: seq<GoString>) {
    match v
    case Int(i) => forall limit :: -limit <= i < limit <= LIMIT64 ==> IntField(m, name, limit) == Some(i)
    case Text(s) => StringField(m, name) == Some(s)
    case _ => StringsField(m, name) == Some(texts)
  }

  predicate FieldsRead(m: map<GoString, Json>, fields: Fields, texts: seq<GoString>) {
    m.Keys == fields.Keys && forall k :: k in fields ==> FieldReads(m, k, fields[k], texts)
  }

  lemma ValueIsRead(m: map<GoString, Json>, name: GoString, v: GoValue, texts: seq<GoString>)
    requires name in m && m[name] == Norm(FieldTree(v, texts))
    requires FieldShaped(v) && FieldStable(v) && Canon(FieldTree(v, texts)).Ok?
    ensures FieldReads(m, name, v, texts)
  {
    hide StableInt, IntField, StringsField, TextItems, Canon;
    match v
    case Int(i) =>
      hide Norm;
      forall limit | -limit <= i < limit <= LIMIT64
        ensures IntField(m, name, limit) == Some(i)
      {
        NumberReads(m, name, i, limit);
      }
    case Text(_) =>
    case Ref(_) =>
      TextsRead(m, name, texts);
  }

  lemma TreeReads(fields: Fields, texts: seq<GoString>)
    requires Shaped(fields) && FieldsStable(fields) && Canon(PayloadTree(fields, texts)).Ok?
    ensures Norm(PayloadTree(fields, texts)).Obj?
    ensures FieldsRead(Norm(PayloadTree(fields, texts)).members, fields, texts)
  {
    hide FieldTree, FieldStable, FieldShaped, FieldReads, Norm, Canon;
    var t := PayloadTree(fields, texts);
    NormKeysKept(t);
    assert t.members.Keys == fields.Keys;
    forall k | k in fields
      ensures FieldReads(Norm(t).members, k, fields[k], texts)
    {
      MemberPrints(fields, texts, k);
      ValueIsRead(Norm(t).members, k, fields[k], texts);
    }
  }

  /**
   A printed payload reaches the struct decoder exactly when all of its integers
   are stable, and then every field holds what was put there.
   */
  lemma PrintedMembers(fields: Fields, texts: seq<GoString>)
    requires Shaped(fields) && Print(fields, texts).Ok?
    ensures var r := Members(Print(fields, texts).value, fields.Keys);
            if FieldsStable(fields) then r.Some? && FieldsRead(r.value, fields, texts) else r.None?
  {
    hide Canon, Norm, AllStable, CanonicalizeJSON, DecodeJSON, FieldsRead, Print, Shaped, FieldsStable;
    var t := PayloadTree(fields, texts);
    PrintTree(fields, texts);
    TreeStable(fields, texts);
    PrintedAgain(t);
    DecodeCanon(t, false);
    NormKeysKept(t);
    assert t.members.Keys == fields.Keys;
    if FieldsStable(fields) {
      TreeReads(fields, texts);
    }
  }

  // ---------- field names ----------

  const V := Ascii("v")
  const CHAIN_ID := Ascii("chain_id")
  const OWNER_ID := Ascii("owner_id")
  const ACCOUNT_GENERATION := Ascii("account_generation")
  const ISSUED_AT := Ascii("issued_at_unix_ms")
  const EXPIRES_AT := Ascii("expires_at_unix_ms")
  const ENTRY_ROUTE := Ascii("entry_route")
  const ENTRY_HOP := Ascii("entry_hop")

  /** The length and the first byte of a field name; no two names of one struct share both. */
  function NameTag(name: GoString): int {
    if name == [] then 0 else 0x100 * |name| + name[0]
  }

  lemma CommonTags()
    ensures NameTag(V) == 374 && NameTag(CHAIN_ID) == 2147 && NameTag(OWNER_ID) == 2159
    ensures NameTag(ACCOUNT_GENERATION) == 4705 && NameTag(ISSUED_AT) == 4457 && NameTag(EXPIRES_AT) == 4709
    ensures NameTag(ENTRY_ROUTE) == 2917 && NameTag(ENTRY_HOP) == 2405
  {
  }
}
