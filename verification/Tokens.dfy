/** The textual checks shared by the validators: trimmed tokens and operation UUIDs. */
module Tokens {
  import opened Basics
  import opened Utf8

  /** `unicode.IsSpace`. */
  predicate IsSpace(r: rune) {
    || 0x09 <= r <= 0x0D || r == 0x20 || r == 0x85 || r == 0xA0 || r == 0x1680
    || 0x2000 <= r <= 0x200A || r == 0x2028 || r == 0x2029 || r == 0x202F || r == 0x205F || r == 0x3000
  }

  /** `unicode.IsControl`. */
  predicate IsControl(r: rune) {
    r < 0x20 || 0x7F <= r < 0xA0
  }

  const ARROW_RUNE: rune := 0x2192

  /** `strings.TrimSpace(s) == s`. */
  predicate Trimmed(s: GoString) {
    var rs := Runes(s);
    rs != [] ==> !IsSpace(rs[0]) && !IsSpace(rs[|rs| - 1])
  }

  /** `validateToken`: identifiers of a call context. */
  predicate ContextToken(s: GoString) {
    && s != [] && |s| <= 128 && Trimmed(s)
    && 0x0D !in s && 0x0A !in s && 0x09 !in s
  }

  /** `validateGrantToken`: identifiers and scopes of a grant. */
  predicate GrantToken(s: GoString, maxLen: nat) {
    && s != [] && |s| <= maxLen && Trimmed(s)
    && forall i :: 0 <= i < |Runes(s)| ==> !IsControl(Runes(s)[i]) && Runes(s)[i] != ARROW_RUNE
  }

  /** `validateReplayToken`: identifiers of a replay key. */
  predicate ReplayToken(s: GoString) {
    && s != [] && Trimmed(s) && |s| <= 256
    && forall i :: 0 <= i < |Runes(s)| ==> Runes(s)[i] >= 0x20 && Runes(s)[i] != ARROW_RUNE
  }

  predicate LowerHex(b: byte) {
    0x30 <= b <= 0x39 || 0x61 <= b <= 0x66
  }

  /** `ValidateOperationID`: a lower-case canonical UUID other than the nil UUID. */
  predicate OperationId(s: GoString) {
    && |s| == 36
    && (forall i :: 0 <= i < 36 ==> if i in {8, 13, 18, 23} then s[i] == 0x2D else LowerHex(s[i]))
    && exists i :: 0 <= i < 36 && s[i] != 0x2D && s[i] != 0x30
  }

  lemma IdBytes(s: GoString)
    requires OperationId(s)
    ensures |s| == 36 && forall i :: 0 <= i < |s| ==> 0x2D <= s[i] < 0x70
  {
  }

  lemma TokenRune(r: rune)
    requires 0x21 <= r < 0x7F
    ensures !IsSpace(r) && !IsControl(r) && r != ARROW_RUNE && r >= 0x20
  {
  }

  /** Printable ASCII without blanks is its own rune sequence. */
  lemma PrintableToken(s: GoString)
    requires s != [] && |s| <= 128 && forall i :: 0 <= i < |s| ==> 0x21 <= s[i] < 0x7F
    ensures Valid(s) && Runes(s) == s && Trimmed(s)
    ensures ContextToken(s) && GrantToken(s, 128) && GrantToken(s, 256) && ReplayToken(s)
  {
    hide Runes, Valid, IsSpace, IsControl;
    AsciiValid(s);
    var rs := Runes(s);
    forall i | 0 <= i < |rs|
      ensures !IsSpace(rs[i]) && !IsControl(rs[i]) && rs[i] != ARROW_RUNE && rs[i] >= 0x20
    {
      assert rs[i] == s[i];
      TokenRune(rs[i]);
    }
  }

  /** A UUID is an acceptable token wherever one is asked for. */
  lemma OperationIdIsToken(s: GoString)
    requires OperationId(s)
    ensures s != [] && Valid(s) && Runes(s) == s && Trimmed(s)
    ensures ContextToken(s) && GrantToken(s, 256) && ReplayToken(s)
  {
    hide OperationId, ContextToken, GrantToken, ReplayToken, Trimmed, Runes, Valid;
    IdBytes(s);
    PrintableToken(s);
  }
}
