/**
 Base64 as `encoding/base64` writes it, and as `RawURLEncoding` reads it: line
 breaks are skipped and unused trailing bits ignored.
 */
module Base64 {
  import opened Basics

  const PAD: byte := 0x3D

  type sextet = v: int | 0 <= v < 0x40

  /** The character for six bits, in the standard or the URL-safe alphabet. */
  function Char(v: sextet, url: bool): byte {
    if v < 26 then 'A' as int + v
    else if v < 52 then 'a' as int + (v - 26)
    else if v < 62 then '0' as int + (v - 52)
    else if v == 62 then (if url then '-' as int else '+' as int)
    else (if url then '_' as int else '/' as int)
  }

  /** The six bits of a URL-safe character. */
  function Value(c: byte): Option<sextet> {
    if 'A' as int <= c <= 'Z' as int then Some(c - 'A' as int)
    else if 'a' as int <= c <= 'z' as int then Some(c - 'a' as int + 26)
    else if '0' as int <= c <= '9' as int then Some(c - '0' as int + 52)
    else if c == '-' as int then Some(62)
    else if c == '_' as int then Some(63)
    else None
  }

  function Padding(n: nat, pad: bool): GoString {
    if pad then seq(n, _ => PAD) else []
  }

  function Encode(b: seq<byte>, url: bool, pad: bool): GoString {
    if b == [] then []
    else if |b| == 1 then
      [Char(b[0] / 4, url), Char(b[0] % 4 * 16, url)] + Padding(2, pad)
    else if |b| == 2 then
      [Char(b[0] / 4, url), Char(b[0] % 4 * 16 + b[1] / 16, url), Char(b[1] % 16 * 4, url)] + Padding(1, pad)
    else
      Group(b[0], b[1], b[2], url) + Encode(b[3..], url, pad)
  }

  function Group(x: byte, y: byte, z: byte, url: bool): GoString {
    [Char(x / 4, url), Char(x % 4 * 16 + y / 16, url), Char(y % 16 * 4 + z / 64, url), Char(z % 64, url)]
  }

  /** `StdEncoding.EncodeToString`. */
  function Std(b: seq<byte>): GoString {
    Encode(b, false, true)
  }

  /** `RawURLEncoding.EncodeToString`. */
  function Url(b: seq<byte>): GoString {
    Encode(b, true, false)
  }

  function WithoutBreaks(s: GoString): GoString {
    if s == [] then []
    else if s[0] == 0x0A || s[0] == 0x0D then WithoutBreaks(s[1..])
    else [s[0]] + WithoutBreaks(s[1..])
  }

  function DecodeClean(s: GoString): Option<seq<byte>> {
    if s == [] then Some([])
    else if |s| == 1 || Value(s[0]).None? || Value(s[1]).None? then None
    else
      var a, b := Value(s[0]).value, Value(s[1]).value;
      if |s| == 2 then Some([a * 4 + b / 16])
      else if Value(s[2]).None? then None
      else
        var c := Value(s[2]).value;
        if |s| == 3 then Some([a * 4 + b / 16, b % 16 * 16 + c / 4])
        else if Value(s[3]).None? then None
        else
          match DecodeClean(s[4..])
          case None => None
          case Some(rest) => Some([a * 4 + b / 16, b % 16 * 16 + c / 4, c % 4 * 64 + Value(s[3]).value] + rest)
  }

  /** `RawURLEncoding.DecodeString`. */
  function DecodeUrl(s: GoString): Option<seq<byte>> {
    DecodeClean(WithoutBreaks(s))
  }

  lemma CharValue(v: sextet)
    ensures Value(Char(v, true)) == Some(v)
    ensures Char(v, true) != 0x0A && Char(v, true) != 0x0D && Char(v, true) != '.' as int
    ensures 0x20 < Char(v, true) < 0x80 && Char(v, false) < 0x80
  {
  }

  lemma DecodeOne(x: byte)
    ensures DecodeClean(Url([x])) == Some([x])
  {
    CharValue(x / 4);
    CharValue(x % 4 * 16);
    hide Char, Value;
    assert x % 4 * 16 / 16 == x % 4;
  }

  lemma DecodeTwo(x: byte, y: byte)
    ensures DecodeClean(Url([x, y])) == Some([x, y])
  {
    CharValue(x / 4);
    CharValue(x % 4 * 16 + y / 16);
    CharValue(y % 16 * 4);
    hide Char, Value;
    assert y % 16 * 4 / 4 == y % 16;
    assert (x % 4 * 16 + y / 16) / 16 == x % 4 && (x % 4 * 16 + y / 16) % 16 == y / 16;
  }

  /** The bytes of a full group of four characters. */
  function Triple(a: sextet, b: sextet, c: sextet, d: sextet): seq<byte> {
    [a * 4 + b / 16, b % 16 * 16 + c / 4, c % 4 * 64 + d]
  }

  lemma DecodeFour(a: sextet, b: sextet, c: sextet, d: sextet, rest: GoString)
    ensures DecodeClean([Char(a, true), Char(b, true), Char(c, true), Char(d, true)] + rest)
            == match DecodeClean(rest) case None => None case Some(tail) => Some(Triple(a, b, c, d) + tail)
  {
    CharValue(a);
    CharValue(b);
    CharValue(c);
    CharValue(d);
    var s := [Char(a, true), Char(b, true), Char(c, true), Char(d, true)] + rest;
    assert s[4..] == rest;
    hide Char, Value;
  }

  lemma GroupBits(x: byte, y: byte, z: byte)
    ensures Triple(x / 4, x % 4 * 16 + y / 16, y % 16 * 4 + z / 64, z % 64) == [x, y, z]
  {
    var b, c := x % 4 * 16 + y / 16, y % 16 * 4 + z / 64;
    assert b / 16 == x % 4 && b % 16 == y / 16;
    assert c / 4 == y % 16 && c % 4 == z / 64;
  }

  lemma DecodeGroup(x: byte, y: byte, z: byte, rest: GoString)
    ensures DecodeClean(Group(x, y, z, true) + rest)
            == match DecodeClean(rest) case None => None case Some(tail) => Some([x, y, z] + tail)
  {
    hide DecodeClean, Char, Triple;
    DecodeFour(x / 4, x % 4 * 16 + y / 16, y % 16 * 4 + z / 64, z % 64, rest);
    GroupBits(x, y, z);
  }

  lemma {:induction false} DecodeEncoded(b: seq<byte>)
    ensures DecodeClean(Url(b)) == Some(b)
  {
    hide DecodeClean, Char;
    if b == [] {
      assert DecodeClean([]) == Some([]) by {
        EmptyDecodes();
      }
    } else if |b| == 1 {
      DecodeOne(b[0]);
      assert b == [b[0]];
    } else if |b| == 2 {
      DecodeTwo(b[0], b[1]);
      assert b == [b[0], b[1]];
    } else {
      DecodeEncoded(b[3..]);
      DecodeGroup(b[0], b[1], b[2], Url(b[3..]));
      assert b == [b[0], b[1], b[2]] + b[3..];
    }
  }

  lemma EmptyDecodes()
    ensures DecodeClean([]) == Some([])
  {
  }

  lemma {:induction false} EncodedPlain(b: seq<byte>)
    ensures forall i :: 0 <= i < |Url(b)| ==> Url(b)[i] != 0x0A && Url(b)[i] != 0x0D && Url(b)[i] != '.' as int
    ensures forall i :: 0 <= i < |Url(b)| ==> 0x20 < Url(b)[i] < 0x80
  {
    if |b| >= 3 {
      EncodedPlain(b[3..]);
      var g := Group(b[0], b[1], b[2], true);
      assert Url(b) == g + Url(b[3..]);
    }
  }

  lemma {:induction false} UrlLength(b: seq<byte>)
    ensures |Url(b)| == (4 * |b| + 2) / 3
  {
    if |b| >= 3 {
      UrlLength(b[3..]);
      assert |Url(b)| == 4 + |Url(b[3..])|;
    }
  }

  lemma {:induction false} NoBreaks(s: GoString)
    requires forall i :: 0 <= i < |s| ==> s[i] != 0x0A && s[i] != 0x0D
    ensures WithoutBreaks(s) == s
  {
    if s != [] {
      NoBreaks(s[1..]);
    }
  }

  /** Decoding is the inverse of URL-safe encoding. */
  lemma UrlInverse(b: seq<byte>)
    ensures DecodeUrl(Url(b)) == Some(b)
  {
    EncodedPlain(b);
    NoBreaks(Url(b));
    DecodeEncoded(b);
  }

  /** Standard base64 is printable ASCII without quote or backslash. */
  lemma {:induction false} StdPlain(b: seq<byte>)
    ensures forall i :: 0 <= i < |Std(b)| ==> 0x20 < Std(b)[i] < 0x7F && Std(b)[i] != 0x22 && Std(b)[i] != 0x5C
  {
    if |b| >= 3 {
      StdPlain(b[3..]);
      var g := Group(b[0], b[1], b[2], false);
      assert Std(b) == g + Std(b[3..]);
    }
  }

  lemma CharInjective(v: sextet, w: sextet)
    requires Char(v, false) == Char(w, false)
    ensures v == w
  {
  }

  lemma CharNotPad(v: sextet)
    ensures Char(v, false) != PAD
  {
  }

  /** Different bytes have different standard encodings. */
  lemma {:induction false} StdInjective(a: seq<byte>, b: seq<byte>)
    requires Std(a) == Std(b)
    ensures a == b
  {
    if a != [] && b != [] {
      var s := Std(a);
      assert s[0] == Char(a[0] / 4, false) == Char(b[0] / 4, false);
      CharInjective(a[0] / 4, b[0] / 4);
      StdTail(a);
      StdTail(b);
      hide Char, Std, Encode;
      if |a| >= 3 && |b| >= 3 {
        StdGroup(a);
        StdGroup(b);
        GroupInjective(a[0], a[1], a[2], b[0], b[1], b[2]);
        assert s[4..] == Std(a[3..]) == Std(b[3..]);
        StdInjective(a[3..], b[3..]);
        assert a == a[..3] + a[3..] && b == b[..3] + b[3..];
      } else if |a| == 2 && |b| == 2 {
        CharInjective(a[0] % 4 * 16 + a[1] / 16, b[0] % 4 * 16 + b[1] / 16);
        CharInjective(a[1] % 16 * 4, b[1] % 16 * 4);
      } else if |a| == 1 && |b| == 1 {
        CharInjective(a[0] % 4 * 16, b[0] % 4 * 16);
      }
    }
  }

  lemma StdGroup(b: seq<byte>)
    requires |b| >= 3
    ensures |Std(b)| >= 4 && Std(b)[..4] == Group(b[0], b[1], b[2], false) && Std(b)[4..] == Std(b[3..])
  {
  }

  lemma GroupInjective(x: byte, y: byte, z: byte, x': byte, y': byte, z': byte)
    requires Group(x, y, z, false) == Group(x', y', z', false)
    ensures x == x' && y == y' && z == z'
  {
    var g, h := Group(x, y, z, false), Group(x', y', z', false);
    assert g[0] == h[0] && g[1] == h[1] && g[2] == h[2] && g[3] == h[3];
    CharInjective(x / 4, x' / 4);
    CharInjective(x % 4 * 16 + y / 16, x' % 4 * 16 + y' / 16);
    CharInjective(y % 16 * 4 + z / 64, y' % 16 * 4 + z' / 64);
    CharInjective(z % 64, z' % 64);
  }

  /** The last two of the first four characters tell how many bytes are left. */
  lemma StdTail(b: seq<byte>)
    requires b != []
    ensures |Std(b)| >= 4
    ensures Std(b)[2] == PAD <==> |b| == 1
    ensures Std(b)[3] == PAD <==> |b| <= 2
    ensures |b| == 1 ==> Std(b)[1] == Char(b[0] % 4 * 16, false)
    ensures |b| == 2 ==> Std(b)[1] == Char(b[0] % 4 * 16 + b[1] / 16, false) && Std(b)[2] == Char(b[1] % 16 * 4, false)
  {
    if |b| == 2 {
      CharNotPad(b[1] % 16 * 4);
    } else if |b| >= 3 {
      CharNotPad(b[1] % 16 * 4 + b[2] / 64);
      CharNotPad(b[2] % 64);
    }
  }

  // ---------- what the text means ----------

  /** The characters from `first` to `last`. */
  function Range(first: byte, last: byte): GoString
    requires first <= last
  {
    seq(last - first + 1, i requires 0 <= i < last - first + 1 => first + i)
  }

  /** The characters that both alphabets of RFC 4648 begin with. */
  function Alphanumerics(): GoString {
    Range('A' as int, 'Z' as int) + Range('a' as int, 'z' as int) + Range('0' as int, '9' as int)
  }

  /** Tables 1 and 2 of RFC 4648. */
  lemma Alphabets(v: sextet)
    ensures |Alphanumerics()| == 62
    ensures Char(v, false) == (Alphanumerics() + Ascii("+/"))[v]
    ensures Char(v, true) == (Alphanumerics() + Ascii("-_"))[v]
  {
  }

  /** The number whose digits in base 256, after those of `n`, are `b`. */
  function Bytes(n: nat, b: seq<byte>): nat
    decreases |b|
  {
    if b == [] then n else Bytes(0x100 * n + b[0], b[1..])
  }

  predicate UrlText(s: GoString) {
    forall i :: 0 <= i < |s| ==> Value(s[i]).Some?
  }

  /** The number whose digits in base 64, after those of `n`, are the characters of `s`. */
  function Sextets(n: nat, s: GoString): nat
    requires UrlText(s)
    decreases |s|
  {
    if s == [] then n else Sextets(0x40 * n + Value(s[0]).value, s[1..])
  }

  /** Bits that pad the last of `n` characters or bytes to a whole one. */
  function Slack(n: nat): nat {
    if n % 3 == 1 then 16 else if n % 3 == 2 then 4 else 1
  }

  function Four(a: int, b: int, c: int, d: int): int {
    0x40000 * a + 0x1000 * b + 0x40 * c + d
  }

  function Three(x: int, y: int, z: int): int {
    0x10000 * x + 0x100 * y + z
  }

  lemma FourSextets(n: nat, s: GoString)
    requires UrlText(s) && |s| >= 4
    ensures UrlText(s[4..])
    ensures var four: nat := Four(Value(s[0]).value, Value(s[1]).value, Value(s[2]).value, Value(s[3]).value);
            Sextets(n, s) == Sextets(0x1000000 * n + four, s[4..])
  {
    hide Value;
    assert s[1..][1..] == s[2..] && s[2..][1..] == s[3..] && s[3..][1..] == s[4..];
    var a: int, b: int, c: int := Value(s[0]).value, Value(s[1]).value, Value(s[2]).value;
    assert Sextets(n, s) == Sextets(0x40 * n + a, s[1..]);
    assert Sextets(0x40 * n + a, s[1..]) == Sextets(0x1000 * n + 0x40 * a + b, s[2..]);
    assert Sextets(0x1000 * n + 0x40 * a + b, s[2..]) == Sextets(0x40000 * n + 0x1000 * a + 0x40 * b + c, s[3..]);
  }

  lemma ThreeBytes(n: nat, b: seq<byte>)
    requires |b| >= 3
    ensures var three: nat := Three(b[0], b[1], b[2]); Bytes(n, b) == Bytes(0x1000000 * n + three, b[3..])
  {
    assert b[1..][1..] == b[2..] && b[2..][1..] == b[3..];
    var x: int, y: int := b[0], b[1];
    assert Bytes(n, b) == Bytes(0x100 * n + x, b[1..]);
    assert Bytes(0x100 * n + x, b[1..]) == Bytes(0x10000 * n + 0x100 * x + y, b[2..]);
  }

  lemma GroupNumber(x: byte, y: byte, z: byte)
    ensures Four(x / 4, x % 4 * 16 + y / 16, y % 16 * 4 + z / 64, z % 64) == Three(x, y, z) >= 0
  {
  }

  lemma GroupText(x: byte, y: byte, z: byte, rest: GoString)
    requires UrlText(rest)
    ensures var s := Group(x, y, z, true) + rest;
            && UrlText(s) && s[4..] == rest
            && Value(s[0]) == Some(x / 4) && Value(s[1]) == Some(x % 4 * 16 + y / 16)
            && Value(s[2]) == Some(y % 16 * 4 + z / 64) && Value(s[3]) == Some(z % 64)
  {
    hide Value, Char;
    CharValue(x / 4);
    CharValue(x % 4 * 16 + y / 16);
    CharValue(y % 16 * 4 + z / 64);
    CharValue(z % 64);
  }

  lemma LastBytes(n: nat, b: seq<byte>)
    requires |b| < 3
    ensures UrlText(Url(b)) && Sextets(n, Url(b)) == Slack(|b|) * Bytes(n, b)
  {
    if |b| == 1 {
      OneByte(n, b[0]);
      assert b == [b[0]];
    } else if |b| == 2 {
      TwoBytes(n, b[0], b[1]);
      assert b == [b[0], b[1]];
    }
  }

  lemma OneByte(n: nat, x: byte)
    ensures UrlText(Url([x])) && Sextets(n, Url([x])) == 16 * Bytes(n, [x])
  {
    hide Value, Char;
    CharValue(x / 4);
    CharValue(x % 4 * 16);
    var s := Url([x]);
    assert s == [Char(x / 4, true), Char(x % 4 * 16, true)];
    assert s[1..][1..] == [] && [x][1..] == [];
    assert Sextets(n, s) == Sextets(0x40 * n + x / 4, s[1..]);
    assert Bytes(n, [x]) == 0x100 * n + x;
  }

  lemma TwoNumber(x: byte, y: byte)
    ensures 0x1000 * (x / 4) + 0x40 * (x % 4 * 16 + y / 16) + y % 16 * 4 == 4 * (0x100 * x + y)
  {
  }

  lemma ThreeCharacters(n: nat, s: GoString, a: int, b: int, c: int)
    requires |s| == 3 && UrlText(s)
    requires Value(s[0]) == Some(a) && Value(s[1]) == Some(b) && Value(s[2]) == Some(c)
    ensures Sextets(n, s) == 0x40000 * n + 0x1000 * a + 0x40 * b + c
  {
    hide Value;
    assert s[1..][1..] == s[2..] && s[2..][1..] == [];
    assert Sextets(n, s) == Sextets(0x40 * n + a, s[1..]);
    assert Sextets(0x40 * n + a, s[1..]) == Sextets(0x1000 * n + 0x40 * a + b, s[2..]);
  }

  lemma TwoBytes(n: nat, x: byte, y: byte)
    ensures UrlText(Url([x, y])) && Sextets(n, Url([x, y])) == 4 * Bytes(n, [x, y])
  {
    hide Value, Char, Sextets;
    CharValue(x / 4);
    CharValue(x % 4 * 16 + y / 16);
    CharValue(y % 16 * 4);
    var s := Url([x, y]);
    assert s == [Char(x / 4, true), Char(x % 4 * 16 + y / 16, true), Char(y % 16 * 4, true)];
    ThreeCharacters(n, s, x / 4, x % 4 * 16 + y / 16, y % 16 * 4);
    TwoNumber(x, y);
    assert [x, y][1..] == [y] && [y][1..] == [];
    assert Bytes(n, [x, y]) == Bytes(0x100 * n + x, [y]) == 0x100 * (0x100 * n + x) + y;
  }

  /** The encoded text spells the same number in base 64 that the bytes spell in base 256, padded with zero bits. */
  lemma {:induction false} UrlMeaning(n: nat, b: seq<byte>)
    ensures UrlText(Url(b)) && Sextets(n, Url(b)) == Slack(|b|) * Bytes(n, b)
    decreases |b|
  {
    if |b| < 3 {
      LastBytes(n, b);
    } else {
      hide Sextets, Bytes, UrlText, Four, Three, Value, Char;
      GroupNumber(b[0], b[1], b[2]);
      UrlMeaning(0x1000000 * n + Three(b[0], b[1], b[2]), b[3..]);
      GroupText(b[0], b[1], b[2], Url(b[3..]));
      FourSextets(n, Url(b));
      ThreeBytes(n, b);
      SameSlack(|b| - 3);
    }
  }

  /** Line feeds and carriage returns are skipped wherever they stand, and nothing else is. */
  lemma {:induction false} BreaksSkipped(a: GoString, c: byte, b: GoString)
    ensures WithoutBreaks(a + [c] + b)
            == WithoutBreaks(a) + (if c == '\n' as int || c == '\r' as int then [] else [c]) + WithoutBreaks(b)
    ensures WithoutBreaks([]) == []
    decreases |a|
  {
    if a == [] {
      assert [] + [c] + b == [c] + b && ([c] + b)[1..] == b;
      assert [] + (if c == '\n' as int || c == '\r' as int then [] else [c]) + WithoutBreaks(b)
             == (if c == '\n' as int || c == '\r' as int then [] else [c]) + WithoutBreaks(b);
      assert [] + WithoutBreaks(b) == WithoutBreaks(b);
    } else {
      BreaksSkipped(a[1..], c, b);
      assert (a + [c] + b)[1..] == a[1..] + [c] + b && (a + [c] + b)[0] == a[0];
      var kept: GoString := if c == '\n' as int || c == '\r' as int then [] else [c];
      assert [a[0]] + (WithoutBreaks(a[1..]) + kept + WithoutBreaks(b))
             == [a[0]] + WithoutBreaks(a[1..]) + kept + WithoutBreaks(b);
    }
  }

  /**
   The lenient decoder accepts exactly texts of the URL-safe alphabet and line
   breaks whose length without breaks is not one more than a multiple of four,
   and what it reads is the text's number without the bits that fill no byte.
   */
  lemma DecodeMeaning(s: GoString)
    ensures var t := WithoutBreaks(s);
            && (DecodeUrl(s).Some? <==> UrlText(t) && |t| % 4 != 1)
            && (DecodeUrl(s).Some? ==> && |DecodeUrl(s).value| == 3 * |t| / 4
                                       && Bytes(0, DecodeUrl(s).value)
                                          == Sextets(0, t) / Slack(|DecodeUrl(s).value|))
  {
    CleanMeaning(0, WithoutBreaks(s));
  }

  lemma ShortClean(n: nat, s: GoString)
    requires |s| < 4
    ensures DecodeClean(s).Some? <==> UrlText(s) && |s| % 4 != 1
    ensures DecodeClean(s).Some? ==>
              && |DecodeClean(s).value| == 3 * |s| / 4
              && Bytes(n, DecodeClean(s).value) == Sextets(n, s) / Slack(|DecodeClean(s).value|)
  {
    hide Value;
    if DecodeClean(s).Some? {
      if |s| == 2 {
        TwoSextets(n, s);
      } else if |s| == 3 {
        ThreeSextets(n, s);
      }
    }
  }

  lemma TwoSextets(n: nat, s: GoString)
    requires |s| == 2 && UrlText(s)
    ensures DecodeClean(s).Some? && |DecodeClean(s).value| == 1
    ensures Bytes(n, DecodeClean(s).value) == Sextets(n, s) / 16
  {
    hide Value;
    var a: int, b: int := Value(s[0]).value, Value(s[1]).value;
    var x: byte := a * 4 + b / 16;
    assert s[1..][1..] == [] && [x][1..] == [];
    assert Sextets(n, s) == Sextets(0x40 * n + a, s[1..]) == 0x40 * (0x40 * n + a) + b;
    assert Bytes(n, [x]) == 0x100 * n + x;
  }

  lemma ThreeSextets(n: nat, s: GoString)
    requires |s| == 3 && UrlText(s)
    ensures DecodeClean(s).Some? && |DecodeClean(s).value| == 2
    ensures Bytes(n, DecodeClean(s).value) == Sextets(n, s) / 4
  {
    hide Value, Sextets;
    var a: int, b: int, c: int := Value(s[0]).value, Value(s[1]).value, Value(s[2]).value;
    var x: byte, y: byte := a * 4 + b / 16, b % 16 * 16 + c / 4;
    ThreeCharacters(n, s, a, b, c);
    assert [x, y][1..] == [y] && [y][1..] == [];
    assert Bytes(n, [x, y]) == Bytes(0x100 * n + x, [y]) == 0x100 * (0x100 * n + x) + y;
    assert 0x100 * x + y == (0x1000 * a + 0x40 * b + c) / 4;
  }

  lemma {:induction false} CleanMeaning(n: nat, s: GoString)
    ensures DecodeClean(s).Some? <==> UrlText(s) && |s| % 4 != 1
    ensures DecodeClean(s).Some? ==>
              && |DecodeClean(s).value| == 3 * |s| / 4
              && Bytes(n, DecodeClean(s).value) == Sextets(n, s) / Slack(|DecodeClean(s).value|)
    decreases |s|
  {
    if |s| < 4 {
      ShortClean(n, s);
    } else {
      hide DecodeClean, Sextets, Bytes, Slack, UrlText, Value, Triple, Four, Three;
      CleanStep(s);
      FourMore(|s| - 4);
      if UrlText(s) {
        CleanMeaning(CleanPrefix(n, s), s[4..]);
      } else {
        CleanMeaning(0, s[4..]);
      }
      hide CleanPrefix;
      if DecodeClean(s).Some? {
        CleanNumber(n, s);
      }
    }
  }

  lemma FourMore(n: nat)
    ensures (n + 4) % 4 == n % 4 && 3 * (n + 4) / 4 == 3 + 3 * n / 4
  {
  }

  /** The number of the first four characters. */
  function CleanPrefix(n: nat, s: GoString): (m: nat)
    requires UrlText(s) && |s| >= 4
  {
    0x1000000 * n + Four(Value(s[0]).value, Value(s[1]).value, Value(s[2]).value, Value(s[3]).value)
  }

  lemma CleanNumber(n: nat, s: GoString)
    requires UrlText(s) && |s| >= 4 && DecodeClean(s).Some?
    ensures UrlText(s[4..]) && DecodeClean(s[4..]).Some?
    ensures Sextets(n, s) == Sextets(CleanPrefix(n, s), s[4..])
    ensures |DecodeClean(s).value| == 3 + |DecodeClean(s[4..]).value|
    ensures Bytes(n, DecodeClean(s).value) == Bytes(CleanPrefix(n, s), DecodeClean(s[4..]).value)
    ensures Slack(|DecodeClean(s).value|) == Slack(|DecodeClean(s[4..]).value|)
  {
    hide DecodeClean, Sextets, Bytes, Slack, UrlText, Value, Triple, Four, Three;
    CleanStep(s);
    FourSextets(n, s);
    var a, b, c, d := Value(s[0]).value, Value(s[1]).value, Value(s[2]).value, Value(s[3]).value;
    TripleNumber(a, b, c, d);
    var bytes := DecodeClean(s).value;
    ThreeBytes(n, bytes);
    assert bytes[..3] == Triple(a, b, c, d) && bytes[3..] == DecodeClean(s[4..]).value;
    SameSlack(|bytes| - 3);
  }

  lemma TripleNumber(a: sextet, b: sextet, c: sextet, d: sextet)
    ensures var t := Triple(a, b, c, d); |t| == 3 && Three(t[0], t[1], t[2]) == Four(a, b, c, d) >= 0
  {
  }

  lemma SameSlack(n: nat)
    ensures Slack(n + 3) == Slack(n)
  {
  }

  lemma CleanStep(s: GoString)
    requires |s| >= 4
    ensures UrlText(s) <==> && Value(s[0]).Some? && Value(s[1]).Some? && Value(s[2]).Some? && Value(s[3]).Some?
                            && UrlText(s[4..])
    ensures DecodeClean(s).Some? <==> && Value(s[0]).Some? && Value(s[1]).Some? && Value(s[2]).Some?
                                      && Value(s[3]).Some? && DecodeClean(s[4..]).Some?
    ensures DecodeClean(s).Some? ==>
              DecodeClean(s).value == Triple(Value(s[0]).value, Value(s[1]).value, Value(s[2]).value,
                                             Value(s[3]).value) + DecodeClean(s[4..]).value
  {
    hide Value;
    if UrlText(s[4..]) {
      assert forall i :: 4 <= i < |s| ==> s[i] == s[4..][i - 4];
    }
  }

  /** The standard text is the URL-safe one in the other alphabet, filled up with `=` to a multiple of four. */
  predicate StdFits(std: GoString, url: GoString) {
    && UrlText(url) && |std| % 4 == 0 && |url| <= |std| < |url| + 3
    && (forall i :: 0 <= i < |url| ==> std[i] == Char(Value(url[i]).value, false))
    && (forall i :: |url| <= i < |std| ==> std[i] == PAD)
  }

  lemma GroupFits(x: byte, y: byte, z: byte, std: GoString, url: GoString)
    requires StdFits(std, url)
    ensures StdFits(Group(x, y, z, false) + std, Group(x, y, z, true) + url)
  {
    hide Char, Value;
    GroupText(x, y, z, url);
    var s, u := Group(x, y, z, false) + std, Group(x, y, z, true) + url;
    assert forall i :: 4 <= i < |u| ==> u[i] == url[i - 4];
    assert forall i :: 4 <= i < |s| ==> s[i] == std[i - 4];
  }

  lemma ShortFits(b: seq<byte>)
    requires |b| < 3
    ensures StdFits(Std(b), Url(b))
  {
    hide Char, Value;
    if |b| == 1 {
      CharValue(b[0] / 4);
      CharValue(b[0] % 4 * 16);
    } else if |b| == 2 {
      CharValue(b[0] / 4);
      CharValue(b[0] % 4 * 16 + b[1] / 16);
      CharValue(b[1] % 16 * 4);
    }
  }

  lemma {:induction false} StdMeaning(b: seq<byte>)
    ensures StdFits(Std(b), Url(b))
  {
    hide Char, Value, StdFits;
    if |b| < 3 {
      ShortFits(b);
    } else {
      StdMeaning(b[3..]);
      GroupFits(b[0], b[1], b[2], Std(b[3..]), Url(b[3..]));
    }
  }
}
