/**
 The signed envelope `prefix.payload.signature`, the abstract signature scheme
 behind it, and the codec settings that signers and verifiers share.
 */
module Envelope {
  import opened Basics
  import Base64

  const DOT: GoString := ['.' as int]

  const PRIVATE_KEY_SIZE: nat := 64
  const PUBLIC_KEY_SIZE: nat := 32
  const SIGNATURE_SIZE: nat := 64

  /** Ed25519, of which only the agreement of signing and verifying is used. */
  datatype Scheme = Scheme(
    public: seq<byte> -> seq<byte>,
    sign: (seq<byte>, GoString) -> seq<byte>,
    verify: (seq<byte>, GoString, seq<byte>) -> bool)

  ghost predicate Sound(s: Scheme) {
    forall key, message :: |key| == PRIVATE_KEY_SIZE ==>
      && |s.public(key)| == PUBLIC_KEY_SIZE
      && |s.sign(key, message)| == SIGNATURE_SIZE
      && s.verify(s.public(key), message, s.sign(key, message))
  }

  /** A wrong-sized signature never verifies. */
  predicate Verifies(s: Scheme, key: seq<byte>, message: GoString, signature: seq<byte>) {
    |signature| == SIGNATURE_SIZE && s.verify(key, message, signature)
  }

  const PEM_BEGIN := Ascii("-----BEGIN")

  /** Raw key material: bytes of the right size in which no PEM block begins. */
  predicate RawKey(key: seq<byte>, size: nat) {
    |key| == size && forall i :: 0 <= i <= |key| ==> !(PEM_BEGIN <= key[i..])
  }

  // ---------- sealing and opening ----------

  function Seal(prefix: GoString, payload: GoString, signature: seq<byte>): GoString {
    prefix + DOT + Base64.Url(payload) + DOT + Base64.Url(signature)
  }

  /** A sealed envelope splits into the three parts that were joined. */
  lemma SealSplits(prefix: GoString, payload: GoString, signature: seq<byte>)
    requires '.' as int !in prefix
    ensures Split(Seal(prefix, payload, signature), DOT) == [prefix, Base64.Url(payload), Base64.Url(signature)]
  {
    hide Split, Base64.Url;
    var p, s := Base64.Url(payload), Base64.Url(signature);
    Base64.EncodedPlain(payload);
    Base64.EncodedPlain(signature);
    SplitJoin([prefix, p, s], DOT);
    assert [prefix, p, s][1..] == [p, s] && [p, s][1..] == [s];
    assert Join([p, s], DOT) == p + DOT + s;
    assert prefix + DOT + (p + DOT + s) == prefix + DOT + p + DOT + s;
  }

  /** The two parts after the prefix, decoded; None when the envelope is malformed. */
  function Open(text: GoString, prefix: GoString): Option<(GoString, seq<byte>)> {
    var parts := Split(text, DOT);
    if |parts| != 3 || parts[0] != prefix then None
    else match Base64.DecodeUrl(parts[1])
      case None => None
      case Some(payload) =>
        match Base64.DecodeUrl(parts[2])
        case None => None
        case Some(signature) => if |signature| == SIGNATURE_SIZE then Some((payload, signature)) else None
  }

  /**
   A text opens exactly when it is the prefix and two further parts without a dot,
   both of which decode, the second to a signature of 64 bytes.
   */
  lemma OpenMeaning(text: GoString, prefix: GoString, payload: GoString, signature: seq<byte>)
    requires '.' as int !in prefix
    ensures Open(text, prefix) == Some((payload, signature))
            <==> exists p: GoString, s: GoString ::
                   && text == prefix + ['.' as int] + p + ['.' as int] + s
                   && '.' as int !in p && '.' as int !in s
                   && Base64.DecodeUrl(p) == Some(payload) && Base64.DecodeUrl(s) == Some(signature)
                   && |signature| == 64
  {
    hide Split, Base64.DecodeUrl;
    if Open(text, prefix) == Some((payload, signature)) {
      var parts := Split(text, DOT);
      JoinSplit(text, DOT);
      PartsWithoutDot(text);
      JoinThree(parts[0], parts[1], parts[2]);
      assert parts == [parts[0], parts[1], parts[2]];
      assert text == prefix + ['.' as int] + parts[1] + ['.' as int] + parts[2];
    }
    forall p: GoString, s: GoString |
      && text == prefix + ['.' as int] + p + ['.' as int] + s
      && '.' as int !in p && '.' as int !in s
      && Base64.DecodeUrl(p) == Some(payload) && Base64.DecodeUrl(s) == Some(signature)
      && |signature| == 64
      ensures Open(text, prefix) == Some((payload, signature))
    {
      JoinThree(prefix, p, s);
      SplitJoin([prefix, p, s], DOT);
    }
  }

  lemma {:induction false} PartsWithoutDot(text: GoString)
    ensures forall i :: 0 <= i < |Split(text, DOT)| ==> '.' as int !in Split(text, DOT)[i]
    decreases |text|
  {
    if text != [] {
      var next := text[1..];
      PartsWithoutDot(next);
      var parts := Split(next, DOT);
      if DOT <= text {
        assert Split(text, DOT) == [[]] + parts;
      } else {
        assert text[0] != '.' as int;
        assert Split(text, DOT) == [[text[0]] + parts[0]] + parts[1..];
      }
    }
  }

  lemma JoinThree(a: GoString, b: GoString, c: GoString)
    ensures Join([a, b, c], DOT) == a + DOT + b + DOT + c
  {
    assert [a, b, c][1..] == [b, c] && [b, c][1..] == [c];
    assert Join([b, c], DOT) == b + DOT + c;
    assert a + DOT + (b + DOT + c) == a + DOT + b + DOT + c;
  }

  lemma OpenSealed(prefix: GoString, payload: GoString, signature: seq<byte>)
    requires '.' as int !in prefix && |signature| == SIGNATURE_SIZE
    ensures Open(Seal(prefix, payload, signature), prefix) == Some((payload, signature))
  {
    hide Split, Seal, Base64.Url, Base64.DecodeUrl;
    SealSplits(prefix, payload, signature);
    Base64.UrlInverse(payload);
    Base64.UrlInverse(signature);
  }

  /** No text opens under two prefixes. */
  lemma OnePrefix(text: GoString, a: GoString, b: GoString)
    requires Open(text, a).Some? && Open(text, b).Some?
    ensures a == b
  {
    assert Split(text, DOT)[0] == a;
  }

  // ---------- codec settings ----------

  /** Durations in nanoseconds, the clock in milliseconds. */
  datatype Codec = Codec(now: int64, maxTtl: int64, clockSkew: int64, maxSize: int)

  const MINUTE: int64 := 60_000_000_000
  const DEFAULT_TTL: int64 := 15 * MINUTE
  const DEFAULT_MAX_SIZE: int := 8192

  /** `Duration.Milliseconds` truncates toward zero. */
  function Millis(ns: int64): int64 {
    if ns >= 0 then ns / 1_000_000 else 0 - (0 - ns) / 1_000_000
  }

  function Normalized(c: Codec): (r: Codec)
    ensures r.maxTtl > 0 && r.clockSkew >= 0 && r.maxSize > 0 && r.now == c.now
  {
    Codec(
      c.now,
      if c.maxTtl <= 0 then DEFAULT_TTL else c.maxTtl,
      if c.clockSkew < 0 then 0 else c.clockSkew,
      if c.maxSize <= 0 then DEFAULT_MAX_SIZE else c.maxSize)
  }

  /** The codec that the package-level verifiers use. */
  function ClockOnly(now: int64): Codec {
    Codec(now, 0, 0, 0)
  }
}
