/** Bytes, Go strings and the results that the helpers return. */
module Basics {

  type byte = x: int | 0 <= x < 0x100

  /** A Go string or byte slice: any bytes, not necessarily valid UTF-8. */
  type GoString = seq<byte>

  type int64 = x: int | -0x8000_0000_0000_0000 <= x < 0x8000_0000_0000_0000

  type int32 = x: int | -0x8000_0000 <= x < 0x8000_0000

  /** Two's-complement wrap-around of 64-bit arithmetic. */
  function Wrap64(x: int): int64 {
    (x + 0x8000_0000_0000_0000) % 0x1_0000_0000_0000_0000 - 0x8000_0000_0000_0000
  }

  datatype Option<+T> = None | Some(value: T)

  /** Why a helper refused its input. */
  datatype Error =
    | EmptyInput
    | InvalidString
    | InvalidUtf8
    | InvalidJson
    | DuplicateKey
    | TrailingData
    | InvalidNumber
    | InexactInteger
    | NumberRange
    | CyclicValue
    | DanglingAddress
    | InvalidDigest
    | InvalidContext
    | InvalidCallPath
    | CycleDetected
    | GrantKey
    | InvalidGrant
    | GrantTooLarge
    | GrantNotYetValid
    | GrantExpired
    | GrantBinding
    | DelegationBinding
    | InvalidControlGrant
    | ControlGrantExpired
    | ControlGrantRefresh
    | InvalidTransition
    | TerminalImmutable
    | TombstoneConflict
    | InvalidMetadata

  datatype Result<+T> = Ok(value: T) | Err(error: Error) {
    predicate IsFailure() {
      Err?
    }

    function PropagateFailure<U>(): Result<U>
      requires Err?
    {
      Err(error)
    }

    function Extract(): T
      requires Ok?
    {
      value
    }
  }

  predicate IsAscii(s: GoString) {
    forall i :: 0 <= i < |s| ==> s[i] < 0x80
  }

  /** The bytes of an ASCII literal. */
  function Ascii(s: string): (r: GoString)
    requires forall i :: 0 <= i < |s| ==> (s[i] as int) < 0x80
    ensures |r| == |s|
    ensures forall i :: 0 <= i < |s| ==> r[i] == s[i] as int
    ensures IsAscii(r)
  {
    seq(|s|, i requires 0 <= i < |s| => s[i] as int)
  }

  /** `out` written in front of a result that is already known to succeed. */
  function Prepend(out: GoString, r: Result<GoString>): Result<GoString> {
    if r.Ok? then Ok(out + r.value) else r
  }

  /** `strings.Split`: the parts of `s` between occurrences of `sep`. */
  function Split(s: GoString, sep: GoString): (parts: seq<GoString>)
    requires sep != []
    ensures parts != []
    decreases |s|
  {
    if s == [] then [[]]
    else if sep <= s then [[]] + Split(s[|sep|..], sep)
    else
      var rest := Split(s[1..], sep);
      [[s[0]] + rest[0]] + rest[1..]
  }

  /** `strings.Join`. */
  function Join(parts: seq<GoString>, sep: GoString): GoString {
    if parts == [] then []
    else if |parts| == 1 then parts[0]
    else parts[0] + sep + Join(parts[1..], sep)
  }

  lemma JoinPush(b: byte, parts: seq<GoString>, sep: GoString)
    requires parts != []
    ensures Join([[b] + parts[0]] + parts[1..], sep) == [b] + Join(parts, sep)
  {
    var pushed := [[b] + parts[0]] + parts[1..];
    assert pushed[1..] == parts[1..];
    if |parts| > 1 {
      var tail := Join(parts[1..], sep);
      assert [b] + parts[0] + sep + tail == [b] + (parts[0] + sep + tail);
    }
  }

  lemma {:induction false} JoinSplit(s: GoString, sep: GoString)
    requires sep != []
    ensures Join(Split(s, sep), sep) == s
    decreases |s|
  {
    if s != [] {
      if sep <= s {
        var rest := Split(s[|sep|..], sep);
        JoinSplit(s[|sep|..], sep);
        assert Split(s, sep) == [[]] + rest;
        hide Split;
        assert ([[]] + rest)[1..] == rest;
        assert Join([[]] + rest, sep) == [] + sep + Join(rest, sep);
      } else {
        JoinSplit(s[1..], sep);
        JoinPush(s[0], Split(s[1..], sep), sep);
        hide Join;
      }
    }
  }

  lemma SplitAtSeparator(sep: GoString, rest: GoString)
    requires sep != []
    ensures Split(sep + rest, sep) == [[]] + Split(rest, sep)
  {
    assert sep <= sep + rest && (sep + rest)[|sep|..] == rest;
  }

  lemma SplitAfterByte(b: byte, rest: GoString, sep: GoString)
    requires sep != [] && sep[0] != b
    ensures var after := Split(rest, sep); Split([b] + rest, sep) == [[b] + after[0]] + after[1..]
  {
    var s := [b] + rest;
    assert s[0] == b && s[1..] == rest;
  }

  lemma SplitNothing(sep: GoString)
    requires sep != []
    ensures Split([], sep) == [[]]
  {
  }

  /** A part without the separator's first byte comes off whole. */
  lemma {:induction false} SplitPart(part: GoString, sep: GoString, rest: GoString)
    requires sep != [] && sep[0] !in part
    requires rest == [] || sep <= rest
    ensures Split(part + rest, sep) == if rest == [] then [part] else [part] + Split(rest[|sep|..], sep)
    decreases |part|
  {
    hide Split;
    if part == [] {
      assert part + rest == rest;
      SplitNothing(sep);
      if rest != [] {
        SplitAtSeparator(sep, rest[|sep|..]);
        assert sep + rest[|sep|..] == rest;
      }
    } else {
      SplitPart(part[1..], sep, rest);
      assert part[0] in part;
      SplitAfterByte(part[0], part[1..] + rest, sep);
      assert part + rest == [part[0]] + (part[1..] + rest);
      assert part == [part[0]] + part[1..];
    }
  }

  /** Splitting takes apart what joining put together. */
  lemma {:induction false} SplitJoin(parts: seq<GoString>, sep: GoString)
    requires sep != [] && parts != []
    requires forall i :: 0 <= i < |parts| ==> sep[0] !in parts[i]
    ensures Split(Join(parts, sep), sep) == parts
    decreases |parts|
  {
    if |parts| == 1 {
      SplitPart(parts[0], sep, []);
      assert parts[0] + [] == parts[0];
      assert parts == [parts[0]];
    } else {
      SplitJoin(parts[1..], sep);
      var tail := Join(parts[1..], sep);
      SplitPart(parts[0], sep, sep + tail);
      assert parts[0] + sep + tail == parts[0] + (sep + tail);
      assert (sep + tail)[|sep|..] == tail;
      assert parts == [parts[0]] + parts[1..];
    }
  }

  lemma {:induction false} SubsetSize(a: set<GoString>, b: set<GoString>)
    requires a <= b
    ensures |a| <= |b|
    decreases |a|
  {
    if x :| x in a {
      SubsetSize(a - {x}, b - {x});
    }
  }
}
