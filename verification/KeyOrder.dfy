/**
 The member order of section 3.2.3 of RFC 8785: object keys compared as
 arrays of UTF-16 code units.
 */
module KeyOrder {
  import opened Basics
  import Utf8

  /** Three-way comparison of code-unit arrays: first difference, then length. */
  function CompareUnits(a: seq<int>, b: seq<int>): int {
    if a == [] then (if b == [] then 0 else -1)
    else if b == [] then 1
    else if a[0] < b[0] then -1
    else if a[0] > b[0] then 1
    else CompareUnits(a[1..], b[1..])
  }

  function KeyUnits(key: GoString): seq<int> {
    Utf8.Utf16(Utf8.Runes(key))
  }

  predicate Less(a: GoString, b: GoString) {
    CompareUnits(KeyUnits(a), KeyUnits(b)) < 0
  }

  /** `a` and `b` agree before `k`, where `a` ends or holds the smaller unit. */
  ghost predicate SplitsAt(a: seq<int>, b: seq<int>, k: nat) {
    && k <= |a| && k < |b|
    && a[..k] == b[..k]
    && (k == |a| || a[k] < b[k])
  }

  lemma SplitHead(a: seq<int>, b: seq<int>, k: nat)
    requires SplitsAt(a, b, k) && k > 0
    ensures a[0] == b[0]
  {
    assert a[..k][0] == b[..k][0];
  }

  /** What a negative comparison means: there is a first unit at which `a` is smaller. */
  lemma {:induction false} CompareMeaning(a: seq<int>, b: seq<int>)
    ensures CompareUnits(a, b) < 0 <==> exists k: nat :: SplitsAt(a, b, k)
    ensures CompareUnits(a, b) == 0 <==> a == b
    ensures CompareUnits(b, a) == -CompareUnits(a, b)
  {
    if a == [] || b == [] || a[0] != b[0] {
      if CompareUnits(a, b) < 0 {
        assert SplitsAt(a, b, 0);
      }
      forall k: nat
        ensures SplitsAt(a, b, k) ==> k == 0
      {
        if SplitsAt(a, b, k) && k > 0 {
          SplitHead(a, b, k);
        }
      }
    } else {
      CompareMeaning(a[1..], b[1..]);
      assert a == [a[0]] + a[1..] && b == [b[0]] + b[1..];
      if CompareUnits(a, b) < 0 {
        var k: nat :| SplitsAt(a[1..], b[1..], k);
        assert a[..k + 1] == [a[0]] + a[1..][..k] && b[..k + 1] == [b[0]] + b[1..][..k];
        assert SplitsAt(a, b, k + 1);
      }
      if k: nat :| SplitsAt(a, b, k) {
        assert k > 0;
        assert a[1..][..k - 1] == a[..k][1..] && b[1..][..k - 1] == b[..k][1..];
        assert SplitsAt(a[1..], b[1..], k - 1);
      }
    }
  }

  lemma {:induction false} CompareTransitive(a: seq<int>, b: seq<int>, c: seq<int>)
    requires CompareUnits(a, b) < 0 && CompareUnits(b, c) < 0
    ensures CompareUnits(a, c) < 0
  {
    if a != [] && b != [] && c != [] && a[0] == b[0] == c[0] {
      CompareTransitive(a[1..], b[1..], c[1..]);
    }
  }

  /** On valid strings `Less` is a strict total order. */
  lemma KeyOrderTotal(a: GoString, b: GoString, c: GoString)
    requires Utf8.Valid(a) && Utf8.Valid(b)
    ensures CompareUnits(KeyUnits(a), KeyUnits(b)) == 0 <==> a == b
    ensures a == b || Less(a, b) || Less(b, a)
    ensures !(Less(a, b) && Less(b, a))
    ensures Less(a, b) && Less(b, c) ==> Less(a, c)
  {
    CompareMeaning(KeyUnits(a), KeyUnits(b));
    if KeyUnits(a) == KeyUnits(b) {
      Utf8.Utf16Injective(Utf8.Runes(a), Utf8.Runes(b));
      Utf8.EncodeRunes(a);
      Utf8.EncodeRunes(b);
    }
    if Less(a, b) && Less(b, c) {
      CompareTransitive(KeyUnits(a), KeyUnits(b), KeyUnits(c));
    }
  }

  /** The order is not the code point order: U+1F600 sorts before U+FB33. */
  lemma NotCodePointOrder()
    ensures Less(Utf8.EncodeRune(0x1F600), Utf8.EncodeRune(0xFB33))
  {
    Utf8.RunesEncoded([0x1F600]);
    Utf8.RunesEncoded([0xFB33]);
    assert Utf8.Encode([0x1F600]) == Utf8.EncodeRune(0x1F600) + Utf8.Encode([]) == Utf8.EncodeRune(0x1F600);
    assert Utf8.Encode([0xFB33]) == Utf8.EncodeRune(0xFB33) + Utf8.Encode([]) == Utf8.EncodeRune(0xFB33);
    assert Utf8.Utf16([0x1F600])[0] == 0xD83D;
    assert Utf8.Utf16([0xFB33])[0] == 0xFB33;
  }

  method CompareUTF16(a: GoString, b: GoString) returns (order: int)
    ensures order == CompareUnits(KeyUnits(a), KeyUnits(b))
  {
    var aa, bb := KeyUnits(a), KeyUnits(b);
    var i := 0;
    while i < |aa| && i < |bb|
      invariant 0 <= i <= |aa| && i <= |bb|
      invariant CompareUnits(aa, bb) == CompareUnits(aa[i..], bb[i..])
    {
      if aa[i] < bb[i] {
        return -1;
      }
      if aa[i] > bb[i] {
        return 1;
      }
      assert aa[i..][1..] == aa[i + 1..] && bb[i..][1..] == bb[i + 1..];
      i := i + 1;
    }
    if |aa| < |bb| {
      return -1;
    } else if |aa| > |bb| {
      return 1;
    } else {
      return 0;
    }
  }

  predicate AllValid(keys: set<GoString>) {
    forall k :: k in keys ==> Utf8.Valid(k)
  }

  ghost predicate Ascending(keys: seq<GoString>) {
    forall i, j :: 0 <= i < j < |keys| ==> Less(keys[i], keys[j])
  }

  function Elements(keys: seq<GoString>): set<GoString> {
    set k | k in keys
  }

  predicate IsLeast(k: GoString, keys: set<GoString>) {
    k in keys && forall j :: j in keys && j != k ==> Less(k, j)
  }

  lemma {:induction false} LeastExists(keys: set<GoString>) returns (least: GoString)
    requires keys != {} && AllValid(keys)
    ensures IsLeast(least, keys)
    decreases |keys|
  {
    var k :| k in keys;
    least := k;
    var rest := keys - {k};
    if rest == {} {
      assert keys == {k};
    } else {
      var other := LeastExists(rest);
      KeyOrderTotal(k, other, other);
      if Less(k, other) {
        forall j | j in keys && j != k
          ensures Less(k, j)
        {
          KeyOrderTotal(k, other, j);
        }
      } else {
        least := other;
      }
    }
  }

  lemma LeastUnique(keys: set<GoString>)
    requires AllValid(keys)
    ensures forall a, b :: IsLeast(a, keys) && IsLeast(b, keys) ==> a == b
  {
    forall a, b | IsLeast(a, keys) && IsLeast(b, keys)
      ensures a == b
    {
      KeyOrderTotal(a, b, b);
    }
  }

  /** The keys of an object in canonical order. */
  function SortedKeys(keys: set<GoString>): (sorted: seq<GoString>)
    requires AllValid(keys)
    ensures Elements(sorted) == keys
    ensures Ascending(sorted)
    decreases |keys|
  {
    if keys == {} then []
    else
      assert exists k :: IsLeast(k, keys) by {
        var k := LeastExists(keys);
      }
      assert forall a, b :: a in keys && b in keys && IsLeast(a, keys) && IsLeast(b, keys) ==> a == b by {
        LeastUnique(keys);
      }
      var k :| k in keys && IsLeast(k, keys);
      assert keys == (keys - {k}) + {k};
      var tail := SortedKeys(keys - {k});
      assert Ascending([k] + tail) && Elements([k] + tail) == keys by {
        ConsAscending(k, tail);
      }
      [k] + tail
  }

  lemma ConsAscending(k: GoString, tail: seq<GoString>)
    requires Ascending(tail) && IsLeast(k, Elements(tail) + {k}) && k !in Elements(tail)
    ensures Ascending([k] + tail)
    ensures Elements([k] + tail) == Elements(tail) + {k}
  {
    forall i | 0 <= i < |tail|
      ensures Less(k, tail[i])
    {
      assert tail[i] in Elements(tail);
    }
  }

  lemma AscendingTail(keys: seq<GoString>)
    requires keys != [] && Ascending(keys)
    ensures Ascending(keys[1..])
    ensures keys[0] !in keys[1..]
    ensures Elements(keys) == {keys[0]} + Elements(keys[1..])
  {
    forall i | 1 <= i < |keys|
      ensures keys[i] != keys[0]
    {
      assert Less(keys[0], keys[i]);
      CompareMeaning(KeyUnits(keys[0]), KeyUnits(keys[i]));
    }
    assert keys == [keys[0]] + keys[1..];
  }

  lemma NoElements(keys: seq<GoString>)
    ensures Elements(keys) == {} <==> keys == []
  {
    if keys != [] {
      assert keys[0] in Elements(keys);
    }
  }

  /** A set of keys has one ascending enumeration. */
  lemma {:induction false} AscendingUnique(xs: seq<GoString>, ys: seq<GoString>)
    requires Ascending(xs) && Ascending(ys)
    requires Elements(xs) == Elements(ys)
    ensures xs == ys
  {
    NoElements(xs);
    NoElements(ys);
    if xs != [] && ys != [] {
      var x, y := xs[0], ys[0];
      AscendingTail(xs);
      AscendingTail(ys);
      assert x in Elements(ys) && y in Elements(xs);
      if x != y {
        assert Less(x, y) && Less(y, x);
        CompareMeaning(KeyUnits(x), KeyUnits(y));
      }
      assert Elements(xs[1..]) == Elements(xs) - {x};
      assert Elements(ys[1..]) == Elements(ys) - {x};
      AscendingUnique(xs[1..], ys[1..]);
      assert xs == [x] + xs[1..] && ys == [y] + ys[1..];
    }
  }

  /** Valid keys have exactly one ascending enumeration. */
  lemma OneAscending(keys: set<GoString>)
    requires AllValid(keys)
    ensures exists xs: seq<GoString> :: Ascending(xs) && Elements(xs) == keys
    ensures forall xs: seq<GoString> :: Ascending(xs) && Elements(xs) == keys ==> xs == SortedKeys(keys)
  {
    hide SortedKeys, Ascending, Elements;
    assert Ascending(SortedKeys(keys)) && Elements(SortedKeys(keys)) == keys;
    forall xs: seq<GoString> | Ascending(xs) && Elements(xs) == keys
      ensures xs == SortedKeys(keys)
    {
      AscendingUnique(xs, SortedKeys(keys));
    }
  }

  ghost predicate Distinct(keys: seq<GoString>) {
    forall i, j :: 0 <= i < j < |keys| ==> keys[i] != keys[j]
  }

  /**
   Sorting with `compareUTF16` as the ordering: every enumeration of the same
   keys comes out in the same order.
   */
  method SortKeys(keys: seq<GoString>) returns (sorted: seq<GoString>)
    requires AllValid(Elements(keys)) && Distinct(keys)
    ensures sorted == SortedKeys(Elements(keys))
  {
    sorted := [];
    for i := 0 to |keys|
      invariant Ascending(sorted)
      invariant Elements(sorted) == Elements(keys[..i])
    {
      var key := keys[i];
      assert keys[..i + 1] == keys[..i] + [key];
      assert key in Elements(keys) && key !in keys[..i];
      assert key !in Elements(sorted);
      forall k | k in sorted
        ensures k in Elements(keys)
      {
        assert k in Elements(sorted);
      }
      var j := |sorted|;
      while j > 0
        invariant 0 <= j <= |sorted|
        invariant forall m :: j <= m < |sorted| ==> Less(key, sorted[m])
      {
        var order := CompareUTF16(key, sorted[j - 1]);
        if order >= 0 {
          break;
        }
        j := j - 1;
      }
      sorted := InsertAt(sorted, j, key);
    }
    assert keys[..|keys|] == keys;
    AscendingUnique(sorted, SortedKeys(Elements(keys)));
  }

  function InsertAt(sorted: seq<GoString>, j: nat, key: GoString): (r: seq<GoString>)
    requires j <= |sorted| && Ascending(sorted) && Utf8.Valid(key)
    requires AllValid(Elements(sorted))
    requires key !in sorted
    requires j > 0 ==> !Less(key, sorted[j - 1])
    requires forall m :: j <= m < |sorted| ==> Less(key, sorted[m])
    ensures Ascending(r)
    ensures Elements(r) == Elements(sorted) + {key}
  {
    hide Less, Utf8.Valid, Ascending;
    InsertAscends(sorted, j, key);
    sorted[..j] + [key] + sorted[j..]
  }

  lemma InsertAscends(sorted: seq<GoString>, j: nat, key: GoString)
    requires j <= |sorted| && Ascending(sorted) && Utf8.Valid(key)
    requires AllValid(Elements(sorted))
    requires key !in sorted
    requires j > 0 ==> !Less(key, sorted[j - 1])
    requires forall m :: j <= m < |sorted| ==> Less(key, sorted[m])
    ensures Ascending(sorted[..j] + [key] + sorted[j..])
  {
    hide Less, KeyUnits, CompareUnits;
    forall m | 0 <= m < j
      ensures Less(sorted[m], key)
    {
      assert sorted[m] in Elements(sorted) && sorted[j - 1] in Elements(sorted);
      KeyOrderTotal(sorted[j - 1], key, key);
      KeyOrderTotal(sorted[m], sorted[j - 1], key);
    }
  }
}
