/**
 * Ordering by UTF-8 bytes (src/catalog/item-v02.ts), against ordering by code points, and the records
 * sorted by it (src/compiler/binding-input-v02.ts).
 */
module Utf8Order {
  import opened Permutation
  import opened Prelude

  /** UTF-8, section 3 of RFC 3629. */
  function Encode(c: char): (bytes: seq<Byte>)
    ensures 1 <= |bytes| <= 4
  {
    var n := c as int;
    if n < 0x80 then [n] else if n < 0x800 then Two(n) else if n < 0x10000 then Three(n) else Four(n)
  }

  function Two(n: int): seq<Byte>
    requires 0 <= n < 0x800
  {
    [0xC0 + n / 0x40, 0x80 + n % 0x40]
  }

  function Three(n: int): seq<Byte>
    requires 0 <= n < 0x10000
  {
    [0xE0 + n / 0x1000, 0x80 + n / 0x40 % 0x40, 0x80 + n % 0x40]
  }

  function Four(n: int): seq<Byte>
    requires 0 <= n < 0x110000
  {
    [0xF0 + n / 0x40000, 0x80 + n / 0x1000 % 0x40, 0x80 + n / 0x40 % 0x40, 0x80 + n % 0x40]
  }

  predicate IsTail(b: Byte) {
    0x80 <= b <= 0xBF
  }

  function Bits(b: Byte, mark: int): int {
    b as int - mark
  }

  /** The scalar value of a sequence of bytes, if it is one of those that section 4 of RFC 3629 admits. */
  function Decode(b: seq<Byte>): Option<int> {
    if |b| == 1 && b[0] <= 0x7F then Some(b[0])
    else if |b| == 2 && 0xC2 <= b[0] <= 0xDF && IsTail(b[1]) then Some(Bits(b[0], 0xC0) * 0x40 + Bits(b[1], 0x80))
    else if |b| == 3 && 0xE0 <= b[0] <= 0xEF && IsTail(b[1]) && IsTail(b[2]) then
      if (b[0] == 0xE0 && b[1] < 0xA0) || (b[0] == 0xED && b[1] > 0x9F) then None
      else Some(Bits(b[0], 0xE0) * 0x1000 + Bits(b[1], 0x80) * 0x40 + Bits(b[2], 0x80))
    else if |b| == 4 && 0xF0 <= b[0] <= 0xF4 && IsTail(b[1]) && IsTail(b[2]) && IsTail(b[3]) then
      if (b[0] == 0xF0 && b[1] < 0x90) || (b[0] == 0xF4 && b[1] > 0x8F) then None
      else Some(Bits(b[0], 0xF0) * 0x40000 + Bits(b[1], 0x80) * 0x1000 + Bits(b[2], 0x80) * 0x40 + Bits(b[3], 0x80))
    else None
  }

  lemma ThreeDigits(n: int)
    requires 0 <= n < 0x10000
    ensures n == n / 0x1000 * 0x1000 + n / 0x40 % 0x40 * 0x40 + n % 0x40
    ensures n < 0x10000 ==> n / 0x1000 <= 0xF
  {
    Digits(n);
  }

  lemma FourDigits(n: int)
    requires 0 <= n < 0x110000
    ensures n == n / 0x40000 * 0x40000 + n / 0x1000 % 0x40 * 0x1000 + n / 0x40 % 0x40 * 0x40 + n % 0x40
  {
    MoreDigits(n);
    Digits(n);
    Digits(n % 0x40000);
  }

  lemma DecodeTwo(n: int)
    requires 0x80 <= n < 0x800
    ensures Decode(Two(n)) == Some(n)
  {}

  lemma DecodeThree(n: int)
    requires 0x800 <= n < 0x10000 && !(0xD800 <= n < 0xE000)
    ensures Decode(Three(n)) == Some(n)
  {
    ThreeDigits(n);
  }

  lemma DecodeFour(n: int)
    requires 0x10000 <= n < 0x110000
    ensures Decode(Four(n)) == Some(n)
  {
    FourDigits(n);
  }

  /** What is encoded is admitted, and decodes to the character: no surrogate and no longer form is written. */
  lemma DecodeEncode(c: char)
    ensures Decode(Encode(c)) == Some(c as int)
  {
    var n := c as int;
    if n >= 0x10000 {
      DecodeFour(n);
    } else if n >= 0x800 {
      DecodeThree(n);
    } else if n >= 0x80 {
      DecodeTwo(n);
    }
  }

  function EncodeText(s: string): seq<Byte> {
    if s == [] then [] else Encode(s[0]) + EncodeText(s[1..])
  }

  /** -1, 0 or 1: the first difference decides, then the length. */
  function Compare<T(==)>(a: seq<T>, b: seq<T>, less: (T, T) -> bool): int {
    if a == [] then (if b == [] then 0 else -1)
    else if b == [] then 1
    else if a[0] == b[0] then Compare(a[1..], b[1..], less)
    else if less(a[0], b[0]) then -1
    else 1
  }

  function ByCodePoint(a: string, b: string): int {
    Compare(a, b, (x: char, y: char) => x < y)
  }

  function ByBytes(a: seq<Byte>, b: seq<Byte>): int {
    Compare(a, b, (x: Byte, y: Byte) => x < y)
  }

  function Sign(n: int): int {
    if n < 0 then -1 else if n > 0 then 1 else 0
  }

  /** The first place where x and y differ, x being smaller there. */
  predicate PartsBelow(x: seq<Byte>, y: seq<Byte>, k: int) {
    0 <= k < |x| && k < |y| && (forall i :: 0 <= i < k ==> x[i] == y[i]) && x[k] < y[k]
  }

  lemma Quotients(m: int, n: int, d: int)
    requires 0 <= m < n && (d == 0x40 || d == 0x1000 || d == 0x40000)
    ensures m / d < n / d || (m / d == n / d && m % d < n % d)
  {}

  lemma Divided(m: int, d: int, q: int, r: int)
    requires (d == 0x40 || d == 0x1000) && m == d * q + r && 0 <= r < d
    ensures m / d == q && m % d == r
  {}

  lemma Digits(m: int)
    requires 0 <= m
    ensures m / 0x40 % 0x40 == m % 0x1000 / 0x40 && m % 0x40 == m % 0x1000 % 0x40
  {
    var q, r := m / 0x1000, m % 0x1000;
    var a, b := r / 0x40, r % 0x40;
    assert m == 0x1000 * q + r && r == 0x40 * a + b;
    Divided(m, 0x40, 0x40 * q + a, b);
    Divided(0x40 * q + a, 0x40, q, a);
  }

  lemma MoreDigits(m: int)
    requires 0 <= m
    ensures m / 0x1000 % 0x40 == m % 0x40000 / 0x1000 && m % 0x1000 == m % 0x40000 % 0x1000
  {
    var q, r := m / 0x40000, m % 0x40000;
    var a, b := r / 0x1000, r % 0x1000;
    assert m == 0x40000 * q + r && r == 0x1000 * a + b;
    Divided(m, 0x1000, 0x40 * q + a, b);
    Divided(0x40 * q + a, 0x40, q, a);
  }

  lemma TwoPart(m: int, n: int) returns (k: int)
    requires 0 <= m < n < 0x800
    ensures PartsBelow(Two(m), Two(n), k)
  {
    Quotients(m, n, 0x40);
    k := if m / 0x40 < n / 0x40 then 0 else 1;
  }

  lemma ThreePart(m: int, n: int) returns (k: int)
    requires 0 <= m < n < 0x10000
    ensures PartsBelow(Three(m), Three(n), k)
  {
    Quotients(m, n, 0x1000);
    if m / 0x1000 < n / 0x1000 {
      k := 0;
    } else {
      Digits(m);
      Digits(n);
      Quotients(m % 0x1000, n % 0x1000, 0x40);
      k := if m % 0x1000 / 0x40 < n % 0x1000 / 0x40 then 1 else 2;
    }
  }

  lemma FourPart(m: int, n: int) returns (k: int)
    requires 0 <= m < n < 0x110000
    ensures PartsBelow(Four(m), Four(n), k)
  {
    Quotients(m, n, 0x40000);
    if m / 0x40000 < n / 0x40000 {
      k := 0;
    } else {
      MoreDigits(m);
      MoreDigits(n);
      Quotients(m % 0x40000, n % 0x40000, 0x1000);
      if m % 0x40000 / 0x1000 < n % 0x40000 / 0x1000 {
        k := 1;
      } else {
        Digits(m);
        Digits(n);
        Quotients(m % 0x1000, n % 0x1000, 0x40);
        k := if m % 0x1000 / 0x40 < n % 0x1000 / 0x40 then 2 else 3;
      }
    }
  }

  /** The smaller code point has the smaller byte where the encodings part, and they part within both. */
  lemma EncodingsPart(c: char, d: char) returns (k: int)
    requires c < d
    ensures PartsBelow(Encode(c), Encode(d), k)
  {
    var m, n := c as int, d as int;
    if n < 0x80 || |Encode(c)| != |Encode(d)| {
      k := 0;
    } else if n < 0x800 {
      k := TwoPart(m, n);
    } else if n < 0x10000 {
      k := ThreePart(m, n);
    } else {
      k := FourPart(m, n);
    }
  }

  lemma {:induction false} SharedPrefix(p: seq<Byte>, x: seq<Byte>, y: seq<Byte>)
    ensures ByBytes(p + x, p + y) == ByBytes(x, y)
  {
    if p == [] {
      assert p + x == x && p + y == y;
    } else {
      assert (p + x)[1..] == p[1..] + x && (p + y)[1..] == p[1..] + y;
      SharedPrefix(p[1..], x, y);
    }
  }

  /** The first differing byte decides. */
  lemma {:induction false} FirstDifference(x: seq<Byte>, y: seq<Byte>, k: int)
    requires PartsBelow(x, y, k)
    ensures ByBytes(x, y) == -1 && ByBytes(y, x) == 1
  {
    if k > 0 {
      FirstDifference(x[1..], y[1..], k - 1);
    }
  }

  /** Byte order of the encodings is code point order of the texts. */
  lemma {:induction false} ByteOrderIsCodePointOrder(a: string, b: string)
    ensures ByBytes(EncodeText(a), EncodeText(b)) == ByCodePoint(a, b)
  {
    if a != [] && b != [] {
      var x, y := EncodeText(a), EncodeText(b);
      if a[0] == b[0] {
        SharedPrefix(Encode(a[0]), EncodeText(a[1..]), EncodeText(b[1..]));
        ByteOrderIsCodePointOrder(a[1..], b[1..]);
      } else if a[0] < b[0] {
        var k := EncodingsPart(a[0], b[0]);
        FirstDifference(x, y, k);
      } else {
        var k := EncodingsPart(b[0], a[0]);
        FirstDifference(y, x, k);
      }
    }
  }

  /** `compareUtf8BytesV02`, lines 30 to 39. */
  method CompareUtf8Bytes(left: string, right: string) returns (r: int)
    ensures Sign(r) == ByCodePoint(left, right)
    ensures r == 0 <==> left == right
  {
    var leftBytes, rightBytes := EncodeText(left), EncodeText(right);
    ByteOrderIsCodePointOrder(left, right);
    EqualWhenZero(left, right);
    r := FirstByteDifference(leftBytes, rightBytes);
  }

  method FirstByteDifference(a: seq<Byte>, b: seq<Byte>) returns (r: int)
    ensures Sign(r) == ByBytes(a, b)
  {
    var length := if |a| < |b| then |a| else |b|;
    var index := 0;
    while index < length
      invariant 0 <= index <= length
      invariant ByBytes(a[index..], b[index..]) == ByBytes(a, b)
    {
      var difference := (a[index] as int) - (b[index] as int);
      if difference != 0 {
        return difference;
      }
      assert a[index..][1..] == a[index + 1..] && b[index..][1..] == b[index + 1..];
      index := index + 1;
    }
    r := |a| - |b|;
  }

  lemma {:induction false} EqualWhenZero(a: string, b: string)
    ensures ByCodePoint(a, b) == 0 <==> a == b
    ensures ByCodePoint(b, a) == -ByCodePoint(a, b)
  {
    if a != [] && b != [] {
      EqualWhenZero(a[1..], b[1..]);
      assert a == [a[0]] + a[1..] && b == [b[0]] + b[1..];
    }
  }

  lemma {:induction false} Transitive(a: string, b: string, c: string)
    requires ByCodePoint(a, b) < 0 && ByCodePoint(b, c) < 0
    ensures ByCodePoint(a, c) < 0
  {
    if a != [] && b != [] && c != [] && a[0] == b[0] && b[0] == c[0] {
      Transitive(a[1..], b[1..], c[1..]);
    }
  }

  // -----------------------------------------------------------------------
  // Sorted and unique
  // -----------------------------------------------------------------------

  /** Every earlier value is strictly before every later one. */
  predicate StrictlySorted(values: seq<string>) {
    forall i, j :: 0 <= i < j < |values| ==> ByCodePoint(values[i], values[j]) < 0
  }

  lemma {:induction false} NeighboursSuffice(values: seq<string>, i: nat, j: nat)
    requires i < j < |values|
    requires forall k :: 0 < k < |values| ==> ByCodePoint(values[k - 1], values[k]) < 0
    ensures ByCodePoint(values[i], values[j]) < 0
    decreases j
  {
    if i + 1 < j {
      NeighboursSuffice(values, i, j - 1);
      Transitive(values[i], values[j - 1], values[j]);
    }
  }

  /** `requireUtf8SortedUnique`, lines 117 to 123: the positions it objects to. */
  method RequireSortedUnique(values: seq<string>) returns (issues: seq<nat>)
    ensures forall k :: 0 < k < |values| ==> (k in issues <==> ByCodePoint(values[k - 1], values[k]) >= 0)
    ensures forall k :: k in issues ==> 0 < k < |values|
    ensures issues == [] <==> StrictlySorted(values)
  {
    issues := [];
    var index := 1;
    while index < |values|
      invariant 1 <= index && (index <= |values| || issues == [])
      invariant forall k :: 0 < k < index && k < |values| ==>
                  (k in issues <==> ByCodePoint(values[k - 1], values[k]) >= 0)
      invariant forall k :: k in issues ==> 0 < k < index && k < |values|
    {
      var order := CompareUtf8Bytes(values[index - 1], values[index]);
      if order >= 0 {
        issues := issues + [index];
      }
      index := index + 1;
    }
    if issues == [] {
      forall i, j | 0 <= i < j < |values|
        ensures ByCodePoint(values[i], values[j]) < 0
      {
        forall k | 0 < k < |values|
          ensures ByCodePoint(values[k - 1], values[k]) < 0
        {
          assert k !in issues;
        }
        NeighboursSuffice(values, i, j);
      }
    } else {
      var k := issues[0];
      assert k in issues && ByCodePoint(values[k - 1], values[k]) >= 0;
    }
  }

  // -----------------------------------------------------------------------
  // The binding record
  // -----------------------------------------------------------------------

  datatype Binding<T> = Binding(key: string, rest: T)

  function Keys<T>(bindings: seq<Binding<T>>): (keys: seq<string>)
    ensures |keys| == |bindings| && forall i :: 0 <= i < |keys| ==> keys[i] == bindings[i].key
  {
    if bindings == [] then [] else [bindings[0].key] + Keys(bindings[1..])
  }

  function KeyOf<T>(b: Binding<T>): string { b.key }

  predicate UniqueKeys<T>(bindings: seq<Binding<T>>) {
    DistinctBy(bindings, KeyOf)
  }

  /** What sorting with the comparison yields: the same entries, none before a smaller one. */
  ghost predicate IsSortOf<T>(sorted: seq<Binding<T>>, bindings: seq<Binding<T>>) {
    && multiset(sorted) == multiset(bindings)
    && forall k :: 0 < k < |sorted| ==> ByCodePoint(sorted[k - 1].key, sorted[k].key) <= 0
  }

  /** The sorted payload passes the record's check just when its keys are unique. */
  lemma SortedPayloadPasses<T>(sorted: seq<Binding<T>>, bindings: seq<Binding<T>>)
    requires IsSortOf(sorted, bindings)
    ensures StrictlySorted(Keys(sorted)) <==> UniqueKeys(bindings)
  {
    var keys := Keys(sorted);
    if UniqueKeys(bindings) {
      DistinctReordered(bindings, sorted, KeyOf);
      forall k | 0 < k < |keys|
        ensures ByCodePoint(keys[k - 1], keys[k]) < 0
      {
        assert KeyOf(sorted[k - 1]) != KeyOf(sorted[k]);
        EqualWhenZero(keys[k - 1], keys[k]);
      }
      forall i, j | 0 <= i < j < |keys|
        ensures ByCodePoint(keys[i], keys[j]) < 0
      {
        NeighboursSuffice(keys, i, j);
      }
    }
    if StrictlySorted(keys) {
      forall i, j | 0 <= i < j < |sorted|
        ensures KeyOf(sorted[i]) != KeyOf(sorted[j])
      {
        assert ByCodePoint(keys[i], keys[j]) < 0;
        EqualWhenZero(keys[i], keys[j]);
      }
      DistinctReordered(sorted, bindings, KeyOf);
    }
  }

  /** One record: strictly sorted lists with the same entries are the same list. */
  lemma {:induction false} OneSortedRecord<T>(s: seq<Binding<T>>, t: seq<Binding<T>>)
    requires multiset(s) == multiset(t) && StrictlySorted(Keys(s)) && StrictlySorted(Keys(t))
    ensures s == t
  {
    SameMembers(s, t);
    if s != [] {
      SameFirst(s, t);
      assert s == [s[0]] + s[1..] && t == [t[0]] + t[1..];
      assert multiset(s[1..]) == multiset(s) - multiset{s[0]} && multiset(t[1..]) == multiset(t) - multiset{s[0]};
      TailsStaySorted(s);
      TailsStaySorted(t);
      OneSortedRecord(s[1..], t[1..]);
    }
  }

  lemma SameFirst<T>(s: seq<Binding<T>>, t: seq<Binding<T>>)
    requires s != [] && t != [] && t[0] in s && s[0] in t
    requires StrictlySorted(Keys(s)) && StrictlySorted(Keys(t))
    ensures s[0] == t[0]
  {
    FirstIsLeast(s, t[0]);
    FirstIsLeast(t, s[0]);
    EqualWhenZero(s[0].key, t[0].key);
  }

  lemma FirstIsLeast<T>(s: seq<Binding<T>>, x: Binding<T>)
    requires s != [] && x in s && StrictlySorted(Keys(s))
    ensures x == s[0] || ByCodePoint(s[0].key, x.key) < 0
  {
    var m :| 0 <= m < |s| && s[m] == x;
    assert m > 0 ==> ByCodePoint(Keys(s)[0], Keys(s)[m]) < 0;
  }

  lemma TailsStaySorted<T>(s: seq<Binding<T>>)
    requires s != [] && StrictlySorted(Keys(s))
    ensures StrictlySorted(Keys(s[1..]))
  {
    var keys, rest := Keys(s), Keys(s[1..]);
    forall i, j | 0 <= i < j < |rest|
      ensures ByCodePoint(rest[i], rest[j]) < 0
    {
      assert ByCodePoint(keys[i + 1], keys[j + 1]) < 0;
    }
  }

  /** The record does not depend on the order in which the payload lists its bindings. */
  lemma PayloadOrderDoesNotMatter<T>(a: seq<Binding<T>>, b: seq<Binding<T>>, s: seq<Binding<T>>, t: seq<Binding<T>>)
    requires multiset(a) == multiset(b) && UniqueKeys(a) && IsSortOf(s, a) && IsSortOf(t, b)
    ensures s == t
  {
    DistinctReordered(a, b, KeyOf);
    SortedPayloadPasses(s, a);
    SortedPayloadPasses(t, b);
    OneSortedRecord(s, t);
  }
}
