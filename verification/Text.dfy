/** Splitting and joining on a one-unit separator, as `String.prototype.split` and `Array.prototype.join` do. */
module Text {

  predicate Free<T(==)>(s: seq<T>, sep: T) {
    sep !in s
  }

  /** Always at least one part: splitting the empty text gives one empty part. */
  function Split<T(==)>(s: seq<T>, sep: T): (parts: seq<seq<T>>)
    ensures |parts| >= 1
  {
    if s == [] then [[]]
    else
      var rest := Split(s[1..], sep);
      if s[0] == sep then [[]] + rest else [[s[0]] + rest[0]] + rest[1..]
  }

  /** The empty list joins to the empty text. */
  function Join<T>(parts: seq<seq<T>>, sep: T): seq<T> {
    if parts == [] then []
    else if |parts| == 1 then parts[0]
    else parts[0] + [sep] + Join(parts[1..], sep)
  }

  lemma {:induction false} SplitFree<T>(s: seq<T>, sep: T)
    requires Free(s, sep)
    ensures Split(s, sep) == [s]
  {
    if s != [] {
      SplitFree(s[1..], sep);
      assert [s[0]] + s[1..] == s;
      assert Split(s, sep) == [[s[0]] + s[1..]] + [];
    }
  }

  /** The part before the first separator is split off whole. */
  lemma {:induction false} SplitHead<T>(head: seq<T>, tail: seq<T>, sep: T)
    requires Free(head, sep)
    ensures Split(head + [sep] + tail, sep) == [head] + Split(tail, sep)
  {
    var s := head + [sep] + tail;
    if head == [] {
      assert s[1..] == tail;
    } else {
      assert s[1..] == head[1..] + [sep] + tail;
      SplitHead(head[1..], tail, sep);
      assert s[0] == head[0] && [head[0]] + head[1..] == head;
      assert Split(s[1..], sep)[1..] == Split(tail, sep);
    }
  }

  /** Every text is its first part alone, or its first part, a separator and the rest. */
  lemma {:induction false} SplitCases<T>(s: seq<T>, sep: T)
    ensures var parts := Split(s, sep);
      && Free(parts[0], sep)
      && |parts[0]| <= |s| && s[..|parts[0]|] == parts[0]
      && (|parts| == 1 ==> s == parts[0])
      && (|parts| > 1 ==> |parts[0]| < |s| && s[|parts[0]|] == sep && Split(s[|parts[0]| + 1..], sep) == parts[1..])
  {
    if s != [] {
      SplitCases(s[1..], sep);
      var rest := Split(s[1..], sep);
      if s[0] != sep {
        FirstPartGrows(s, rest[0]);
        assert Split(s, sep)[0] == [s[0]] + rest[0] && Split(s, sep)[1..] == rest[1..];
      } else {
        assert Split(s, sep)[0] == [] && Split(s, sep)[1..] == rest;
      }
    }
  }

  lemma FirstPartGrows<T>(s: seq<T>, first: seq<T>)
    requires s != [] && |first| < |s| && s[1..][..|first|] == first
    ensures s[..|first| + 1] == [s[0]] + first
    ensures |first| + 1 < |s| ==> s[|first| + 2..] == s[1..][|first| + 1..] && s[|first| + 1] == s[1..][|first|]
    ensures |first| + 1 == |s| ==> s == [s[0]] + first
  {}

  lemma {:induction false} JoinSplit<T>(s: seq<T>, sep: T)
    ensures Join(Split(s, sep), sep) == s
    decreases |s|
  {
    SplitCases(s, sep);
    var parts := Split(s, sep);
    if |parts| > 1 {
      var n := |parts[0]|;
      JoinSplit(s[n + 1..], sep);
      assert s == s[..n] + [s[n]] + s[n + 1..];
    }
  }

  lemma {:induction false} SplitJoin<T>(parts: seq<seq<T>>, sep: T)
    requires parts != [] && forall p :: p in parts ==> Free(p, sep)
    ensures Split(Join(parts, sep), sep) == parts
  {
    if |parts| == 1 {
      SplitFree(parts[0], sep);
    } else {
      SplitHead(parts[0], Join(parts[1..], sep), sep);
      SplitJoin(parts[1..], sep);
    }
  }

  lemma {:induction false} SplitPartsFree<T>(s: seq<T>, sep: T)
    ensures forall p :: p in Split(s, sep) ==> Free(p, sep)
    decreases |s|
  {
    SplitCases(s, sep);
    var parts := Split(s, sep);
    if |parts| > 1 {
      SplitPartsFree(s[|parts[0]| + 1..], sep);
      assert parts == [parts[0]] + parts[1..];
    }
  }

  /** Splitting a joined list of texts splits each of them. */
  lemma {:induction false} SplitAppend<T>(left: seq<T>, right: seq<T>, sep: T)
    ensures Split(left + [sep] + right, sep) == Split(left, sep) + Split(right, sep)
    decreases |left|
  {
    SplitCases(left, sep);
    var parts := Split(left, sep);
    if |parts| == 1 {
      SplitHead(left, right, sep);
    } else {
      var n := |parts[0]|;
      var rest := left[n + 1..];
      SplitAppend(rest, right, sep);
      Regrouped(left, n, right, sep);
      SplitHead(parts[0], rest + [sep] + right, sep);
      FirstAndRest(parts, Split(right, sep));
    }
  }

  lemma FirstAndRest<T>(parts: seq<T>, more: seq<T>)
    requires parts != []
    ensures [parts[0]] + (parts[1..] + more) == parts + more
  {}

  lemma Grouped<T>(a: seq<T>, b: seq<T>, c: seq<T>)
    ensures (a + b) + c == a + (b + c)
  {}

  /** What ends a line in a regular expression: the four code points that `.` does not match. */
  predicate IsLineTerminator(code: int) {
    code == 0x0A || code == 0x0D || code == 0x2028 || code == 0x2029
  }

  lemma Regrouped<T>(left: seq<T>, n: nat, right: seq<T>, sep: T)
    requires n < |left| && left[n] == sep
    ensures left + [sep] + right == left[..n] + [sep] + (left[n + 1..] + [sep] + right)
  {
    assert left == left[..n] + [sep] + left[n + 1..];
  }
}
