/**
 * The handful of Python `str` operations the handlers and scripts rely on: `sep.join`, `str.split`,
 * `startswith`/`endswith`, slicing with Python's clamping rules and `str(int)`.
 */
module Strings {

  predicate StartsWith(s: string, prefix: string) {
    |prefix| <= |s| && s[..|prefix|] == prefix
  }

  predicate EndsWith(s: string, suffix: string) {
    |suffix| <= |s| && s[|s| - |suffix|..] == suffix
  }

  /** A string ends with what was appended last, and ends with every suffix of that. */
  lemma EndsWithAppended(a: string, b: string, t: string)
    requires EndsWith(b, t)
    ensures EndsWith(a + b, b) && EndsWith(a + b, t)
  {
    var s := a + b;
    assert s[|s| - |b|..] == b;
    assert s[|s| - |t|..] == b[|b| - |t|..];
  }

  /** `sep.join(parts)` */
  function Join(sep: string, parts: seq<string>): string
    decreases |parts|
  {
    if |parts| == 0 then ""
    else if |parts| == 1 then parts[0]
    else parts[0] + sep + Join(sep, parts[1..])
  }

  /** Joining with a non-empty separator is empty exactly for `[]` and `[""]`. */
  lemma {:induction false} JoinEmptyIff(sep: string, parts: seq<string>)
    requires sep != ""
    ensures Join(sep, parts) == "" <==> (|parts| == 0 || (|parts| == 1 && parts[0] == ""))
  {
    if |parts| > 1 {
      assert |Join(sep, parts)| >= |sep|;
    }
  }

  /** Total length of the parts. */
  function TotalLength(parts: seq<string>): nat
    decreases |parts|
  {
    if parts == [] then 0 else |parts[0]| + TotalLength(parts[1..])
  }

  /** A join is as long as its parts plus one separator between each two of them. */
  lemma {:induction false} JoinLength(sep: string, parts: seq<string>)
    requires |parts| >= 1
    ensures |Join(sep, parts)| == TotalLength(parts) + |sep| * (|parts| - 1)
    decreases |parts|
  {
    if |parts| > 1 {
      JoinLength(sep, parts[1..]);
      assert |sep| * (|parts| - 1) == |sep| * (|parts| - 2) + |sep|;
    } else {
      assert parts[1..] == [];
    }
  }

  /** Appending a part at the end of a join. */
  lemma {:induction false} JoinSnoc(sep: string, parts: seq<string>, last: string)
    requires |parts| >= 1
    ensures Join(sep, parts + [last]) == Join(sep, parts) + sep + last
    decreases |parts|
  {
    if |parts| == 1 {
      assert (parts + [last])[1..] == [last];
    } else {
      assert (parts + [last])[1..] == parts[1..] + [last];
      JoinSnoc(sep, parts[1..], last);
    }
  }

  /** `s.split(c)`: at least one segment, and no segment contains the separator. */
  function Split(s: string, c: char): (r: seq<string>)
    ensures |r| >= 1
    ensures forall k :: 0 <= k < |r| ==> c !in r[k]
    decreases |s|
  {
    if s == [] then [""]
    else
      var rest := Split(s[1..], c);
      if s[0] == c then [""] + rest
      else [[s[0]] + rest[0]] + rest[1..]
  }

  /** Joining the segments with the separator gives the string back. */
  lemma {:induction false} SplitJoin(s: string, c: char)
    ensures Join([c], Split(s, c)) == s
    decreases |s|
  {
    if s != [] {
      var rest := Split(s[1..], c);
      SplitJoin(s[1..], c);
      if s[0] == c {
        assert Split(s, c) == [""] + rest;
        assert ([""] + rest)[1..] == rest;
      } else {
        var r := Split(s, c);
        assert r == [[s[0]] + rest[0]] + rest[1..];
        if |rest| == 1 {
          assert Join([c], r) == [s[0]] + rest[0];
        } else {
          assert r[1..] == rest[1..];
          assert Join([c], r) == [s[0]] + rest[0] + [c] + Join([c], rest[1..]);
        }
      }
    }
  }

  /** A string without the separator splits into itself. */
  lemma {:induction false} SplitWithoutSeparator(s: string, c: char)
    requires c !in s
    ensures Split(s, c) == [s]
    decreases |s|
  {
    if s != [] {
      assert s[0] != c && c !in s[1..];
      SplitWithoutSeparator(s[1..], c);
      assert s == [s[0]] + s[1..];
    }
  }

  /** A separator after a segment without it starts a new segment. */
  lemma {:induction false} SplitAfterSegment(a: string, c: char, t: string)
    requires c !in a
    ensures Split(a + [c] + t, c) == [a] + Split(t, c)
    decreases |a|
  {
    if a == [] {
      assert a + [c] + t == [c] + t;
      assert ([c] + t)[1..] == t;
    } else {
      assert (a + [c] + t)[1..] == a[1..] + [c] + t;
      SplitAfterSegment(a[1..], c, t);
      assert [a[0]] + a[1..] == a;
    }
  }

  /** Splitting a join by its one-character separator gives the parts back, if none contains it. */
  lemma {:induction false} JoinSplit(parts: seq<string>, c: char)
    requires |parts| >= 1
    requires forall k :: 0 <= k < |parts| ==> c !in parts[k]
    ensures Split(Join([c], parts), c) == parts
    decreases |parts|
  {
    if |parts| == 1 {
      SplitWithoutSeparator(parts[0], c);
    } else {
      JoinSplit(parts[1..], c);
      SplitAfterSegment(parts[0], c, Join([c], parts[1..]));
      assert parts == [parts[0]] + parts[1..];
    }
  }

  /** `s.split(c)[-1]` */
  function LastSegment(s: string, c: char): string {
    var parts := Split(s, c);
    parts[|parts| - 1]
  }

  /** The last segment is a suffix without `c`, preceded by `c` when it is not the whole string. */
  lemma {:induction false} LastSegmentAfterSeparator(s: string, c: char)
    ensures c !in LastSegment(s, c) && EndsWith(s, LastSegment(s, c))
    ensures |LastSegment(s, c)| < |s| ==> s[|s| - |LastSegment(s, c)| - 1] == c
    decreases |s|
  {
    if s != [] {
      var t := s[1..];
      var rest := Split(t, c);
      var r, r' := LastSegment(s, c), LastSegment(t, c);
      LastSegmentAfterSeparator(t, c);
      assert r' == t[|t| - |r'|..];
      assert s[|s| - |r'|..] == r' by {
        assert s[|s| - |r'|..] == t[|t| - |r'|..];
      }
      if s[0] == c {
        assert Split(s, c) == [""] + rest;
        assert r == r';
        if |r'| < |t| {
          assert s[|s| - |r'| - 1] == t[|t| - |r'| - 1];
        }
      } else if |rest| == 1 {
        SplitJoin(t, c);
        assert Split(s, c) == [[s[0]] + rest[0]];
        assert r == [s[0]] + t;
        assert s == [s[0]] + t;
      } else {
        assert Split(s, c)[1..] == rest[1..];
        assert r == r';
        if |r'| == |t| {
          assert r' == t;
          SplitWithoutSeparator(t, c);
          assert false;
        }
        assert s[|s| - |r'| - 1] == t[|t| - |r'| - 1];
      }
    }
  }

  /**
   * `s.split(c)[-1]` is the longest suffix of `s` without `c`: it is the whole string when `c`
   * does not occur, and otherwise it follows the last occurrence of `c`.
   */
  lemma LastSegmentIsSuffix(s: string, c: char)
    ensures c !in LastSegment(s, c) && EndsWith(s, LastSegment(s, c))
    ensures |LastSegment(s, c)| < |s| ==> s[|s| - |LastSegment(s, c)| - 1] == c
    ensures LastSegment(s, c) == s <==> c !in s
  {
    LastSegmentAfterSeparator(s, c);
    if c !in s {
      SplitWithoutSeparator(s, c);
    }
  }

  /** Python's normalisation of a slice bound against a length. */
  function ClampIndex(i: int, n: nat): (k: nat)
    ensures k <= n
  {
    if i < 0 then (if n + i < 0 then 0 else n + i)
    else if i > n then n
    else i
  }

  /** `s[i:j]` with Python's rules for negative and out-of-range bounds. */
  function PySlice<T>(s: seq<T>, i: int, j: int): seq<T> {
    var a := ClampIndex(i, |s|);
    var b := ClampIndex(j, |s|);
    if a < b then s[a..b] else []
  }

  /** A slice starting inside the sequence stops at `j` or at the end, whichever comes first. */
  lemma PySliceFrom<T>(s: seq<T>, i: int, j: int)
    requires 0 <= i <= j
    requires i <= |s|
    ensures PySlice(s, i, j) == s[i..if j < |s| then j else |s|]
  {
  }

  function DigitChar(d: nat): char
    requires d < 10
  {
    ('0' as int + d) as char
  }

  predicate IsDigit(ch: char) {
    '0' <= ch <= '9'
  }

  /** `str(n)` for a natural number: decimal digits, no leading zero. */
  function NatToDecimal(n: nat): (r: string)
    ensures |r| >= 1
    ensures forall k :: 0 <= k < |r| ==> IsDigit(r[k])
    ensures r[0] == '0' ==> n == 0
    decreases n
  {
    if n < 10 then [DigitChar(n)] else NatToDecimal(n / 10) + [DigitChar(n % 10)]
  }

  /** The value of a string of decimal digits, the inverse of `NatToDecimal`. */
  function DecimalValue(s: string): nat
    requires forall k :: 0 <= k < |s| ==> IsDigit(s[k])
  {
    if s == [] then 0
    else
      assert IsDigit(s[|s| - 1]);
      DecimalValue(s[..|s| - 1]) * 10 + (s[|s| - 1] as int - '0' as int)
  }

  lemma {:induction false} DecimalRoundTrip(n: nat)
    ensures DecimalValue(NatToDecimal(n)) == n
    decreases n
  {
    if n >= 10 {
      var r := NatToDecimal(n);
      assert r[..|r| - 1] == NatToDecimal(n / 10);
      DecimalRoundTrip(n / 10);
    }
  }

  /** An optional minus sign followed by at least one decimal digit. */
  predicate IntLiteral(s: string) {
    && |s| >= 1
    && (s[0] == '-' ==> |s| >= 2)
    && forall k :: (if s[0] == '-' then 1 else 0) <= k < |s| ==> IsDigit(s[k])
  }

  /** `str(i)` for an integer. */
  function IntToDecimal(i: int): (r: string)
    ensures IntLiteral(r)
    ensures r[0] == '-' <==> i < 0
  {
    if i < 0 then
      var d := NatToDecimal(-i);
      assert forall k :: 1 <= k < |d| + 1 ==> ("-" + d)[k] == d[k - 1];
      "-" + d
    else NatToDecimal(i)
  }

  /** `int(s)` for the strings `str(i)` produces: the two are inverse. */
  function ParseInt(s: string): int
    requires IntLiteral(s)
  {
    if s[0] == '-' then
      assert forall k :: 0 <= k < |s| - 1 ==> s[1..][k] == s[k + 1];
      0 - DecimalValue(s[1..]) as int
    else DecimalValue(s)
  }

  lemma IntDecimalRoundTrip(i: int)
    ensures ParseInt(IntToDecimal(i)) == i
  {
    if i < 0 {
      var d, r := NatToDecimal(-i), IntToDecimal(i);
      assert r == "-" + d;
      assert r[0] == '-' && r[1..] == d;
      DecimalRoundTrip(-i);
      assert ParseInt(r) == 0 - DecimalValue(d) as int;
    } else {
      DecimalRoundTrip(i);
    }
  }
}
