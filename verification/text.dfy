/** Python string operations used by the weblog code: `str.split`, `str.replace`,
    clamped slicing and decimal rendering of non-negative integers. */
module Text {

  /** Python's `str.split(c)`: the pieces between occurrences of `c`. */
  function Split(s: string, c: char): (parts: seq<string>)
    ensures |parts| >= 1
    ensures forall i :: 0 <= i < |parts| ==> c !in parts[i]
    ensures Join(parts, c) == s
  {
    if |s| == 0 then [""]
    else if s[0] == c then
      var rest := Split(s[1..], c);
      assert Join([""] + rest, c) == [c] + Join(rest, c);
      [""] + rest
    else
      var rest := Split(s[1..], c);
      var parts := [[s[0]] + rest[0]] + rest[1..];
      assert parts[1..] == rest[1..];
      assert Join(rest, c) == rest[0] + (if |rest| == 1 then "" else [c] + Join(rest[1..], c));
      parts
  }

  /** Python's `c.join(parts)`, the inverse of `Split`. */
  function Join(parts: seq<string>, c: char): string
    requires |parts| >= 1
  {
    if |parts| == 1 then parts[0] else parts[0] + [c] + Join(parts[1..], c)
  }

  /** Splitting a joined sequence of separator-free pieces gives the pieces back. */
  lemma {:induction false} SplitJoin(parts: seq<string>, c: char)
    requires |parts| >= 1
    requires forall i :: 0 <= i < |parts| ==> c !in parts[i]
    ensures Split(Join(parts, c), c) == parts
  {
    if |parts| == 1 {
      SplitFree(parts[0], c);
    } else {
      SplitJoin(parts[1..], c);
      SplitAt(parts[0], Join(parts[1..], c), c);
      assert parts == [parts[0]] + parts[1..];
    }
  }

  /** Text without the separator is one piece. */
  lemma {:induction false} SplitFree(a: string, c: char)
    requires c !in a
    ensures Split(a, c) == [a]
  {
    if |a| > 0 {
      SplitFree(a[1..], c);
    }
  }

  /** The first separator ends the first piece. */
  lemma {:induction false} SplitAt(a: string, b: string, c: char)
    requires c !in a
    ensures Split(a + [c] + b, c) == [a] + Split(b, c)
  {
    if |a| == 0 {
      assert a + [c] + b == [c] + b;
      assert ([c] + b)[1..] == b;
    } else {
      assert (a + [c] + b)[1..] == a[1..] + [c] + b;
      SplitAt(a[1..], b, c);
      assert [a[0]] + a[1..] == a;
    }
  }

  /** Python's `str.replace(c, '')` for a one-character pattern. */
  function RemoveAll(s: string, c: char): (r: string)
    ensures c !in r
    ensures |r| <= |s|
    ensures c !in s ==> r == s
  {
    if |s| == 0 then ""
    else (if s[0] == c then "" else [s[0]]) + RemoveAll(s[1..], c)
  }

  /** Removal works piecewise, so it can be applied to each part of a concatenation. */
  lemma {:induction false} RemoveAllAppend(a: string, b: string, c: char)
    ensures RemoveAll(a + b, c) == RemoveAll(a, c) + RemoveAll(b, c)
  {
    if |a| == 0 {
      assert a + b == b;
    } else {
      assert (a + b)[1..] == a[1..] + b;
      RemoveAllAppend(a[1..], b, c);
    }
  }

  /** Python's `s[i:j]` for non-negative bounds: indices past the end are clamped. */
  function Slice(s: string, i: nat, j: nat): (r: string)
    requires i <= j
    ensures |s| <= i ==> r == ""
    ensures j <= |s| ==> |r| == j - i
    ensures |r| <= j - i
    ensures forall k :: 0 <= k < |r| ==> i + k < |s| && r[k] == s[i + k]
  {
    var hi := if j <= |s| then j else |s|;
    var lo := if i <= hi then i else hi;
    s[lo..hi]
  }

  predicate IsDigit(ch: char) {
    '0' <= ch <= '9'
  }

  predicate AllDigits(s: string) {
    forall k :: 0 <= k < |s| ==> IsDigit(s[k])
  }

  function Digit(n: nat): (ch: char)
    requires n < 10
    ensures IsDigit(ch)
  {
    "0123456789"[n]
  }

  function DigitValue(ch: char): nat
    requires IsDigit(ch)
  {
    (ch as int - '0' as int) as nat
  }

  /** The value of a run of decimal digits, most significant first. */
  function DecimalValue(s: string): nat
    requires AllDigits(s)
  {
    if |s| == 0 then 0 else DecimalValue(s[..|s| - 1]) * 10 + DigitValue(s[|s| - 1])
  }

  /** Python's `str(n)` for a non-negative integer. */
  function Decimal(n: nat): (s: string)
    ensures 1 <= |s|
    ensures AllDigits(s)
  {
    if n < 10 then [Digit(n)] else Decimal(n / 10) + [Digit(n % 10)]
  }

  /** Reading back a rendered number gives the number. */
  lemma {:induction false} DecimalRoundTrip(n: nat)
    ensures DecimalValue(Decimal(n)) == n
  {
    if n >= 10 {
      var d := Decimal(n);
      assert d[..|d| - 1] == Decimal(n / 10);
      DecimalRoundTrip(n / 10);
    }
  }

  /** A two-digit, zero-padded rendering (`%02d`, and strftime's `%d`, `%H`, `%M`, `%S`). */
  function Pad2(n: nat): (s: string)
    requires n < 100
    ensures |s| == 2
    ensures AllDigits(s)
  {
    [Digit(n / 10), Digit(n % 10)]
  }

  /** Reading back a padded number gives the number. */
  lemma Pad2RoundTrip(n: nat)
    requires n < 100
    ensures DecimalValue(Pad2(n)) == n
  {
    var s := Pad2(n);
    assert s[..1] == [Digit(n / 10)];
    assert DecimalValue(s[..1]) == n / 10 by {
      assert s[..1][..0] == [];
    }
  }

  /** The longest prefix of `s` holding none of the characters in `stops`. */
  function Before(s: string, stops: set<char>): (r: string)
    ensures |r| <= |s| && r == s[..|r|]
    ensures forall k :: 0 <= k < |r| ==> r[k] !in stops
    ensures |r| < |s| ==> s[|r|] in stops
  {
    if |s| == 0 || s[0] in stops then "" else [s[0]] + Before(s[1..], stops)
  }

  /** The text after the first occurrence of `c`. */
  function After(s: string, c: char): (r: string)
    requires c in s
    ensures |r| < |s| && r == s[|s| - |r|..]
    ensures s[|s| - |r| - 1] == c
    ensures forall k :: 0 <= k < |s| - |r| - 1 ==> s[k] != c
  {
    if s[0] == c then s[1..] else After(s[1..], c)
  }

  /** The first piece of a split ends before the first separator. */
  lemma {:induction false} SplitFirst(s: string, c: char)
    ensures Split(s, c)[0] == Before(s, {c})
  {
    if |s| > 0 && s[0] != c {
      SplitFirst(s[1..], c);
    }
  }

  /** With a separator present, the second piece of a split runs from just after the
      first separator to the next one; without one, there is a single piece. */
  lemma {:induction false} SplitSecond(s: string, c: char)
    ensures c !in s <==> |Split(s, c)| == 1
    ensures c in s ==> Split(s, c)[1] == Before(After(s, c), {c})
  {
    if c !in s {
      SplitFree(s, c);
    } else if s[0] == c {
      SplitFirst(s[1..], c);
    } else {
      assert c in s[1..] by {
        var k :| 0 <= k < |s| && s[k] == c;
        assert s[1..][k - 1] == c;
      }
      SplitSecond(s[1..], c);
    }
  }

  /** Cutting at one set of characters, then at another, is cutting at either. */
  lemma {:induction false} BeforeBefore(s: string, a: set<char>, b: set<char>)
    ensures Before(Before(s, a), b) == Before(s, a + b)
  {
    if |s| > 0 && s[0] !in a {
      BeforeBefore(s[1..], a, b);
      assert ([s[0]] + Before(s[1..], a))[1..] == Before(s[1..], a);
    }
  }

  /** What follows the first `c` when `c` first occurs just after `a`. */
  lemma {:induction false} AfterAt(a: string, b: string, c: char)
    requires c !in a
    ensures After(a + [c] + b, c) == b
  {
    if |a| == 0 {
      assert a + [c] + b == [c] + b;
    } else {
      assert (a + [c] + b)[1..] == a[1..] + [c] + b;
      AfterAt(a[1..], b, c);
    }
  }

  /** Text free of the stop characters, followed by a stop character, is what
      `Before` keeps. */
  lemma {:induction false} BeforeAt(a: string, ch: char, b: string, stops: set<char>)
    requires forall k :: 0 <= k < |a| ==> a[k] !in stops
    requires ch in stops
    ensures Before(a + [ch] + b, stops) == a
  {
    if |a| == 0 {
      assert a + [ch] + b == [ch] + b;
    } else {
      assert (a + [ch] + b)[1..] == a[1..] + [ch] + b;
      BeforeAt(a[1..], ch, b, stops);
      assert [a[0]] + a[1..] == a;
    }
  }
}
