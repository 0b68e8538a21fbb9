/** The Python string and sequence builtins the services depend on, stated
    over Dafny sequences: prefix and suffix tests, substring search,
    `str.replace`, slicing with a possibly negative start, string ordering
    and `str(int)`. */
module PyStr {

  /** `s.startswith(p)` */
  predicate StartsWith<T(==)>(s: seq<T>, p: seq<T>) {
    |p| <= |s| && s[..|p|] == p
  }

  /** `s.endswith(p)` */
  predicate EndsWith<T(==)>(s: seq<T>, p: seq<T>) {
    |p| <= |s| && s[|s| - |p|..] == p
  }

  /** `needle` occurs in `hay` starting at index `k`. */
  ghost predicate OccursAt(hay: string, needle: string, k: int) {
    0 <= k && k + |needle| <= |hay| && hay[k..k + |needle|] == needle
  }

  /** `needle in hay`, the Python substring test, as a left-to-right scan. */
  function Contains(hay: string, needle: string): bool
    decreases |hay|
  {
    if StartsWith(hay, needle) then true
    else if |hay| == 0 then false
    else Contains(hay[1..], needle)
  }

  /** The scan finds an occurrence exactly when there is one. */
  lemma {:induction false} ContainsIff(hay: string, needle: string)
    ensures Contains(hay, needle) <==> exists k :: OccursAt(hay, needle, k)
    decreases |hay|
  {
    if StartsWith(hay, needle) {
      assert OccursAt(hay, needle, 0);
    } else if |hay| == 0 {
      assert |needle| > 0 by {
        assert hay[..0] == [];
      }
      forall k ensures !OccursAt(hay, needle, k) {
      }
    } else {
      ContainsIff(hay[1..], needle);
      if Contains(hay[1..], needle) {
        var k :| OccursAt(hay[1..], needle, k);
        assert hay[k + 1..k + 1 + |needle|] == hay[1..][k..k + |needle|];
        assert OccursAt(hay, needle, k + 1);
      } else {
        forall k ensures !OccursAt(hay, needle, k) {
          if k == 0 {
            assert OccursAt(hay, needle, 0) == StartsWith(hay, needle);
          } else if 0 < k && k + |needle| <= |hay| {
            assert hay[1..][k - 1..k - 1 + |needle|] == hay[k..k + |needle|];
            assert OccursAt(hay, needle, k) == OccursAt(hay[1..], needle, k - 1);
          }
        }
      }
    }
  }

  /** A needle holding a character that `hay` lacks does not occur in it. */
  lemma NotContainsMissingChar(hay: string, needle: string, i: nat)
    requires i < |needle|
    requires forall j :: 0 <= j < |hay| ==> hay[j] != needle[i]
    ensures !Contains(hay, needle)
  {
    forall k | 0 <= k && k + |needle| <= |hay|
      ensures !OccursAt(hay, needle, k)
    {
      assert hay[k..k + |needle|][i] == hay[k + i];
    }
    ContainsIff(hay, needle);
  }

  /** `s.replace(pat, repl, 1)`: the first occurrence of `pat` replaced. */
  function ReplaceFirst(s: string, pat: string, repl: string): string
    decreases |s|
  {
    if StartsWith(s, pat) then repl + s[|pat|..]
    else if |s| == 0 then s
    else [s[0]] + ReplaceFirst(s[1..], pat, repl)
  }

  /** A string without an occurrence of `pat` is left as it is. */
  lemma {:induction false} ReplaceFirstAbsent(s: string, pat: string, repl: string)
    requires !Contains(s, pat)
    ensures ReplaceFirst(s, pat, repl) == s
    decreases |s|
  {
    if |s| > 0 {
      ReplaceFirstAbsent(s[1..], pat, repl);
      assert [s[0]] + s[1..] == s;
    }
  }

  /** `s.replace(pat, "")`: every non-overlapping occurrence of `pat`, found
      left to right, removed. An empty `pat` leaves `s` as it is. */
  function RemoveAll(s: string, pat: string): string
    decreases |s|
  {
    if |pat| == 0 then s
    else if StartsWith(s, pat) then RemoveAll(s[|pat|..], pat)
    else if |s| == 0 then s
    else [s[0]] + RemoveAll(s[1..], pat)
  }

  /** A string without an occurrence of `pat` is left as it is. */
  lemma {:induction false} RemoveAllAbsent(s: string, pat: string)
    requires !Contains(s, pat)
    ensures RemoveAll(s, pat) == s
    decreases |s|
  {
    if |pat| > 0 && |s| > 0 {
      RemoveAllAbsent(s[1..], pat);
      assert [s[0]] + s[1..] == s;
    }
  }

  /** Removing `pat` from `pat + rest`, where `rest` has no occurrence of
      `pat`, gives back `rest`. */
  lemma StripPrefix(pat: string, rest: string)
    requires |pat| > 0 && !Contains(rest, pat)
    ensures RemoveAll(pat + rest, pat) == rest
  {
    assert (pat + rest)[..|pat|] == pat;
    assert (pat + rest)[|pat|..] == rest;
    RemoveAllAbsent(rest, pat);
  }

  /** `s[i:]` for any integer `i`: a negative start counts from the end, and
      a start beyond either end is clamped. */
  function PyTail<T>(s: seq<T>, i: int): (r: seq<T>)
    ensures |r| <= |s| && r == s[|s| - |r|..]
  {
    if i >= 0 then (if i <= |s| then s[i..] else [])
    else (if -i <= |s| then s[|s| + i..] else s)
  }

  /** `s[-m:]` with `m` at least 1 is the last `m` items (all of them when
      there are fewer). */
  lemma PyTailLast<T>(s: seq<T>, m: int)
    requires m >= 1
    ensures PyTail(s, -m) == s[|s| - (if m <= |s| then m else |s|)..]
  {
  }

  /** `reversed(s)` */
  function Reverse<T>(s: seq<T>): (r: seq<T>)
    ensures |r| == |s|
    ensures forall i :: 0 <= i < |s| ==> r[i] == s[|s| - 1 - i]
  {
    seq(|s|, i requires 0 <= i < |s| => s[|s| - 1 - i])
  }

  /** Python's `a < b` on `str`: code points compared left to right, a proper
      prefix before the longer string. */
  predicate LexLess(a: string, b: string)
    decreases |a|
  {
    if |a| == 0 then |b| > 0
    else if |b| == 0 then false
    else if a[0] != b[0] then a[0] < b[0]
    else LexLess(a[1..], b[1..])
  }

  lemma {:induction false} LexIrreflexive(a: string)
    ensures !LexLess(a, a)
    decreases |a|
  {
    if |a| > 0 {
      LexIrreflexive(a[1..]);
    }
  }

  lemma {:induction false} LexTransitive(a: string, b: string, c: string)
    requires LexLess(a, b) && LexLess(b, c)
    ensures LexLess(a, c)
    decreases |a|
  {
    if |a| > 0 && a[0] == b[0] && b[0] == c[0] {
      LexTransitive(a[1..], b[1..], c[1..]);
    }
  }

  /** Distinct strings are always ordered one way or the other. */
  lemma {:induction false} LexTotal(a: string, b: string)
    requires a != b
    ensures LexLess(a, b) || LexLess(b, a)
    decreases |a|
  {
    if |a| > 0 && |b| > 0 && a[0] == b[0] {
      assert a == [a[0]] + a[1..] && b == [b[0]] + b[1..];
      LexTotal(a[1..], b[1..]);
    }
  }

  /** Two strings of equal length that extend by one character compare by
      their common-length parts first and by the last character only when
      those are equal. */
  lemma {:induction false} LexLessSnoc(x: string, c: char, y: string, d: char)
    requires |x| == |y|
    ensures LexLess(x + [c], y + [d]) <==> LexLess(x, y) || (x == y && c < d)
    decreases |x|
  {
    if |x| == 0 {
      assert x + [c] == [c] && y + [d] == [d];
    } else {
      assert (x + [c])[1..] == x[1..] + [c];
      assert (y + [d])[1..] == y[1..] + [d];
      LexLessSnoc(x[1..], c, y[1..], d);
      if x[0] == y[0] && x[1..] == y[1..] {
        assert x == [x[0]] + x[1..] && y == [y[0]] + y[1..];
      }
      if x == y {
        assert x[1..] == y[1..];
      }
    }
  }

  /** The decimal digit character of `d`. */
  function DigitChar(d: nat): (c: char)
    requires d < 10
    ensures c as int == 48 + d
  {
    (48 + d) as char
  }

  /** `str(n)` for a non-negative integer: its decimal digits, most
      significant first, without leading zeros. */
  function Decimal(n: nat): (r: string)
    ensures |r| >= 1
    decreases n
  {
    if n < 10 then [DigitChar(n)] else Decimal(n / 10) + [DigitChar(n % 10)]
  }

  lemma {:induction false} DecimalSingle(n: nat)
    ensures |Decimal(n)| == 1 <==> n < 10
  {
    if n >= 10 {
      assert |Decimal(n)| == |Decimal(n / 10)| + 1;
    }
  }

  /** Between decimal strings of the same length, string order is numeric
      order: a later millisecond timestamp of the same width has the greater
      `created_at` text. */
  lemma {:induction false} DecimalOrder(a: nat, b: nat)
    requires |Decimal(a)| == |Decimal(b)|
    ensures LexLess(Decimal(a), Decimal(b)) <==> a < b
    decreases a
  {
    DecimalSingle(a);
    DecimalSingle(b);
    if a < 10 {
      assert b < 10;
    } else {
      assert b >= 10;
      DecimalOrder(a / 10, b / 10);
      LexLessSnoc(Decimal(a / 10), DigitChar(a % 10), Decimal(b / 10), DigitChar(b % 10));
      if Decimal(a / 10) == Decimal(b / 10) {
        DecimalInjective(a / 10, b / 10);
      }
      assert a == 10 * (a / 10) + a % 10 && b == 10 * (b / 10) + b % 10;
    }
  }

  /** Different numbers have different decimal strings. */
  lemma {:induction false} DecimalInjective(a: nat, b: nat)
    requires Decimal(a) == Decimal(b)
    ensures a == b
    decreases a
  {
    DecimalSingle(a);
    DecimalSingle(b);
    if a >= 10 {
      var da, db := Decimal(a / 10), Decimal(b / 10);
      assert Decimal(a) == da + [DigitChar(a % 10)];
      assert Decimal(b) == db + [DigitChar(b % 10)];
      assert da == Decimal(a)[..|Decimal(a)| - 1];
      assert db == Decimal(b)[..|Decimal(b)| - 1];
      DecimalInjective(a / 10, b / 10);
      assert DigitChar(a % 10) == Decimal(a)[|Decimal(a)| - 1];
      assert a == 10 * (a / 10) + a % 10 && b == 10 * (b / 10) + b % 10;
    }
  }
}
