/** String helpers shared by the editor, link-fixing and backend models.
    Strings are `seq<char>`; the JavaScript and Python string operations the
    wiki uses (`startsWith`, `includes`, `split`, `replace`, `strip`, ...)
    are written out here once. */
module Text {

  datatype Option<+T> = None | Some(value: T)

  predicate StartsWith(s: string, prefix: string) {
    prefix <= s
  }

  predicate EndsWith(s: string, suffix: string) {
    |suffix| <= |s| && s[|s| - |suffix|..] == suffix
  }

  /** JavaScript `includes` and Python `in` on strings. */
  predicate Contains(s: string, part: string)
    decreases |s|
  {
    StartsWith(s, part) || (s != [] && Contains(s[1..], part))
  }

  /** Every string contains its suffixes; in particular `"".includes` always holds. */
  lemma {:induction false} ContainsSuffix(s: string, k: nat)
    requires k <= |s|
    ensures Contains(s, s[k..])
    decreases k
  {
    if k > 0 {
      ContainsSuffix(s[1..], k - 1);
      assert s[1..][k - 1..] == s[k..];
    }
  }

  /** Index of the first occurrence of `c` (Python `str.index`). */
  function FirstIndex(s: string, c: char): (i: nat)
    requires c in s
    ensures i < |s| && s[i] == c && c !in s[..i]
  {
    if s[0] == c then 0
    else
      var j := FirstIndex(s[1..], c);
      assert s[..j + 1] == [s[0]] + s[1..][..j];
      j + 1
  }

  /** Index of the last occurrence of `c` (Python `str.rindex`). */
  function LastIndex(s: string, c: char): (i: nat)
    requires c in s
    ensures i < |s| && s[i] == c && c !in s[i + 1..]
  {
    if s[|s| - 1] == c then |s| - 1
    else
      assert c in s[..|s| - 1] by {
        var k :| 0 <= k < |s| && s[k] == c;
        assert s[..|s| - 1][k] == c;
      }
      var j := LastIndex(s[..|s| - 1], c);
      assert s[j + 1..] == s[..|s| - 1][j + 1..] + [s[|s| - 1]];
      j
  }

  /** Python `sep.join(parts)` for a one-character separator. */
  function Join(parts: seq<string>, sep: char): string
  {
    if parts == [] then ""
    else if |parts| == 1 then parts[0]
    else parts[0] + [sep] + Join(parts[1..], sep)
  }

  /** Python `sep.join(parts)` for a separator string. */
  function JoinWith(parts: seq<string>, sep: string): string
  {
    if parts == [] then ""
    else if |parts| == 1 then parts[0]
    else parts[0] + sep + JoinWith(parts[1..], sep)
  }

  /** Python `s.split(sep)`: the pieces between separators, empty pieces kept. */
  function Split(s: string, sep: char): (parts: seq<string>)
    ensures |parts| >= 1
    ensures Join(parts, sep) == s
    ensures forall i :: 0 <= i < |parts| ==> sep !in parts[i]
    ensures |parts| == 1 <==> sep !in s
    decreases |s|
  {
    if sep !in s then [s]
    else
      var i := FirstIndex(s, sep);
      var rest := Split(s[i + 1..], sep);
      assert ([s[..i]] + rest)[1..] == rest;
      assert s == s[..i] + [sep] + s[i + 1..];
      [s[..i]] + rest
  }

  /** The text after the last separator is the last piece of a join. */
  lemma {:induction false} JoinLast(parts: seq<string>, sep: char)
    requires |parts| >= 2
    ensures Join(parts, sep) == Join(parts[..|parts| - 1], sep) + [sep] + parts[|parts| - 1]
  {
    if |parts| > 2 {
      JoinLast(parts[1..], sep);
      assert parts[1..][..|parts| - 2] == parts[..|parts| - 1][1..];
    }
  }

  /** Splitting text with exactly one separator gives the two sides. */
  lemma SplitTwo(a: string, b: string, sep: char)
    requires sep !in a && sep !in b
    ensures Split(a + [sep] + b, sep) == [a, b]
  {
    var s := a + [sep] + b;
    assert s[|a|] == sep;
    var i := FirstIndex(s, sep);
    assert s[..i] == a && s[i + 1..] == b;
  }

  /** A split has at least two pieces exactly when the separator occurs;
      then the text is the first piece, the separator, the second piece and
      the rest. */
  lemma SplitHead(s: string, sep: char)
    requires sep in s
    ensures var parts := Split(s, sep);
      |parts| >= 2 && s == parts[0] + [sep] + Join(parts[1..], sep)
      && StartsWith(Join(parts[1..], sep), parts[1])
      && (|parts| == 2 || StartsWith(Join(parts[1..], sep), parts[1] + [sep]))
  {
    var parts := Split(s, sep);
    var tail := parts[1..];
    assert tail[0] == parts[1];
    if |tail| >= 2 {
      assert Join(tail, sep) == parts[1] + [sep] + Join(tail[1..], sep);
    }
  }

  /** Python `str.replace(pattern, "")`: every occurrence found by a
      left-to-right, non-overlapping scan is removed. */
  function RemoveAll(s: string, pattern: string): (r: string)
    requires pattern != ""
    ensures |r| <= |s|
    decreases |s|
  {
    if StartsWith(s, pattern) then RemoveAll(s[|pattern|..], pattern)
    else if s == [] then []
    else [s[0]] + RemoveAll(s[1..], pattern)
  }

  /** A string without the first character of the pattern has nothing to remove. */
  lemma {:induction false} RemoveAllAbsent(s: string, pattern: string)
    requires pattern != "" && pattern[0] !in s
    ensures RemoveAll(s, pattern) == s
    decreases |s|
  {
    if s != [] {
      assert s[0] != pattern[0];
      RemoveAllAbsent(s[1..], pattern);
    }
  }

  /** Text before an occurrence that holds no first character of the
      pattern is kept, the occurrence is removed, and the rest is scanned. */
  lemma {:induction false} RemoveAllAfterFree(a: string, b: string, pattern: string)
    requires pattern != "" && pattern[0] !in a
    ensures RemoveAll(a + pattern + b, pattern) == a + RemoveAll(b, pattern)
    decreases |a|
  {
    var s := a + pattern + b;
    if a == [] {
      assert s == pattern + b;
      assert s[..|pattern|] == pattern && s[|pattern|..] == b;
    } else {
      assert s[0] == a[0] != pattern[0];
      assert !StartsWith(s, pattern);
      assert RemoveAll(s, pattern) == [s[0]] + RemoveAll(s[1..], pattern);
      assert s[1..] == a[1..] + pattern + b;
      RemoveAllAfterFree(a[1..], b, pattern);
      assert a == [a[0]] + a[1..];
    }
  }

  /** A string that does not contain the pattern comes back unchanged. */
  lemma {:induction false} RemoveAllNotContained(s: string, pattern: string)
    requires pattern != ""
    ensures !Contains(s, pattern) ==> RemoveAll(s, pattern) == s
    decreases |s|
  {
    if s != [] && !Contains(s, pattern) {
      RemoveAllNotContained(s[1..], pattern);
      assert s == [s[0]] + s[1..];
    }
  }

  /** Python `str.isspace` for one character. */
  predicate IsSpace(c: char) {
    ('\t' <= c <= '\r') || ('\U{1C}' <= c <= '\U{1F}') || c == ' '
    || c == '\U{85}' || c == '\U{A0}' || c == '\U{1680}'
    || ('\U{2000}' <= c <= '\U{200A}') || c == '\U{2028}' || c == '\U{2029}'
    || c == '\U{202F}' || c == '\U{205F}' || c == '\U{3000}'
  }

  function TrimStart(s: string): (r: string)
    ensures |r| <= |s| && r == s[|s| - |r|..]
    ensures r == [] || !IsSpace(r[0])
    ensures forall i :: 0 <= i < |s| - |r| ==> IsSpace(s[i])
    decreases |s|
  {
    if s != [] && IsSpace(s[0]) then TrimStart(s[1..]) else s
  }

  function TrimEnd(s: string): (r: string)
    ensures |r| <= |s| && r == s[..|r|]
    ensures r == [] || !IsSpace(r[|r| - 1])
    ensures forall i :: |r| <= i < |s| ==> IsSpace(s[i])
    decreases |s|
  {
    if s != [] && IsSpace(s[|s| - 1]) then TrimEnd(s[..|s| - 1]) else s
  }

  /** Python `str.strip()`: leading and trailing whitespace dropped, so the
      result neither starts nor ends with whitespace, and a string that
      already does not is returned as it is. */
  function Strip(s: string): (r: string)
    ensures |r| <= |s|
    ensures r == [] || (!IsSpace(r[0]) && !IsSpace(r[|r| - 1]))
    ensures s != [] && !IsSpace(s[0]) && !IsSpace(s[|s| - 1]) ==> r == s
  {
    TrimEnd(TrimStart(s))
  }

  predicate IsDigit(c: char) {
    '0' <= c <= '9'
  }

  predicate AllDigits(s: string) {
    forall i :: 0 <= i < |s| ==> IsDigit(s[i])
  }

  function DigitChar(d: nat): (c: char)
    requires d < 10
    ensures IsDigit(c)
  {
    ('0' as int + d) as char
  }

  function DigitValue(c: char): nat
    requires IsDigit(c)
  {
    c as int - '0' as int
  }

  /** Decimal notation of a natural number, as JavaScript's `${n}` and
      Python's `str(n)` write it. */
  function NatToString(n: nat): (r: string)
    ensures r != [] && AllDigits(r)
    decreases n
  {
    if n < 10 then [DigitChar(n)] else NatToString(n / 10) + [DigitChar(n % 10)]
  }

  /** The value of a string of decimal digits. */
  function DigitsValue(s: string): nat
    requires AllDigits(s)
    decreases |s|
  {
    if s == [] then 0 else 10 * DigitsValue(s[..|s| - 1]) + DigitValue(s[|s| - 1])
  }

  /** Reading back a decimal numeral gives the number written. */
  lemma {:induction false} DigitsValueOfNatToString(n: nat)
    ensures DigitsValue(NatToString(n)) == n
    decreases n
  {
    var s := NatToString(n);
    if n >= 10 {
      assert s[..|s| - 1] == NatToString(n / 10);
      DigitsValueOfNatToString(n / 10);
    }
  }

  /** Different numbers have different decimal numerals. */
  lemma NatToStringInjective(m: nat, n: nat)
    requires NatToString(m) == NatToString(n)
    ensures m == n
  {
    DigitsValueOfNatToString(m);
    DigitsValueOfNatToString(n);
  }

  function LowerChar(c: char): char {
    if 'A' <= c <= 'Z' then (c as int + 32) as char else c
  }

  /** ASCII lower-casing. */
  function Lower(s: string): (r: string)
    ensures |r| == |s|
    ensures forall i :: 0 <= i < |s| ==> r[i] == LowerChar(s[i])
  {
    seq(|s|, i requires 0 <= i < |s| => LowerChar(s[i]))
  }

  /** Lower-casing twice is lower-casing once. */
  lemma LowerIdempotent(s: string)
    ensures Lower(Lower(s)) == Lower(s)
  {
    assert forall i :: 0 <= i < |s| ==> LowerChar(LowerChar(s[i])) == LowerChar(s[i]);
  }

  lemma LowerAppend(a: string, b: string)
    ensures Lower(a + b) == Lower(a) + Lower(b)
  {
    assert forall i :: 0 <= i < |a + b| ==> Lower(a + b)[i] == (Lower(a) + Lower(b))[i];
  }

  /** Number of occurrences of one character. */
  function CountChar(s: string, c: char): nat
    decreases |s|
  {
    if s == [] then 0 else (if s[0] == c then 1 else 0) + CountChar(s[1..], c)
  }

  lemma {:induction false} CountCharAppend(a: string, b: string, c: char)
    ensures CountChar(a + b, c) == CountChar(a, c) + CountChar(b, c)
    decreases |a|
  {
    if a == [] {
      assert a + b == b;
    } else {
      assert (a + b)[0] == a[0] && (a + b)[1..] == a[1..] + b;
      CountCharAppend(a[1..], b, c);
    }
  }

  lemma {:induction false} CountCharAbsent(s: string, c: char)
    requires c !in s
    ensures CountChar(s, c) == 0
    decreases |s|
  {
    if s != [] {
      CountCharAbsent(s[1..], c);
    }
  }

  /** Occurrences of `c` over all the pieces. */
  function TotalCount(parts: seq<string>, c: char): nat
  {
    if parts == [] then 0 else CountChar(parts[0], c) + TotalCount(parts[1..], c)
  }

  /** A separator without `c` adds no occurrences to a join. */
  lemma {:induction false} CountJoinWith(parts: seq<string>, sep: string, c: char)
    requires CountChar(sep, c) == 0
    ensures CountChar(JoinWith(parts, sep), c) == TotalCount(parts, c)
  {
    if |parts| == 1 {
      assert parts[1..] == [];
    } else if |parts| > 1 {
      CountJoinWith(parts[1..], sep, c);
      CountCharAppend(parts[0] + sep, JoinWith(parts[1..], sep), c);
      CountCharAppend(parts[0], sep, c);
    }
  }

  /** The last separator of `a + [sep] + b` is the one after `a` when `b` has none. */
  lemma LastIndexAfter(a: string, b: string, sep: char)
    requires sep !in b
    ensures LastIndex(a + [sep] + b, sep) == |a|
  {
    var s := a + [sep] + b;
    var i := LastIndex(s, sep);
    assert s[|a|] == sep;
    assert s[|a| + 1..] == b;
  }

  /** Regrouping a concatenation, stated once so that proofs can name the step. */
  lemma ConcatAssoc<T>(a: seq<T>, b: seq<T>, c: seq<T>)
    ensures a + (b + c) == (a + b) + c
  {
  }

  /** `r` is obtained from `s` by deleting elements: a sub-list in the original order. */
  predicate IsSublist<T(==)>(r: seq<T>, s: seq<T>)
    decreases |s|
  {
    if s == [] then r == []
    else (r != [] && r[0] == s[0] && IsSublist(r[1..], s[1..])) || IsSublist(r, s[1..])
  }
}
