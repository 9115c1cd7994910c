/** The JavaScript string operations the application relies on, on strings as sequences
    of characters: `toLowerCase`, `includes`, `trim`, `split`, `join` and the decimal
    rendering of integers in template literals and `toFixed`. */
module JsText {

  // ---------------------------------------------------------------------------
  // Lower-casing

  /** `toLowerCase` on one character. The ASCII capitals and U+212A KELVIN SIGN, the
      characters whose lower case is a single ASCII letter, are mapped; others are kept. */
  function LowerChar(c: char): char {
    if 'A' <= c <= 'Z' then (c as int + 32) as char
    else if c == '\U{212A}' then 'k'
    else c
  }

  function Lower(s: string): (r: string)
    ensures |r| == |s|
    ensures forall i :: 0 <= i < |s| ==> r[i] == LowerChar(s[i])
  {
    if s == [] then [] else [LowerChar(s[0])] + Lower(s[1..])
  }

  /** Lower-casing twice is lower-casing once. */
  lemma LowerIdempotent(s: string)
    ensures Lower(Lower(s)) == Lower(s)
  {
    assert forall i :: 0 <= i < |s| ==> LowerChar(LowerChar(s[i])) == LowerChar(s[i]);
  }

  /** Lower-casing works piece by piece. */
  lemma {:induction false} LowerAppend(a: string, b: string)
    ensures Lower(a + b) == Lower(a) + Lower(b)
  {
    if a != [] {
      assert (a + b)[1..] == a[1..] + b;
      LowerAppend(a[1..], b);
    }
  }

  /** A string with no character that `LowerChar` maps is its own lower-case form. */
  predicate IsLowerCase(s: string) {
    forall i :: 0 <= i < |s| ==> !('A' <= s[i] <= 'Z') && s[i] != '\U{212A}'
  }

  lemma LowerOfLowerCase(s: string)
    requires IsLowerCase(s)
    ensures Lower(s) == s
  {
  }

  // ---------------------------------------------------------------------------
  // Substring search (`String.prototype.includes`)

  predicate StartsWith(s: string, p: string) {
    |p| <= |s| && s[..|p|] == p
  }

  /** `s.includes(t)`, searched from the left. */
  predicate Contains(s: string, t: string)
    decreases |s|
  {
    StartsWith(s, t) || (s != [] && Contains(s[1..], t))
  }

  /** `t` occurs in `s` starting at index `k`. */
  predicate OccursAt(s: string, t: string, k: int) {
    0 <= k && k + |t| <= |s| && s[k..k + |t|] == t
  }

  /** Every occurrence is found by the search. */
  lemma {:induction false} OccurrenceIsContained(s: string, t: string, k: int)
    requires OccursAt(s, t, k)
    ensures Contains(s, t)
    decreases k
  {
    if k > 0 {
      assert s[1..][k - 1..k - 1 + |t|] == s[k..k + |t|];
      OccurrenceIsContained(s[1..], t, k - 1);
    }
  }

  /** What the search finds is an occurrence. */
  lemma {:induction false} ContainedOccurs(s: string, t: string) returns (k: nat)
    requires Contains(s, t)
    ensures OccursAt(s, t, k)
    decreases |s|
  {
    if StartsWith(s, t) {
      k := 0;
    } else {
      var j := ContainedOccurs(s[1..], t);
      k := j + 1;
      assert s[1..][j..j + |t|] == s[k..k + |t|];
    }
  }

  /** Lower-casing keeps every occurrence, lower-cased. */
  lemma LowerKeepsOccurrence(s: string, t: string)
    requires Contains(s, t)
    ensures Contains(Lower(s), Lower(t))
  {
    var k := ContainedOccurs(s, t);
    var l, lt := Lower(s), Lower(t);
    forall i | 0 <= i < |t|
      ensures l[k + i] == lt[i]
    {
      assert s[k + i] == s[k..k + |t|][i];
    }
    assert l[k..k + |t|] == lt;
    OccurrenceIsContained(l, lt, k);
  }

  /** Conversely, an occurrence in the lower-cased text is the lower case of an
      occurrence in the text. */
  lemma LowerOccurrenceLifts(s: string, u: string)
    requires Contains(Lower(s), u)
    ensures exists t :: Lower(t) == u && Contains(s, t)
  {
    var l := Lower(s);
    var k := ContainedOccurs(l, u);
    var t := s[k..k + |u|];
    forall i | 0 <= i < |u|
      ensures Lower(t)[i] == u[i]
    {
      assert u[i] == l[k..k + |u|][i];
    }
    assert Lower(t) == u;
    OccurrenceIsContained(s, t, k);
  }

  /** Every character of a contained string occurs in the containing one. */
  lemma ContainedCharsOccur(s: string, t: string, c: char)
    requires Contains(s, t) && c in t
    ensures c in s
  {
    var k := ContainedOccurs(s, t);
    var i :| 0 <= i < |t| && t[i] == c;
    assert s[k + i] == s[k..k + |t|][i];
  }

  lemma ContainsItself(t: string)
    ensures Contains(t, t)
  {
    assert OccursAt(t, t, 0);
    OccurrenceIsContained(t, t, 0);
  }

  /** A string occurs in any string built around it. */
  lemma ContainsMiddle(a: string, t: string, b: string)
    ensures Contains(a + t + b, t)
  {
    var s := a + t + b;
    assert s[|a|..|a| + |t|] == t;
    OccurrenceIsContained(s, t, |a|);
  }

  /** An occurrence in a part is an occurrence in the whole. */
  lemma ContainsInLeft(a: string, b: string, t: string)
    requires Contains(a, t)
    ensures Contains(a + b, t)
  {
    var k := ContainedOccurs(a, t);
    assert (a + b)[k..k + |t|] == a[k..k + |t|];
    OccurrenceIsContained(a + b, t, k);
  }

  lemma ContainsInRight(a: string, b: string, t: string)
    requires Contains(b, t)
    ensures Contains(a + b, t)
  {
    var k := ContainedOccurs(b, t);
    assert (a + b)[|a| + k..|a| + k + |t|] == b[k..k + |t|];
    OccurrenceIsContained(a + b, t, |a| + k);
  }

  /** A one-character needle is found exactly when the character is present. */
  lemma ContainsChar(s: string, c: char)
    ensures Contains(s, [c]) <==> c in s
  {
    if Contains(s, [c]) {
      var k := ContainedOccurs(s, [c]);
      assert s[k] == s[k..k + 1][0];
    }
    if c in s {
      var k :| 0 <= k < |s| && s[k] == c;
      assert s[k..k + 1] == [c];
      OccurrenceIsContained(s, [c], k);
    }
  }

  // ---------------------------------------------------------------------------
  // Whitespace and `trim`

  /** ECMAScript WhiteSpace and LineTerminator: the characters `trim` removes and
      `\s` matches in a regular expression. */
  predicate IsSpace(c: char) {
    || c == '\t' || c == '\n' || c == '\U{000B}' || c == '\U{000C}' || c == '\r' || c == ' '
    || c == '\U{00A0}' || c == '\U{1680}' || ('\U{2000}' <= c <= '\U{200A}')
    || c == '\U{2028}' || c == '\U{2029}' || c == '\U{202F}' || c == '\U{205F}'
    || c == '\U{3000}' || c == '\U{FEFF}'
  }

  predicate AllSpace(s: string) {
    forall i :: 0 <= i < |s| ==> IsSpace(s[i])
  }

  predicate HasSpace(s: string) {
    exists i :: 0 <= i < |s| && IsSpace(s[i])
  }

  /** Number of leading white-space characters. */
  function LeadingSpace(s: string): (k: nat)
    ensures k <= |s|
    ensures forall m :: 0 <= m < k ==> IsSpace(s[m])
    ensures k < |s| ==> !IsSpace(s[k])
  {
    if s == [] || !IsSpace(s[0]) then 0 else 1 + LeadingSpace(s[1..])
  }

  /** Number of trailing white-space characters. */
  function TrailingSpace(s: string): (k: nat)
    ensures k <= |s|
    ensures forall m :: |s| - k <= m < |s| ==> IsSpace(s[m])
    ensures k < |s| ==> !IsSpace(s[|s| - 1 - k])
  {
    if s == [] || !IsSpace(s[|s| - 1]) then 0 else 1 + TrailingSpace(s[..|s| - 1])
  }

  /** `s.trim()`: the infix of `s` left once the leading and the trailing white space
      are dropped. It has no white space at either end and no character `s` lacks. */
  function Trim(s: string): (r: string)
    ensures |r| <= |s|
    ensures r == [] || (!IsSpace(r[0]) && !IsSpace(r[|r| - 1]))
    ensures forall c :: c in r ==> c in s
    ensures var i := LeadingSpace(s);
      i + |r| <= |s| && r == s[i..i + |r|] && AllSpace(s[..i]) && AllSpace(s[i + |r|..])
  {
    var i := LeadingSpace(s);
    var j := |s| - TrailingSpace(s[i..]);
    assert j == i || s[j - 1] == s[i..][|s[i..]| - 1 - TrailingSpace(s[i..])];
    s[i..j]
  }

  /** The leading white space of white space followed by a non-space is exactly the
      white space. */
  lemma LeadingSpaceBefore(a: string, rest: string)
    requires AllSpace(a) && rest != [] && !IsSpace(rest[0])
    ensures LeadingSpace(a + rest) == |a|
  {
    var s := a + rest;
    assert forall j :: 0 <= j < |a| ==> s[j] == a[j];
    assert s[|a|] == rest[0];
  }

  /** The trailing white space of a string ending in a non-space, followed by white
      space, is exactly that white space. */
  lemma TrailingSpaceAfter(rest: string, b: string)
    requires AllSpace(b) && rest != [] && !IsSpace(rest[|rest| - 1])
    ensures TrailingSpace(rest + b) == |b|
  {
    var s := rest + b;
    assert forall j :: |rest| <= j < |s| ==> s[j] == b[j - |rest|];
    assert s[|rest| - 1] == rest[|rest| - 1];
  }

  /** Trimming is determined by what it leaves: white space, then a string with no white
      space at either end, then white space, trims to exactly that middle string. */
  lemma TrimUnique(a: string, m: string, b: string)
    requires AllSpace(a) && AllSpace(b)
    requires m == [] || (!IsSpace(m[0]) && !IsSpace(m[|m| - 1]))
    ensures Trim(a + m + b) == m
  {
    var s := a + m + b;
    if m == [] {
      assert s == a + b;
      assert forall k :: 0 <= k < |s| ==> s[k] == (if k < |a| then a[k] else b[k - |a|]);
      assert LeadingSpace(s) == |s|;
    } else {
      assert s == a + (m + b);
      LeadingSpaceBefore(a, m + b);
      assert s[|a|..] == m + b;
      TrailingSpaceAfter(m, b);
      assert s[|a|..|s| - |b|] == m;
    }
  }

  /** Trimming leaves nothing exactly when the string is all white space. */
  lemma TrimEmpty(s: string)
    ensures Trim(s) == [] <==> AllSpace(s)
  {
    var i := LeadingSpace(s);
    if Trim(s) == [] {
      assert i == |s|;
    }
  }

  // ---------------------------------------------------------------------------
  // `split` and `join`

  /** `s.split(sep)` for a one-character separator: the maximal separator-free pieces,
      in order; the empty string gives one empty piece. */
  function Split(s: string, sep: char): (parts: seq<string>)
    ensures |parts| >= 1
    ensures forall i :: 0 <= i < |parts| ==> sep !in parts[i]
  {
    if s == [] then [""]
    else
      var rest := Split(s[1..], sep);
      if s[0] == sep then [""] + rest
      else [[s[0]] + rest[0]] + rest[1..]
  }

  /** `parts.join(sep)`. */
  function Join(parts: seq<string>, sep: string): string {
    if |parts| == 0 then ""
    else if |parts| == 1 then parts[0]
    else parts[0] + sep + Join(parts[1..], sep)
  }

  /** Joining the pieces with the separator gives back the string. */
  lemma {:induction false} JoinSplit(s: string, sep: char)
    ensures Join(Split(s, sep), [sep]) == s
  {
    if s != [] {
      var rest := Split(s[1..], sep);
      JoinSplit(s[1..], sep);
      if s[0] == sep {
        assert Split(s, sep) == [""] + rest;
        assert ([""] + rest)[1..] == rest;
      } else if |rest| == 1 {
        assert Split(s, sep) == [[s[0]] + rest[0]];
      } else {
        var parts := [[s[0]] + rest[0]] + rest[1..];
        assert Split(s, sep) == parts;
        assert parts[1..] == rest[1..];
        assert Join(rest, [sep]) == rest[0] + [sep] + Join(rest[1..], [sep]);
      }
    }
  }

  /** The joined string holds every element. */
  lemma {:induction false} JoinContains(parts: seq<string>, sep: string, k: nat)
    requires k < |parts|
    ensures Contains(Join(parts, sep), parts[k])
  {
    if |parts| == 1 {
      ContainsItself(parts[0]);
    } else if k == 0 {
      ContainsMiddle([], parts[0], sep + Join(parts[1..], sep));
      assert [] + parts[0] + (sep + Join(parts[1..], sep)) == Join(parts, sep);
    } else {
      JoinContains(parts[1..], sep, k - 1);
      ContainsInRight(parts[0] + sep, Join(parts[1..], sep), parts[k]);
    }
  }

  // ---------------------------------------------------------------------------
  // Decimal rendering of integers

  predicate IsDigit(c: char) {
    '0' <= c <= '9'
  }

  predicate AllDigits(s: string) {
    forall i :: 0 <= i < |s| ==> IsDigit(s[i])
  }

  function DigitChar(d: nat): (c: char)
    requires d < 10
    ensures IsDigit(c)
  {
    ('0' as int + d) as char
  }

  /** The shortest decimal numeral of `n`, as `String(n)` writes it. */
  function NatToString(n: nat): (r: string)
    ensures |r| >= 1 && AllDigits(r)
    ensures |r| > 1 ==> r[0] != '0'
  {
    if n < 10 then [DigitChar(n)] else NatToString(n / 10) + [DigitChar(n % 10)]
  }

  /** `String(i)` for an integer: a minus sign before negative values. */
  function IntToString(i: int): string {
    if i < 0 then "-" + NatToString(-i) else NatToString(i)
  }

  /** The value of a decimal numeral. */
  function ParseNat(s: string): nat
    requires AllDigits(s)
  {
    if s == [] then 0 else ParseNat(s[..|s| - 1]) * 10 + (s[|s| - 1] as int - '0' as int)
  }

  /** Rendering then reading a natural number gives it back. */
  lemma {:induction false} ParseNatToString(n: nat)
    ensures ParseNat(NatToString(n)) == n
  {
    if n >= 10 {
      ParseNatToString(n / 10);
      var r := NatToString(n);
      assert r[..|r| - 1] == NatToString(n / 10);
    }
  }

  /** Distinct numbers render differently. */
  lemma NatToStringInjective(m: nat, n: nat)
    requires NatToString(m) == NatToString(n)
    ensures m == n
  {
    ParseNatToString(m);
    ParseNatToString(n);
  }

  /** The run of digits a string starts with. */
  function LeadingDigits(s: string): (r: string)
    ensures AllDigits(r) && StartsWith(s, r)
  {
    if s == [] || !IsDigit(s[0]) then "" else [s[0]] + LeadingDigits(s[1..])
  }

  /** A numeral at the start of a string, followed by a non-digit or by nothing, is
      read back whole. */
  lemma {:induction false} LeadingDigitsOfNumeral(s: string, digits: string)
    requires AllDigits(digits) && |digits| <= |s| && s[..|digits|] == digits
    requires |digits| == |s| || !IsDigit(s[|digits|])
    ensures LeadingDigits(s) == digits
  {
    if digits != [] {
      assert s[1..][..|digits| - 1] == digits[1..];
      LeadingDigitsOfNumeral(s[1..], digits[1..]);
    }
  }

  // ---------------------------------------------------------------------------
  // Splitting what was joined

  /** A separator-free prefix is glued to the first piece. */
  lemma {:induction false} SplitFreePrefix(a: string, rest: string, sep: char)
    requires sep !in a
    ensures Split(a + rest, sep) == [a + Split(rest, sep)[0]] + Split(rest, sep)[1..]
  {
    if a != [] {
      assert (a + rest)[1..] == a[1..] + rest;
      SplitFreePrefix(a[1..], rest, sep);
      assert [a[0]] + (a[1..] + Split(rest, sep)[0]) == a + Split(rest, sep)[0];
    } else {
      var r := Split(rest, sep);
      assert a + rest == rest && a + r[0] == r[0];
      assert [r[0]] + r[1..] == r;
    }
  }

  /** Splitting at a separator splits the two sides apart. */
  lemma {:induction false} SplitAtSeparator(x: string, y: string, sep: char)
    ensures Split(x + [sep] + y, sep) == Split(x, sep) + Split(y, sep)
  {
    if x == [] {
      assert x + [sep] + y == [sep] + y;
      assert ([sep] + y)[1..] == y;
    } else {
      var s := x + [sep] + y;
      assert s[0] == x[0] && s[1..] == x[1..] + [sep] + y;
      SplitAtSeparator(x[1..], y, sep);
      var rest, restX := Split(s[1..], sep), Split(x[1..], sep);
      if x[0] != sep {
        assert rest[0] == restX[0];
        assert rest[1..] == restX[1..] + Split(y, sep);
      }
    }
  }

  /** Splitting pieces that were joined with the separator gives the pieces back, as
      long as no piece holds the separator. */
  lemma {:induction false} SplitJoin(parts: seq<string>, sep: char)
    requires |parts| >= 1
    requires forall k :: 0 <= k < |parts| ==> sep !in parts[k]
    ensures Split(Join(parts, [sep]), sep) == parts
  {
    if |parts| == 1 {
      SplitFreePrefix(parts[0], "", sep);
      assert parts[0] + "" == parts[0];
    } else {
      var tail := Join(parts[1..], [sep]);
      SplitJoin(parts[1..], sep);
      assert Join(parts, [sep]) == parts[0] + ([sep] + tail);
      SplitFreePrefix(parts[0], [sep] + tail, sep);
      assert ([sep] + tail)[1..] == tail;
      assert Split([sep] + tail, sep) == [""] + parts[1..];
      assert parts[0] + "" == parts[0];
      assert [parts[0]] + parts[1..] == parts;
    }
  }

  /** A string without white space at either end is its own trim. */
  lemma TrimTrimmed(s: string)
    requires s == [] || (!IsSpace(s[0]) && !IsSpace(s[|s| - 1]))
    ensures Trim(s) == s
  {
  }
}
