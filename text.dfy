/**
 * The string operations the portal relies on, with JavaScript's meaning:
 * `startsWith`, `endsWith`, `includes`, `replace` with a string pattern
 * (first occurrence only), `replace(/_/g, ' ')`, ASCII `toLowerCase` and
 * `toUpperCase`, `split(sep).pop()`, and decimal rendering of member ids.
 */
module Text {

  /** The whitespace `trim` removes, restricted to space, tab, line feed and carriage return. */
  predicate IsSpace(c: char) {
    c == ' ' || c == '\t' || c == '\n' || c == '\r'
  }

  /** `s` without its leading whitespace. */
  function TrimStart(s: string): (r: string)
    ensures |r| <= |s| && r == s[|s| - |r|..]
    ensures r == [] || !IsSpace(r[0])
    ensures forall i :: 0 <= i < |s| - |r| ==> IsSpace(s[i])
  {
    if s != [] && IsSpace(s[0]) then TrimStart(s[1..]) else s
  }

  /** `s` without its trailing whitespace. */
  function TrimEnd(s: string): (r: string)
    ensures |r| <= |s| && r == s[..|r|]
    ensures r == [] || !IsSpace(r[|r| - 1])
    ensures forall i :: |r| <= i < |s| ==> IsSpace(s[i])
  {
    if s != [] && IsSpace(s[|s| - 1]) then TrimEnd(s[..|s| - 1]) else s
  }

  /** `s.trim()`: empty exactly when `s` is all whitespace, and otherwise without whitespace at either end. */
  function Trim(s: string): (r: string)
    ensures r == "" <==> forall i :: 0 <= i < |s| ==> IsSpace(s[i])
    ensures r == [] || (!IsSpace(r[0]) && !IsSpace(r[|r| - 1]))
  {
    var a := TrimStart(s);
    var r := TrimEnd(a);
    assert r != [] ==> r[0] == a[0];
    TrimAllSpace(s, a, r);
    r
  }

  lemma TrimAllSpace(s: string, a: string, r: string)
    requires a == TrimStart(s) && r == TrimEnd(a)
    ensures r == "" <==> forall i :: 0 <= i < |s| ==> IsSpace(s[i])
  {
    var k := |s| - |a|;
    if r == "" {
      forall i | 0 <= i < |s|
        ensures IsSpace(s[i])
      {
        if i >= k {
          assert s[i] == a[i - k];
        }
      }
    } else {
      assert a[0] == s[k];
    }
  }

  /** `s.startsWith(p)` */
  predicate StartsWith(s: string, p: string) {
    p <= s
  }

  /** `s.endsWith(p)` */
  predicate EndsWith(s: string, p: string) {
    |p| <= |s| && s[|s| - |p|..] == p
  }

  /** `s.includes(p)`: `p` occurs somewhere in `s` (the empty string occurs everywhere). */
  predicate Contains(s: string, p: string)
    decreases |s|
  {
    p <= s || (|s| > 0 && Contains(s[1..], p))
  }

  /** `Contains` agrees with the positional definition of an occurrence. */
  lemma {:induction false} ContainsAt(s: string, p: string, i: nat)
    requires i + |p| <= |s| && s[i..i + |p|] == p
    ensures Contains(s, p)
    decreases i
  {
    if i == 0 {
      assert s[..|p|] == p;
    } else {
      assert s[1..][i - 1..i - 1 + |p|] == s[i..i + |p|];
      ContainsAt(s[1..], p, i - 1);
    }
  }

  /** An occurrence inside a prefix of `s` is an occurrence in `s`. */
  lemma {:induction false} PrefixContains(s: string, t: string, u: string)
    requires t <= s && Contains(t, u)
    ensures Contains(s, u)
    decreases |t|
  {
    if u <= t {
      assert u <= s;
    } else {
      assert t[1..] <= s[1..];
      PrefixContains(s[1..], t[1..], u);
    }
  }

  /** Occurrence is transitive: if `t` occurs in `s` and `u` in `t`, then `u` occurs in `s`. */
  lemma {:induction false} ContainsTrans(s: string, t: string, u: string)
    requires Contains(s, t) && Contains(t, u)
    ensures Contains(s, u)
    decreases |s|
  {
    if t <= s {
      PrefixContains(s, t, u);
    } else {
      ContainsTrans(s[1..], t, u);
    }
  }

  /** A string that contains a character contains it as a one-character substring. */
  lemma ContainsChar(s: string, c: char)
    requires c in s
    ensures Contains(s, [c])
  {
    var i :| 0 <= i < |s| && s[i] == c;
    assert s[i..i + 1] == [c];
    ContainsAt(s, [c], i);
  }

  /** A substring's characters are characters of the string. */
  lemma {:induction false} ContainsChars(s: string, p: string)
    requires Contains(s, p)
    ensures forall c :: c in p ==> c in s
    decreases |s|
  {
    if p <= s {
      forall c | c in p ensures c in s {
        var i :| 0 <= i < |p| && p[i] == c;
        assert s[i] == c;
      }
    } else {
      ContainsChars(s[1..], p);
      forall c | c in s[1..] ensures c in s {
        var i :| 0 <= i < |s[1..]| && s[1..][i] == c;
        assert s[i + 1] == c;
      }
    }
  }

  /** A pattern with a character the string lacks does not occur in it. */
  lemma MissingCharNotContained(s: string, p: string, c: char)
    requires c in p && c !in s
    ensures !Contains(s, p)
  {
    if Contains(s, p) {
      ContainsChars(s, p);
    }
  }

  /** `s.replace(pat, rep)` with a string pattern: only the first occurrence is replaced. */
  function ReplaceFirst(s: string, pat: string, rep: string): string
    decreases |s|
  {
    if pat <= s then rep + s[|pat|..]
    else if s == [] then s
    else [s[0]] + ReplaceFirst(s[1..], pat, rep)
  }

  /** Replacing the first occurrence of a leading pattern by nothing strips that prefix. */
  lemma StripPrefix(pat: string, rest: string)
    ensures ReplaceFirst(pat + rest, pat, "") == rest
  {
    assert pat <= pat + rest;
    assert (pat + rest)[|pat|..] == rest;
  }

  /** A string without the pattern comes back unchanged. */
  lemma {:induction false} ReplaceFirstAbsent(s: string, pat: string, rep: string)
    requires !Contains(s, pat)
    ensures ReplaceFirst(s, pat, rep) == s
    decreases |s|
  {
    if s != [] {
      ReplaceFirstAbsent(s[1..], pat, rep);
    }
  }

  /** `s.replace(/a/g, b)` for a single character `a`. */
  function ReplaceAllChar(s: string, a: char, b: char): (r: string)
    ensures |r| == |s|
    ensures forall i :: 0 <= i < |s| ==> r[i] == (if s[i] == a then b else s[i])
    ensures a != b ==> a !in r
  {
    seq(|s|, i requires 0 <= i < |s| => if s[i] == a then b else s[i])
  }

  function LowerChar(c: char): char {
    if 'A' <= c <= 'Z' then (c as int + 32) as char else c
  }

  function UpperChar(c: char): char {
    if 'a' <= c <= 'z' then (c as int - 32) as char else c
  }

  /** `s.toLowerCase()` on the ASCII letters. */
  function ToLower(s: string): (r: string)
    ensures |r| == |s|
    ensures forall i :: 0 <= i < |s| ==> r[i] == LowerChar(s[i])
  {
    seq(|s|, i requires 0 <= i < |s| => LowerChar(s[i]))
  }

  /** `s.toUpperCase()` on the ASCII letters. */
  function ToUpper(s: string): (r: string)
    ensures |r| == |s|
    ensures forall i :: 0 <= i < |s| ==> r[i] == UpperChar(s[i])
  {
    seq(|s|, i requires 0 <= i < |s| => UpperChar(s[i]))
  }

  /** `s.split(sep).pop()`: the part after the last `sep`, or all of `s` when there is none. */
  function LastToken(s: string, sep: char): (r: string)
    ensures sep !in r
    ensures EndsWith(s, r)
    ensures |r| < |s| ==> s[|s| - |r| - 1] == sep
    decreases |s|
  {
    if s == [] then []
    else if s[|s| - 1] == sep then []
    else LastToken(s[..|s| - 1], sep) + [s[|s| - 1]]
  }

  /** The part of `s` before the first `c` (all of `s` when `c` does not occur). */
  function TakeUntil(s: string, c: char): (r: string)
    ensures r <= s
    ensures c !in r
    ensures |r| < |s| ==> s[|r|] == c
    decreases |s|
  {
    if s == [] || s[0] == c then [] else [s[0]] + TakeUntil(s[1..], c)
  }

  /** The part of `s` after the first `c` (empty when `c` does not occur). */
  function DropThrough(s: string, c: char): (r: string)
    ensures |r| < |s| || r == []
    decreases |s|
  {
    if s == [] then [] else if s[0] == c then s[1..] else DropThrough(s[1..], c)
  }

  /** Splitting at the first `c` recovers both halves of `a + [c] + b` when `a` has no `c`. */
  lemma {:induction false} SplitAtFirst(a: string, c: char, b: string)
    requires c !in a
    ensures TakeUntil(a + [c] + b, c) == a
    ensures DropThrough(a + [c] + b, c) == b
    decreases |a|
  {
    if a == [] {
      assert a + [c] + b == [c] + b;
    } else {
      assert (a + [c] + b)[1..] == a[1..] + [c] + b;
      SplitAtFirst(a[1..], c, b);
    }
  }

  /** A string without `c` is its own first piece. */
  lemma {:induction false} TakeUntilAbsent(s: string, c: char)
    requires c !in s
    ensures TakeUntil(s, c) == s
    decreases |s|
  {
    if s != [] {
      TakeUntilAbsent(s[1..], c);
    }
  }

  predicate IsDigit(c: char) {
    '0' <= c <= '9'
  }

  predicate AllDigits(s: string) {
    forall i :: 0 <= i < |s| ==> IsDigit(s[i])
  }

  function DigitChar(d: nat): char
    requires d < 10
  {
    (48 + d) as char
  }

  /** The decimal rendering JavaScript gives a non-negative integer in a template string. */
  function NatToString(n: nat): (r: string)
    ensures |r| > 0 && AllDigits(r)
  {
    if n < 10 then [DigitChar(n)] else NatToString(n / 10) + [DigitChar(n % 10)]
  }

  /** The value of a string of decimal digits (the empty string reads as 0, as `Number('')` does). */
  function DigitsValue(s: string): nat
    requires AllDigits(s)
  {
    if s == [] then 0 else DigitsValue(s[..|s| - 1]) * 10 + (s[|s| - 1] as int - 48)
  }

  /** Reading back a rendered number gives the number. */
  lemma {:induction false} DigitsRoundTrip(n: nat)
    ensures DigitsValue(NatToString(n)) == n
  {
    if n >= 10 {
      var s := NatToString(n);
      assert s[..|s| - 1] == NatToString(n / 10);
      DigitsRoundTrip(n / 10);
    }
  }

  /** Distinct numbers render as distinct strings. */
  lemma NatToStringInjective(a: nat, b: nat)
    requires NatToString(a) == NatToString(b)
    ensures a == b
  {
    DigitsRoundTrip(a);
    DigitsRoundTrip(b);
  }

  /** `d1 + [c] + x1 == d2 + [c] + x2` with `c` in neither `d1` nor `d2` splits the same way. */
  lemma SplitUnique(d1: string, x1: string, d2: string, x2: string, c: char)
    requires c !in d1 && c !in d2
    requires d1 + [c] + x1 == d2 + [c] + x2
    ensures d1 == d2 && x1 == x2
  {
    SplitAtFirst(d1, c, x1);
    SplitAtFirst(d2, c, x2);
  }

  /** The longest leading run of digits. */
  function DigitPrefix(s: string): (r: string)
    ensures r <= s && AllDigits(r)
    ensures |r| < |s| ==> !IsDigit(s[|r|])
    decreases |s|
  {
    if s == [] || !IsDigit(s[0]) then [] else [s[0]] + DigitPrefix(s[1..])
  }

  lemma {:induction false} DigitPrefixAll(s: string)
    requires AllDigits(s)
    ensures DigitPrefix(s) == s
    decreases |s|
  {
    if s != [] {
      DigitPrefixAll(s[1..]);
    }
  }
}
