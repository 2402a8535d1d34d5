/**
 * The few `java.lang.String` operations the service relies on. Java has three
 * different notions of "space", and the code uses all three:
 *  - `trim()` removes every code point up to U+0020;
 *  - `isBlank()` tests `Character.isWhitespace` on every character;
 *  - the regular-expression class `\s` is exactly [ \t\n\x0B\f\r].
 */
module JavaString {
  import opened Base

  /** Removed by `String.trim()`. */
  predicate IsTrimmable(c: char) {
    c as int <= 0x20
  }

  /** `Character.isWhitespace`: the separators other than the non-breaking ones, plus controls. */
  predicate IsWhitespace(c: char) {
    var n := c as int;
    || (0x09 <= n <= 0x0D)
    || (0x1C <= n <= 0x20)
    || n == 0x1680
    || (0x2000 <= n <= 0x2006)
    || (0x2008 <= n <= 0x200A)
    || n == 0x2028 || n == 0x2029 || n == 0x205F || n == 0x3000
  }

  /** The regular-expression class `\s`. */
  predicate IsRegexSpace(c: char) {
    c == ' ' || c == '\t' || c == '\n' || c == '\U{000B}' || c == '\U{000C}' || c == '\r'
  }

  /** `String.isBlank()`: empty, or whitespace only. */
  predicate IsBlank(s: string) {
    forall i :: 0 <= i < |s| ==> IsWhitespace(s[i])
  }

  /** The recurring Java guard `s == null || s.isBlank()`. */
  predicate NullOrBlank(o: Option<string>) {
    o.None? || IsBlank(o.value)
  }

  /** A string whose first character is not whitespace is not blank. */
  lemma NotBlankByFirst(s: string)
    requires s != [] && !IsWhitespace(s[0])
    ensures !IsBlank(s)
  {
  }

  function TrimStart(s: string): (r: string)
    ensures |r| <= |s| && r == s[|s| - |r|..]
    ensures r == [] || !IsTrimmable(r[0])
    ensures forall i :: 0 <= i < |s| - |r| ==> IsTrimmable(s[i])
  {
    if s != [] && IsTrimmable(s[0]) then TrimStart(s[1..]) else s
  }

  function TrimEnd(s: string): (r: string)
    ensures |r| <= |s| && r == s[..|r|]
    ensures r == [] || !IsTrimmable(r[|r| - 1])
    ensures forall i :: |r| <= i < |s| ==> IsTrimmable(s[i])
  {
    if s != [] && IsTrimmable(s[|s| - 1]) then TrimEnd(s[..|s| - 1]) else s
  }

  /** Every character of `t` is one `trim()` removes. */
  predicate AllTrimmable(t: string) {
    forall i :: 0 <= i < |t| ==> IsTrimmable(t[i])
  }

  /** `r` sits at `k` in `s`, and everything of `s` before and after it is trimmable. */
  predicate CutAt(s: string, r: string, k: nat) {
    k + |r| <= |s| && s[k..k + |r|] == r && AllTrimmable(s[..k]) && AllTrimmable(s[k + |r|..])
  }

  /** Cutting a trimmable prefix off `s`, then a trimmable suffix off the rest, is a cut of `s`. */
  lemma CutOfCuts(s: string, a: string, r: string)
    requires |a| <= |s| && a == s[|s| - |a|..] && forall i :: 0 <= i < |s| - |a| ==> IsTrimmable(s[i])
    requires |r| <= |a| && r == a[..|r|] && forall i :: |r| <= i < |a| ==> IsTrimmable(a[i])
    ensures CutAt(s, r, |s| - |a|)
  {
    var k := |s| - |a|;
    assert s[k..k + |r|] == s[k..][..|r|];
    assert s[k + |r|..] == a[|r|..];
  }

  /**
   * `String.trim()`: the longest infix of `s` that neither starts nor ends
   * with a trimmable character; everything cut off is trimmable.
   */
  function Trim(s: string): (r: string)
    ensures r == [] || (!IsTrimmable(r[0]) && !IsTrimmable(r[|r| - 1]))
    ensures exists k: nat :: CutAt(s, r, k)
    ensures r == [] ==> forall i :: 0 <= i < |s| ==> IsTrimmable(s[i])
  {
    var a := TrimStart(s);
    var r := TrimEnd(a);
    CutOfCuts(s, a, r);
    r
  }

  /** `trim()` leaves nothing exactly when every character is one it removes. */
  lemma TrimEmptyIff(s: string)
    ensures Trim(s) == [] <==> AllTrimmable(s)
  {
    var r := Trim(s);
    if r != [] {
      var k: nat :| CutAt(s, r, k);
      assert s[k] == s[k..k + |r|][0] == r[0];
    }
  }

  /** Trimming a string that is already trimmed changes nothing. */
  lemma TrimOfTrimmed(s: string)
    requires s == [] || (!IsTrimmable(s[0]) && !IsTrimmable(s[|s| - 1]))
    ensures Trim(s) == s
  {
  }

  /** `trim()` is idempotent. */
  lemma TrimIdempotent(s: string)
    ensures Trim(Trim(s)) == Trim(s)
  {
    TrimOfTrimmed(Trim(s));
  }

  /** A regex space is always trimmable, so a trimmed string has none at its ends. */
  lemma RegexSpaceIsTrimmable(c: char)
    ensures IsRegexSpace(c) ==> IsTrimmable(c)
  {
  }

  predicate StartsWith(s: string, p: string) {
    |p| <= |s| && s[..|p|] == p
  }

  predicate EndsWith(s: string, p: string) {
    |p| <= |s| && s[|s| - |p|..] == p
  }

  /** `t` occurs in `s` at index `i`. */
  predicate OccursAt(s: string, t: string, i: nat) {
    i + |t| <= |s| && s[i..i + |t|] == t
  }

  /** `String.contains`, scanning `s` from the left. */
  predicate Contains(s: string, t: string)
    decreases |s|
  {
    StartsWith(s, t) || (s != [] && Contains(s[1..], t))
  }

  /** An occurrence at index `i` is found by the scan. */
  lemma {:induction false} OccursAtContains(s: string, t: string, i: nat)
    requires OccursAt(s, t, i)
    ensures Contains(s, t)
    decreases i
  {
    if i > 0 {
      assert s[1..][i - 1..i - 1 + |t|] == s[i..i + |t|];
      OccursAtContains(s[1..], t, i - 1);
    }
  }

  /** The scan agrees with the textbook definition: some index where `t` occurs. */
  lemma {:induction false} ContainsIffOccurs(s: string, t: string)
    ensures Contains(s, t) <==> exists i: nat :: i <= |s| && OccursAt(s, t, i)
    decreases |s|
  {
    if StartsWith(s, t) {
      assert OccursAt(s, t, 0);
    } else if s != [] {
      ContainsIffOccurs(s[1..], t);
      if Contains(s[1..], t) {
        var i: nat :| i <= |s[1..]| && OccursAt(s[1..], t, i);
        assert s[1..][i..i + |t|] == s[i + 1..i + 1 + |t|];
        assert OccursAt(s, t, i + 1);
      }
    }
    forall i: nat | i <= |s| && OccursAt(s, t, i)
      ensures Contains(s, t)
    {
      OccursAtContains(s, t, i);
    }
  }

  /** Whatever surrounds it, a string contains each of its infixes. */
  lemma ContainsInfix(a: string, t: string, b: string)
    ensures Contains(a + t + b, t)
  {
    var s := a + t + b;
    assert s[|a|..|a| + |t|] == t;
    assert OccursAt(s, t, |a|);
    ContainsIffOccurs(s, t);
  }

  /** `String.indexOf(char)`: the first index holding `c`, if any. */
  function IndexOf(s: string, c: char): (r: Option<nat>)
    ensures r.Some? ==> r.value < |s| && s[r.value] == c
    ensures r.Some? ==> forall j :: 0 <= j < r.value ==> s[j] != c
    ensures r.None? <==> c !in s
  {
    if s == [] then None
    else if s[0] == c then Some(0)
    else
      var rest := IndexOf(s[1..], c);
      assert c in s <==> c in s[1..];
      if rest.Some? then Some(rest.value + 1) else None
  }

  /** `String.replace(String.valueOf(c), "")`: every `c` removed, the rest kept in order. */
  function RemoveAll(s: string, c: char): (r: string)
    ensures c !in r
    ensures |r| <= |s|
    ensures forall x :: x in r <==> x in s && x != c
  {
    if s == [] then []
    else (if s[0] == c then [] else [s[0]]) + RemoveAll(s[1..], c)
  }

  /** Removal works piece by piece: the result for `a + b` is the result for `a`, then for `b`. */
  lemma {:induction false} RemoveAllAppend(a: string, b: string, c: char)
    ensures RemoveAll(a + b, c) == RemoveAll(a, c) + RemoveAll(b, c)
    decreases |a|
  {
    if a == [] {
      assert a + b == b;
    } else {
      var h := if a[0] == c then [] else [a[0]];
      assert (a + b)[0] == a[0] && (a + b)[1..] == a[1..] + b;
      RemoveAllAppend(a[1..], b, c);
      calc {
        RemoveAll(a + b, c);
        h + RemoveAll(a[1..] + b, c);
        h + (RemoveAll(a[1..], c) + RemoveAll(b, c));
        (h + RemoveAll(a[1..], c)) + RemoveAll(b, c);
        RemoveAll(a, c) + RemoveAll(b, c);
      }
    }
  }

  /** On one character: `c` itself is dropped, any other character is kept. */
  lemma RemoveAllSingle(x: char, c: char)
    ensures RemoveAll([x], c) == if x == c then [] else [x]
  {
    assert [x][1..] == [];
  }

  /** A string without `c` is unchanged. */
  lemma {:induction false} RemoveAllAbsent(s: string, c: char)
    requires c !in s
    ensures RemoveAll(s, c) == s
    decreases |s|
  {
    if s != [] {
      assert c !in s[1..];
      RemoveAllAbsent(s[1..], c);
    }
  }
}
