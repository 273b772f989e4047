/** The string operations of the Rust standard library that the modelled code relies on,
    counted in characters. */
module Text {

  datatype Option<+T> = None | Some(value: T)

  /** `t` occurs in `s` starting at index `i`. */
  predicate OccursAt(s: string, t: string, i: int)
  {
    0 <= i && i + |t| <= |s| && s[i..i + |t|] == t
  }

  /** `str::find`: the leftmost occurrence. */
  function Find(s: string, t: string): (r: Option<nat>)
    ensures r.Some? ==> OccursAt(s, t, r.value)
    ensures r.Some? ==> forall j :: j < r.value ==> !OccursAt(s, t, j)
    ensures r.None? ==> forall j :: !OccursAt(s, t, j)
  {
    FindFrom(s, t, 0)
  }

  function FindFrom(s: string, t: string, i: nat): (r: Option<nat>)
    ensures r.Some? ==> i <= r.value && OccursAt(s, t, r.value)
    ensures r.Some? ==> forall j :: i <= j < r.value ==> !OccursAt(s, t, j)
    ensures r.None? ==> forall j :: i <= j ==> !OccursAt(s, t, j)
    decreases |s| - i
  {
    if i + |t| > |s| then None
    else if OccursAt(s, t, i) then Some(i)
    else FindFrom(s, t, i + 1)
  }

  predicate Contains(s: string, t: string)
  {
    Find(s, t).Some?
  }

  lemma OccursInPart(s: string, t: string, i: nat, j: nat, k: nat)
    requires i <= j <= |s| && k + |t| <= j - i
    ensures OccursAt(s[i..j], t, k) <==> OccursAt(s, t, i + k)
  {
    var part, whole := s[i..j][k..k + |t|], s[i + k..i + k + |t|];
    assert forall m :: 0 <= m < |t| ==> part[m] == whole[m];
    assert part == whole;
  }

  lemma OccursInPrefix(a: string, b: string, t: string, k: nat)
    requires k + |t| <= |a|
    ensures OccursAt(a + b, t, k) <==> OccursAt(a, t, k)
  {
    assert (a + b)[k..k + |t|] == a[k..k + |t|];
  }

  /** A part of a text without `t` has no `t` either. */
  lemma NotInPart(s: string, t: string, i: nat, j: nat)
    requires i <= j <= |s| && !Contains(s, t)
    ensures !Contains(s[i..j], t)
  {
    forall k: nat | k + |t| <= j - i
      ensures !OccursAt(s[i..j], t, k)
    {
      OccursInPart(s, t, i, j, k);
    }
  }

  /** The leftmost occurrence is leftmost in every part that holds it. */
  lemma FindInPart(s: string, t: string, i: nat, j: nat, k: nat)
    requires i <= k && k + |t| <= j <= |s| && Find(s, t) == Some(k)
    ensures Find(s[i..j], t) == Some(k - i)
  {
    OccursInPart(s, t, i, j, k - i);
    forall m: nat | m < k - i
      ensures !OccursAt(s[i..j], t, m)
    {
      OccursInPart(s, t, i, j, m);
    }
  }

  /** What stands between a scheme and an authority. */
  const SEP := "://"

  lemma SeparatorChars(s: string, k: nat)
    ensures OccursAt(s, SEP, k) ==> k + 3 <= |s| && s[k] == ':' && s[k + 1] == '/' && s[k + 2] == '/'
  {
    if OccursAt(s, SEP, k) {
      var found := s[k..k + 3];
      assert found[0] == s[k] && found[1] == s[k + 1] && found[2] == s[k + 2];
    }
  }

  /** The separator has no overlap with itself, so it is found right behind a text without one. */
  lemma SeparatorBehind(before: string, after: string)
    requires !Contains(before, SEP)
    ensures Find(before + SEP + after, SEP) == Some(|before|)
  {
    var s, n := before + SEP + after, |before|;
    assert s[n..n + 3] == SEP;
    assert OccursAt(s, SEP, n);
    SeparatorChars(s, n);
    assert s == before + (SEP + after);
    forall k: nat | k < n
      ensures !OccursAt(s, SEP, k)
    {
      SeparatorChars(s, k);
      if k + 3 <= n {
        OccursInPrefix(before, SEP + after, SEP, k);
      }
    }
    assert Find(s, SEP) == Some(n);
  }

  lemma NoSeparatorBefore(s: string, sep: nat, a: nat)
    requires Find(s, SEP) == Some(sep) && a <= sep
    ensures !Contains(s[..a], SEP)
  {
    forall k: nat | k + 3 <= a
      ensures !OccursAt(s[..a], SEP, k)
    {
      assert s[..a] == s[0..a];
      OccursInPart(s, SEP, 0, a, k);
    }
  }

  lemma SliceOfSlice(s: string, i: nat, n: nat, j: nat)
    requires i + n <= j <= |s|
    ensures s[i..j][..n] == s[i..i + n] && s[i..j][n..] == s[i + n..j]
  {
  }

  /** Index of the first character at or after `i` satisfying `p`, or the length. */
  function FirstFrom(s: string, i: nat, p: char -> bool): (n: nat)
    requires i <= |s|
    ensures i <= n <= |s|
    ensures forall j :: i <= j < n ==> !p(s[j])
    ensures n < |s| ==> p(s[n])
    decreases |s| - i
  {
    if i == |s| || p(s[i]) then i else FirstFrom(s, i + 1, p)
  }

  /** One past the index of the last character before `n` satisfying `p`, or zero. */
  function LastBefore(s: string, n: nat, p: char -> bool): (i: nat)
    requires n <= |s|
    ensures i <= n
    ensures forall j :: i <= j < n ==> !p(s[j])
    ensures i > 0 ==> p(s[i - 1])
  {
    if n == 0 || p(s[n - 1]) then n else LastBefore(s, n - 1, p)
  }

  /** Index of the first character satisfying `p`, or the length. */
  function FirstIndex(s: string, p: char -> bool): (i: nat)
    ensures i <= |s|
    ensures forall j :: 0 <= j < i ==> !p(s[j])
    ensures i < |s| ==> p(s[i])
  {
    if s == "" || p(s[0]) then 0 else 1 + FirstIndex(s[1..], p)
  }

  /** One past the index of the last character satisfying `p`, or zero. */
  function AfterLast(s: string, p: char -> bool): (i: nat)
    ensures i <= |s|
    ensures forall j :: i <= j < |s| ==> !p(s[j])
    ensures i > 0 ==> p(s[i - 1])
  {
    if s == "" then 0
    else if p(s[|s| - 1]) then |s|
    else AfterLast(s[..|s| - 1], p)
  }

  predicate Lacks(s: string, p: char -> bool)
  {
    forall i :: 0 <= i < |s| ==> !p(s[i])
  }

  lemma AfterLastIs(front: string, back: string, p: char -> bool)
    requires front == "" || p(front[|front| - 1])
    requires Lacks(back, p)
    ensures AfterLast(front + back, p) == |front|
  {
    hide AfterLast;
    var s := front + back;
    assert forall i :: |front| <= i < |s| ==> s[i] == back[i - |front|];
    assert front != "" ==> s[|front| - 1] == front[|front| - 1];
  }

  predicate IsAt(c: char)
  {
    c == '@'
  }

  /** Unicode `White_Space`, which is what `char::is_whitespace` tests. */
  predicate IsWhitespace(c: char)
  {
    || '\U{9}' <= c <= '\U{D}' || c == ' ' || c == '\U{85}' || c == '\U{A0}' || c == '\U{1680}'
    || '\U{2000}' <= c <= '\U{200A}' || c == '\U{2028}' || c == '\U{2029}'
    || c == '\U{202F}' || c == '\U{205F}' || c == '\U{3000}'
  }

  predicate IsAsciiAlphabetic(c: char)
  {
    'a' <= c <= 'z' || 'A' <= c <= 'Z'
  }

  predicate IsAsciiDigit(c: char)
  {
    '0' <= c <= '9'
  }

  function AsciiLowerChar(c: char): char
  {
    if 'A' <= c <= 'Z' then c - 'A' + 'a' else c
  }

  /** `to_ascii_lowercase`. */
  function AsciiLower(s: string): (r: string)
    ensures |r| == |s|
    ensures forall i :: 0 <= i < |s| ==> r[i] == AsciiLowerChar(s[i])
  {
    seq(|s|, i requires 0 <= i < |s| => AsciiLowerChar(s[i]))
  }

  predicate EqIgnoreAsciiCase(a: string, b: string)
  {
    AsciiLower(a) == AsciiLower(b)
  }

  predicate IsNotWhitespace(c: char)
  {
    !IsWhitespace(c)
  }

  predicate AllWhitespace(s: string)
  {
    forall i :: 0 <= i < |s| ==> IsWhitespace(s[i])
  }

  /** No whitespace at either end. */
  predicate IsTrimmed(s: string)
  {
    s == "" || (!IsWhitespace(s[0]) && !IsWhitespace(s[|s| - 1]))
  }

  /** `str::trim`. */
  function Trim(s: string): (r: string)
    ensures IsTrimmed(r)
  {
    var start := FirstIndex(s, IsNotWhitespace);
    var t := s[start..];
    t[..AfterLast(t, IsNotWhitespace)]
  }

  /** Trimming takes whitespace off both ends, and nothing else. */
  lemma TrimParts(s: string) returns (front: string, back: string)
    ensures AllWhitespace(front) && AllWhitespace(back) && s == front + Trim(s) + back
  {
    hide FirstIndex, AfterLast;
    var start := FirstIndex(s, IsNotWhitespace);
    var t := s[start..];
    var end := AfterLast(t, IsNotWhitespace);
    front, back := s[..start], t[end..];
    assert s == s[..start] + (t[..end] + t[end..]);
  }

  lemma TrimIsWhatIsLeft(front: string, s: string, back: string)
    requires AllWhitespace(front) && AllWhitespace(back) && IsTrimmed(s)
    ensures Trim(front + s + back) == s
  {
    hide FirstIndex, AfterLast;
    var w := front + s + back;
    var start := FirstIndex(w, IsNotWhitespace);
    assert forall i :: 0 <= i < |front| ==> w[i] == front[i];
    if s == "" {
      assert forall i :: |front| <= i < |w| ==> w[i] == back[i - |front|];
      assert start == |w| && w[start..] == "";
    } else {
      assert w[|front|] == s[0];
      assert start == |front| && w[start..] == s + back;
      AfterLastIs(s, back, IsNotWhitespace);
    }
  }

  lemma TrimPadded(front: string, s: string, back: string)
    requires AllWhitespace(front) && AllWhitespace(back)
    ensures Trim(front + s + back) == Trim(s)
  {
    hide Trim, IsWhitespace;
    var f, b := TrimParts(s);
    assert front + s + back == (front + f) + Trim(s) + (b + back);
    assert forall i :: 0 <= i < |f| ==> (front + f)[|front| + i] == f[i];
    TrimIsWhatIsLeft(front + f, Trim(s), b + back);
  }

  lemma TrimmedIsItself(s: string)
    requires IsTrimmed(s)
    ensures Trim(s) == s
  {
    TrimIsWhatIsLeft("", s, "");
    assert "" + s + "" == s;
  }

  /** The same text up to the case of ASCII letters; `p` is in lower case. */
  predicate SpellsIgnoringCase(s: string, p: string)
  {
    && |s| == |p|
    && forall i :: 0 <= i < |p| ==> s[i] == p[i] || ('a' <= p[i] <= 'z' && s[i] == p[i] - 'a' + 'A')
  }

  predicate HasNoUpperCase(p: string)
  {
    forall i :: 0 <= i < |p| ==> !('A' <= p[i] <= 'Z')
  }

  lemma EqIgnoresCaseOnly(s: string, p: string)
    requires HasNoUpperCase(p)
    ensures EqIgnoreAsciiCase(s, p) <==> SpellsIgnoringCase(s, p)
  {
    hide AsciiLower;
    assert forall i :: 0 <= i < |p| ==> AsciiLower(p)[i] == p[i];
    if SpellsIgnoringCase(s, p) {
      assert AsciiLower(s) == AsciiLower(p);
    }
    if AsciiLower(s) == AsciiLower(p) {
      assert |s| == |p|;
      assert forall i :: 0 <= i < |p| ==> AsciiLowerChar(s[i]) == p[i];
    }
  }

  predicate IsUpperOf(u: char, c: char)
  {
    'a' <= c <= 'z' && u == c - 'a' + 'A'
  }

  /** The same text but for the case of ASCII letters. */
  predicate SameIgnoringCase(a: string, b: string)
  {
    && |a| == |b|
    && forall i :: 0 <= i < |a| ==> a[i] == b[i] || IsUpperOf(a[i], b[i]) || IsUpperOf(b[i], a[i])
  }

  lemma AsciiLowerIgnoresCase(a: string, b: string)
    ensures AsciiLower(a) == AsciiLower(b) <==> SameIgnoringCase(a, b)
  {
    hide AsciiLower;
    if SameIgnoringCase(a, b) {
      assert AsciiLower(a) == AsciiLower(b);
    }
    if AsciiLower(a) == AsciiLower(b) {
      assert |a| == |b|;
      assert forall i :: 0 <= i < |a| ==> AsciiLower(a)[i] == AsciiLower(b)[i];
      assert forall i :: 0 <= i < |a| ==> AsciiLowerChar(a[i]) == AsciiLowerChar(b[i]);
    }
  }
}
