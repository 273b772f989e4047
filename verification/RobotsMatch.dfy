/** The wildcard matcher of the robots.txt engine against the meaning RFC 9309 gives to `*` and `$`. */
module RobotsMatch {
  import opened Text

  /** Section 2.2.3 of RFC 9309: `*` stands for any run of characters, every other character for
      itself, and the whole of `w` is consumed. */
  ghost predicate Full(pat: string, w: string)
    decreases |pat|
  {
    if pat == "" then w == ""
    else if pat[0] == '*' then exists k :: 0 <= k <= |w| && Full(pat[1..], w[k..])
    else w != "" && w[0] == pat[0] && Full(pat[1..], w[1..])
  }

  predicate EndsWithDollar(pattern: string)
  {
    pattern != "" && pattern[|pattern| - 1] == '$'
  }

  /** The pattern without one trailing `$`. */
  function Body(pattern: string): string
  {
    if EndsWithDollar(pattern) then pattern[..|pattern| - 1] else pattern
  }

  /** What the standard asks for: the pattern matches a prefix of the path, or all of it under `$`. */
  ghost predicate RfcMatch(path: string, pattern: string)
  {
    if EndsWithDollar(pattern) then Full(Body(pattern), path)
    else exists n :: 0 <= n <= |path| && Full(Body(pattern), path[..n])
  }

  /** What the code answers. Under `$` it wants the path matched and no proper prefix of it matched,
      because the leftmost placement of the segments is the only one it looks at. */
  ghost predicate Verdict(path: string, pattern: string)
  {
    if EndsWithDollar(pattern) then
      && Full(Body(pattern), path)
      && forall n :: 0 <= n < |path| ==> !Full(Body(pattern), path[..n])
    else
      exists n :: 0 <= n <= |path| && Full(Body(pattern), path[..n])
  }

  // ----- concatenation of patterns -----

  lemma {:induction false} FullJoin(a: string, b: string, u: string, v: string)
    requires Full(a, u) && Full(b, v)
    ensures Full(a + b, u + v)
    decreases |a|
  {
    if a == "" {
      assert a + b == b && u + v == v;
    } else {
      assert (a + b)[1..] == a[1..] + b;
      if a[0] == '*' {
        var k :| 0 <= k <= |u| && Full(a[1..], u[k..]);
        FullJoin(a[1..], b, u[k..], v);
        assert (u + v)[k..] == u[k..] + v;
      } else {
        FullJoin(a[1..], b, u[1..], v);
        assert (u + v)[1..] == u[1..] + v;
      }
    }
  }

  lemma {:induction false} FullSplit(a: string, b: string, w: string) returns (k: nat)
    requires Full(a + b, w)
    ensures k <= |w| && Full(a, w[..k]) && Full(b, w[k..])
    decreases |a|
  {
    if a == "" {
      assert a + b == b && w[0..] == w;
      k := 0;
    } else {
      assert (a + b)[1..] == a[1..] + b;
      if a[0] == '*' {
        var j :| 0 <= j <= |w| && Full((a + b)[1..], w[j..]);
        var m := FullSplit(a[1..], b, w[j..]);
        k := j + m;
        SplitBehind(w, j, m);
      } else {
        var m := FullSplit(a[1..], b, w[1..]);
        k := 1 + m;
        SplitBehind(w, 1, m);
      }
    }
  }

  lemma SplitBehind(w: string, j: nat, m: nat)
    requires j + m <= |w|
    ensures w[..j + m][j..] == w[j..][..m] && w[j + m..] == w[j..][m..]
  {
  }

  lemma {:induction false} FullLiteral(t: string, w: string)
    requires '*' !in t
    ensures Full(t, w) <==> w == t
    decreases |t|
  {
    if t != "" {
      assert t[0] in t;
      assert t == [t[0]] + t[1..];
      if w != "" {
        assert w == [w[0]] + w[1..];
        FullLiteral(t[1..], w[1..]);
      }
    }
  }

  lemma FullStar(w: string)
    ensures Full("*", w)
  {
    assert w[|w|..] == "" && "*"[1..] == "" && Full("", w[|w|..]);
  }

  /** A star-free segment after a star may sit anywhere behind the end of what precedes it. */
  lemma StarSegmentIntro(b: string, seg: string, w: string, n: nat)
    requires '*' !in seg && n + |seg| <= |w|
    requires Full(b, w[..n]) && w[|w| - |seg|..] == seg
    ensures Full(b + "*" + seg, w)
  {
    hide Full;
    var gap := w[n..|w| - |seg|];
    FullLiteral(seg, seg);
    FullStar(gap);
    FullJoin(b, "*", w[..n], gap);
    FullJoin(b + "*", seg, w[..n] + gap, seg);
    assert w == w[..n] + gap + seg;
  }

  lemma StarSegmentElim(b: string, seg: string, path: string, n: nat) returns (m: nat)
    requires '*' !in seg && n <= |path| && Full(b + "*" + seg, path[..n])
    ensures m + |seg| <= n && Full(b, path[..m]) && path[n - |seg|..n] == seg
  {
    hide Full;
    var k := FullSplit(b + "*", seg, path[..n]);
    FullLiteral(seg, path[..n][k..]);
    assert path[..n][..k] == path[..k];
    m := FullSplit(b, "*", path[..k]);
    assert path[..k][..m] == path[..m];
  }

  // ----- splitting at the stars -----

  /** `pattern.split('*')`. */
  function Segments(p: string): (segs: seq<string>)
    ensures |segs| >= 1
    ensures forall i :: 0 <= i < |segs| ==> '*' !in segs[i]
    ensures Join(segs) == p
    decreases |p|
  {
    if p == "" then [""]
    else
      var init, c := p[..|p| - 1], p[|p| - 1];
      var segs := Segments(init);
      assert p == init + [c];
      if c == '*' then
        assert (segs + [""])[..|segs|] == segs;
        segs + [""]
      else
        var n := |segs| - 1;
        var r := segs[..n] + [segs[n] + [c]];
        assert r[..n] == segs[..n];
        r
  }

  function Join(segs: seq<string>): string
    requires |segs| >= 1
  {
    if |segs| == 1 then segs[0] else Join(segs[..|segs| - 1]) + "*" + segs[|segs| - 1]
  }

  lemma JoinStep(segs: seq<string>, i: nat)
    requires 1 <= i < |segs|
    ensures Join(segs[..i + 1]) == Join(segs[..i]) + "*" + segs[i]
  {
    assert segs[..i + 1][..i] == segs[..i];
  }

  /** A match of the whole pattern contains a match of its first `i` segments. */
  lemma {:induction false} MatchOfFirstSegments(segs: seq<string>, i: nat, path: string, n: nat) returns (k: nat)
    requires 1 <= i <= |segs| && n <= |path| && Full(Join(segs), path[..n])
    ensures k <= n && Full(Join(segs[..i]), path[..k])
    decreases |segs|
  {
    hide Full;
    if i == |segs| {
      assert segs[..i] == segs;
      k := n;
    } else {
      var last := |segs| - 1;
      assert Join(segs) == Join(segs[..last]) + ("*" + segs[last]);
      var m := FullSplit(Join(segs[..last]), "*" + segs[last], path[..n]);
      assert path[..n][..m] == path[..m];
      k := MatchOfFirstSegments(segs[..last], i, path, m);
      assert segs[..last][..i] == segs[..i];
    }
  }

  // ----- the greedy scan -----

  /** `end` is the shortest prefix length of `path` that `b` matches in full. */
  ghost predicate LeastEnd(b: string, path: string, end: nat)
  {
    && end <= |path|
    && Full(b, path[..end])
    && forall n :: 0 <= n < end ==> !Full(b, path[..n])
  }

  ghost predicate NoEnd(b: string, path: string)
  {
    forall n :: 0 <= n <= |path| ==> !Full(b, path[..n])
  }

  /** The exchange argument: taking the leftmost occurrence after the least end keeps the end least. */
  lemma LeastEndStep(b: string, seg: string, path: string, pos: nat, idx: nat)
    requires '*' !in seg && LeastEnd(b, path, pos)
    requires OccursAt(path[pos..], seg, idx)
    requires forall j :: j < idx ==> !OccursAt(path[pos..], seg, j)
    ensures LeastEnd(b + "*" + seg, path, pos + idx + |seg|)
  {
    hide Full;
    var end := pos + idx + |seg|;
    assert path[..end][..pos] == path[..pos];
    assert path[..end][end - |seg|..] == path[pos..][idx..idx + |seg|];
    StarSegmentIntro(b, seg, path[..end], pos);
    forall n | 0 <= n < end
      ensures !Full(b + "*" + seg, path[..n])
    {
      if Full(b + "*" + seg, path[..n]) {
        SegmentOccursBehind(b, seg, path, pos, n);
      }
    }
  }

  lemma OccursBehind(path: string, seg: string, pos: nat, n: nat)
    requires pos + |seg| <= n <= |path| && path[n - |seg|..n] == seg
    ensures OccursAt(path[pos..], seg, n - |seg| - pos)
  {
    var j := n - |seg| - pos;
    assert path[pos..][j..j + |seg|] == path[n - |seg|..n];
  }

  /** Any match of `b * seg` places `seg` behind the least end of `b`. */
  lemma SegmentOccursBehind(b: string, seg: string, path: string, pos: nat, n: nat)
    requires '*' !in seg && LeastEnd(b, path, pos)
    requires n <= |path| && Full(b + "*" + seg, path[..n])
    ensures pos + |seg| <= n && OccursAt(path[pos..], seg, n - |seg| - pos)
  {
    hide Full;
    var m := StarSegmentElim(b, seg, path, n);
    assert pos <= m;
    OccursBehind(path, seg, pos, n);
  }

  lemma NoEndStep(b: string, seg: string, path: string, pos: nat)
    requires '*' !in seg && LeastEnd(b, path, pos)
    requires forall j :: !OccursAt(path[pos..], seg, j)
    ensures NoEnd(b + "*" + seg, path)
  {
    hide Full;
    forall n | 0 <= n <= |path|
      ensures !Full(b + "*" + seg, path[..n])
    {
      if Full(b + "*" + seg, path[..n]) {
        SegmentOccursBehind(b, seg, path, pos, n);
      }
    }
  }

  lemma NoEndOfFirstSegments(segs: seq<string>, i: nat, path: string)
    requires 1 <= i <= |segs| && NoEnd(Join(segs[..i]), path)
    ensures NoEnd(Join(segs), path)
  {
    hide Full;
    forall n | 0 <= n <= |path|
      ensures !Full(Join(segs), path[..n])
    {
      if Full(Join(segs), path[..n]) {
        var k := MatchOfFirstSegments(segs, i, path, n);
      }
    }
  }

  lemma FirstSegmentEnd(seg: string, path: string)
    requires '*' !in seg
    ensures seg <= path ==> LeastEnd(seg, path, |seg|)
    ensures !(seg <= path) ==> NoEnd(seg, path)
  {
    hide Full;
    forall n | 0 <= n <= |path|
      ensures Full(seg, path[..n]) <==> path[..n] == seg
    {
      FullLiteral(seg, path[..n]);
    }
  }

  /** The verdict read off the least end, which is what the scan computes. */
  lemma VerdictFromEnd(path: string, pattern: string, end: nat)
    requires LeastEnd(Body(pattern), path, end)
    ensures Verdict(path, pattern) <==> (EndsWithDollar(pattern) ==> end == |path|)
  {
    hide Full;
    assert path[..|path|] == path;
  }

  lemma VerdictFromNoEnd(path: string, pattern: string)
    requires NoEnd(Body(pattern), path)
    ensures !Verdict(path, pattern)
  {
    hide Full;
    assert path[..|path|] == path;
  }

  method MatchesPattern(path: string, pattern: string) returns (ok: bool)
    ensures ok <==> Verdict(path, pattern)
  {
    hide Full;
    var anchoredEnd := EndsWithDollar(pattern);
    var body := Body(pattern);
    if '*' !in body {
      FirstSegmentEnd(body, path);
      if body <= path {
        VerdictFromEnd(path, pattern, |body|);
      } else {
        VerdictFromNoEnd(path, pattern);
      }
      ok := if anchoredEnd then path == body else body <= path;
    } else {
      var segments := Segments(body);
      var pos := 0;
      for i := 0 to |segments|
        invariant 0 <= pos <= |path|
        invariant i == 0 ==> pos == 0
        invariant i > 0 ==> LeastEnd(Join(segments[..i]), path, pos)
      {
        var segment := segments[i];
        if i == 0 {
          assert segments[..1] == [segment];
          FirstSegmentEnd(segment, path);
        } else {
          JoinStep(segments, i);
        }
        if segment == "" {
          if i > 0 {
            LeastEndStep(Join(segments[..i]), segment, path, pos, 0);
          }
          continue;
        }
        if i == 0 {
          if !(segment <= path[pos..]) {
            NoEndOfFirstSegments(segments, 1, path);
            VerdictFromNoEnd(path, pattern);
            return false;
          }
          pos := pos + |segment|;
        } else {
          match Find(path[pos..], segment) {
            case Some(idx) =>
              LeastEndStep(Join(segments[..i]), segment, path, pos, idx);
              pos := pos + idx + |segment|;
            case None =>
              NoEndStep(Join(segments[..i]), segment, path, pos);
              NoEndOfFirstSegments(segments, i + 1, path);
              VerdictFromNoEnd(path, pattern);
              return false;
          }
        }
      }
      assert segments[..|segments|] == segments;
      VerdictFromEnd(path, pattern, pos);
      ok := if anchoredEnd then pos == |path| else true;
    }
  }

  // ----- where the code meets the standard -----

  /** Every path the code matches, the standard matches. */
  lemma Sound(path: string, pattern: string)
    requires Verdict(path, pattern)
    ensures RfcMatch(path, pattern)
  {
    hide Full;
  }

  function WithoutStars(p: string): string
  {
    if p == "" then "" else (if p[0] == '*' then "" else [p[0]]) + WithoutStars(p[1..])
  }

  lemma {:induction false} FullOfLiterals(p: string)
    ensures Full(p, WithoutStars(p))
    decreases |p|
  {
    if p != "" {
      var w := WithoutStars(p);
      FullOfLiterals(p[1..]);
      if p[0] == '*' {
        assert w[0..] == WithoutStars(p[1..]);
      } else {
        assert w[1..] == WithoutStars(p[1..]);
      }
    }
  }

  /** A pattern with both a star and a final `$` always has a path the standard matches and the code
      does not: one whose proper prefix already matches. */
  lemma MissedPath(pattern: string) returns (path: string)
    requires EndsWithDollar(pattern) && '*' in Body(pattern)
    ensures RfcMatch(path, pattern) && !Verdict(path, pattern)
  {
    hide Full;
    var body := Body(pattern);
    var cut := AfterLast(body, c => c == '*');
    var a, t := body[..cut - 1], body[cut..];
    assert body == a + "*" + t;
    var w := WithoutStars(a) + t;
    var more := if t == "" then "a" else t;
    path := w + more;
    FullOfLiterals(a);
    assert w[..|WithoutStars(a)|] == WithoutStars(a) == path[..|WithoutStars(a)|];
    StarSegmentIntro(a, t, w, |WithoutStars(a)|);
    StarSegmentIntro(a, t, path, |WithoutStars(a)|);
    assert path[..|w|] == w;
  }

  lemma FullTwoEnds(body: string, path: string, n: nat)
    requires '*' !in body && n <= |path| && Full(body, path) && Full(body, path[..n])
    ensures n == |path|
  {
    hide Full;
    FullLiteral(body, path);
    FullLiteral(body, path[..n]);
  }

  /** The code agrees with the standard on every path exactly when the pattern does not combine a
      star with a final `$`. */
  lemma ExactIffNotStarAndDollar(pattern: string)
    ensures (forall path :: Verdict(path, pattern) <==> RfcMatch(path, pattern))
       <==> !(EndsWithDollar(pattern) && '*' in Body(pattern))
  {
    hide Full;
    if EndsWithDollar(pattern) && '*' in Body(pattern) {
      var path := MissedPath(pattern);
      assert !(Verdict(path, pattern) <==> RfcMatch(path, pattern));
    } else {
      forall path
        ensures Verdict(path, pattern) <==> RfcMatch(path, pattern)
      {
        if EndsWithDollar(pattern) && RfcMatch(path, pattern) {
          forall n | 0 <= n < |path|
            ensures !Full(Body(pattern), path[..n])
          {
            if Full(Body(pattern), path[..n]) {
              FullTwoEnds(Body(pattern), path, n);
            }
          }
        }
      }
    }
  }

  // Two paths that the standard's reading of a Disallow pattern forbids and the code lets through.
  lemma StarDollarCounterexamples()
    ensures RfcMatch("/a.pdf.pdf", "/*.pdf$") && !Verdict("/a.pdf.pdf", "/*.pdf$")
    ensures RfcMatch("/x", "/*$") && !Verdict("/x", "/*$")
  {
    hide Full;
    var p := "/a.pdf.pdf";
    FullLiteral("/", "/");
    assert Body("/*.pdf$") == "/" + "*" + ".pdf";
    assert p[..1] == "/" && p[|p| - 4..] == ".pdf";
    StarSegmentIntro("/", ".pdf", p, 1);
    assert p[..6] == "/a.pdf" && p[..6][..1] == "/" && p[..6][|p[..6]| - 4..] == ".pdf";
    StarSegmentIntro("/", ".pdf", p[..6], 1);

    var x := "/x";
    assert Body("/*$") == "/" + "*" + "";
    assert x[..1] == "/" && x[|x|..] == "";
    StarSegmentIntro("/", "", x, 1);
    assert x[..1][..1] == "/" && x[..1][|x[..1]|..] == "";
    StarSegmentIntro("/", "", x[..1], 1);
  }
}
