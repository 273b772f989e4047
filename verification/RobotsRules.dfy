/** Choosing among the rules that match a path: section 2.2.2 of RFC 9309. */
module RobotsRules {
  import opened RobotsMatch
  import opened RobotsParse

  /** `effective_pattern_len`: the characters other than `*` and `$`. */
  function EffectiveLen(pattern: string): nat
  {
    if pattern == "" then 0
    else (if pattern[0] != '*' && pattern[0] != '$' then 1 else 0) + EffectiveLen(pattern[1..])
  }

  /** The specificity of a pattern is the number of its characters that are no wildcards. */
  lemma {:induction false} EffectiveLenCounts(pattern: string)
    ensures EffectiveLen(pattern) == |pattern| - multiset(pattern)['*'] - multiset(pattern)['$']
  {
    if pattern != "" {
      EffectiveLenCounts(pattern[1..]);
      assert pattern == [pattern[0]] + pattern[1..];
    }
  }

  /** `rule` matches `path` and is of the given kind. */
  ghost predicate Applies(rule: Rule, allow: bool, path: string)
  {
    rule.allow == allow && Verdict(path, rule.pattern)
  }

  /** `rule` forbids `path` and no Allow is as specific. */
  ghost predicate Forbids(rule: Rule, rules: seq<Rule>, path: string)
  {
    && Applies(rule, false, path)
    && EffectiveLen(rule.pattern) > 0
    && forall a :: a in rules && Applies(a, true, path) ==> EffectiveLen(a.pattern) < EffectiveLen(rule.pattern)
  }

  ghost predicate Forbidden(rules: seq<Rule>, path: string)
  {
    exists d :: d in rules && Forbids(d, rules, path)
  }

  /** The best match among `rules` has specificity `len` and, unless it is the initial none, this sense. */
  ghost predicate BestOf(rules: seq<Rule>, path: string, len: nat, found: bool, allow: bool)
  {
    && (forall r :: r in rules && Verdict(path, r.pattern) ==> EffectiveLen(r.pattern) <= len)
    && (!found ==> len == 0 && forall r :: r in rules ==> !Applies(r, true, path))
    && (found ==> exists r :: r in rules && Applies(r, allow, path) && EffectiveLen(r.pattern) == len)
    && (found && !allow ==>
          len > 0 && forall a :: a in rules && Applies(a, true, path) ==> EffectiveLen(a.pattern) < len)
  }

  lemma BestOfExtended(rules: seq<Rule>, rule: Rule, path: string, len: nat, found: bool, allow: bool)
    requires BestOf(rules, path, len, found, allow)
    ensures var n := EffectiveLen(rule.pattern);
      if Verdict(path, rule.pattern) && (n > len || (n == len && rule.allow)) then
        BestOf(rules + [rule], path, n, true, rule.allow)
      else
        BestOf(rules + [rule], path, len, found, allow)
  {
    assert forall r :: r in rules + [rule] <==> r in rules || r == rule;
  }

  lemma ForbiddenIffBestDisallows(rules: seq<Rule>, path: string, len: nat, found: bool, allow: bool)
    requires BestOf(rules, path, len, found, allow)
    ensures Forbidden(rules, path) <==> found && !allow
  {
    if found && !allow {
      var d :| d in rules && Applies(d, allow, path) && EffectiveLen(d.pattern) == len;
      assert Forbids(d, rules, path);
    } else if found {
      var a :| a in rules && Applies(a, true, path) && EffectiveLen(a.pattern) == len;
    }
  }

  method IsAllowed(rules: seq<Rule>, path: string) returns (ok: bool)
    ensures ok <==> !Forbidden(rules, path)
  {
    var bestFound, bestAllow := false, false;
    var bestLen: nat := 0;
    for i := 0 to |rules|
      invariant BestOf(rules[..i], path, bestLen, bestFound, bestAllow)
    {
      var rule := rules[i];
      assert rules[..i + 1] == rules[..i] + [rule];
      BestOfExtended(rules[..i], rule, path, bestLen, bestFound, bestAllow);
      var matched := MatchesPattern(path, rule.pattern);
      if matched {
        var len := EffectiveLen(rule.pattern);
        if len > bestLen || (len == bestLen && rule.allow) {
          bestLen, bestFound, bestAllow := len, true, rule.allow;
        }
      }
    }
    assert rules[..|rules|] == rules;
    ForbiddenIffBestDisallows(rules, path, bestLen, bestFound, bestAllow);
    ok := !bestFound || bestAllow;
  }

  /** The verdict does not depend on the order of the rules, nor on repetitions. */
  lemma OrderIrrelevant(rules: seq<Rule>, others: seq<Rule>, path: string)
    requires forall r :: r in rules <==> r in others
    ensures Forbidden(rules, path) <==> Forbidden(others, path)
  {
    if Forbidden(rules, path) {
      var d :| d in rules && Forbids(d, rules, path);
      assert Forbids(d, others, path);
    }
    if Forbidden(others, path) {
      var d :| d in others && Forbids(d, others, path);
      assert Forbids(d, rules, path);
    }
  }

  /** One more Allow never forbids a path, one more Disallow never opens one. */
  lemma RulesAreMonotone(rules: seq<Rule>, rule: Rule, path: string)
    ensures rule.allow && Forbidden(rules + [rule], path) ==> Forbidden(rules, path)
    ensures !rule.allow && Forbidden(rules, path) ==> Forbidden(rules + [rule], path)
  {
    assert forall r :: r in rules + [rule] <==> r in rules || r == rule;
    if rule.allow && Forbidden(rules + [rule], path) {
      var d :| d in rules + [rule] && Forbids(d, rules + [rule], path);
      assert Forbids(d, rules, path);
    }
    if !rule.allow && Forbidden(rules, path) {
      var d :| d in rules && Forbids(d, rules, path);
      assert Forbids(d, rules + [rule], path);
    }
  }

  // ----- rules without effect -----

  lemma {:induction false} FullIsLongEnough(p: string, w: string)
    requires Full(p, w)
    ensures |w| >= |WithoutStars(p)|
    decreases |p|
  {
    if p != "" {
      if p[0] == '*' {
        var k :| 0 <= k <= |w| && Full(p[1..], w[k..]);
        FullIsLongEnough(p[1..], w[k..]);
      } else {
        FullIsLongEnough(p[1..], w[1..]);
      }
    }
  }

  /** The code matches every pattern on some path: its own literals. */
  lemma MatchesItsLiterals(pattern: string)
    ensures Verdict(WithoutStars(Body(pattern)), pattern)
  {
    hide Full;
    var body := Body(pattern);
    var path := WithoutStars(body);
    FullOfLiterals(body);
    assert path[..|path|] == path;
    forall n | 0 <= n < |path|
      ensures !Full(body, path[..n])
    {
      if Full(body, path[..n]) {
        FullIsLongEnough(body, path[..n]);
      }
    }
  }

  /** Adding this Disallow never changes a verdict. */
  ghost predicate ForbidsNothing(pattern: string)
  {
    forall rules: seq<Rule>, path: string :: SameVerdict(rules, rules + [Rule(pattern, false)], path)
  }

  ghost predicate SameVerdict(rules: seq<Rule>, others: seq<Rule>, path: string)
  {
    Forbidden(rules, path) <==> Forbidden(others, path)
  }

  /** A Disallow has no effect among any rules on any path, whatever it matches, exactly when it has no
      specificity: when it is made of stars and dollars only. */
  lemma ForbidsNothingIff(pattern: string)
    ensures ForbidsNothing(pattern) <==> EffectiveLen(pattern) == 0
  {
    hide Verdict;
    var rule := Rule(pattern, false);
    if EffectiveLen(pattern) == 0 {
      forall rules: seq<Rule>, path: string
        ensures SameVerdict(rules, rules + [rule], path)
      {
        RulesAreMonotone(rules, rule, path);
        assert forall r :: r in rules + [rule] <==> r in rules || r == rule;
      }
    } else {
      var path := WithoutStars(Body(pattern));
      MatchesItsLiterals(pattern);
      assert [] + [rule] == [rule];
      assert rule in [rule] && Forbids(rule, [rule], path);
      assert !SameVerdict([], [] + [rule], path);
    }
  }

  lemma {:induction false} WildcardsOnlyIff(pattern: string)
    ensures EffectiveLen(pattern) == 0 <==> forall i :: 0 <= i < |pattern| ==> pattern[i] == '*' || pattern[i] == '$'
  {
    if pattern != "" {
      WildcardsOnlyIff(pattern[1..]);
      assert forall i :: 0 < i < |pattern| ==> pattern[i] == pattern[1..][i - 1];
      assert forall i :: 0 <= i < |pattern[1..]| ==> pattern[1..][i] == pattern[i + 1];
    }
  }
}
