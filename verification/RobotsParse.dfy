/** The one-pass robots.txt parser against a two-pass reading: first cut the file into groups, then take the
    rules of the groups that bind us, as section 2.2.1 of RFC 9309 asks. Where the cut differs from that of
    the standard, which has unknown lines interfere with nothing (section 2.2.4), is proved as well. */
module RobotsParse {
  import opened Sequences
  import opened Text

  const ROBOTS_PRODUCT_TOKEN := "crw"

  datatype Rule = Rule(pattern: string, allow: bool)

  datatype RobotsTxt = RobotsTxt(rules: seq<Rule>, sitemaps: seq<string>)

  /** What one line says. */
  datatype Record = Ignored | Agent(name: string) | Sitemap(url: string) | Member(rule: Rule) | Unknown

  // ----- lines -----

  /** `text.lines()`: split at line feeds, each with an optional carriage return before it. */
  function Lines(text: string): seq<string>
  {
    if text == "" then []
    else
      var i := FirstIndex(text, c => c == '\n');
      if i == |text| then [text]
      else
        var line := if i > 0 && text[i - 1] == '\r' then text[..i - 1] else text[..i];
        [line] + Lines(text[i + 1..])
  }

  function DirectiveValue(line: string, prefix: string): Option<string>
  {
    if |line| < |prefix| || !EqIgnoreAsciiCase(line[..|prefix|], prefix) then None
    else
      var value := Trim(line[|prefix|..]);
      Some(Trim(value[..FirstIndex(value, c => c == '#')]))
  }

  /** The reading of one line, in the order the prefixes are tried. */
  function Classify(raw: string): Record
  {
    var line := Trim(raw);
    if line == "" || line[0] == '#' then Ignored
    else match DirectiveValue(line, "user-agent:")
      case Some(agent) => Agent(agent)
      case None =>
        match DirectiveValue(line, "sitemap:")
        case Some(url) => Sitemap(url)
        case None =>
          match DirectiveValue(line, "disallow:")
          case Some(pattern) => Member(Rule(pattern, false))
          case None =>
            match DirectiveValue(line, "allow:")
            case Some(pattern) => Member(Rule(pattern, true))
            case None => Unknown
  }

  // ----- pass one: groups -----

  datatype Group = Group(agents: seq<string>, rules: seq<Rule>)

  /** The records that can open or close a group here: blank lines, comments and sitemaps cannot, unknown
      lines can. */
  function GroupRecords(lines: seq<string>): seq<Record>
  {
    if lines == [] then []
    else
      var r := Classify(lines[0]);
      (if r.Ignored? || r.Sitemap? then [] else [r]) + GroupRecords(lines[1..])
  }

  function SitemapUrls(lines: seq<string>): seq<string>
  {
    if lines == [] then []
    else
      var r := Classify(lines[0]);
      (if r.Sitemap? && r.url != "" then [r.url] else []) + SitemapUrls(lines[1..])
  }

  /** The names in the maximal run of agent lines at the front, and what follows that run. */
  function LeadingAgents(rs: seq<Record>): seq<string>
  {
    if rs == [] || !rs[0].Agent? then [] else [rs[0].name] + LeadingAgents(rs[1..])
  }

  function AfterAgents(rs: seq<Record>): (r: seq<Record>)
    ensures |r| <= |rs| && (r != [] ==> !r[0].Agent?)
  {
    if rs == [] || !rs[0].Agent? then rs else AfterAgents(rs[1..])
  }

  /** The rules in the maximal run of other lines at the front, and what follows that run. A rule
      without a pattern states nothing. */
  function LeadingRules(rs: seq<Record>): seq<Rule>
  {
    if rs == [] || rs[0].Agent? then [] else RuleOf(rs[0]) + LeadingRules(rs[1..])
  }

  predicate StatesRule(r: Record)
  {
    r.Member? && r.rule.pattern != ""
  }

  function RuleOf(r: Record): seq<Rule>
  {
    if StatesRule(r) then [r.rule] else []
  }

  function AfterMembers(rs: seq<Record>): (r: seq<Record>)
    ensures |r| <= |rs| && (r != [] ==> r[0].Agent?)
  {
    if rs == [] || rs[0].Agent? then rs else AfterMembers(rs[1..])
  }

  /** Lines before the first agent bind nobody; then each maximal run of agents heads the maximal run
      of other lines behind it. */
  function Groups(rs: seq<Record>): seq<Group>
    decreases |rs|
  {
    var s := AfterMembers(rs);
    if s == [] then []
    else
      var t := AfterAgents(s[1..]);
      [Group(LeadingAgents(s), LeadingRules(t))] + Groups(t)
  }

  // ----- pass two: selection -----

  predicate IsUs(name: string)
  {
    EqIgnoreAsciiCase(name, ROBOTS_PRODUCT_TOKEN)
  }

  predicate NamesUs(agents: seq<string>)
  {
    exists a :: a in agents && IsUs(a)
  }

  predicate NamesEveryone(agents: seq<string>)
  {
    "*" in agents
  }

  predicate NamesOnlyEveryone(agents: seq<string>)
  {
    NamesEveryone(agents) && !NamesUs(agents)
  }

  /** The rules of the groups whose agents satisfy `p`, in file order. */
  function Collect(p: seq<string> -> bool, groups: seq<Group>): seq<Rule>
  {
    if groups == [] then []
    else (if p(groups[0].agents) then groups[0].rules else []) + Collect(p, groups[1..])
  }

  predicate SomeGroupNamesUs(groups: seq<Group>)
  {
    exists g :: g in groups && NamesUs(g.agents)
  }

  /** A group naming us, even an empty one, suppresses every `*` group. */
  function Binding(groups: seq<Group>): seq<Rule>
  {
    if SomeGroupNamesUs(groups) then Collect(NamesUs, groups) else Collect(NamesEveryone, groups)
  }

  // ----- the grouping of the standard -----

  /** The records the standard defines: unknown ones must not interfere with their parsing. */
  function Known(rs: seq<Record>): seq<Record>
  {
    if rs == [] then []
    else if rs[0].Unknown? then Known(rs[1..])
    else [rs[0]] + Known(rs[1..])
  }

  /** Agents at `i` and `j` with at least one line between them, and only unknown ones. */
  predicate SplitAt(rs: seq<Record>, i: nat, j: nat)
  {
    && i + 1 < j < |rs| && rs[i].Agent? && rs[j].Agent?
    && forall k :: i < k < j ==> rs[k].Unknown?
  }

  /** An unknown line cuts a run of agents in two. */
  predicate RunIsSplit(rs: seq<Record>)
  {
    exists i: nat, j: nat :: i < |rs| && j < |rs| && SplitAt(rs, i, j)
  }

  /** The agent at the front is cut off from the next one. */
  predicate HeadIsSplit(rs: seq<Record>)
  {
    && rs != [] && rs[0].Agent? && !(rs[1..] != [] && rs[1].Agent?)
    && Known(rs[1..]) != [] && Known(rs[1..])[0].Agent?
  }

  lemma {:induction false} FirstKnown(rs: seq<Record>) returns (j: nat)
    ensures j <= |rs| && (forall k :: 0 <= k < j ==> rs[k].Unknown?)
    ensures j < |rs| ==> !rs[j].Unknown? && Known(rs) != [] && Known(rs)[0] == rs[j]
    ensures j == |rs| ==> Known(rs) == []
  {
    if rs == [] || !rs[0].Unknown? {
      j := 0;
    } else {
      var i := FirstKnown(rs[1..]);
      assert forall k :: 0 < k < |rs| ==> rs[k] == rs[1..][k - 1];
      j := i + 1;
    }
  }

  lemma HeadIsSplitIff(rs: seq<Record>)
    ensures HeadIsSplit(rs) <==> exists j: nat :: SplitAt(rs, 0, j)
  {
    hide Known;
    if rs != [] && rs[0].Agent? {
      var n := FirstKnown(rs[1..]);
      assert forall k :: 0 < k < |rs| ==> rs[k] == rs[1..][k - 1];
      if HeadIsSplit(rs) {
        assert SplitAt(rs, 0, n + 1);
      }
      if j: nat :| SplitAt(rs, 0, j) {
        assert rs[1].Unknown? && n == j - 1;
      }
    }
  }

  lemma SplitInTail(rs: seq<Record>)
    requires rs != []
    ensures RunIsSplit(rs) <==> (exists j: nat :: SplitAt(rs, 0, j)) || RunIsSplit(rs[1..])
  {
    var rest := rs[1..];
    assert forall k :: 0 < k < |rs| ==> rs[k] == rest[k - 1];
    assert forall k :: 0 <= k < |rest| ==> rest[k] == rs[k + 1];
    if i: nat, j: nat :| i < |rs| && j < |rs| && SplitAt(rs, i, j) {
      if i > 0 {
        assert SplitAt(rest, i - 1, j - 1);
      }
    }
    if i: nat, j: nat :| i < |rest| && j < |rest| && SplitAt(rest, i, j) {
      assert SplitAt(rs, i + 1, j + 1);
    }
  }

  lemma {:induction false} LeadingRulesOfKnown(rs: seq<Record>)
    ensures LeadingRules(Known(rs)) == LeadingRules(rs)
  {
    if rs != [] && !rs[0].Agent? {
      LeadingRulesOfKnown(rs[1..]);
      if rs[0].Unknown? {
        assert [] + LeadingRules(rs[1..]) == LeadingRules(rs[1..]);
      } else {
        assert Known(rs)[1..] == Known(rs[1..]);
      }
    }
  }

  /** One more agent in front of a run joins its group. */
  function Joined(name: string, groups: seq<Group>): seq<Group>
    requires groups != []
  {
    [Group([name] + groups[0].agents, groups[0].rules)] + groups[1..]
  }

  lemma GroupsOfAgent(name: string, rest: seq<Record>)
    ensures var groups := Groups([Agent(name)] + rest);
      if rest != [] && rest[0].Agent? then Groups(rest) != [] && groups == Joined(name, Groups(rest))
      else groups == [Group([name], LeadingRules(rest))] + Groups(rest)
  {
    var rs := [Agent(name)] + rest;
    assert rs[1..] == rest && AfterMembers(rs) == rs;
    if !(rest != [] && rest[0].Agent?) {
      assert AfterAgents(rest) == rest;
      assert LeadingAgents(rs) == [name];
    }
  }

  lemma GroupsOfKnown(r: Record, rest: seq<Record>)
    requires !r.Agent?
    ensures Groups([r] + rest) == Groups(rest) && Groups(Known([r] + rest)) == Groups(Known(rest))
  {
    assert ([r] + rest)[1..] == rest;
    GroupsBehindMember([r] + rest);
    if !r.Unknown? {
      assert ([r] + Known(rest))[1..] == Known(rest);
      GroupsBehindMember([r] + Known(rest));
    }
  }

  lemma JoinedIsInjective(name: string, a: seq<Group>, b: seq<Group>)
    requires a != [] && b != []
    ensures Joined(name, a) == Joined(name, b) <==> a == b
  {
    if Joined(name, a) == Joined(name, b) {
      var x, y := Joined(name, a), Joined(name, b);
      assert x[0].agents[1..] == a[0].agents && y[0].agents[1..] == b[0].agents;
      assert x[1..] == a[1..] && y[1..] == b[1..];
      assert a == [a[0]] + a[1..] && b == [b[0]] + b[1..];
    }
  }

  /** The groups here are those of the standard, or more. */
  lemma {:induction false} GroupsAgree(rs: seq<Record>)
    ensures |Groups(Known(rs))| <= |Groups(rs)|
    ensures Groups(rs) == Groups(Known(rs)) <==> !RunIsSplit(rs)
    decreases |rs|
  {
    if rs != [] {
      hide RunIsSplit, SplitAt, Groups, Known;
      var r, rest := rs[0], rs[1..];
      assert rs == [r] + rest;
      GroupsAgree(rest);
      SplitInTail(rs);
      HeadIsSplitIff(rs);
      if r.Agent? {
        AgentAgrees(r.name, rest);
      } else {
        GroupsOfKnown(r, rest);
      }
    }
  }

  lemma AgentAgrees(name: string, rest: seq<Record>)
    requires |Groups(Known(rest))| <= |Groups(rest)|
    ensures var rs := [Agent(name)] + rest;
      && |Groups(Known(rs))| <= |Groups(rs)|
      && (Groups(rs) == Groups(Known(rs)) <==> !HeadIsSplit(rs) && Groups(rest) == Groups(Known(rest)))
  {
    hide Groups;
    var rs, known := [Agent(name)] + rest, Known(rest);
    assert rs[1..] == rest && Known(rs) == [Agent(name)] + known;
    GroupsOfAgent(name, rest);
    GroupsOfAgent(name, known);
    LeadingRulesOfKnown(rest);
    if rest != [] && rest[0].Agent? {
      assert known[0] == rest[0];
      JoinedIsInjective(name, Groups(rest), Groups(known));
    } else if !HeadIsSplit(rs) {
      var head := [Group([name], LeadingRules(rest))];
      assert (head + Groups(rest))[1..] == Groups(rest) && (head + Groups(known))[1..] == Groups(known);
    }
  }

  /** The rules that bind us by the standard's grouping. */
  function BindingByStandard(rs: seq<Record>): seq<Rule>
  {
    Binding(Groups(Known(rs)))
  }

  /** An unknown line between two agents opens a site that the standard closes to us. */
  lemma UnknownLineOpensSite()
    ensures var rs := [Agent("crw"), Unknown, Agent("x"), Member(Rule("/", false))];
      RunIsSplit(rs) && Binding(Groups(rs)) == [] && BindingByStandard(rs) == [Rule("/", false)]
  {
    hide Groups, Known, Binding, LeadingRules;
    var rule := Rule("/", false);
    var rs := [Agent("crw"), Unknown, Agent("x"), Member(rule)];
    assert SplitAt(rs, 0, 2);
    GroupsWithUnknown(rule);
    GroupsWithoutUnknown(rule);
    OnlyUsIsUs();
    var us, other, both := Group(["crw"], []), Group(["x"], [rule]), Group(["crw", "x"], [rule]);
    assert "crw" in us.agents && "crw" in both.agents;
    assert !NamesUs(other.agents);
    BindsFirst(us, [other]);
    BindsFirst(both, []);
    assert [us] + [other] == [us, other] && [both] + [] == [both];
  }

  lemma GroupsOfLast(rule: Rule)
    requires rule.pattern != ""
    ensures Groups([Member(rule)]) == [] && LeadingRules([Member(rule)]) == [rule]
    ensures Groups([Agent("x"), Member(rule)]) == [Group(["x"], [rule])]
  {
    var last := [Member(rule)];
    assert last[1..] == [];
    assert [Agent("x")] + last == [Agent("x"), Member(rule)];
    GroupsOfAgent("x", last);
  }

  lemma GroupsWithUnknown(rule: Rule)
    requires rule.pattern != ""
    ensures Groups([Agent("crw"), Unknown, Agent("x"), Member(rule)]) == [Group(["crw"], []), Group(["x"], [rule])]
  {
    hide Groups;
    var x := [Agent("x"), Member(rule)];
    var rest := [Unknown] + x;
    assert [Agent("crw")] + rest == [Agent("crw"), Unknown, Agent("x"), Member(rule)];
    GroupsOfLast(rule);
    GroupsOfKnown(Unknown, x);
    GroupsOfAgent("crw", rest);
    assert rest[1..] == x && LeadingRules(rest) == [];
  }

  lemma GroupsWithoutUnknown(rule: Rule)
    requires rule.pattern != ""
    ensures Groups(Known([Agent("crw"), Unknown, Agent("x"), Member(rule)])) == [Group(["crw", "x"], [rule])]
  {
    hide Groups, LeadingRules;
    var last := [Member(rule)];
    var x := [Agent("x"), Member(rule)];
    KnownOfFour(rule);
    GroupsOfLast(rule);
    GroupsOfAgent("crw", x);
    assert ["crw"] + ["x"] == ["crw", "x"];
  }

  lemma KnownOfFour(rule: Rule)
    ensures Known([Agent("crw"), Unknown, Agent("x"), Member(rule)]) == [Agent("crw")] + [Agent("x"), Member(rule)]
  {
    var last := [Member(rule)];
    var x := [Agent("x"), Member(rule)];
    var rest := [Unknown, Agent("x"), Member(rule)];
    var rs := [Agent("crw"), Unknown, Agent("x"), Member(rule)];
    assert last[1..] == [] && Known(last[1..]) == [];
    assert Known(last) == [last[0]] + Known(last[1..]) == last;
    assert x[1..] == last;
    assert Known(x) == [x[0]] + Known(x[1..]) == x;
    assert rest[1..] == x;
    assert Known(rest) == Known(rest[1..]);
    assert rs[1..] == rest;
    assert Known(rs) == [rs[0]] + Known(rs[1..]);
  }

  lemma OnlyUsIsUs()
    ensures IsUs("crw") && !IsUs("x")
  {
    assert |AsciiLower("x")| == 1 && |AsciiLower(ROBOTS_PRODUCT_TOKEN)| == 3;
  }

  lemma BindsFirst(first: Group, others: seq<Group>)
    requires NamesUs(first.agents) && !SomeGroupNamesUs(others)
    ensures Binding([first] + others) == first.rules
  {
    assert first in [first] + others && ([first] + others)[1..] == others;
    CollectNone(others);
  }

  lemma {:induction false} CollectNone(groups: seq<Group>)
    requires !SomeGroupNamesUs(groups)
    ensures Collect(NamesUs, groups) == []
  {
    if groups != [] {
      assert groups[0] in groups && forall g :: g in groups[1..] ==> g in groups;
      CollectNone(groups[1..]);
    }
  }

  // ----- the open group, and how one record moves it -----

  /** What the records `rs` still contribute to bucket `p` when the current group is headed by
      `agents`, and more agents may join it while `inRun`. */
  ghost function Rest(p: seq<string> -> bool, agents: seq<string>, inRun: bool, rs: seq<Record>): seq<Rule>
    decreases |rs|
  {
    if inRun && rs != [] && rs[0].Agent? then Rest(p, agents + [rs[0].name], true, rs[1..])
    else (if p(agents) then LeadingRules(rs) else []) + Collect(p, Groups(rs))
  }

  lemma {:induction false} RestOfRun(p: seq<string> -> bool, agents: seq<string>, rs: seq<Record>)
    ensures Rest(p, agents, true, rs)
         == (if p(agents + LeadingAgents(rs)) then LeadingRules(AfterAgents(rs)) else [])
            + Collect(p, Groups(AfterAgents(rs)))
    decreases |rs|
  {
    if rs != [] && rs[0].Agent? {
      RestOfRun(p, agents + [rs[0].name], rs[1..]);
      assert agents + [rs[0].name] + LeadingAgents(rs[1..]) == agents + LeadingAgents(rs);
    } else {
      assert agents + LeadingAgents(rs) == agents;
    }
  }

  lemma AgentOpensGroup(p: seq<string> -> bool, agents: seq<string>, rs: seq<Record>)
    requires rs != [] && rs[0].Agent?
    ensures Rest(p, agents, false, rs) == Rest(p, [rs[0].name], true, rs[1..])
  {
    RestOfRun(p, [rs[0].name], rs[1..]);
    var t := AfterAgents(rs[1..]);
    assert Groups(rs) == [Group(LeadingAgents(rs), LeadingRules(t))] + Groups(t);
  }

  lemma MemberClosesRun(p: seq<string> -> bool, agents: seq<string>, inRun: bool, rs: seq<Record>)
    requires rs != [] && !rs[0].Agent?
    ensures Rest(p, agents, inRun, rs) == (if p(agents) then RuleOf(rs[0]) else []) + Rest(p, agents, false, rs[1..])
  {
    GroupsBehindMember(rs);
    var tail := Collect(p, Groups(rs[1..]));
    assert RuleOf(rs[0]) + LeadingRules(rs[1..]) + tail == RuleOf(rs[0]) + (LeadingRules(rs[1..]) + tail);
  }

  lemma GroupsBehindMember(rs: seq<Record>)
    requires rs != [] && !rs[0].Agent?
    ensures Groups(rs) == Groups(rs[1..])
  {
    assert AfterMembers(rs) == AfterMembers(rs[1..]);
  }

  predicate HasUs(rs: seq<Record>)
  {
    rs != [] && ((rs[0].Agent? && IsUs(rs[0].name)) || HasUs(rs[1..]))
  }

  lemma NamesUsOfCons(a: string, agents: seq<string>)
    ensures NamesUs([a] + agents) <==> IsUs(a) || NamesUs(agents)
    ensures NamesUs(agents + [a]) <==> IsUs(a) || NamesUs(agents)
  {
    assert forall x :: x in [a] + agents <==> x == a || x in agents;
    assert forall x :: x in agents + [a] <==> x == a || x in agents;
  }

  lemma {:induction false} HasUsBehindAgents(rs: seq<Record>)
    ensures HasUs(rs) <==> NamesUs(LeadingAgents(rs)) || HasUs(AfterAgents(rs))
  {
    if rs != [] && rs[0].Agent? {
      HasUsBehindAgents(rs[1..]);
      NamesUsOfCons(rs[0].name, LeadingAgents(rs[1..]));
    }
  }

  lemma {:induction false} HasUsBehindMembers(rs: seq<Record>)
    ensures HasUs(rs) <==> HasUs(AfterMembers(rs))
  {
    if rs != [] && !rs[0].Agent? {
      HasUsBehindMembers(rs[1..]);
    }
  }

  lemma SomeGroupOfCons(g: Group, gs: seq<Group>)
    ensures SomeGroupNamesUs([g] + gs) <==> NamesUs(g.agents) || SomeGroupNamesUs(gs)
  {
    assert forall h :: h in [g] + gs <==> h == g || h in gs;
  }

  lemma {:induction false} HasUsIffGroupNamesUs(rs: seq<Record>)
    ensures HasUs(rs) <==> SomeGroupNamesUs(Groups(rs))
    decreases |rs|
  {
    var s := AfterMembers(rs);
    HasUsBehindMembers(rs);
    if s != [] {
      var t := AfterAgents(s[1..]);
      HasUsBehindAgents(s);
      HasUsIffGroupNamesUs(t);
      SomeGroupOfCons(Group(LeadingAgents(s), LeadingRules(t)), Groups(t));
    }
  }

  lemma {:induction false} OnlyEveryoneIsEveryone(groups: seq<Group>)
    requires !SomeGroupNamesUs(groups)
    ensures Collect(NamesOnlyEveryone, groups) == Collect(NamesEveryone, groups)
  {
    if groups != [] {
      assert groups[0] in groups;
      assert !SomeGroupNamesUs(groups[1..]);
      OnlyEveryoneIsEveryone(groups[1..]);
    }
  }

  // ----- the parser -----

  /** The bucket so far and what is still to come make up everything that bucket must hold. */
  ghost predicate Completes(p: seq<string> -> bool, bucket: seq<Rule>, agents: seq<string>, inRun: bool,
                            rs: seq<Record>, all: seq<Record>)
  {
    bucket + Rest(p, agents, inRun, rs) == Collect(p, Groups(all))
  }

  lemma CompletesAfterAgent(p: seq<string> -> bool, bucket: seq<Rule>, agents: seq<string>, inRun: bool,
                            rs: seq<Record>, all: seq<Record>)
    requires rs != [] && rs[0].Agent? && Completes(p, bucket, agents, inRun, rs, all)
    ensures Completes(p, bucket, (if inRun then agents else []) + [rs[0].name], true, rs[1..], all)
  {
    if !inRun {
      AgentOpensGroup(p, agents, rs);
      assert [] + [rs[0].name] == [rs[0].name];
    }
  }

  lemma CompletesAfterMember(p: seq<string> -> bool, bucket: seq<Rule>, agents: seq<string>, inRun: bool,
                             rs: seq<Record>, all: seq<Record>)
    requires rs != [] && !rs[0].Agent? && Completes(p, bucket, agents, inRun, rs, all)
    ensures Completes(p, if p(agents) && StatesRule(rs[0]) then bucket + [rs[0].rule] else bucket,
                      agents, false, rs[1..], all)
  {
    MemberClosesRun(p, agents, inRun, rs);
    var more := if p(agents) then RuleOf(rs[0]) else [];
    AppendAssociates(bucket, more, Rest(p, agents, false, rs[1..]));
    assert bucket + [] == bucket;
  }

  lemma CompletesAtEnd(exact: seq<Rule>, wildcard: seq<Rule>, agents: seq<string>, inRun: bool, all: seq<Record>)
    requires Completes(NamesUs, exact, agents, inRun, [], all)
    requires Completes(NamesOnlyEveryone, wildcard, agents, inRun, [], all)
    ensures (if HasUs(all) then exact else wildcard) == Binding(Groups(all))
  {
    HasUsIffGroupNamesUs(all);
    if !HasUs(all) {
      OnlyEveryoneIsEveryone(Groups(all));
    }
  }

  lemma NextLine(lines: seq<string>, i: nat)
    requires i < |lines|
    ensures var r, rs, rest := Classify(lines[i]), GroupRecords(lines[i..]), GroupRecords(lines[i + 1..]);
      if r.Ignored? || r.Sitemap? then rs == rest else rs != [] && rs[0] == r && rs[1..] == rest
    ensures var r, urls, rest := Classify(lines[i]), SitemapUrls(lines[i..]), SitemapUrls(lines[i + 1..]);
      if r.Sitemap? && r.url != "" then urls == [r.url] + rest else urls == rest
  {
    assert lines[i..][1..] == lines[i + 1..];
  }

  method Parse(text: string) returns (robots: RobotsTxt)
    ensures robots.rules == Binding(Groups(GroupRecords(Lines(text))))
    ensures robots.sitemaps == SitemapUrls(Lines(text))
    ensures var rs := GroupRecords(Lines(text)); !RunIsSplit(rs) ==> robots.rules == BindingByStandard(rs)
  {
    hide RunIsSplit, Known;
    var exact: seq<Rule>, wildcard: seq<Rule>, sitemaps: seq<string> := [], [], [];
    var groupExact, groupWildcard, sawExact := false, false, false;
    var inAgentRun := false;
    ghost var agents: seq<string> := [];
    var lines := Lines(text);
    ghost var all := GroupRecords(lines);
    assert lines[0..] == lines;

    for i := 0 to |lines|
      invariant groupExact <==> NamesUs(agents)
      invariant !groupExact ==> (groupWildcard <==> NamesEveryone(agents))
      invariant Completes(NamesUs, exact, agents, inAgentRun, GroupRecords(lines[i..]), all)
      invariant Completes(NamesOnlyEveryone, wildcard, agents, inAgentRun, GroupRecords(lines[i..]), all)
      invariant sawExact || HasUs(GroupRecords(lines[i..])) <==> HasUs(all)
      invariant sitemaps + SitemapUrls(lines[i..]) == SitemapUrls(lines)
    {
      ghost var rs := GroupRecords(lines[i..]);
      NextLine(lines, i);
      var record := Classify(lines[i]);
      match record {
        case Ignored =>
        case Agent(agent) =>
          CompletesAfterAgent(NamesUs, exact, agents, inAgentRun, rs, all);
          CompletesAfterAgent(NamesOnlyEveryone, wildcard, agents, inAgentRun, rs, all);
          if !inAgentRun {
            groupExact, groupWildcard := false, false;
            inAgentRun := true;
            agents := [];
          }
          NamesUsOfCons(agent, agents);
          agents := agents + [agent];
          if IsUs(agent) {
            groupExact, sawExact := true, true;
          } else if agent == "*" {
            groupWildcard := true;
          }
        case Sitemap(url) =>
          if url != "" {
            AppendAssociates(sitemaps, [url], SitemapUrls(lines[i + 1..]));
            sitemaps := sitemaps + [url];
          }
        case Member(rule) =>
          CompletesAfterMember(NamesUs, exact, agents, inAgentRun, rs, all);
          CompletesAfterMember(NamesOnlyEveryone, wildcard, agents, inAgentRun, rs, all);
          inAgentRun := false;
          if rule.pattern != "" {
            if groupExact {
              exact := exact + [rule];
            } else if groupWildcard {
              wildcard := wildcard + [rule];
            }
          }
        case Unknown =>
          CompletesAfterMember(NamesUs, exact, agents, inAgentRun, rs, all);
          CompletesAfterMember(NamesOnlyEveryone, wildcard, agents, inAgentRun, rs, all);
          inAgentRun := false;
      }
    }
    assert lines[|lines|..] == [];
    CompletesAtEnd(exact, wildcard, agents, inAgentRun, all);
    GroupsAgree(all);
    robots := RobotsTxt(if sawExact then exact else wildcard, sitemaps);
  }
}
