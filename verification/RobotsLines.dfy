/** What the parser makes of the text itself: every directive that can be written, in whatever letter case and
    spacing, is read back as what it says. */
module RobotsLines {
  import opened RobotsParse
  import opened Text

  datatype Directive = UserAgent | SitemapUrl | Disallow | Allow

  function Key(d: Directive): string
  {
    match d
    case UserAgent => "user-agent:"
    case SitemapUrl => "sitemap:"
    case Disallow => "disallow:"
    case Allow => "allow:"
  }

  /** What a directive with this value says. */
  function Says(d: Directive, value: string): Record
  {
    match d
    case UserAgent => Agent(value)
    case SitemapUrl => Sitemap(value)
    case Disallow => Member(Rule(value, false))
    case Allow => Member(Rule(value, true))
  }

  // ----- one line -----

  /** A directive between blanks with a comment behind it, a blank line or a comment, or anything else. */
  datatype Line =
    | Stated(d: Directive, lead: string, key: string, gap: string, value: string, back: string, comment: string)
    | Remark(lead: string, comment: string)
    | Other(lead: string, text: string, back: string)
  {
    function Text(): string
    {
      match this
      case Stated(_, lead, key, gap, value, back, comment) => lead + key + (gap + value + back + comment)
      case Remark(lead, comment) => lead + comment
      case Other(lead, text, back) => lead + text + back
    }

    function Record(): Record
    {
      match this
      case Stated(d, _, _, _, value, _, _) => Says(d, value)
      case Remark(_, _) => Ignored
      case Other(_, _, _) => Unknown
    }
  }

  /** Spaces and tabs only. */
  predicate IsBlank(s: string)
  {
    forall i :: 0 <= i < |s| ==> s[i] == ' ' || s[i] == '\t'
  }

  predicate IsComment(s: string)
  {
    s == "" || s[0] == '#'
  }

  predicate StartsWithKey(s: string, d: Directive)
  {
    |s| >= |Key(d)| && SpellsIgnoringCase(s[..|Key(d)|], Key(d))
  }

  predicate IsWritten(l: Line)
  {
    match l
    case Stated(d, lead, key, gap, value, back, comment) =>
      && IsBlank(lead) && IsBlank(gap) && IsBlank(back) && IsComment(comment)
      && SpellsIgnoringCase(key, Key(d))
      && IsTrimmed(value) && '#' !in value
    case Remark(lead, comment) => IsBlank(lead) && IsComment(comment)
    case Other(lead, text, back) =>
      && IsBlank(lead) && IsBlank(back) && text != "" && IsTrimmed(text) && text[0] != '#'
      && forall d :: !StartsWithKey(text, d)
  }

  lemma BlanksAreWhitespace(s: string)
    requires IsBlank(s)
    ensures AllWhitespace(s) && '#' !in s
  {
  }

  function BeforeHash(s: string): string
  {
    s[..FirstIndex(s, c => c == '#')]
  }

  lemma BeforeHashIs(s: string, comment: string)
    requires '#' !in s && IsComment(comment)
    ensures BeforeHash(s + comment) == s
  {
    hide FirstIndex;
    var w := s + comment;
    assert forall i :: 0 <= i < |s| ==> w[i] == s[i];
    assert comment != "" ==> w[|s|] == '#';
    assert w[..|s|] == s;
  }

  lemma HashParts(s: string) returns (comment: string)
    ensures s == BeforeHash(s) + comment && IsComment(comment) && '#' !in BeforeHash(s)
  {
    hide FirstIndex;
    var i := FirstIndex(s, c => c == '#');
    comment := s[i..];
  }

  /** Whitespace around a text has no part in what stands before its comment. */
  lemma PaddingBeforeHash(front: string, s: string, back: string)
    requires AllWhitespace(front) && AllWhitespace(back)
    ensures Trim(BeforeHash(front + s + back)) == Trim(BeforeHash(s))
  {
    var comment := HashParts(s);
    var b := BeforeHash(s);
    assert '#' !in front && '#' !in back;
    if comment == "" {
      assert s == b && BeforeHash(front + s + back) == front + s + back by {
        BeforeHashIs(front + s + back, "");
        assert front + s + back + "" == front + s + back;
      }
      TrimPadded(front, s, back);
    } else {
      assert front + s + back == (front + b) + (comment + back);
      assert (comment + back)[0] == '#';
      BeforeHashIs(front + b, comment + back);
      TrimPadded(front, b, "");
      assert front + b + "" == front + b;
    }
  }

  /** The value of a directive, whatever trimming happens on the way. */
  lemma ValueOf(gap: string, value: string, back: string, comment: string, rest: string, tail: string)
    requires IsBlank(gap) && IsBlank(back) && IsComment(comment) && IsTrimmed(value) && '#' !in value
    requires rest + tail == gap + value + back + comment && AllWhitespace(tail)
    ensures Trim(BeforeHash(Trim(rest))) == value
  {
    hide Trim, BeforeHash;
    BlanksAreWhitespace(gap);
    BlanksAreWhitespace(back);
    var f, b := TrimParts(rest);
    PaddingBeforeHash(f, Trim(rest), b);
    PaddingBeforeHash("", rest, tail);
    assert "" + rest + tail == rest + tail;
    BeforeHashIs(gap + value + back, comment);
    TrimIsWhatIsLeft(gap, value, back);
  }

  /** Trimming a line that starts with a key leaves the key. */
  lemma TrimKeyed(lead: string, key: string, rest: string) returns (kept: string, tail: string)
    requires AllWhitespace(lead) && key != "" && IsTrimmed(key)
    ensures Trim(lead + key + rest) == key + kept && rest == kept + tail && AllWhitespace(tail)
  {
    hide Trim;
    var f, b := TrimParts(rest);
    if Trim(rest) == "" {
      kept, tail := "", rest;
      assert forall i :: 0 <= i < |f| ==> rest[i] == f[i];
      assert rest == f + b;
      TrimIsWhatIsLeft(lead, key, rest);
      assert key + "" == key;
    } else {
      kept, tail := f + Trim(rest), b;
      var s := key + kept;
      assert s[0] == key[0] && s[|s| - 1] == Trim(rest)[|Trim(rest)| - 1];
      assert lead + key + rest == lead + s + b;
      TrimIsWhatIsLeft(lead, s, b);
    }
  }

  lemma KeyFacts(d: Directive)
    ensures HasNoUpperCase(Key(d)) && |Key(d)| >= 6 && Key(d)[|Key(d)| - 1] == ':'
    ensures Key(d)[0] == match d case UserAgent => 'u' case SitemapUrl => 's' case Disallow => 'd' case Allow => 'a'
  {
  }

  lemma SpelledKeyFacts(d: Directive, key: string)
    requires SpellsIgnoringCase(key, Key(d))
    ensures key != "" && IsTrimmed(key) && AsciiLowerChar(key[0]) == Key(d)[0] && key[0] != '#'
    ensures EqIgnoreAsciiCase(key, Key(d))
  {
    KeyFacts(d);
    hide Key;
    EqIgnoresCaseOnly(key, Key(d));
  }

  lemma OwnKeyIsFound(d: Directive, key: string, kept: string)
    requires SpellsIgnoringCase(key, Key(d))
    ensures DirectiveValue(key + kept, Key(d)) == Some(Trim(BeforeHash(Trim(kept))))
  {
    hide Trim, Key, EqIgnoreAsciiCase;
    SpelledKeyFacts(d, key);
    assert (key + kept)[..|Key(d)|] == key && (key + kept)[|Key(d)|..] == kept;
  }

  lemma OtherKeysAreNot(d: Directive, e: Directive, key: string, kept: string)
    requires SpellsIgnoringCase(key, Key(d)) && d != e
    ensures DirectiveValue(key + kept, Key(e)).None?
  {
    hide Trim, Key;
    SpelledKeyFacts(d, key);
    KeyFacts(d);
    KeyFacts(e);
    var line := key + kept;
    if |line| >= |Key(e)| {
      var s := line[..|Key(e)|];
      assert s[0] == key[0];
      assert AsciiLower(s)[0] == Key(d)[0] && AsciiLower(Key(e))[0] == Key(e)[0];
    }
  }

  function ValueIn(line: string, d: Directive): Option<string>
  {
    DirectiveValue(line, Key(d))
  }

  lemma ClassifyTrimmed(raw: string)
    ensures var line := Trim(raw);
      Classify(raw) ==
      if line == "" || line[0] == '#' then Ignored
      else if ValueIn(line, UserAgent).Some? then Says(UserAgent, ValueIn(line, UserAgent).value)
      else if ValueIn(line, SitemapUrl).Some? then Says(SitemapUrl, ValueIn(line, SitemapUrl).value)
      else if ValueIn(line, Disallow).Some? then Says(Disallow, ValueIn(line, Disallow).value)
      else if ValueIn(line, Allow).Some? then Says(Allow, ValueIn(line, Allow).value)
      else Unknown
  {
    hide Trim, DirectiveValue;
  }

  lemma StatedReadsBack(l: Line)
    requires IsWritten(l) && l.Stated?
    ensures Classify(l.Text()) == Says(l.d, l.value)
  {
    hide Trim, Key, DirectiveValue, Classify, Says, BeforeHash;
    BlanksAreWhitespace(l.lead);
    SpelledKeyFacts(l.d, l.key);
    var rest := l.gap + l.value + l.back + l.comment;
    var kept, tail := TrimKeyed(l.lead, l.key, rest);
    ValueOf(l.gap, l.value, l.back, l.comment, kept, tail);
    OwnKeyIsFound(l.d, l.key, kept);
    ClassifyTrimmed(l.Text());
    assert (l.key + kept)[0] == l.key[0];
    forall e | e != l.d
      ensures DirectiveValue(l.key + kept, Key(e)).None?
    {
      OtherKeysAreNot(l.d, e, l.key, kept);
    }
  }

  /** Every line is read as what it says. */
  lemma LineReadsBack(l: Line)
    requires IsWritten(l)
    ensures Classify(l.Text()) == l.Record()
  {
    hide Trim, Key, DirectiveValue, Classify, Says;
    match l {
      case Stated(_, _, _, _, _, _, _) =>
        StatedReadsBack(l);
      case Remark(lead, comment) =>
        RemarkIsIgnored(lead, comment);
      case Other(lead, text, back) =>
        BlanksAreWhitespace(lead);
        BlanksAreWhitespace(back);
        TrimIsWhatIsLeft(lead, text, back);
        ClassifyTrimmed(l.Text());
        forall d
          ensures DirectiveValue(text, Key(d)).None?
        {
          NoKeyNoValue(text, d);
        }
    }
  }

  lemma RemarkIsIgnored(lead: string, comment: string)
    requires IsBlank(lead) && IsComment(comment)
    ensures Classify(lead + comment) == Ignored
  {
    hide Trim, DirectiveValue;
    BlanksAreWhitespace(lead);
    if comment == "" {
      TrimIsWhatIsLeft(lead, "", "");
      assert lead + "" + "" == lead + "";
    } else {
      var hash, rest := "#", comment[1..];
      assert comment == hash + rest && lead + comment == lead + hash + rest;
      var kept, tail := TrimKeyed(lead, hash, rest);
      assert (hash + kept)[0] == '#';
    }
  }

  lemma NoKeyNoValue(text: string, d: Directive)
    requires !StartsWithKey(text, d)
    ensures DirectiveValue(text, Key(d)).None?
  {
    hide Trim, Key, EqIgnoreAsciiCase;
    KeyFacts(d);
    if |text| >= |Key(d)| {
      EqIgnoresCaseOnly(text[..|Key(d)|], Key(d));
    }
  }

  // ----- blanks before the colon -----

  function Name(d: Directive): string
  {
    Key(d)[..|Key(d)| - 1]
  }

  /** The standard allows blanks before the colon (section 2.2 of RFC 9309). Here a line with any is not
      recognised, and one without always is. */
  lemma ColonMustFollowAtOnce(d: Directive, lead: string, name: string, blanks: string, rest: string)
    requires IsBlank(lead) && IsBlank(blanks) && SpellsIgnoringCase(name, Name(d))
    ensures Classify(lead + name + (blanks + ":" + rest)) == Unknown <==> blanks != ""
  {
    hide Trim, Key, DirectiveValue, Classify, Says, BeforeHash;
    KeyFacts(d);
    BlanksAreWhitespace(lead);
    NameFacts(d, name);
    var raw := lead + name + (blanks + ":" + rest);
    var kept, tail := TrimKeyed(lead, name, blanks + ":" + rest);
    ColonIsKept(blanks, rest, kept, tail);
    ClassifyTrimmed(raw);
    var line := name + kept;
    assert line[0] == name[0] && line[|name|] == kept[0];
    if blanks == "" {
      var key := name + ":";
      assert SpellsIgnoringCase(key, Key(d));
      assert line == key + kept[1..];
      OwnKeyIsFound(d, key, kept[1..]);
      SaysSomething();
    } else {
      forall e
        ensures DirectiveValue(line, Key(e)).None?
      {
        NotAnyKey(d, e, name, line);
      }
    }
  }

  lemma SaysSomething()
    ensures forall d, value :: Says(d, value) != Unknown
  {
  }

  lemma NameFacts(d: Directive, name: string)
    requires SpellsIgnoringCase(name, Name(d))
    ensures name != "" && IsTrimmed(name) && name[0] != '#'
    ensures name[0] == Key(d)[0] || ('a' <= Key(d)[0] <= 'z' && name[0] == Key(d)[0] - 'a' + 'A')
  {
    assert Key(d)[|Key(d)| - 2] == if d == UserAgent then 't' else if d == SitemapUrl then 'p' else 'w';
  }

  lemma ColonIsKept(blanks: string, rest: string, kept: string, tail: string)
    requires IsBlank(blanks) && blanks + ":" + rest == kept + tail && AllWhitespace(tail)
    ensures kept != "" && kept[0] == if blanks == "" then ':' else blanks[0]
  {
    var whole := kept + tail;
    assert whole[|blanks|] == ':';
    assert forall i :: |kept| <= i < |whole| ==> whole[i] == tail[i - |kept|];
    assert blanks != "" ==> whole[0] == blanks[0];
  }

  lemma NotAnyKey(d: Directive, e: Directive, name: string, line: string)
    requires SpellsIgnoringCase(name, Name(d)) && |line| > |name| && line[..|name|] == name && IsBlank([line[|name|]])
    ensures DirectiveValue(line, Key(e)).None?
  {
    hide Trim, Key, EqIgnoreAsciiCase;
    KeyFacts(d);
    KeyFacts(e);
    NameFacts(d, name);
    assert [line[|name|]][0] == line[|name|];
    assert line[0] == line[..|name|][0];
    if |line| >= |Key(e)| {
      var s := line[..|Key(e)|];
      assert s[0] == line[0] && s[|Key(e)| - 1] == line[|Key(e)| - 1];
      EqIgnoresCaseOnly(s, Key(e));
    }
  }

  // ----- a whole file -----

  /** Lines with their endings, CRLF or LF, and possibly a last one without any. */
  datatype File = File(ended: seq<(Line, bool)>, last: Option<Line>)

  function FileText(f: File): string
    decreases |f.ended|
  {
    if f.ended == [] then (match f.last case Some(l) => l.Text() case None => "")
    else f.ended[0].0.Text() + (if f.ended[0].1 then "\r\n" else "\n") + FileText(f.(ended := f.ended[1..]))
  }

  function LinesOf(f: File): seq<Line>
    decreases |f.ended|
  {
    if f.ended == [] then (match f.last case Some(l) => [l] case None => [])
    else [f.ended[0].0] + LinesOf(f.(ended := f.ended[1..]))
  }

  predicate IsOneLine(text: string)
  {
    '\n' !in text
  }

  /** Lines are as they can be written, hold no line feed, and end in a carriage return only before CRLF. */
  predicate IsFile(f: File)
  {
    && (forall i :: 0 <= i < |f.ended| ==> IsEnded(f.ended[i].0, f.ended[i].1))
    && (f.last.Some? ==> IsWritten(f.last.value) && IsOneLine(f.last.value.Text()) && f.last.value.Text() != "")
  }

  predicate IsEnded(l: Line, crlf: bool)
  {
    var text := l.Text();
    && IsWritten(l) && IsOneLine(text)
    && (!crlf && text != "" ==> text[|text| - 1] != '\r')
  }

  function Texts(ls: seq<Line>): seq<string>
  {
    if ls == [] then [] else [ls[0].Text()] + Texts(ls[1..])
  }

  lemma FirstLine(text: string, crlf: bool, rest: string)
    requires IsOneLine(text) && (!crlf && text != "" ==> text[|text| - 1] != '\r')
    ensures Lines(text + (if crlf then "\r\n" else "\n") + rest) == [text] + Lines(rest)
  {
    hide FirstIndex;
    var whole := text + (if crlf then "\r\n" else "\n") + rest;
    var n := |text| + if crlf then 1 else 0;
    assert forall i :: 0 <= i < |text| ==> whole[i] == text[i];
    assert whole[n] == '\n' && (crlf ==> whole[|text|] == '\r');
    assert FirstIndex(whole, c => c == '\n') == n;
    assert whole[n + 1..] == rest;
    assert crlf ==> whole[..n - 1] == text;
    assert !crlf ==> whole[..n] == text;
    assert !crlf && n > 0 ==> whole[n - 1] == text[n - 1];
  }

  lemma LastLine(text: string)
    requires IsOneLine(text) && text != ""
    ensures Lines(text) == [text]
  {
    hide FirstIndex;
  }

  /** A file is cut into just its lines. */
  lemma {:induction false} FileIsCut(f: File)
    requires IsFile(f)
    ensures Lines(FileText(f)) == Texts(LinesOf(f))
    decreases |f.ended|
  {
    hide Lines, IsWritten, IsOneLine;
    if f.ended == [] {
      match f.last {
        case Some(l) =>
          LastLine(l.Text());
          assert [l][1..] == [];
        case None =>
          NoLines();
      }
    } else {
      var rest := f.(ended := f.ended[1..]);
      assert IsEnded(f.ended[0].0, f.ended[0].1);
      FirstLine(f.ended[0].0.Text(), f.ended[0].1, FileText(rest));
      FileIsCut(rest);
      assert LinesOf(f)[1..] == LinesOf(rest);
    }
  }

  lemma NoLines()
    ensures Lines("") == []
  {
  }

  /** The records that take part in grouping, and the sitemaps, as the lines state them. */
  function GroupingOf(ls: seq<Line>): seq<Record>
  {
    if ls == [] then []
    else if ls[0].Remark? || (ls[0].Stated? && ls[0].d == SitemapUrl) then GroupingOf(ls[1..])
    else [ls[0].Record()] + GroupingOf(ls[1..])
  }

  function SitemapsOf(ls: seq<Line>): seq<string>
  {
    if ls == [] then []
    else if ls[0].Stated? && ls[0].d == SitemapUrl && ls[0].value != "" then [ls[0].value] + SitemapsOf(ls[1..])
    else SitemapsOf(ls[1..])
  }

  lemma {:induction false} TextsReadBack(ls: seq<Line>)
    requires forall i :: 0 <= i < |ls| ==> IsWritten(ls[i])
    ensures GroupRecords(Texts(ls)) == GroupingOf(ls) && SitemapUrls(Texts(ls)) == SitemapsOf(ls)
  {
    hide IsWritten, Classify;
    if ls != [] {
      LineReadsBack(ls[0]);
      TextsReadBack(ls[1..]);
      assert Texts(ls)[1..] == Texts(ls[1..]);
      assert [] + GroupRecords(Texts(ls[1..])) == GroupRecords(Texts(ls[1..]));
      assert [] + SitemapUrls(Texts(ls[1..])) == SitemapUrls(Texts(ls[1..]));
    }
  }

  lemma {:induction false} LinesAreWritten(f: File)
    requires IsFile(f)
    ensures forall i :: 0 <= i < |LinesOf(f)| ==> IsWritten(LinesOf(f)[i])
    decreases |f.ended|
  {
    hide IsWritten, IsOneLine;
    if f.ended != [] {
      assert IsEnded(f.ended[0].0, f.ended[0].1);
      LinesAreWritten(f.(ended := f.ended[1..]));
    }
  }

  /** What is written is what is read: a file of directives, in any letter case and spacing, with comments
      and either line ending, has just the records and sitemaps that its lines state. */
  lemma FileReadsBack(f: File)
    requires IsFile(f)
    ensures GroupRecords(Lines(FileText(f))) == GroupingOf(LinesOf(f))
    ensures SitemapUrls(Lines(FileText(f))) == SitemapsOf(LinesOf(f))
  {
    FileIsCut(f);
    LinesAreWritten(f);
    TextsReadBack(LinesOf(f));
  }

  /** So the parser's answer on such a file is the binding of what the lines state. */
  method ParseFile(f: File) returns (robots: RobotsTxt)
    requires IsFile(f)
    ensures robots.rules == Binding(Groups(GroupingOf(LinesOf(f))))
    ensures robots.sitemaps == SitemapsOf(LinesOf(f))
  {
    hide Lines, GroupRecords, Binding, Groups, IsFile;
    FileReadsBack(f);
    robots := Parse(FileText(f));
  }

  /** Two lines that close `/p` to everyone. */
  lemma DisallowCloses()
    ensures Binding(Groups(GroupRecords(Lines("User-agent: *\nDisallow: /p")))) == [Rule("/p", false)]
  {
    hide Groups, Binding, Lines, GroupRecords, IsFile;
    var agent := Stated(UserAgent, "", "User-agent:", " ", "*", "", "");
    var rule := Stated(Disallow, "", "Disallow:", " ", "/p", "", "");
    var f := File([(agent, false)], Some(rule));
    TwoLines();
    FileReadsBack(f);
    assert f.(ended := f.ended[1..]) == File([], Some(rule));
    assert LinesOf(File([], Some(rule))) == [rule] && LinesOf(f) == [agent, rule];
    assert [agent, rule][1..] == [rule] && [rule][1..] == [];
    assert GroupingOf([rule]) == [Member(Rule("/p", false))];
    assert GroupingOf([agent, rule]) == [Agent("*")] + [Member(Rule("/p", false))];
    EveryoneIsBound(Rule("/p", false));
  }

  lemma AgentLine()
    ensures var l := Stated(UserAgent, "", "User-agent:", " ", "*", "", "");
      l.Text() == "User-agent: *" && IsEnded(l, false)
  {
    SpelledKeys();
    hide SpellsIgnoringCase, Key;
    var l := Stated(UserAgent, "", "User-agent:", " ", "*", "", "");
    assert l.Text() == "User-agent: *";
  }

  lemma RuleLine()
    ensures var l := Stated(Disallow, "", "Disallow:", " ", "/p", "", "");
      l.Text() == "Disallow: /p" && IsWritten(l) && IsOneLine(l.Text())
  {
    SpelledKeys();
    hide SpellsIgnoringCase, Key;
    var l := Stated(Disallow, "", "Disallow:", " ", "/p", "", "");
    assert l.Text() == "Disallow: /p";
  }

  lemma TwoLines()
    ensures var f := File([(Stated(UserAgent, "", "User-agent:", " ", "*", "", ""), false)],
                          Some(Stated(Disallow, "", "Disallow:", " ", "/p", "", "")));
      IsFile(f) && FileText(f) == "User-agent: *\nDisallow: /p"
  {
    AgentLine();
    RuleLine();
    hide IsEnded, IsWritten, IsOneLine, Line.Text;
    var agent := Stated(UserAgent, "", "User-agent:", " ", "*", "", "");
    var rule := Stated(Disallow, "", "Disallow:", " ", "/p", "", "");
    var f := File([(agent, false)], Some(rule));
    assert f.(ended := f.ended[1..]) == File([], Some(rule));
    assert FileText(File([], Some(rule))) == "Disallow: /p";
    assert FileText(f) == "User-agent: *" + "\n" + "Disallow: /p";
  }

  lemma SpelledKeys()
    ensures SpellsIgnoringCase("User-agent:", Key(UserAgent)) && SpellsIgnoringCase("Disallow:", Key(Disallow))
  {
  }

  lemma EveryoneIsBound(rule: Rule)
    requires rule.pattern != ""
    ensures Binding(Groups([Agent("*")] + [Member(rule)])) == [rule]
  {
    hide Groups, IsUs;
    GroupsOfLast(rule);
    GroupsOfAgent("*", [Member(rule)]);
    var g := Group(["*"], [rule]);
    assert Groups([Agent("*")] + [Member(rule)]) == [g];
    UsInAnyCase("*");
    assert !NamesUs(g.agents) && !SomeGroupNamesUs([g]);
    assert "*" in g.agents && [g][1..] == [];
    assert Collect(NamesEveryone, []) == [] && Collect(NamesEveryone, [g]) == [rule] + [];
  }

  /** We are named by our token in any letter case, and by nothing else. */
  lemma UsInAnyCase(name: string)
    ensures IsUs(name) <==> SpellsIgnoringCase(name, "crw")
  {
    EqIgnoresCaseOnly(name, "crw");
  }
}
