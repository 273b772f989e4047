/** Masking credentials: the rule for one proxy URL, and the scanner that applies it inside free text. */
module Redact {
  import opened Text

  predicate IsSchemeChar(c: char)
  {
    IsAsciiAlphabetic(c) || IsAsciiDigit(c) || c == '+' || c == '-' || c == '.'
  }

  /** Section 3.1 of RFC 3986: a letter, then letters, digits, `+`, `-` and `.`. */
  predicate IsScheme(s: string)
  {
    s != "" && IsAsciiAlphabetic(s[0]) && forall i :: 0 <= i < |s| ==> IsSchemeChar(s[i])
  }

  /** The characters and schemes of section 3.1, spelt out. */
  lemma SchemesAreTheStandards(s: string)
    ensures IsScheme(s) <==>
      && s != "" && ('a' <= s[0] <= 'z' || 'A' <= s[0] <= 'Z')
      && forall i :: 0 <= i < |s| ==>
           'a' <= s[i] <= 'z' || 'A' <= s[i] <= 'Z' || '0' <= s[i] <= '9' || s[i] in ['+', '-', '.']
    ensures forall c :: IsSchemeChar(c) <==>
      'a' <= c <= 'z' || 'A' <= c <= 'Z' || '0' <= c <= '9' || c in ['+', '-', '.']
  {
  }

  /** `redact_proxy_url`: keep the scheme if it is one, mask up to the last `@`. */
  function RedactProxyUrl(raw: string): string
  {
    var trimmed := Trim(raw);
    var (prefix, rest) :=
      match Find(trimmed, SEP)
      case Some(i) =>
        if IsScheme(trimmed[..i]) then (trimmed[..i] + SEP, trimmed[i + 3..]) else ("", trimmed)
      case None => ("", trimmed);
    var host := AfterLast(rest, IsAt);
    if host > 0 then prefix + "***@" + rest[host..] else prefix + rest
  }

  // ----- word by word -----

  /** Where the URL in a word starts: behind the last character before the separator that no scheme has. */
  function UrlStart(w: string, sep: nat): (i: nat)
    requires sep <= |w|
    ensures i <= sep
  {
    LastBefore(w, sep, c => !IsSchemeChar(c))
  }

  function MaskWord(w: string): string
  {
    match Find(w, SEP)
    case None => w
    case Some(sep) => w[..UrlStart(w, sep)] + RedactProxyUrl(w[UrlStart(w, sep)..])
  }

  /** The length of the word that `text` starts with. */
  function WordLength(text: string): (n: nat)
    ensures n <= |text|
    ensures forall j :: 0 <= j < n ==> !IsWhitespace(text[j])
    ensures n < |text| ==> IsWhitespace(text[n])
  {
    FirstFrom(text, 0, IsWhitespace)
  }

  /** Every whitespace-separated word masked on its own, the whitespace kept. */
  function MaskWords(text: string): string
    decreases |text|
  {
    if text == "" then ""
    else if IsWhitespace(text[0]) then [text[0]] + MaskWords(text[1..])
    else
      var n := WordLength(text);
      MaskWord(text[..n]) + MaskWords(text[n..])
  }

  predicate IsWord(w: string)
  {
    w != "" && forall i :: 0 <= i < |w| ==> !IsWhitespace(w[i])
  }

  /** A word cannot run on past the end of `a`. */
  predicate EndsBetweenWords(a: string)
  {
    a == "" || IsWhitespace(a[|a| - 1])
  }

  predicate StartsBetweenWords(b: string)
  {
    b == "" || IsWhitespace(b[0])
  }

  lemma WordLengthIs(w: string, b: string)
    requires IsWord(w) && StartsBetweenWords(b)
    ensures WordLength(w + b) == |w|
  {
    assert forall i :: 0 <= i < |w| ==> (w + b)[i] == w[i];
    assert b != "" ==> (w + b)[|w|] == b[0];
  }

  lemma MaskWordsOfWord(w: string, b: string)
    requires IsWord(w) && StartsBetweenWords(b)
    ensures MaskWords(w + b) == MaskWord(w) + MaskWords(b)
  {
    hide MaskWord;
    WordLengthIs(w, b);
    assert (w + b)[..|w|] == w && (w + b)[|w|..] == b && (w + b)[0] == w[0];
  }

  lemma {:induction false} MaskWordsConcat(a: string, b: string)
    requires EndsBetweenWords(a)
    ensures MaskWords(a + b) == MaskWords(a) + MaskWords(b)
    decreases |a|
  {
    hide MaskWord;
    if a == "" {
      assert a + b == b;
    } else if IsWhitespace(a[0]) {
      assert (a + b)[1..] == a[1..] + b && (a + b)[0] == a[0];
      MaskWordsConcat(a[1..], b);
    } else {
      var n := WordLength(a);
      assert n < |a| by {
        assert IsWhitespace(a[|a| - 1]);
      }
      var w, c := a[..n], a[n..];
      assert a == w + c && a + b == w + (c + b) && (c + b)[0] == c[0];
      MaskWordsOfWord(w, c);
      MaskWordsOfWord(w, c + b);
      MaskWordsConcat(c, b);
    }
  }

  /** Text without a URL is left alone. */
  lemma {:induction false} NoUrlUnchanged(text: string)
    requires !Contains(text, SEP)
    ensures MaskWords(text) == text
    decreases |text|
  {
    hide RedactProxyUrl, UrlStart, Contains;
    if text != "" {
      var n := if IsWhitespace(text[0]) then 1 else WordLength(text);
      NotInPart(text, SEP, 0, n);
      NotInPart(text, SEP, n, |text|);
      assert text[0..n] == text[..n] && text[n..|text|] == text[n..];
      WordWithoutUrl(text[..n]);
      NoUrlUnchanged(text[n..]);
    }
  }

  lemma WordWithoutUrl(w: string)
    requires !Contains(w, SEP)
    ensures MaskWord(w) == w
  {
  }

  // ----- the scanner -----

  /** Where the word around the separator starts and ends. */
  function WordStart(rest: string, sep: nat): nat
    requires sep <= |rest|
  {
    LastBefore(rest, sep, IsWhitespace)
  }

  function WordEnd(rest: string, sep: nat): nat
    requires sep <= |rest|
  {
    FirstFrom(rest, sep, IsWhitespace)
  }

  lemma AroundSeparator(rest: string, sep: nat)
    requires OccursAt(rest, SEP, sep)
    ensures WordStart(rest, sep) <= UrlStart(rest, sep) <= sep && sep + 3 <= WordEnd(rest, sep) <= |rest|
    ensures IsWord(rest[WordStart(rest, sep)..WordEnd(rest, sep)])
    ensures EndsBetweenWords(rest[..WordStart(rest, sep)]) && StartsBetweenWords(rest[WordEnd(rest, sep)..])
  {
    var a, start, end := WordStart(rest, sep), UrlStart(rest, sep), WordEnd(rest, sep);
    var found := rest[sep..sep + 3];
    assert found[0] == rest[sep] && found[1] == rest[sep + 1] && found[2] == rest[sep + 2];
    assert a > 0 ==> !IsSchemeChar(rest[a - 1]);
  }

  /** Cut out as a word, the URL starts and is separated at the same places. */
  lemma UrlInWord(rest: string, sep: nat, a: nat, end: nat)
    requires Find(rest, SEP) == Some(sep) && a <= UrlStart(rest, sep) && sep + 3 <= end <= |rest|
    ensures var start := UrlStart(rest, sep);
      MaskWord(rest[a..end]) == rest[a..start] + RedactProxyUrl(rest[start..end])
  {
    hide RedactProxyUrl, UrlStart, Find;
    var w, start := rest[a..end], UrlStart(rest, sep);
    FindInPart(rest, SEP, a, end, sep);
    SameUrlStart(rest, w, sep, a, end);
    SliceOfSlice(rest, a, start - a, end);
  }

  lemma SameUrlStart(rest: string, w: string, sep: nat, a: nat, end: nat)
    requires a <= sep <= end <= |rest| && w == rest[a..end] && a <= UrlStart(rest, sep)
    ensures UrlStart(w, sep - a) == UrlStart(rest, sep) - a
  {
    var i, j := UrlStart(w, sep - a), UrlStart(rest, sep);
    if i > 0 {
      assert !IsSchemeChar(rest[a + i - 1]);
    }
    if j > a {
      assert !IsSchemeChar(w[j - a - 1]);
    }
  }

  /** One turn: the first URL in `rest`, found by its separator, is masked as part of its word. */
  lemma ScanStep(rest: string, sep: nat)
    requires Find(rest, SEP) == Some(sep)
    ensures var start, end := UrlStart(rest, sep), WordEnd(rest, sep);
      && start <= end && sep + 3 <= end <= |rest|
      && MaskWords(rest) == rest[..start] + RedactProxyUrl(rest[start..end]) + MaskWords(rest[end..])
  {
    hide RedactProxyUrl, MaskWords, MaskWord, UrlStart, WordStart, WordEnd, Find, Contains;
    var a, start, end := WordStart(rest, sep), UrlStart(rest, sep), WordEnd(rest, sep);
    AroundSeparator(rest, sep);
    var before, w, after := rest[..a], rest[a..end], rest[end..];
    SplitTwice(rest, a, end);
    MaskWordsConcat(before, w + after);
    MaskWordsOfWord(w, after);
    NoSeparatorBefore(rest, sep, a);
    NoUrlUnchanged(before);
    UrlInWord(rest, sep, a, end);
    calc {
      MaskWords(rest);
      before + MaskWords(w + after);
      before + (rest[a..start] + RedactProxyUrl(rest[start..end]) + MaskWords(after));
      { Regroup(before, rest[a..start], RedactProxyUrl(rest[start..end]), MaskWords(after)); }
      before + rest[a..start] + RedactProxyUrl(rest[start..end]) + MaskWords(after);
      { JoinSlices(rest, a, start); }
      rest[..start] + RedactProxyUrl(rest[start..end]) + MaskWords(after);
    }
  }

  lemma JoinSlices(s: string, a: nat, b: nat)
    requires a <= b <= |s|
    ensures s[..a] + s[a..b] == s[..b]
  {
  }

  lemma SplitTwice(s: string, a: nat, b: nat)
    requires a <= b <= |s|
    ensures s == s[..a] + (s[a..b] + s[b..])
  {
  }

  lemma Regroup(a: string, b: string, c: string, d: string)
    ensures a + (b + c + d) == a + b + c + d
  {
  }

  method RedactUrlUserinfo(text: string) returns (out: string)
    ensures out == MaskWords(text)
  {
    hide MaskWords, RedactProxyUrl, UrlStart, WordEnd;
    out := "";
    var rest := text;
    while true
      invariant out + MaskWords(rest) == MaskWords(text)
      decreases |rest|
    {
      match Find(rest, SEP) {
        case None =>
          NoUrlUnchanged(rest);
          break;
        case Some(sep) =>
          ScanStep(rest, sep);
          var start := UrlStart(rest, sep);
          var end := WordEnd(rest, sep);
          Regroup(out, rest[..start], RedactProxyUrl(rest[start..end]), MaskWords(rest[end..]));
          out := out + rest[..start];
          out := out + RedactProxyUrl(rest[start..end]);
          rest := rest[end..];
      }
    }
    out := out + rest;
  }

  // ----- what the masking depends on -----

  /** The text before a URL in its word: it holds no separator, and ends where no scheme can go on. */
  predicate IsLead(p: string)
  {
    !Contains(p, SEP) && (p == "" || !IsSchemeChar(p[|p| - 1]))
  }

  predicate AllSchemeChars(s: string)
  {
    forall i :: 0 <= i < |s| ==> IsSchemeChar(s[i])
  }

  /** A word made of a lead, scheme characters, a separator and a rest is read as just that. */
  lemma WordParts(p: string, s: string, rest: string)
    requires IsLead(p) && AllSchemeChars(s)
    ensures var w := p + s + SEP + rest;
      Find(w, SEP) == Some(|p| + |s|) && UrlStart(w, |p| + |s|) == |p|
  {
    var w, sep := p + s + SEP + rest, |p| + |s|;
    assert w[sep..sep + 3] == SEP && w[..sep] == p + s;
    assert OccursAt(w, SEP, sep);
    // A separator any earlier would have to run into the scheme or into the next separator.
    assert forall x :: |p| <= x < sep ==> w[x] == s[x - |p|] && IsSchemeChar(w[x]);
    assert w[sep] == w[sep..sep + 3][0];
    assert w[|p|] != '/';
    assert w[0..|p|] == p;
    forall k: nat | k < sep
      ensures !OccursAt(w, SEP, k)
    {
      SeparatorChars(w, k);
      if k + 3 <= |p| {
        OccursInPart(w, SEP, 0, |p|, k);
      }
    }
    assert Find(w, SEP) == Some(sep);
    StartBehindLead(w, p, s, sep);
  }

  lemma StartBehindLead(w: string, p: string, s: string, sep: nat)
    requires sep == |p| + |s| <= |w| && w[..sep] == p + s && AllSchemeChars(s)
    requires p == "" || !IsSchemeChar(p[|p| - 1])
    ensures UrlStart(w, sep) == |p|
  {
    assert forall i :: 0 <= i < sep ==> w[i] == w[..sep][i];
    assert forall i :: |p| <= i < sep ==> w[i] == s[i - |p|] && IsSchemeChar(w[i]);
    assert p != "" ==> w[|p| - 1] == p[|p| - 1];
  }

  lemma TrimmedWord(w: string)
    requires forall i :: 0 <= i < |w| ==> !IsWhitespace(w[i])
    ensures Trim(w) == w
  {
    if w != "" {
      assert !IsWhitespace(w[0]) && !IsWhitespace(w[|w| - 1]);
      assert w[0..] == w && w[..|w|] == w;
    }
  }

  lemma LastAt(a: string, h: string)
    requires '@' !in h
    ensures AfterLast(a + "@" + h, IsAt) == |a| + 1
  {
    assert forall i :: 0 <= i < |h| ==> h[i] != '@';
    AfterLastIs(a + "@", h, IsAt);
  }

  lemma NoAt(r: string)
    requires '@' !in r
    ensures AfterLast(r, IsAt) == 0
  {
  }

  /** The scheme part that survives: the scheme if it is one, nothing if it may itself be a credential. */
  function KeptScheme(s: string): string
  {
    if IsScheme(s) then s + SEP else ""
  }

  lemma RedactParts(s: string, rest: string)
    requires AllSchemeChars(s) && forall i :: 0 <= i < |s + SEP + rest| ==> !IsWhitespace((s + SEP + rest)[i])
    ensures var url := s + SEP + rest;
      var shown := if IsScheme(s) then rest else url;
      var host := AfterLast(shown, IsAt);
      RedactProxyUrl(url) == if host > 0 then KeptScheme(s) + "***@" + shown[host..] else url
  {
    hide IsScheme, AllSchemeChars, Trim, Find, IsWhitespace;
    var url := s + SEP + rest;
    TrimmedWord(url);
    WordParts("", s, rest);
    assert "" + s + SEP + rest == url;
    assert url[..|s|] == s && url[|s| + 3..] == rest;
    NoAtIsWhole(s, rest);
  }

  lemma NoAtIsWhole(s: string, rest: string)
    ensures s + SEP + rest == (s + SEP) + rest && "" + (s + SEP + rest) == s + SEP + rest
  {
  }

  /** In a word that holds a URL with userinfo, the output is fixed by what precedes the URL, the scheme
      when it is one, and what follows the last `@`. */
  lemma MaskKeepsOnlyLeadSchemeAndHost(p: string, s: string, userinfo: string, host: string)
    requires IsLead(p) && AllSchemeChars(s) && '@' !in host
    requires IsWord(p + s + SEP + userinfo + "@" + host)
    ensures MaskWord(p + s + SEP + userinfo + "@" + host) == p + KeptScheme(s) + "***@" + host
  {
    hide IsLead, AllSchemeChars, IsScheme, RedactProxyUrl, Find, UrlStart, KeptScheme, IsWord;
    var rest := userinfo + "@" + host;
    var url := s + SEP + rest;
    var w := p + s + SEP + rest;
    assert w == p + s + SEP + userinfo + "@" + host && w == p + url;
    WordParts(p, s, rest);
    assert w[..|p|] == p && w[|p|..] == url;
    PartOfWord(p, url);
    assert url == s + SEP + userinfo + "@" + host;
    RedactWithUserinfo(s, userinfo, host);
    assert p + (KeptScheme(s) + "***@" + host) == p + KeptScheme(s) + "***@" + host;
  }

  lemma PartOfWord(p: string, url: string)
    requires IsWord(p + url)
    ensures forall i :: 0 <= i < |url| ==> !IsWhitespace(url[i])
  {
    assert forall i :: 0 <= i < |url| ==> url[i] == (p + url)[|p| + i];
  }

  lemma RedactWithUserinfo(s: string, userinfo: string, host: string)
    requires AllSchemeChars(s) && '@' !in host
    requires var url := s + SEP + userinfo + "@" + host; forall i :: 0 <= i < |url| ==> !IsWhitespace(url[i])
    ensures RedactProxyUrl(s + SEP + userinfo + "@" + host) == KeptScheme(s) + "***@" + host
  {
    hide AllSchemeChars, RedactProxyUrl, IsScheme;
    var rest := userinfo + "@" + host;
    assert s + SEP + rest == s + SEP + userinfo + "@" + host;
    RedactParts(s, rest);
    LastAt(userinfo, host);
    LastAt(s + SEP + userinfo, host);
    assert rest[|userinfo| + 1..] == host;
    assert (s + SEP + rest)[|s + SEP + userinfo| + 1..] == host;
  }

  /** So no change of the userinfo, in any word of any text, changes the output. */
  lemma UserinfoNeverShows(before: string, p: string, s: string, u: string, v: string, host: string, after: string)
    requires EndsBetweenWords(before) && StartsBetweenWords(after)
    requires IsLead(p) && AllSchemeChars(s) && '@' !in host
    requires IsWord(p + s + SEP + u + "@" + host) && IsWord(p + s + SEP + v + "@" + host)
    ensures MaskWords(before + (p + s + SEP + u + "@" + host + after))
         == MaskWords(before + (p + s + SEP + v + "@" + host + after))
  {
    hide IsLead, AllSchemeChars, MaskWord, MaskWords, IsWord;
    MaskWordsConcat(before, p + s + SEP + u + "@" + host + after);
    MaskWordsConcat(before, p + s + SEP + v + "@" + host + after);
    MaskWordsOfWord(p + s + SEP + u + "@" + host, after);
    MaskWordsOfWord(p + s + SEP + v + "@" + host, after);
    MaskKeepsOnlyLeadSchemeAndHost(p, s, u, host);
    MaskKeepsOnlyLeadSchemeAndHost(p, s, v, host);
  }

  // ----- masking twice -----

  lemma WordDecomposes(w: string) returns (p: string, s: string, rest: string)
    requires Contains(w, SEP)
    ensures w == p + s + SEP + rest && IsLead(p) && AllSchemeChars(s)
  {
    var sep := Find(w, SEP).value;
    var start := UrlStart(w, sep);
    p, s, rest := w[..start], w[start..sep], w[sep + 3..];
    NoSeparatorBefore(w, sep, start);
    assert w[sep..sep + 3] == SEP;
    assert forall i :: 0 <= i < |s| ==> s[i] == w[start + i];
    CutInFour(w, start, sep);
  }

  lemma CutInFour(w: string, a: nat, b: nat)
    requires a <= b && b + 3 <= |w|
    ensures w == w[..a] + w[a..b] + w[b..b + 3] + w[b + 3..]
  {
  }

  /** A URL without an `@` is left alone, and so is its word. */
  lemma UrlWithoutAtUnchanged(p: string, s: string, rest: string)
    requires IsLead(p) && AllSchemeChars(s) && '@' !in rest && IsWord(p + s + SEP + rest)
    ensures MaskWord(p + s + SEP + rest) == p + s + SEP + rest
  {
    hide IsLead, AllSchemeChars, RedactProxyUrl, IsScheme, Find, UrlStart, KeptScheme, IsWord;
    var url := s + SEP + rest;
    assert p + s + SEP + rest == p + url;
    WordParts(p, s, rest);
    PartOfWord(p, url);
    RedactWithoutAt(s, rest);
    assert (p + url)[..|p|] == p && (p + url)[|p|..] == url;
  }

  lemma RedactWithoutAt(s: string, rest: string)
    requires AllSchemeChars(s) && '@' !in rest
    requires forall i :: 0 <= i < |s + SEP + rest| ==> !IsWhitespace((s + SEP + rest)[i])
    ensures RedactProxyUrl(s + SEP + rest) == s + SEP + rest
  {
    hide RedactProxyUrl, IsScheme, AfterLast, IsWhitespace, KeptScheme;
    RedactParts(s, rest);
    NoAtInSchemeChars(s);
    NoAt(rest);
    NoAt(s + SEP + rest);
  }

  lemma NoAtInSchemeChars(s: string)
    requires AllSchemeChars(s)
    ensures '@' !in s && '@' !in SEP
  {
  }

  /** Once the scheme has been given up, whatever URL the masked word still holds has no `@`. */
  lemma MaskedWithoutSchemeUnchanged(p: string, host: string)
    requires IsLead(p) && '@' !in host && IsWord(p + "***@" + host)
    ensures MaskWord(p + "***@" + host) == p + "***@" + host
  {
    hide MaskWord, IsWord;
    var w := p + "***@" + host;
    if Contains(w, SEP) {
      var q, s, rest := WordDecomposes(w);
      SeparatorBehindMask(p, host, |q| + |s|) by {
        assert w[|q| + |s|..|q| + |s| + 3] == SEP;
      }
      assert forall i :: 0 <= i < |rest| ==> rest[i] == w[|q| + |s| + 3 + i] == host[|q| + |s| + 3 + i - |p| - 4];
      UrlWithoutAtUnchanged(q, s, rest);
    } else {
      WordWithoutUrl(w);
    }
  }

  lemma SeparatorBehindMask(p: string, host: string, k: nat)
    requires IsLead(p) && OccursAt(p + "***@" + host, SEP, k)
    ensures k >= |p| + 4
  {
    var w := p + "***@" + host;
    assert w[k..k + 3][0] == w[k] && w[k..k + 3][1] == w[k + 1] && w[k..k + 3][2] == w[k + 2];
    assert forall x :: |p| <= x < |p| + 4 ==> w[x] == "***@"[x - |p|] && w[x] != ':' && w[x] != '/';
    assert w[0..|p|] == p;
    if k + 3 <= |p| {
      OccursInPart(w, SEP, 0, |p|, k);
    }
  }

  lemma MaskWordTwice(w: string)
    requires IsWord(w)
    ensures IsWord(MaskWord(w)) && MaskWord(MaskWord(w)) == MaskWord(w)
  {
    hide MaskWord, IsLead, AllSchemeChars, IsScheme, IsWord, Contains;
    if !Contains(w, SEP) {
      WordWithoutUrl(w);
    } else {
      var p, s, rest := WordDecomposes(w);
      var at := AfterLast(rest, IsAt);
      if at == 0 {
        assert '@' !in rest;
        UrlWithoutAtUnchanged(p, s, rest);
      } else {
        var u, host := rest[..at - 1], rest[at..];
        assert rest == u + "@" + host && '@' !in host;
        assert w == p + s + SEP + u + "@" + host;
        MaskedWordTwice(p, s, u, host);
      }
    }
  }

  lemma MaskedWordTwice(p: string, s: string, u: string, host: string)
    requires IsLead(p) && AllSchemeChars(s) && '@' !in host
    requires IsWord(p + s + SEP + u + "@" + host)
    ensures var m := MaskWord(p + s + SEP + u + "@" + host);
      IsWord(m) && MaskWord(m) == m
  {
    hide MaskWord, IsLead, AllSchemeChars, IsScheme, IsWord;
    MaskKeepsOnlyLeadSchemeAndHost(p, s, u, host);
    MaskedIsWord(p, s, u, host);
    if IsScheme(s) {
      assert p + KeptScheme(s) + "***@" + host == p + s + SEP + "***" + "@" + host;
      MaskKeepsOnlyLeadSchemeAndHost(p, s, "***", host);
    } else {
      assert p + KeptScheme(s) + "***@" + host == p + "***@" + host;
      MaskedWithoutSchemeUnchanged(p, host);
    }
  }

  lemma MaskedIsWord(p: string, s: string, u: string, host: string)
    requires IsWord(p + s + SEP + u + "@" + host)
    ensures IsWord(p + KeptScheme(s) + "***@" + host)
  {
    hide IsScheme;
    var w, m := p + s + SEP + u + "@" + host, p + KeptScheme(s) + "***@" + host;
    var n := |p + KeptScheme(s)|;
    forall i | 0 <= i < |m|
      ensures !IsWhitespace(m[i])
    {
      if i < n {
        assert KeptScheme(s) != "" ==> m[i] == w[i];
        assert KeptScheme(s) == "" ==> m[i] == w[i];
      } else if i >= n + 4 {
        assert m[i] == host[i - n - 4] == w[|w| - |host| + (i - n - 4)];
      }
    }
  }

  lemma {:induction false} MaskWordsKeepsBoundary(b: string)
    requires StartsBetweenWords(b)
    ensures StartsBetweenWords(MaskWords(b))
  {
  }

  /** Masking is idempotent on every text. */
  lemma {:induction false} MaskWordsTwice(text: string)
    ensures MaskWords(MaskWords(text)) == MaskWords(text)
    decreases |text|
  {
    hide MaskWord;
    if text != "" {
      if IsWhitespace(text[0]) {
        MaskWordsTwice(text[1..]);
        var m := MaskWords(text[1..]);
        assert ([text[0]] + m)[1..] == m;
      } else {
        var n := WordLength(text);
        var w, b := text[..n], text[n..];
        MaskWordTwice(w);
        MaskWordsTwice(b);
        MaskWordsKeepsBoundary(b);
        MaskWordsOfWord(MaskWord(w), MaskWords(b));
      }
    }
  }
}
