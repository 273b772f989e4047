/** URL canonicalisation: the key under which two spellings of a URL count as one page. */
module Normalize {
  import opened Sequences
  import opened Text

  predicate IsHash(c: char) { c == '#' }
  predicate IsColon(c: char) { c == ':' }
  predicate IsCloseBracket(c: char) { c == ']' }
  predicate EndsAuthority(c: char) { c == '/' || c == '?' }
  predicate IsNotSlash(c: char) { c != '/' }

  predicate IsDelimiter(c: char)
  {
    c == '#' || c == '/' || c == '?' || c == '@' || c == ':' || c == '[' || c == ']'
  }

  /** What is known of `char::to_lowercase`: delimiters stay, nothing becomes a delimiter, ASCII letters
      fold as ASCII, and a lowered character is lowered for good. */
  ghost predicate IsFold(fold: char -> string)
  {
    && (forall c :: IsDelimiter(c) ==> fold(c) == [c])
    && (forall c, i :: !IsDelimiter(c) && 0 <= i < |fold(c)| ==> !IsDelimiter(fold(c)[i]))
    && (forall c, i :: 0 <= i < |fold(c)| ==> fold(fold(c)[i]) == [fold(c)[i]])
    && (forall c :: 'A' <= c <= 'Z' ==> fold(c) == [AsciiLowerChar(c)])
    && (forall c :: fold(c) != "")
  }

  function AsciiFold(c: char): string
  {
    [AsciiLowerChar(c)]
  }

  /** Folding ASCII letters and nothing else is such a mapping. */
  lemma AsciiFolds()
    ensures IsFold(AsciiFold)
  {
    assert forall c :: AsciiLowerChar(AsciiLowerChar(c)) == AsciiLowerChar(c);
    assert forall c :: !IsDelimiter(c) ==> !IsDelimiter(AsciiLowerChar(c));
    assert forall c :: IsDelimiter(c) ==> AsciiLowerChar(c) == c;
  }

  /** `str::to_lowercase`, character by character. */
  function Lower(fold: char -> string, s: string): string
  {
    if s == "" then "" else fold(s[0]) + Lower(fold, s[1..])
  }

  /** `trim_end_matches('/')` */
  function TrimSlashes(s: string): string
  {
    s[..AfterLast(s, IsNotSlash)]
  }

  function UpToFragment(url: string): string
  {
    url[..FirstFrom(url, 0, IsHash)]
  }

  predicate IsBracketed(hostAndPort: string)
  {
    hostAndPort != "" && hostAndPort[0] == '['
  }

  function HostLength(hostAndPort: string): (n: nat)
    ensures n <= |hostAndPort|
  {
    if IsBracketed(hostAndPort) then
      var i := FirstFrom(hostAndPort, 0, IsCloseBracket);
      if i < |hostAndPort| then i + 1 else i
    else
      var i := AfterLast(hostAndPort, IsColon);
      if i > 0 then i - 1 else |hostAndPort|
  }

  function Normalize(fold: char -> string, url: string): string
  {
    NormalizeTrimmed(fold, TrimSlashes(UpToFragment(url)))
  }

  function NormalizeTrimmed(fold: char -> string, trimmed: string): string
  {
    match Find(trimmed, SEP)
    case None => trimmed
    case Some(sep) =>
      var authorityStart := sep + 3;
      var authorityEnd := FirstFrom(trimmed, authorityStart, EndsAuthority);
      var authority := trimmed[authorityStart..authorityEnd];
      var hostStart := AfterLast(authority, IsAt);
      var hostAndPort := authority[hostStart..];
      var hostEnd := authorityStart + hostStart + HostLength(hostAndPort);
      Assemble(
        fold,
        trimmed[..sep],
        trimmed[authorityStart..authorityStart + hostStart],
        trimmed[authorityStart + hostStart..hostEnd],
        trimmed[hostEnd..authorityEnd],
        trimmed[authorityEnd..])
  }

  /** The key from its pieces: scheme and host lowered, the rest as it was. */
  function Assemble(fold: char -> string, scheme: string, userinfo: string, host: string, port: string,
                    tail: string): string
  {
    AsciiLower(scheme) + SEP + userinfo + Lower(fold, host) + port + tail
  }

  // ----- the parts of a URL -----

  /** `userinfo` keeps its `@`, `port` its `:`, and `tail` is the path and query. */
  datatype Parts = Parts(scheme: string, userinfo: string, host: string, port: string, tail: string)
  {
    function Authority(): string
    {
      userinfo + host + port
    }

    function Compose(): string
    {
      scheme + SEP + userinfo + host + port + tail
    }

    /** Something other than slashes follows the separator. */
    predicate HasRest()
    {
      Authority() != "" || TrimSlashes(tail) != ""
    }
  }

  /** A host in brackets runs to the first `]`; any other up to the last colon, which starts the port. */
  predicate HostEndsRight(host: string, port: string)
  {
    if IsBracketed(host) then
      || (host[|host| - 1] == ']' && Lacks(host[..|host| - 1], IsCloseBracket))
      || (Lacks(host, IsCloseBracket) && port == "")
    else
      if port == "" then Lacks(host, IsColon)
      else port[0] == ':' && Lacks(port[1..], IsColon)
  }

  predicate WellFormed(p: Parts)
  {
    && !Contains(p.scheme, SEP)
    && Lacks(p.scheme, IsHash) && Lacks(p.Authority(), IsHash) && Lacks(p.tail, IsHash)
    && Lacks(p.Authority(), EndsAuthority)
    && (p.userinfo == "" || p.userinfo[|p.userinfo| - 1] == '@')
    && Lacks(p.host + p.port, IsAt)
    && HostEndsRight(p.host, p.port)
    && (p.tail == "" || EndsAuthority(p.tail[0]))
  }

  /** The canonical form: scheme and host lowered, the rest as it was. */
  function Folded(fold: char -> string, p: Parts): Parts
  {
    p.(scheme := AsciiLower(p.scheme), host := Lower(fold, p.host))
  }

  function Canonical(fold: char -> string, p: Parts): Parts
  {
    Folded(fold, p).(tail := TrimSlashes(p.tail))
  }

  // ----- offsets -----

  lemma AuthorityEnds(before: string, authority: string, tail: string)
    requires Lacks(authority, EndsAuthority) && (tail == "" || EndsAuthority(tail[0]))
    ensures FirstFrom(before + authority + tail, |before|, EndsAuthority) == |before| + |authority|
  {
    hide FirstFrom;
    var u := before + authority + tail;
    assert forall i :: |before| <= i < |before| + |authority| ==> u[i] == authority[i - |before|];
    assert tail != "" ==> u[|before| + |authority|] == tail[0];
  }

  lemma HostEnds(host: string, port: string)
    requires HostEndsRight(host, port)
    ensures HostLength(host + port) == |host|
  {
    hide AfterLast, FirstFrom;
    var u := host + port;
    assert host != "" ==> u[0] == host[0];
    assert host == "" && port != "" ==> u[0] == port[0];
    if IsBracketed(host) {
      assert forall i :: 0 <= i < |host| ==> u[i] == host[i];
      assert forall i :: 0 <= i < |host| - 1 ==> host[..|host| - 1][i] == host[i];
    } else {
      assert forall i :: |host| < i < |u| ==> u[i] == port[1..][i - |host| - 1];
      assert port != "" ==> u[|host|] == port[0];
      assert port == "" ==> u == host;
    }
  }

  /** The parts of a text, cut where the code cuts it. */
  function PartsOf(u: string): Parts
    requires Contains(u, SEP)
  {
    var sep := Find(u, SEP).value;
    var end := FirstFrom(u, sep + 3, EndsAuthority);
    var authority := u[sep + 3..end];
    var at := AfterLast(authority, IsAt);
    var hostAndPort := authority[at..];
    var n := HostLength(hostAndPort);
    Parts(u[..sep], authority[..at], hostAndPort[..n], hostAndPort[n..], u[end..])
  }

  /** Well-formed parts can be read back from what they compose to. */
  lemma PartsOfCompose(p: Parts)
    requires WellFormed(p)
    ensures var u := p.Compose(); Contains(u, SEP) && PartsOf(u) == p && Find(u, SEP) == Some(|p.scheme|)
  {
    hide Find, FirstFrom, AfterLast, HostLength, HostEndsRight, Lacks, Parts.Compose, Parts.Authority;
    SlicesOfCompose(p);
    SlicesOfAuthority(p);
    SeparatorBehind(p.scheme, p.Authority() + p.tail);
    AuthorityEnds(p.scheme + SEP, p.Authority(), p.tail);
    AfterLastIs(p.userinfo, p.host + p.port, IsAt);
    HostEnds(p.host, p.port);
  }

  lemma SlicesOfCompose(p: Parts)
    ensures var u, start := p.Compose(), |p.scheme| + 3;
      && u == p.scheme + SEP + (p.Authority() + p.tail) && u == (p.scheme + SEP) + p.Authority() + p.tail
      && u[..|p.scheme|] == p.scheme
      && u[start..start + |p.Authority()|] == p.Authority()
      && u[start + |p.Authority()|..] == p.tail
  {
    var u := p.Compose();
    assert u == (p.scheme + SEP) + p.Authority() + p.tail;
  }

  lemma SlicesOfAuthority(p: Parts)
    ensures p.Authority() == p.userinfo + (p.host + p.port)
    ensures var hostAndPort := p.Authority()[|p.userinfo|..];
      && p.Authority()[..|p.userinfo|] == p.userinfo && hostAndPort == p.host + p.port
      && hostAndPort[..|p.host|] == p.host && hostAndPort[|p.host|..] == p.port
  {
    var a := p.userinfo + (p.host + p.port);
    assert p.Authority() == a;
    assert a[..|p.userinfo|] == p.userinfo && a[|p.userinfo|..] == p.host + p.port;
  }

  /** Every text with a separator composes from its parts. */
  lemma ComposePartsOf(u: string)
    requires Contains(u, SEP)
    ensures PartsOf(u).Compose() == u
  {
    hide Find, FirstFrom, AfterLast, HostLength;
    var p, sep := PartsOf(u), Find(u, SEP).value;
    var end := FirstFrom(u, sep + 3, EndsAuthority);
    var authority := u[sep + 3..end];
    Rejoin(authority, |p.userinfo|, |p.userinfo| + |p.host|);
    CutAtSeparator(u, sep, end);
    Regroup(p.scheme + SEP, p.userinfo, p.host, p.port, p.tail);
  }

  lemma Rejoin(s: string, i: nat, j: nat)
    requires i <= j <= |s|
    ensures s[..i] + (s[i..][..j - i] + s[i..][j - i..]) == s
  {
  }

  lemma CutAtSeparator(u: string, sep: nat, end: nat)
    requires OccursAt(u, SEP, sep) && sep + 3 <= end <= |u|
    ensures u[..sep] + SEP + u[sep + 3..end] + u[end..] == u
  {
  }

  lemma Regroup(a: string, b: string, c: string, d: string, e: string)
    ensures a + b + c + d + e == a + (b + (c + d)) + e
  {
  }

  lemma PartsOfAreWellFormed(u: string)
    requires Contains(u, SEP) && Lacks(u, IsHash)
    ensures WellFormed(PartsOf(u))
  {
    hide FirstFrom, AfterLast, HostLength, HostEndsRight, Find, Lacks, Parts.Authority;
    var p, sep := PartsOf(u), Find(u, SEP).value;
    var end := FirstFrom(u, sep + 3, EndsAuthority);
    var authority := u[sep + 3..end];
    NoSeparatorBefore(u, sep, sep);
    HostEndsRightAt(authority[AfterLast(authority, IsAt)..]);
    AuthorityOf(p, authority);
    LacksInPart(u, 0, sep, IsHash);
    LacksInPart(u, sep + 3, end, IsHash);
    LacksInPart(u, end, |u|, IsHash);
    assert u[0..sep] == u[..sep] && u[end..|u|] == u[end..];
    UpToStop(u, sep + 3);
    BehindLast(authority);
  }

  lemma AuthorityOf(p: Parts, authority: string)
    requires |p.userinfo| + |p.host| <= |authority|
    requires var n := |p.userinfo|;
      && p.userinfo == authority[..n] && p.host == authority[n..][..|p.host|] && p.port == authority[n..][|p.host|..]
    ensures p.Authority() == authority && p.host + p.port == authority[|p.userinfo|..]
  {
    Rejoin(authority, |p.userinfo|, |p.userinfo| + |p.host|);
    assert p.Authority() == p.userinfo + (p.host + p.port);
  }

  lemma LacksInPart(u: string, i: nat, j: nat, p: char -> bool)
    requires i <= j <= |u| && Lacks(u, p)
    ensures Lacks(u[i..j], p)
  {
  }

  lemma UpToStop(u: string, i: nat)
    requires i <= |u|
    ensures var end := FirstFrom(u, i, EndsAuthority);
      Lacks(u[i..end], EndsAuthority) && (u[end..] == "" || EndsAuthority(u[end..][0]))
  {
    hide FirstFrom;
  }

  lemma BehindLast(authority: string)
    ensures var at := AfterLast(authority, IsAt);
      Lacks(authority[at..], IsAt) && (authority[..at] == "" || authority[..at][at - 1] == '@')
  {
    hide AfterLast;
  }

  lemma HostEndsRightAt(hostAndPort: string)
    ensures var n := HostLength(hostAndPort); HostEndsRight(hostAndPort[..n], hostAndPort[n..])
  {
    hide FirstFrom, AfterLast;
  }

  /** The offsets the code computes cut a well-formed URL into its parts. */
  lemma CoreOfParts(fold: char -> string, p: Parts)
    requires WellFormed(p)
    ensures NormalizeTrimmed(fold, p.Compose()) == Folded(fold, p).Compose()
  {
    hide Find, FirstFrom, AfterLast, HostLength, Contains, Lower, AsciiLower, WellFormed, Parts.Compose;
    PartsOfCompose(p);
    var u := p.Compose();
    CoreIsFoldedParts(fold, u);
    ComposedOf(Folded(fold, p));
  }

  lemma CoreIsFoldedParts(fold: char -> string, u: string)
    requires Contains(u, SEP)
    ensures var p := PartsOf(u);
      NormalizeTrimmed(fold, u) == Assemble(fold, p.scheme, p.userinfo, p.host, p.port, p.tail)
  {
    hide Find, FirstFrom, AfterLast, HostLength, Assemble, PartsOf;
    PartsAreSlices(u);
  }

  lemma PartsAreSlices(u: string)
    requires Contains(u, SEP)
    ensures var p, sep := PartsOf(u), Find(u, SEP).value;
      var end := FirstFrom(u, sep + 3, EndsAuthority);
      var authority := u[sep + 3..end];
      var hostStart := AfterLast(authority, IsAt);
      var hostEnd := sep + 3 + hostStart + HostLength(authority[hostStart..]);
      && sep + 3 + hostStart <= hostEnd <= end
      && p == Parts(u[..sep], u[sep + 3..sep + 3 + hostStart], u[sep + 3 + hostStart..hostEnd], u[hostEnd..end],
                    u[end..])
  {
    hide Find, FirstFrom, AfterLast, HostLength;
    var start := Find(u, SEP).value + 3;
    var end := FirstFrom(u, start, EndsAuthority);
    var hostStart := start + AfterLast(u[start..end], IsAt);
    SliceOfSlice(u, start, hostStart - start, end);
    SliceOfSlice(u, hostStart, HostLength(u[hostStart..end]), end);
  }

  lemma ComposedOf(p: Parts)
    ensures p.Compose() == p.scheme + SEP + p.userinfo + p.host + p.port + p.tail
  {
  }

  // ----- trimming -----

  lemma TrimIsTrimmed(s: string)
    ensures var t := TrimSlashes(s); |t| <= |s| && t == s[..|t|] && (t == "" || t[|t| - 1] != '/')
    ensures forall i :: |TrimSlashes(s)| <= i < |s| ==> s[i] == '/'
  {
    hide AfterLast;
  }

  /** A prefix that ends in no slash, with nothing but slashes behind it, is what trimming leaves. */
  lemma TrimIs(t: string, slashes: string)
    requires (t == "" || t[|t| - 1] != '/') && Lacks(slashes, IsNotSlash)
    ensures TrimSlashes(t + slashes) == t
  {
    AfterLastIs(t, slashes, IsNotSlash);
    assert (t + slashes)[..|t|] == t;
  }

  lemma TrimTwice(s: string)
    ensures TrimSlashes(TrimSlashes(s)) == TrimSlashes(s)
  {
    hide TrimSlashes;
    TrimIsTrimmed(s);
    var t := TrimSlashes(s);
    assert t + "" == t;
    TrimIs(t, "");
  }

  lemma TrimCompose(p: Parts)
    requires WellFormed(p)
    ensures TrimSlashes(p.Compose())
         == if p.HasRest() then p.(tail := TrimSlashes(p.tail)).Compose() else p.scheme + ":"
  {
    hide TrimSlashes, WellFormed, Parts.Compose;
    TrimIsTrimmed(p.tail);
    var t := TrimSlashes(p.tail);
    var slashes := p.tail[|t|..];
    assert Lacks(slashes, IsNotSlash);
    assert p.tail == t + slashes;
    if p.HasRest() {
      LastOfCompose(p, t);
      ComposeTail(p, t);
      ComposeTail(p, t + slashes);
      assert p.(tail := p.tail) == p;
      AppendAssociates(p.(tail := "").Compose(), t, slashes);
      TrimIs(p.(tail := t).Compose(), slashes);
    } else {
      assert p.Compose() == (p.scheme + ":") + ("//" + slashes) by {
        BareCompose(p);
      }
      TrimIs(p.scheme + ":", "//" + slashes);
    }
  }

  lemma BareCompose(p: Parts)
    requires p.Authority() == ""
    ensures p.Compose() == (p.scheme + ":") + ("//" + p.tail)
  {
    assert p.Compose() == p.scheme + SEP + p.Authority() + p.tail;
  }

  lemma ComposeTail(p: Parts, t: string)
    ensures p.(tail := t).Compose() == p.(tail := "").Compose() + t
  {
    assert p.scheme + SEP + p.userinfo + p.host + p.port + "" == p.scheme + SEP + p.userinfo + p.host + p.port;
  }

  lemma LastOfCompose(p: Parts, t: string)
    requires WellFormed(p) && (p.Authority() != "" || t != "") && (t == "" || t[|t| - 1] != '/')
    ensures var u := p.(tail := t).Compose(); u != "" && u[|u| - 1] != '/'
  {
    hide Contains, HostEndsRight, TrimSlashes;
    var u := p.(tail := t).Compose();
    assert u == p.scheme + SEP + p.Authority() + t;
  }

  // ----- folding keeps the parts apart -----

  lemma {:induction false} LowerKeepsFree(fold: char -> string, s: string, d: char)
    requires IsFold(fold) && IsDelimiter(d) && d !in s
    ensures d !in Lower(fold, s)
  {
    if s != "" {
      LowerKeepsFree(fold, s[1..], d);
      var f := fold(s[0]);
      assert forall i :: 0 <= i < |f| ==> f[i] != d;
    }
  }

  lemma {:induction false} LowerConcat(fold: char -> string, a: string, b: string)
    ensures Lower(fold, a + b) == Lower(fold, a) + Lower(fold, b)
  {
    if a == "" {
      assert a + b == b;
    } else {
      assert (a + b)[0] == a[0] && (a + b)[1..] == a[1..] + b;
      LowerConcat(fold, a[1..], b);
    }
  }

  lemma {:induction false} LowerOfFixed(fold: char -> string, s: string)
    requires forall i :: 0 <= i < |s| ==> fold(s[i]) == [s[i]]
    ensures Lower(fold, s) == s
  {
    if s != "" {
      LowerOfFixed(fold, s[1..]);
    }
  }

  lemma {:induction false} LowerTwice(fold: char -> string, s: string)
    requires IsFold(fold)
    ensures Lower(fold, Lower(fold, s)) == Lower(fold, s)
  {
    if s != "" {
      var f := fold(s[0]);
      LowerOfFixed(fold, f);
      LowerTwice(fold, s[1..]);
      LowerConcat(fold, f, Lower(fold, s[1..]));
    }
  }

  lemma LowerOfDelimiter(fold: char -> string, d: char)
    requires IsFold(fold) && IsDelimiter(d)
    ensures Lower(fold, [d]) == [d]
  {
    assert Lower(fold, [d][1..]) == "";
  }

  lemma LowerStarts(fold: char -> string, s: string)
    requires IsFold(fold)
    ensures IsBracketed(Lower(fold, s)) == IsBracketed(s)
    ensures Lower(fold, s) == "" <==> s == ""
  {
    if s != "" {
      assert Lower(fold, s)[0] == fold(s[0])[0];
    }
  }

  lemma FoldKeepsHostEnd(fold: char -> string, host: string, port: string)
    requires IsFold(fold) && HostEndsRight(host, port)
    ensures HostEndsRight(Lower(fold, host), port)
  {
    hide IsFold;
    LowerStarts(fold, host);
    if IsBracketed(host) {
      if Lacks(host, IsCloseBracket) && port == "" {
        LowerKeepsFree(fold, host, ']');
      } else {
        var inner := host[..|host| - 1];
        assert host == inner + "]";
        LowerConcat(fold, inner, "]");
        LowerOfDelimiter(fold, ']');
        assert ']' !in inner;
        LowerKeepsFree(fold, inner, ']');
        assert Lower(fold, host)[..|Lower(fold, host)| - 1] == Lower(fold, inner);
      }
    } else if port == "" {
      assert ':' !in host;
      LowerKeepsFree(fold, host, ':');
    }
  }

  lemma LacksConcat(a: string, b: string, p: char -> bool)
    ensures Lacks(a + b, p) <==> Lacks(a, p) && Lacks(b, p)
  {
    assert forall i :: 0 <= i < |a| ==> (a + b)[i] == a[i];
    assert forall i :: 0 <= i < |b| ==> (a + b)[|a| + i] == b[i];
  }

  lemma {:induction false} SchemeStaysOne(scheme: string)
    requires !Contains(scheme, SEP)
    ensures !Contains(AsciiLower(scheme), SEP)
  {
    hide AsciiLower;
    forall k: nat | k + 3 <= |scheme|
      ensures !OccursAt(AsciiLower(scheme), SEP, k)
    {
      SeparatorChars(AsciiLower(scheme), k);
      assert !OccursAt(scheme, SEP, k);
      assert scheme[k..k + 3] == [scheme[k], scheme[k + 1], scheme[k + 2]];
    }
  }

  lemma FoldedIsWellFormed(fold: char -> string, p: Parts)
    requires IsFold(fold) && WellFormed(p)
    ensures WellFormed(Folded(fold, p))
  {
    hide IsFold, HostEndsRight, Contains, Lower;
    SchemeStaysOne(p.scheme);
    FoldKeepsHostEnd(fold, p.host, p.port);
    var host := Lower(fold, p.host);
    assert Folded(fold, p).Authority() == p.userinfo + host + p.port;
    FoldKeepsFree(fold, p, IsHash, '#');
    FoldKeepsFree(fold, p, IsAt, '@');
    FoldKeepsFree(fold, p, EndsAuthority, '/');
    FoldKeepsFree(fold, p, EndsAuthority, '?');
    LacksConcat(p.userinfo + p.host, p.port, IsHash);
    LacksConcat(p.userinfo, p.host, IsHash);
    LacksConcat(p.userinfo + host, p.port, IsHash);
    LacksConcat(p.userinfo, host, IsHash);
    LacksConcat(p.userinfo + p.host, p.port, EndsAuthority);
    LacksConcat(p.userinfo, p.host, EndsAuthority);
    LacksConcat(p.userinfo + host, p.port, EndsAuthority);
    LacksConcat(p.userinfo, host, EndsAuthority);
    LacksConcat(p.host, p.port, IsAt);
    LacksConcat(host, p.port, IsAt);
  }

  lemma FoldKeepsFree(fold: char -> string, p: Parts, pred: char -> bool, d: char)
    requires IsFold(fold) && IsDelimiter(d) && pred(d)
    ensures Lacks(p.host, pred) ==> d !in Lower(fold, p.host)
  {
    if Lacks(p.host, pred) {
      assert d !in p.host;
      LowerKeepsFree(fold, p.host, d);
    }
  }

  // ----- what the key identifies -----

  lemma Slashless(p: Parts)
    requires WellFormed(p)
    ensures WellFormed(p.(tail := TrimSlashes(p.tail)))
    ensures p.HasRest() <==> p.(tail := TrimSlashes(p.tail)).HasRest()
    ensures TrimSlashes(TrimSlashes(p.tail)) == TrimSlashes(p.tail)
  {
    hide TrimSlashes, Contains, HostEndsRight;
    TrimIsTrimmed(p.tail);
    TrimTwice(p.tail);
  }

  lemma {:induction false} NoHashInCompose(p: Parts)
    requires WellFormed(p)
    ensures Lacks(p.Compose(), IsHash)
  {
    hide Contains, HostEndsRight;
    assert p.Compose() == p.scheme + SEP + p.Authority() + p.tail;
    LacksConcat(p.scheme, SEP, IsHash);
    LacksConcat(p.scheme + SEP, p.Authority(), IsHash);
    LacksConcat(p.scheme + SEP + p.Authority(), p.tail, IsHash);
  }

  lemma NoFragment(u: string)
    requires Lacks(u, IsHash)
    ensures UpToFragment(u) == u
  {
    hide FirstFrom;
  }

  /** The whole effect on a URL, given by its parts: scheme and host are lowered, slashes at the very end
      go, and userinfo, port, path and query stay as they are. A URL with nothing but slashes behind the
      separator loses the separator instead, and its scheme is not lowered. */
  lemma NormalizeOfParts(fold: char -> string, p: Parts)
    requires IsFold(fold) && WellFormed(p)
    ensures Normalize(fold, p.Compose())
         == if p.HasRest() then Canonical(fold, p).Compose() else p.scheme + ":"
  {
    hide IsFold, WellFormed, NormalizeTrimmed, TrimSlashes, UpToFragment, Lower, AsciiLower, Parts.Compose;
    NoHashInCompose(p);
    NoFragment(p.Compose());
    TrimCompose(p);
    if p.HasRest() {
      Slashless(p);
      CoreOfParts(fold, p.(tail := TrimSlashes(p.tail)));
    } else {
      BareScheme(fold, p.scheme) by { WellFormedScheme(p); }
    }
  }

  lemma ComposeIsInjective(p: Parts, q: Parts)
    requires WellFormed(p) && WellFormed(q) && p.Compose() == q.Compose()
    ensures p == q
  {
    hide WellFormed, PartsOf;
    PartsOfCompose(p);
    PartsOfCompose(q);
  }

  lemma WellFormedScheme(p: Parts)
    requires WellFormed(p)
    ensures !Contains(p.scheme, SEP)
  {
  }

  lemma BareScheme(fold: char -> string, scheme: string)
    requires !Contains(scheme, SEP)
    ensures NormalizeTrimmed(fold, scheme + ":") == scheme + ":"
  {
    var u := scheme + ":";
    forall k: nat
      ensures !OccursAt(u, SEP, k)
    {
      SeparatorChars(u, k);
      if k + 3 <= |scheme| {
        OccursInPrefix(scheme, ":", SEP, k);
      }
    }
    assert Find(u, SEP).None?;
  }

  /** Two URLs share a key exactly when their canonical parts agree. */
  lemma SameKeyIffSameParts(fold: char -> string, p: Parts, q: Parts)
    requires IsFold(fold) && WellFormed(p) && WellFormed(q) && p.HasRest() && q.HasRest()
    ensures Normalize(fold, p.Compose()) == Normalize(fold, q.Compose())
      <==> && AsciiLower(p.scheme) == AsciiLower(q.scheme)
           && Lower(fold, p.host) == Lower(fold, q.host)
           && p.userinfo == q.userinfo && p.port == q.port
           && TrimSlashes(p.tail) == TrimSlashes(q.tail)
  {
    hide IsFold, WellFormed, Normalize, TrimSlashes, Lower, AsciiLower, Parts.Compose, Parts.HasRest;
    NormalizeOfParts(fold, p);
    NormalizeOfParts(fold, q);
    FoldedIsWellFormed(fold, p);
    FoldedIsWellFormed(fold, q);
    Slashless(Folded(fold, p));
    Slashless(Folded(fold, q));
    if Canonical(fold, p).Compose() == Canonical(fold, q).Compose() {
      ComposeIsInjective(Canonical(fold, p), Canonical(fold, q));
    }
  }

  /** So spellings of scheme and host in another case are one page, except for URLs without a rest, where
      the scheme must be spelt alike. */
  lemma CaseIsIgnoredIff(fold: char -> string, p: Parts, scheme: string, host: string)
    requires IsFold(fold) && WellFormed(p) && WellFormed(p.(scheme := scheme, host := host))
    requires AsciiLower(scheme) == AsciiLower(p.scheme) && Lower(fold, host) == Lower(fold, p.host)
    ensures Normalize(fold, p.Compose()) == Normalize(fold, p.(scheme := scheme, host := host).Compose())
      <==> p.HasRest() || scheme == p.scheme
  {
    hide IsFold, WellFormed, Normalize, TrimSlashes, AsciiLower, Parts.Compose;
    var q := p.(scheme := scheme, host := host);
    LowerOfEmpty(fold, p.host);
    LowerOfEmpty(fold, host);
    assert p.HasRest() <==> q.HasRest() by {
      assert |p.Authority()| == |p.userinfo| + |p.host| + |p.port|;
      assert |q.Authority()| == |q.userinfo| + |q.host| + |q.port|;
    }
    NormalizeOfParts(fold, p);
    NormalizeOfParts(fold, q);
    if !p.HasRest() && p.scheme + ":" == scheme + ":" {
      assert p.scheme == (p.scheme + ":")[..|p.scheme + ":"| - 1] == scheme;
    }
  }

  lemma {:induction false} LowerIgnoresCase(fold: char -> string, a: string, b: string)
    requires IsFold(fold) && SameIgnoringCase(a, b)
    ensures Lower(fold, a) == Lower(fold, b)
  {
    if a != "" {
      FoldsAlike(fold, a[0], b[0]);
      hide IsFold;
      LowerIgnoresCase(fold, a[1..], b[1..]);
    }
  }

  lemma FoldsAlike(fold: char -> string, a: char, b: char)
    requires IsFold(fold) && (a == b || IsUpperOf(a, b) || IsUpperOf(b, a))
    ensures fold(a) == fold(b)
  {
    if IsUpperOf(a, b) {
      assert fold(a) == [b] && fold(a)[0] == b;
    } else if IsUpperOf(b, a) {
      assert fold(b) == [a] && fold(b)[0] == a;
    }
  }

  lemma {:induction false} AsciiFoldLowers(s: string)
    ensures Lower(AsciiFold, s) == AsciiLower(s)
  {
    hide AsciiLower;
    if s != "" {
      AsciiFoldLowers(s[1..]);
      assert AsciiLower(s) == [AsciiLowerChar(s[0])] + AsciiLower(s[1..]);
    } else {
      assert AsciiLower("") == "";
    }
  }

  /** Spellings of a URL that differ only in the case of ASCII letters of scheme and host are one page. */
  lemma CaseOfSchemeAndHostIsIgnored(fold: char -> string, p: Parts, scheme: string, host: string)
    requires IsFold(fold) && WellFormed(p) && WellFormed(p.(scheme := scheme, host := host)) && p.HasRest()
    requires SameIgnoringCase(scheme, p.scheme) && SameIgnoringCase(host, p.host)
    ensures Normalize(fold, p.Compose()) == Normalize(fold, p.(scheme := scheme, host := host).Compose())
  {
    hide IsFold, WellFormed, Normalize, AsciiLower, Lower, Parts.Compose, Parts.HasRest, SameIgnoringCase;
    LowerIgnoresCase(fold, host, p.host);
    AsciiLowerIgnoresCase(scheme, p.scheme);
    CaseIsIgnoredIff(fold, p, scheme, host);
  }

  /** And with ASCII folding, in all other respects keys tell URLs apart. */
  lemma SameKeyIffSpeltAlike(p: Parts, q: Parts)
    requires WellFormed(p) && WellFormed(q) && p.HasRest() && q.HasRest()
    ensures Normalize(AsciiFold, p.Compose()) == Normalize(AsciiFold, q.Compose())
      <==> && SameIgnoringCase(p.scheme, q.scheme) && SameIgnoringCase(p.host, q.host)
           && p.userinfo == q.userinfo && p.port == q.port && TrimSlashes(p.tail) == TrimSlashes(q.tail)
  {
    hide IsFold, WellFormed, Normalize, AsciiLower, Lower, Parts.Compose, Parts.HasRest, SameIgnoringCase, TrimSlashes;
    AsciiFolds();
    AsciiFoldLowers(p.host);
    AsciiFoldLowers(q.host);
    AsciiLowerIgnoresCase(p.scheme, q.scheme);
    AsciiLowerIgnoresCase(p.host, q.host);
    SameKeyIffSameParts(AsciiFold, p, q);
  }

  /** Two spellings of one URL without a rest that get different keys. */
  lemma BareSchemesKeepTheirCase(fold: char -> string)
    requires IsFold(fold)
    ensures Normalize(fold, "HTTP://") == "HTTP:" && Normalize(fold, "http://") == "http:"
  {
    hide IsFold, Normalize;
    BareSchemeKey(fold, "HTTP");
    BareSchemeKey(fold, "http");
    assert "HTTP" + SEP == "HTTP://" && "http" + SEP == "http://" && "HTTP" + ":" == "HTTP:" && "http" + ":" == "http:";
  }

  lemma BareSchemeKey(fold: char -> string, scheme: string)
    requires IsFold(fold) && Lacks(scheme, IsColon) && Lacks(scheme, IsHash)
    ensures Normalize(fold, scheme + SEP) == scheme + ":"
  {
    hide IsFold, Normalize, AfterLast;
    var p := Parts(scheme, "", "", "", "");
    forall k: nat
      ensures !OccursAt(scheme, SEP, k)
    {
      SeparatorChars(scheme, k);
    }
    assert Find(scheme, SEP).None?;
    assert p.Compose() == scheme + SEP;
    NormalizeOfParts(fold, p);
  }

  lemma LowerOfEmpty(fold: char -> string, s: string)
    requires IsFold(fold)
    ensures Lower(fold, s) == "" <==> s == ""
  {
    LowerStarts(fold, s);
  }

  /** Fragments never matter. */
  lemma FragmentIgnored(fold: char -> string, url: string, fragment: string)
    ensures Normalize(fold, url + "#" + fragment) == Normalize(fold, url)
  {
    hide FirstFrom, NormalizeTrimmed, TrimSlashes;
    var u := url + "#" + fragment;
    assert forall i :: 0 <= i < |url| ==> u[i] == url[i];
    assert u[|url|] == '#';
    assert UpToFragment(u) == UpToFragment(url);
  }

  /** Nor do slashes at the end of the whole string. */
  lemma TrailingSlashIgnored(fold: char -> string, url: string)
    ensures Normalize(fold, url + "/") == Normalize(fold, url)
  {
    hide FirstFrom, NormalizeTrimmed, TrimSlashes;
    var u := url + "/";
    assert forall i :: 0 <= i < |url| ==> u[i] == url[i];
    if Lacks(url, IsHash) {
      LacksConcat(url, "/", IsHash);
      NoFragment(url);
      NoFragment(u);
      var t := TrimSlashes(url);
      TrimIsTrimmed(url);
      var slashes := url[|t|..] + "/";
      assert u == t + slashes;
      TrimIs(t, slashes);
    } else {
      assert UpToFragment(u) == UpToFragment(url);
    }
  }

  /** A key is its own key, whatever text it was made from. */
  lemma NormalizeTwice(fold: char -> string, url: string)
    requires IsFold(fold)
    ensures Normalize(fold, Normalize(fold, url)) == Normalize(fold, url)
  {
    hide IsFold, FirstFrom, Find, TrimSlashes, Lower, AsciiLower, WellFormed, Parts.Compose, Lacks;
    var key := UpToFragment(url);
    var u := TrimSlashes(key);
    UpToFragmentLacksHash(url);
    TrimIsTrimmed(key);
    LacksInPart(key, 0, |u|, IsHash);
    assert key[0..|u|] == u;
    TrimTwice(key);
    if Contains(u, SEP) {
      var p := PartsOf(u);
      PartsOfAreWellFormed(u);
      ComposePartsOf(u);
      TrimmedParts(p, u);
      CoreOfParts(fold, p);
      FoldedTwice(fold, p);
    } else {
      NoFragment(u);
    }
  }

  lemma UpToFragmentLacksHash(url: string)
    ensures Lacks(UpToFragment(url), IsHash)
  {
  }

  /** A composition that ends in no slash has a rest, and a tail that ends in none. */
  lemma TrimmedParts(p: Parts, u: string)
    requires WellFormed(p) && p.Compose() == u && TrimSlashes(u) == u
    ensures p.HasRest() && TrimSlashes(p.tail) == p.tail
  {
    hide TrimSlashes, WellFormed;
    TrimCompose(p);
    TrimIsTrimmed(p.tail);
    assert |u| == |p.scheme| + 3 + |p.Authority()| + |p.tail|;
    if p.HasRest() {
      assert |p.(tail := TrimSlashes(p.tail)).Compose()| == |p.scheme| + 3 + |p.Authority()| + |TrimSlashes(p.tail)|;
    }
  }

  lemma FoldedTwice(fold: char -> string, p: Parts)
    requires IsFold(fold) && WellFormed(p) && p.HasRest() && TrimSlashes(p.tail) == p.tail
    ensures Normalize(fold, Folded(fold, p).Compose()) == Folded(fold, p).Compose()
  {
    hide IsFold, WellFormed, Normalize, TrimSlashes, Parts.Compose;
    var q := Folded(fold, p);
    FoldedIsWellFormed(fold, p);
    LowerOfEmpty(fold, p.host);
    assert |p.Authority()| == |p.userinfo| + |p.host| + |p.port|;
    assert |q.Authority()| == |p.userinfo| + |q.host| + |p.port|;
    NormalizeOfParts(fold, q);
    LowerTwice(fold, p.host);
    assert AsciiLower(AsciiLower(p.scheme)) == AsciiLower(p.scheme);
    assert Canonical(fold, q) == q;
  }
}
