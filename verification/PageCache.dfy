/** The cache of fetched pages, and every run of scrape requests against it: requests arrive, fetch,
    escalate and commit in any interleaving, entries are evicted at will, and the clock moves on. */
module PageCache {
  import opened CacheKey
  import opened Numbers
  import opened Text

  // Times are in milliseconds.
  const MAX_AGE_CEILING: nat := 24 * 60 * 60 * 1000
  const MAX_ENTRY_BYTES: nat := 8 * 1024 * 1024

  datatype Captured = Captured(url: string, requestId: string, mimeType: Option<string>, body: Option<string>)

  datatype FetchResult = FetchResult(
    status: nat, html: string, rawBytes: Option<string>, finalUrl: Option<string>, renderedWith: Option<string>,
    elapsedMs: nat, warning: Option<string>, warnings: seq<string>, captured: seq<Captured>,
    walled: bool, truncated: bool, deadlineExceeded: bool)

  datatype CachedPage = CachedPage(fetchedAt: nat, budgetBucket: nat, result: FetchResult)

  // ----- sizes, budgets, ages -----

  function LenOf(s: Option<string>): nat
  {
    match s
    case Some(t) => |t|
    case None => 0
  }

  function CapturedBytes(cs: seq<Captured>): nat
  {
    if cs == [] then 0
    else LenOf(cs[0].body) + |cs[0].url| + |cs[0].requestId| + LenOf(cs[0].mimeType) + CapturedBytes(cs[1..])
  }

  function TotalLen(ss: seq<string>): nat
  {
    if ss == [] then 0 else |ss[0]| + TotalLen(ss[1..])
  }

  function EntryBytes(key: string, r: FetchResult): nat
  {
    |key| + |r.html| + LenOf(r.rawBytes) + CapturedBytes(r.captured)
    + LenOf(r.finalUrl) + LenOf(r.warning) + TotalLen(r.warnings)
  }

  /** Everything of an entry that counts towards its size, written out. */
  function TextOf(s: Option<string>): string
  {
    if s.Some? then s.value else ""
  }

  function AllText(key: string, r: FetchResult): string
  {
    key + r.html + TextOf(r.rawBytes) + TextOf(r.finalUrl) + TextOf(r.warning) + Joined(r.warnings) + Bodies(r.captured)
  }

  function Joined(ss: seq<string>): string
  {
    if ss == [] then "" else Joined(ss[..|ss| - 1]) + ss[|ss| - 1]
  }

  function Bodies(cs: seq<Captured>): string
  {
    if cs == [] then ""
    else
      var c := cs[|cs| - 1];
      Bodies(cs[..|cs| - 1]) + c.url + c.requestId + TextOf(c.mimeType) + TextOf(c.body)
  }

  lemma {:induction false} TotalLenIs(ss: seq<string>)
    ensures TotalLen(ss) == |Joined(ss)|
  {
    if ss != [] {
      var front, last := ss[..|ss| - 1], ss[|ss| - 1];
      TotalLenIs(front);
      TotalLenSnoc(front, last);
      assert ss == front + [last];
    }
  }

  lemma {:induction false} TotalLenSnoc(ss: seq<string>, s: string)
    ensures TotalLen(ss + [s]) == TotalLen(ss) + |s|
  {
    if ss != [] {
      assert (ss + [s])[1..] == ss[1..] + [s];
      TotalLenSnoc(ss[1..], s);
    }
  }

  lemma {:induction false} CapturedBytesAre(cs: seq<Captured>)
    ensures CapturedBytes(cs) == |Bodies(cs)|
  {
    if cs != [] {
      var front, last := cs[..|cs| - 1], cs[|cs| - 1];
      CapturedBytesAre(front);
      CapturedBytesSnoc(front, last);
      assert cs == front + [last];
    }
  }

  lemma {:induction false} CapturedBytesSnoc(cs: seq<Captured>, c: Captured)
    ensures CapturedBytes(cs + [c]) == CapturedBytes(cs) + |c.url + c.requestId + TextOf(c.mimeType) + TextOf(c.body)|
  {
    if cs != [] {
      assert (cs + [c])[1..] == cs[1..] + [c];
      CapturedBytesSnoc(cs[1..], c);
    }
  }

  /** The size of an entry is the length of all its text. */
  lemma EntryBytesAre(key: string, r: FetchResult)
    ensures EntryBytes(key, r) == |AllText(key, r)|
  {
    TotalLenIs(r.warnings);
    CapturedBytesAre(r.captured);
  }

  function BudgetBucket(remainingMs: nat): (bucket: nat)
    ensures bucket <= 4
  {
    if remainingMs < 2_000 then 0
    else if remainingMs < 5_000 then 1
    else if remainingMs < 15_000 then 2
    else if remainingMs < 60_000 then 3
    else 4
  }

  /** A writer counts as no tighter than a reader when it had at least the reader's budget, or when the two
      cannot be told apart. */
  lemma BucketsAreOrdered(readerMs: nat, writerMs: nat)
    ensures BudgetBucket(writerMs) >= BudgetBucket(readerMs)
      <==> writerMs >= readerMs || BudgetBucket(writerMs) == BudgetBucket(readerMs)
  {
  }

  datatype Settings = Settings(enabled: bool, defaultMaxAge: nat)

  function SettingsFrom(enabled: bool, defaultMaxAgeMs: nat): Settings
  {
    Settings(enabled, Min(defaultMaxAgeMs, MAX_AGE_CEILING))
  }

  function EffectiveMaxAge(s: Settings, requested: Option<nat>): nat
  {
    if !s.enabled then 0
    else match requested
      case None => s.defaultMaxAge
      case Some(ms) => Min(ms, MAX_AGE_CEILING)
  }

  // ----- reading and storing -----

  type Entries = map<string, CachedPage>

  /** A page no older than the reader accepts, fetched under no tighter a budget than the reader's own. */
  function LookupIn(entries: Entries, now: nat, key: string, maxAge: nat, readerBucket: nat): Option<FetchResult>
  {
    if maxAge == 0 || key !in entries then None
    else
      var entry := entries[key];
      if now > entry.fetchedAt + maxAge || entry.budgetBucket < readerBucket then None else Some(entry.result)
  }

  predicate HasBody(r: FetchResult)
  {
    r.html != "" || (r.rawBytes.Some? && r.rawBytes.value != "")
  }

  function StoreIn(entries: Entries, key: string, r: FetchResult, bucket: nat, fetchedAt: nat): Entries
  {
    if !HasBody(r) || EntryBytes(key, r) > MAX_ENTRY_BYTES then entries
    else entries[key := CachedPage(fetchedAt, bucket, r)]
  }

  /** The process-wide cache. `now` is its clock. */
  class Cache {
    var entries: Entries
    var now: nat

    constructor ()
      ensures entries == map[] && now == 0
    {
      entries, now := map[], 0;
    }

    /** `replayMs` is how long the replay itself took, which replaces the original fetch's duration. */
    method Lookup(key: string, maxAge: nat, readerBucket: nat, replayMs: nat) returns (hit: Option<FetchResult>)
      ensures hit == match LookupIn(entries, now, key, maxAge, readerBucket)
                     case None => None
                     case Some(r) => Some(r.(elapsedMs := replayMs))
      ensures hit.Some? <==>
        && 0 < maxAge && key in entries
        && now <= entries[key].fetchedAt + maxAge && readerBucket <= entries[key].budgetBucket
    {
      if maxAge == 0 {
        return None;
      }
      if key !in entries {
        return None;
      }
      var entry := entries[key];
      if now > entry.fetchedAt + maxAge {
        return None;
      }
      if entry.budgetBucket < readerBucket {
        return None;
      }
      return Some(entry.result.(elapsedMs := replayMs));
    }

    method Store(key: string, result: FetchResult, bucket: nat, fetchedAt: nat)
      modifies this`entries
      ensures entries == StoreIn(old(entries), key, result, bucket, fetchedAt)
      ensures forall k :: k != key ==> (k in entries <==> k in old(entries))
      ensures forall k :: k != key && k in entries ==> entries[k] == old(entries)[k]
      ensures entries != old(entries) ==> key in entries && entries[key] == CachedPage(fetchedAt, bucket, result)
      ensures entries != old(entries) ==> HasBody(result) && EntryBytes(key, result) <= MAX_ENTRY_BYTES
    {
      if result.html == "" && (result.rawBytes.None? || result.rawBytes.value == "") {
        return;
      }
      if EntryBytes(key, result) > MAX_ENTRY_BYTES {
        return;
      }
      entries := entries[key := CachedPage(fetchedAt, bucket, result)];
    }
  }

  // ----- requests -----

  datatype Request = Request(
    url: string, renderer: Option<Renderer>, renderJs: Option<bool>, waitFor: Option<nat>, hasHeaders: bool,
    proxy: bool, stealthDiffers: bool, changeTracking: bool, markdown: bool,
    maxAge: Option<nat>, storeInCache: Option<bool>)

  /** The renderer a request runs on and the server's defaults. */
  datatype Server = Server(userAgent: string, renderJsDefault: Option<bool>, hasJsRenderer: bool,
                           cacheEnabled: bool, configuredMaxAge: nat)
  {
    function Cache(): Settings
    {
      SettingsFrom(cacheEnabled, configuredMaxAge)
    }
  }

  function RequestedRenderJs(req: Request): Option<bool>
  {
    if req.renderer.Some? && ImpliesJs(req.renderer.value) && req.renderJs.None? then Some(true) else req.renderJs
  }

  function ResolvedRenderJs(req: Request, server: Server): Option<bool>
  {
    if RequestedRenderJs(req).Some? then RequestedRenderJs(req) else server.renderJsDefault
  }

  predicate NeedsTempFetcher(req: Request)
  {
    req.proxy || req.stealthDiffers
  }

  /** What any anonymous caller would have fetched, live. */
  predicate Anonymous(req: Request)
  {
    !req.hasHeaders && !NeedsTempFetcher(req)
  }

  predicate Cacheable(req: Request, server: Server)
  {
    EffectiveMaxAge(server.Cache(), req.maxAge) != 0 && !req.changeTracking && !req.hasHeaders && !NeedsTempFetcher(req)
  }

  predicate MayEscalate(req: Request, server: Server)
  {
    ResolvedRenderJs(req, server) != Some(false) && !NeedsTempFetcher(req) && server.hasJsRenderer && req.markdown
  }

  function Inputs(req: Request, server: Server): (i: KeyInputs)
    ensures i.rendererPin != Some("")
  {
    KeyInputs(req.url, RequestedRenderJs(req), req.waitFor,
              if req.renderer.Some? then PinnedName(req.renderer.value) else None,
              server.userAgent, MayEscalate(req, server))
  }

  // ----- what a request asks for, field by field -----

  predicate PinsBrowser(req: Request)
  {
    req.renderer in {Some(Lightpanda), Some(Chrome), Some(ChromeProxy), Some(Playwright), Some(Camofox)}
  }

  /** The renderer that must be used, if any. */
  function Pin(req: Request): Option<Renderer>
  {
    if req.renderer == Some(Auto) then None else req.renderer
  }

  /** Whether JavaScript is asked for: as the request says, or by pinning a browser. */
  function AskedJs(req: Request): Option<bool>
  {
    match req.renderJs
    case Some(js) => Some(js)
    case None => if PinsBrowser(req) then Some(true) else None
  }

  /** JavaScript is ruled out, by the request or, where it leaves that open, by the server. */
  predicate RefusesJs(req: Request, server: Server)
  {
    AskedJs(req) == Some(false) || (AskedJs(req) == None && server.renderJsDefault == Some(false))
  }

  /** A page that came thin over HTTP may be rendered once more in a browser. */
  predicate EscalationIsOpen(req: Request, server: Server)
  {
    server.hasJsRenderer && req.markdown && !req.proxy && !req.stealthDiffers && !RefusesJs(req, server)
  }

  /** Two requests ask the network for the same thing. */
  predicate SameAsk(req: Request, server: Server, req': Request, server': Server)
  {
    && req.url == req'.url && req.waitFor == req'.waitFor && server.userAgent == server'.userAgent
    && Pin(req) == Pin(req') && AskedJs(req) == AskedJs(req')
    && (EscalationIsOpen(req, server) <==> EscalationIsOpen(req', server'))
  }

  /** Nothing in the request makes its page personal, and it does not compare pages. */
  predicate MayShare(req: Request)
  {
    !req.hasHeaders && !req.proxy && !req.stealthDiffers && !req.changeTracking
  }

  /** What came at `at` is recent enough at `now`: by the request's own limit, or else the server's, and never
      after more than a day. */
  predicate IsRecent(req: Request, server: Server, at: nat, now: nat)
  {
    && server.cacheEnabled && req.maxAge != Some(0)
    && now <= at + (match req.maxAge case Some(ms) => ms case None => server.configuredMaxAge)
    && now <= at + 86_400_000
  }

  /** The request looks in the cache at all. */
  predicate ReadsCache(req: Request, server: Server)
  {
    && MayShare(req) && server.cacheEnabled
    && (match req.maxAge case Some(ms) => ms > 0 case None => server.configuredMaxAge > 0)
  }

  lemma PinnedNamesDiffer(r: Renderer, r': Renderer)
    ensures PinnedName(r) == PinnedName(r') <==> r == r'
    ensures PinnedName(r) == None <==> r == Auto
  {
    var names := ["lightpanda", "chrome", "chrome_proxy", "playwright", "camofox", "impersonated-http"];
    assert |names[0]| == 10 && |names[1]| == 6 && |names[2]| == 12;
    assert |names[3]| == 10 && |names[4]| == 7 && |names[5]| == 17;
    assert names[0][0] == 'l' && names[3][0] == 'p';
  }

  lemma PinIsNamed(req: Request, req': Request)
    ensures (if req.renderer.Some? then PinnedName(req.renderer.value) else None)
         == (if req'.renderer.Some? then PinnedName(req'.renderer.value) else None)
      <==> Pin(req) == Pin(req')
  {
    hide PinnedName;
    PinnedNamesDiffer(Auto, Auto);
    if req.renderer.Some? {
      PinnedNamesDiffer(req.renderer.value, Auto);
    }
    if req'.renderer.Some? {
      PinnedNamesDiffer(req'.renderer.value, Auto);
    }
    if req.renderer.Some? && req'.renderer.Some? {
      PinnedNamesDiffer(req.renderer.value, req'.renderer.value);
    }
  }

  lemma EscalationIsKeyed(req: Request, server: Server)
    ensures MayEscalate(req, server) <==> EscalationIsOpen(req, server)
    ensures RequestedRenderJs(req) == AskedJs(req)
  {
  }

  /** Requests share an entry exactly when they ask for the same. */
  lemma SameInputsIffSameAsk(req: Request, server: Server, req': Request, server': Server)
    ensures Inputs(req, server) == Inputs(req', server') <==> SameAsk(req, server, req', server')
  {
    hide PinnedName, Pin, AskedJs, EscalationIsOpen, MayEscalate, RequestedRenderJs;
    PinIsNamed(req, req');
    EscalationIsKeyed(req, server);
    EscalationIsKeyed(req', server');
  }

  lemma CacheableIff(req: Request, server: Server)
    ensures Cacheable(req, server) <==> ReadsCache(req, server)
    ensures Anonymous(req) <==> !req.hasHeaders && !req.proxy && !req.stealthDiffers
  {
  }

  lemma RecentIff(req: Request, server: Server, at: nat, now: nat)
    requires ReadsCache(req, server)
    ensures now <= at + EffectiveMaxAge(server.Cache(), req.maxAge) <==> IsRecent(req, server, at, now)
  {
  }

  lemma InputsMayEscalate(req: Request, server: Server)
    ensures Inputs(req, server).mayEscalate == MayEscalate(req, server)
  {
  }

  // ----- runs -----

  /** What the network returned at time `at`, to which request, and whether in an escalation. */
  datatype Live = Live(req: Request, server: Server, escalated: bool, html: string, rawBytes: Option<string>,
                       status: nat, finalUrl: Option<string>, warning: Option<string>, at: nat)

  function LiveOf(req: Request, server: Server, escalated: bool, r: FetchResult, at: nat): Live
  {
    Live(req, server, escalated, r.html, r.rawBytes, r.status, r.finalUrl, r.warning, at)
  }

  /** A request in flight: waiting for its fetch, or holding a result. `candidate` is the snapshot taken
      for the cache, `render` the escalation that replaced the body, if one was accepted. */
  datatype Pending =
    | Fetching(req: Request, server: Server)
    | Holding(req: Request, server: Server, fromCache: bool, result: FetchResult, fetchedAt: nat,
              candidate: Option<FetchResult>, render: Option<FetchResult>)

  /** An entry written, with the inputs it stands for, the budget its writer had left, and whether the writer
      had itself started from a hit. */
  datatype Written = Written(inputs: KeyInputs, budgetMs: nat, replayed: bool, page: CachedPage)

  /** A cache hit: who read it, when, with what budget, and the entry whose result was handed over. */
  datatype Hit = Hit(req: Request, server: Server, at: nat, budgetMs: nat, page: CachedPage)

  datatype State = State(entries: Entries, now: nat, live: seq<Live>, writes: seq<Written>,
                         pending: map<nat, Pending>, hits: seq<Hit>)

  datatype Step =
    | Arrive(id: nat, req: Request, server: Server, budgetMs: nat)
    | FetchReturns(id: nat, fetched: FetchResult)
    | EscalationReturns(id: nat, rendered: FetchResult, accepted: bool)
    | Commit(id: nat, usable: bool, budgetMs: nat)
    | Abandon(id: nat)
    | Evict(key: string)
    | Tick(ms: nat)

  predicate Is2xx(r: FetchResult)
  {
    200 <= r.status < 300
  }

  /** What a snapshot must not be. */
  predicate Sound(r: FetchResult)
  {
    Is2xx(r) && !r.truncated && !r.deadlineExceeded && !r.walled
  }

  predicate Enabled(s: State, step: Step)
  {
    match step
    case Arrive(id, _, server, _) => id !in s.pending
    case FetchReturns(id, _) => id in s.pending && s.pending[id].Fetching?
    case EscalationReturns(id, _, _) =>
      && id in s.pending && s.pending[id].Holding? && s.pending[id].render.None?
      && Is2xx(s.pending[id].result) && EscalationIsOpen(s.pending[id].req, s.pending[id].server)
    case Commit(id, _, _) => id in s.pending && s.pending[id].Holding?
    case Abandon(id) => id in s.pending
    case Evict(_) => true
    case Tick(_) => true
  }

  /** The request looks in the cache, and either holds the hit or goes to the network. */
  function ArriveStep(s: State, id: nat, req: Request, server: Server, budgetMs: nat): State
  {
    var maxAge, bucket := EffectiveMaxAge(server.Cache(), req.maxAge), BudgetBucket(budgetMs);
    var key := KeyOf(Inputs(req, server));
    var hit := if Cacheable(req, server) then LookupIn(s.entries, s.now, key, maxAge, bucket) else None;
    match hit
    case None => s.(pending := s.pending[id := Fetching(req, server)])
    case Some(r) =>
      s.(pending := s.pending[id := Holding(req, server, true, r, s.now, None, None)],
         hits := s.hits + [Hit(req, server, s.now, budgetMs, s.entries[KeyOf(Inputs(req, server))])])
  }

  /** The network answered: a snapshot is taken while the result is whole. */
  function FetchStep(s: State, id: nat, fetched: FetchResult): State
    requires id in s.pending && s.pending[id].Fetching?
  {
    var p := s.pending[id];
    s.(live := s.live + [LiveOf(p.req, p.server, false, fetched, s.now)],
       pending := s.pending[id :=
         Holding(p.req, p.server, false, fetched, s.now,
                 if Cacheable(p.req, p.server) && Sound(fetched) then Some(fetched) else None, None)])
  }

  /** The browser answered. An accepted render lends the result its body, wall verdict and truncation. */
  function EscalationStep(s: State, id: nat, rendered: FetchResult, accepted: bool): State
    requires id in s.pending && s.pending[id].Holding?
  {
    var p := s.pending[id];
    var p' :=
      if accepted then
        p.(result := p.result.(html := rendered.html, walled := rendered.walled, truncated := rendered.truncated),
           render := Some(rendered))
      else p;
    s.(live := s.live + [LiveOf(p.req, p.server, true, rendered, s.now)],
       pending := s.pending[id := p'])
  }

  /** What a commit would store: the merged view after an escalation, else the snapshot, which a plain
      hit does not have. */
  function Candidate(p: Pending): Option<FetchResult>
    requires p.Holding?
  {
    match p.render
    case Some(r) =>
      Some(p.result.(renderedWith := r.renderedWith, warnings := r.warnings, captured := r.captured, rawBytes := None))
    case None => p.candidate
  }

  /** `usable` stands for what the page itself must pass: no block, no origin error, no failed escalation,
      markdown produced, not a shell. */
  function CommitStep(s: State, id: nat, usable: bool, budgetMs: nat): State
    requires id in s.pending && s.pending[id].Holding?
  {
    var p := s.pending[id];
    var c := Candidate(p);
    var store := Cacheable(p.req, p.server) && c.Some? && Sound(c.value) && usable && p.req.storeInCache != Some(false);
    if !store then s.(pending := s.pending - {id})
    else
      var i, bucket := Inputs(p.req, p.server), BudgetBucket(budgetMs);
      s.(entries := StoreIn(s.entries, KeyOf(i), c.value, bucket, p.fetchedAt),
         writes := s.writes + [Written(i, budgetMs, p.fromCache, CachedPage(p.fetchedAt, bucket, c.value))],
         pending := s.pending - {id})
  }

  function Apply(s: State, step: Step): State
    requires Enabled(s, step)
  {
    match step
    case Arrive(id, req, server, budgetMs) => ArriveStep(s, id, req, server, budgetMs)
    case FetchReturns(id, fetched) => FetchStep(s, id, fetched)
    case EscalationReturns(id, rendered, accepted) => EscalationStep(s, id, rendered, accepted)
    case Commit(id, usable, budgetMs) => CommitStep(s, id, usable, budgetMs)
    case Abandon(id) => s.(pending := s.pending - {id})
    case Evict(key) => s.(entries := s.entries - {key})
    case Tick(ms) => s.(now := s.now + ms)
  }

  const START := State(map[], 0, [], [], map[], [])

  ghost predicate Run(states: seq<State>, steps: seq<Step>)
  {
    && |states| == |steps| + 1
    && states[0] == START
    && forall k :: 0 <= k < |steps| ==> Enabled(states[k], steps[k]) && states[k + 1] == Apply(states[k], steps[k])
  }

  // ----- what every run keeps -----

  /** `r` is a body that an anonymous live fetch with inputs `i` returned no earlier than `since`. */
  ghost predicate Witnessed(live: seq<Live>, now: nat, i: KeyInputs, r: FetchResult, since: nat)
  {
    exists l :: l in live && Witnesses(l, now, i, r, since)
  }

  predicate Witnesses(l: Live, now: nat, i: KeyInputs, r: FetchResult, since: nat)
  {
    && Inputs(l.req, l.server) == i && Anonymous(l.req) && l.html == r.html
    && (l.escalated ==> EscalationIsOpen(l.req, l.server))
    && (r.rawBytes.Some? ==> l.rawBytes == r.rawBytes)
    && since <= l.at <= now
  }

  /** An anonymous live fetch with inputs `i` returned the status, final URL and warning of `r` no earlier
      than `since`. */
  ghost predicate FactsWitnessed(live: seq<Live>, now: nat, i: KeyInputs, r: FetchResult, since: nat)
  {
    exists l :: l in live && WitnessesFacts(l, now, i, r, since)
  }

  predicate WitnessesFacts(l: Live, now: nat, i: KeyInputs, r: FetchResult, since: nat)
  {
    && Inputs(l.req, l.server) == i && Anonymous(l.req)
    && l.status == r.status && l.finalUrl == r.finalUrl && l.warning == r.warning
    && since <= l.at <= now
  }

  /** `page` was written for inputs `i`, under the bucket of the budget its writer had left; and unless the
      writer had started from a hit, the network returned its status, final URL and warning as well. */
  ghost predicate WrittenFor(live: seq<Live>, writes: seq<Written>, now: nat, i: KeyInputs, page: CachedPage)
  {
    exists w :: w in writes && Accounts(live, now, w, i, page)
  }

  ghost predicate Accounts(live: seq<Live>, now: nat, w: Written, i: KeyInputs, page: CachedPage)
  {
    && w.inputs == i && w.page == page && page.budgetBucket == BudgetBucket(w.budgetMs)
    && (w.replayed ==> i.mayEscalate)
    && (w.replayed || FactsWitnessed(live, now, i, page.result, page.fetchedAt))
  }

  ghost predicate EntryFor(live: seq<Live>, writes: seq<Written>, now: nat, i: KeyInputs, page: CachedPage)
  {
    && Sound(page.result) && HasBody(page.result) && i.rendererPin != Some("")
    && Witnessed(live, now, i, page.result, page.fetchedAt)
    && WrittenFor(live, writes, now, i, page)
    && EntryBytes(KeyOf(i), page.result) <= MAX_ENTRY_BYTES
  }

  ghost predicate EntryOk(live: seq<Live>, writes: seq<Written>, now: nat, key: string, page: CachedPage)
  {
    exists i: KeyInputs :: KeyOf(i) == key && EntryFor(live, writes, now, i, page)
  }

  predicate SameFacts(a: FetchResult, b: FetchResult)
  {
    a.status == b.status && a.finalUrl == b.finalUrl && a.warning == b.warning
  }

  /** A request in flight holds nothing for the cache that the network did not return to it. */
  ghost predicate PendingOk(live: seq<Live>, now: nat, p: Pending)
  {
    p.Holding? ==>
      && p.fetchedAt <= now
      && (p.render.Some? ==> EscalationIsOpen(p.req, p.server))
      && (p.fromCache ==> Cacheable(p.req, p.server) && p.candidate.None?)
      && (!p.fromCache && Anonymous(p.req) ==>
            FactsWitnessed(live, now, Inputs(p.req, p.server), p.result, p.fetchedAt))
      && (p.candidate.Some? ==> SameFacts(p.candidate.value, p.result))
      && (p.candidate.Some? && Anonymous(p.req) ==>
            Witnessed(live, now, Inputs(p.req, p.server), p.candidate.value, p.fetchedAt))
      && (p.render.Some? && Anonymous(p.req) ==>
            Witnessed(live, now, Inputs(p.req, p.server), p.result.(rawBytes := None), p.fetchedAt))
  }

  /** The key leaves room for a body. */
  predicate KeyFits(req: Request, server: Server)
  {
    |KeyOf(Inputs(req, server))| < MAX_ENTRY_BYTES
  }

  /** The promise to a reader: a sound body that an anonymous fetch with the reader's own inputs returned,
      no longer ago than the reader accepts, never more than a day, and written under a budget bucket no
      tighter than the reader's. */
  ghost predicate HitOk(live: seq<Live>, writes: seq<Written>, now: nat, h: Hit)
  {
    var maxAge := EffectiveMaxAge(h.server.Cache(), h.req.maxAge);
    && h.at <= now && 0 < maxAge <= MAX_AGE_CEILING
    && Cacheable(h.req, h.server) && Sound(h.page.result) && HasBody(h.page.result)
    && (exists l :: l in live
          && Witnesses(l, h.at, Inputs(h.req, h.server), h.page.result, if h.at < maxAge then 0 else h.at - maxAge))
    && WrittenFor(live, writes, h.at, Inputs(h.req, h.server), h.page)
    && h.at <= h.page.fetchedAt + maxAge
    && KeyFits(h.req, h.server)
    && h.page.budgetBucket >= BudgetBucket(h.budgetMs)
  }

  /** The same in the reader's own terms, field by field: nothing personal, recent enough for this reader, asked
      for as this reader asks, rendered only if this reader's page might have been, a whole page of its own, and
      written with no tighter a budget as far as it matters. */
  ghost predicate Promised(live: seq<Live>, writes: seq<Written>, h: Hit)
  {
    var r := h.page.result;
    && MayShare(h.req)
    && 200 <= r.status < 300 && !r.walled && !r.truncated && !r.deadlineExceeded
    && (r.html != "" || (r.rawBytes.Some? && r.rawBytes.value != ""))
    && (exists l :: l in live && CameFor(l, h))
    && (exists w :: w in writes && w.page == h.page && NoTighter(w.budgetMs, h.budgetMs))
  }

  predicate CameFor(l: Live, h: Hit)
  {
    && SameAsk(h.req, h.server, l.req, l.server)
    && !l.req.hasHeaders && !l.req.proxy && !l.req.stealthDiffers
    && (l.escalated ==> EscalationIsOpen(h.req, h.server))
    && l.html == h.page.result.html
    && (h.page.result.rawBytes.Some? ==> l.rawBytes == h.page.result.rawBytes)
    && l.at <= h.at && IsRecent(h.req, h.server, l.at, h.at)
  }

  /** Two, five, fifteen and sixty seconds are where a budget buys another tier. */
  predicate NoTighter(writerMs: nat, readerMs: nat)
  {
    && (readerMs >= 2_000 ==> writerMs >= 2_000) && (readerMs >= 5_000 ==> writerMs >= 5_000)
    && (readerMs >= 15_000 ==> writerMs >= 15_000) && (readerMs >= 60_000 ==> writerMs >= 60_000)
  }

  lemma NoTighterIff(writerMs: nat, readerMs: nat)
    ensures BudgetBucket(writerMs) >= BudgetBucket(readerMs) <==> NoTighter(writerMs, readerMs)
  {
  }

  lemma HitIsAsPromised(live: seq<Live>, writes: seq<Written>, now: nat, h: Hit)
    requires HitOk(live, writes, now, h)
    ensures Promised(live, writes, h)
  {
    hide KeyOf, Inputs, SameAsk, IsRecent, ReadsCache, EscalationIsOpen, EffectiveMaxAge, Cacheable, BudgetBucket;
    var maxAge := EffectiveMaxAge(h.server.Cache(), h.req.maxAge);
    CacheableIff(h.req, h.server);
    ReadsCacheMayShare(h.req, h.server);
    var since := if h.at < maxAge then 0 else h.at - maxAge;
    var l :| l in live && Witnesses(l, h.at, Inputs(h.req, h.server), h.page.result, since);
    SameInputsIffSameAsk(h.req, h.server, l.req, l.server);
    CacheableIff(l.req, l.server);
    RecentIff(h.req, h.server, l.at, h.at);
    SameAskSameEscalation(h.req, h.server, l.req, l.server);
    assert CameFor(l, h);
    var w :| w in writes && Accounts(live, h.at, w, Inputs(h.req, h.server), h.page);
    NoTighterIff(w.budgetMs, h.budgetMs);
  }

  lemma ReadsCacheMayShare(req: Request, server: Server)
    ensures ReadsCache(req, server) ==> MayShare(req)
  {
  }

  lemma SameAskSameEscalation(req: Request, server: Server, req': Request, server': Server)
    ensures SameAsk(req, server, req', server') ==> (EscalationIsOpen(req, server) <==> EscalationIsOpen(req', server'))
  {
  }

  ghost predicate Inv(s: State)
  {
    && (forall key :: key in s.entries ==> EntryOk(s.live, s.writes, s.now, key, s.entries[key]))
    && (forall id :: id in s.pending ==> PendingOk(s.live, s.now, s.pending[id]))
    && (forall h :: h in s.hits ==> HitOk(s.live, s.writes, s.now, h))
  }

  lemma WitnessedLater(live: seq<Live>, live': seq<Live>, now: nat, now': nat, i: KeyInputs, r: FetchResult, since: nat)
    requires Witnessed(live, now, i, r, since) && live <= live' && now <= now'
    ensures Witnessed(live', now', i, r, since)
  {
    var l :| l in live && Witnesses(l, now, i, r, since);
    assert l in live' && Witnesses(l, now', i, r, since);
  }

  lemma FactsWitnessedLater(live: seq<Live>, live': seq<Live>, now: nat, now': nat, i: KeyInputs, r: FetchResult,
                            since: nat)
    requires FactsWitnessed(live, now, i, r, since) && live <= live' && now <= now'
    ensures FactsWitnessed(live', now', i, r, since)
  {
    var l :| l in live && WitnessesFacts(l, now, i, r, since);
    assert l in live' && WitnessesFacts(l, now', i, r, since);
  }

  lemma WrittenForLater(live: seq<Live>, live': seq<Live>, writes: seq<Written>, writes': seq<Written>,
                        now: nat, now': nat, i: KeyInputs, page: CachedPage)
    requires WrittenFor(live, writes, now, i, page) && live <= live' && writes <= writes' && now <= now'
    ensures WrittenFor(live', writes', now', i, page)
  {
    hide FactsWitnessed, BudgetBucket;
    var w :| w in writes && Accounts(live, now, w, i, page);
    if !w.replayed {
      FactsWitnessedLater(live, live', now, now', i, page.result, page.fetchedAt);
    }
    assert w in writes' && Accounts(live', now', w, i, page);
  }

  lemma EntryOkLater(s: State, s': State, key: string, page: CachedPage)
    requires EntryOk(s.live, s.writes, s.now, key, page) && Later(s, s')
    ensures EntryOk(s'.live, s'.writes, s'.now, key, page)
  {
    hide KeyOf, Witnessed, WrittenFor;
    var i: KeyInputs :| KeyOf(i) == key && EntryFor(s.live, s.writes, s.now, i, page);
    WitnessedLater(s.live, s'.live, s.now, s'.now, i, page.result, page.fetchedAt);
    WrittenForLater(s.live, s'.live, s.writes, s'.writes, s.now, s'.now, i, page);
    assert EntryFor(s'.live, s'.writes, s'.now, i, page);
  }

  /** The logs have grown and the clock has not gone back. */
  ghost predicate Later(s: State, s': State)
  {
    s.live <= s'.live && s.writes <= s'.writes && s.now <= s'.now
  }

  lemma PendingOkLater(live: seq<Live>, live': seq<Live>, now: nat, now': nat, p: Pending)
    requires PendingOk(live, now, p) && live <= live' && now <= now'
    ensures PendingOk(live', now', p)
  {
    hide Witnessed, FactsWitnessed, Inputs, Cacheable, Anonymous;
    if p.Holding? && Anonymous(p.req) {
      if !p.fromCache {
        FactsWitnessedLater(live, live', now, now', Inputs(p.req, p.server), p.result, p.fetchedAt);
      }
      if p.candidate.Some? {
        WitnessedLater(live, live', now, now', Inputs(p.req, p.server), p.candidate.value, p.fetchedAt);
      }
      if p.render.Some? {
        WitnessedLater(live, live', now, now', Inputs(p.req, p.server), p.result.(rawBytes := None), p.fetchedAt);
      }
    }
  }

  lemma HitOkLater(s: State, s': State, h: Hit)
    requires HitOk(s.live, s.writes, s.now, h) && Later(s, s')
    ensures HitOk(s'.live, s'.writes, s'.now, h)
  {
    hide WrittenFor, EffectiveMaxAge, Cacheable, Inputs;
    WrittenForLater(s.live, s'.live, s.writes, s'.writes, h.at, h.at, Inputs(h.req, h.server), h.page);
    assert forall l :: l in s.live ==> l in s'.live;
  }

  /** Everything established stays established when the logs grow and the clock moves. */
  lemma InvLater(s: State, s': State)
    requires Inv(s) && Later(s, s')
    ensures Inv(s.(live := s'.live, writes := s'.writes, now := s'.now))
  {
    hide EntryOk, PendingOk, HitOk, Later;
    forall key | key in s.entries
      ensures EntryOk(s'.live, s'.writes, s'.now, key, s.entries[key])
    {
      EntryOkLater(s, s', key, s.entries[key]);
    }
    forall id | id in s.pending
      ensures PendingOk(s'.live, s'.now, s.pending[id])
    {
      LaterParts(s, s');
      PendingOkLater(s.live, s'.live, s.now, s'.now, s.pending[id]);
    }
    forall h | h in s.hits
      ensures HitOk(s'.live, s'.writes, s'.now, h)
    {
      HitOkLater(s, s', h);
    }
  }

  lemma LaterParts(s: State, s': State)
    requires Later(s, s')
    ensures s.live <= s'.live && s.now <= s'.now
  {
  }

  /** A lookup under the reader's own key yields a body witnessed for the reader's own inputs. */
  lemma LookupIsOk(s: State, req: Request, server: Server, budgetMs: nat)
    requires Inv(s) && Cacheable(req, server)
    ensures var maxAge, bucket := EffectiveMaxAge(server.Cache(), req.maxAge), BudgetBucket(budgetMs);
      var hit := LookupIn(s.entries, s.now, KeyOf(Inputs(req, server)), maxAge, bucket);
      hit.Some? ==>
        HitOk(s.live, s.writes, s.now, Hit(req, server, s.now, budgetMs, s.entries[KeyOf(Inputs(req, server))]))
  {
    hide KeyOf, Inputs, WrittenFor;
    var key := KeyOf(Inputs(req, server));
    var maxAge, bucket := EffectiveMaxAge(server.Cache(), req.maxAge), BudgetBucket(budgetMs);
    var hit := LookupIn(s.entries, s.now, key, maxAge, bucket);
    if hit.Some? {
      var page := s.entries[key];
      assert EntryOk(s.live, s.writes, s.now, key, page);
      var i: KeyInputs :| KeyOf(i) == key && EntryFor(s.live, s.writes, s.now, i, page);
      SameKeySameInputs(i, Inputs(req, server));
      var l :| l in s.live && Witnesses(l, s.now, i, page.result, page.fetchedAt);
      assert Witnesses(l, s.now, Inputs(req, server), page.result, if s.now < maxAge then 0 else s.now - maxAge);
    }
  }

  lemma ArriveKeepsInv(s: State, id: nat, req: Request, server: Server, budgetMs: nat)
    requires Inv(s) && Enabled(s, Arrive(id, req, server, budgetMs))
    ensures Inv(ArriveStep(s, id, req, server, budgetMs))
  {
    hide KeyOf, Inputs, EntryOk, HitOk, LookupIn;
    if Cacheable(req, server) {
      LookupIsOk(s, req, server, budgetMs);
    }
  }

  lemma FetchKeepsInv(s: State, id: nat, fetched: FetchResult)
    requires Inv(s) && Enabled(s, FetchReturns(id, fetched))
    ensures Inv(FetchStep(s, id, fetched))
  {
    hide KeyOf, Inputs, EntryOk, HitOk;
    var p, s' := s.pending[id], FetchStep(s, id, fetched);
    InvLater(s, s');
    var l := s'.live[|s.live|];
    if Anonymous(p.req) {
      assert l in s'.live && Witnesses(l, s.now, Inputs(p.req, p.server), fetched, s.now);
      assert WitnessesFacts(l, s.now, Inputs(p.req, p.server), fetched, s.now);
    }
    assert PendingOk(s'.live, s.now, s'.pending[id]);
  }

  lemma SameFactsWitnessed(live: seq<Live>, now: nat, i: KeyInputs, r: FetchResult, r': FetchResult, since: nat)
    requires FactsWitnessed(live, now, i, r, since) && SameFacts(r, r')
    ensures FactsWitnessed(live, now, i, r', since)
  {
    var l :| l in live && WitnessesFacts(l, now, i, r, since);
    assert WitnessesFacts(l, now, i, r', since);
  }

  lemma EscalationKeepsInv(s: State, id: nat, rendered: FetchResult, accepted: bool)
    requires Inv(s) && Enabled(s, EscalationReturns(id, rendered, accepted))
    ensures Inv(EscalationStep(s, id, rendered, accepted))
  {
    hide KeyOf, Inputs, EntryOk, HitOk, Cacheable;
    var p, s' := s.pending[id], EscalationStep(s, id, rendered, accepted);
    InvLater(s, s');
    var p' := s'.pending[id];
    var l := s'.live[|s.live|];
    assert PendingOk(s'.live, s.now, p);
    if !p.fromCache && Anonymous(p.req) {
      SameFactsWitnessed(s'.live, s.now, Inputs(p.req, p.server), p.result, p'.result, p.fetchedAt);
    }
    if accepted && Anonymous(p.req) {
      assert l in s'.live && Witnesses(l, s.now, Inputs(p.req, p.server), p'.result.(rawBytes := None), p.fetchedAt);
    }
    assert PendingOk(s'.live, s.now, p');
  }

  lemma CommitKeepsInv(s: State, id: nat, usable: bool, budgetMs: nat)
    requires Inv(s) && Enabled(s, Commit(id, usable, budgetMs))
    ensures Inv(CommitStep(s, id, usable, budgetMs))
  {
    hide KeyOf, Inputs, HitOk, EntryBytes, EntryOk, Candidate, Sound, Witnessed;
    var p, s' := s.pending[id], CommitStep(s, id, usable, budgetMs);
    assert PendingOk(s.live, s.now, p);
    InvLater(s, s');
    forall k | k in s'.entries
      ensures EntryOk(s'.live, s'.writes, s'.now, k, s'.entries[k])
    {
      if s'.entries != s.entries && k == KeyOf(Inputs(p.req, p.server)) {
        StoredIsOk(s, id, usable, budgetMs);
      }
    }
  }

  lemma StoredIsOk(s: State, id: nat, usable: bool, budgetMs: nat)
    requires Enabled(s, Commit(id, usable, budgetMs)) && PendingOk(s.live, s.now, s.pending[id])
    requires CommitStep(s, id, usable, budgetMs).entries != s.entries
    ensures var p, s' := s.pending[id], CommitStep(s, id, usable, budgetMs);
      var i, bucket := Inputs(p.req, p.server), BudgetBucket(budgetMs);
      && Anonymous(p.req) && MayShare(p.req) && usable
      && p.req.storeInCache != Some(false) && Candidate(p).Some?
      && !(p.fromCache && p.render.None?)
      && s'.entries == s.entries[KeyOf(i) := CachedPage(p.fetchedAt, bucket, Candidate(p).value)]
      && Witnessed(s.live, s.now, i, Candidate(p).value, p.fetchedAt)
      && EntryOk(s'.live, s'.writes, s'.now, KeyOf(i), s'.entries[KeyOf(i)])
      && (!p.fromCache ==> FactsWitnessed(s.live, s.now, i, Candidate(p).value, p.fetchedAt))
  {
    hide KeyOf, Inputs, EntryBytes;
    var p, s' := s.pending[id], CommitStep(s, id, usable, budgetMs);
    var i := Inputs(p.req, p.server);
    var c := Candidate(p).value;
    if p.render.Some? {
      var l :| l in s.live && Witnesses(l, s.now, i, p.result.(rawBytes := None), p.fetchedAt);
      assert Witnesses(l, s.now, i, c, p.fetchedAt);
    }
    assert Witnessed(s.live, s.now, i, c, p.fetchedAt);
    if !p.fromCache {
      SameFactsWitnessed(s.live, s.now, i, p.result, c, p.fetchedAt);
    }
    InputsMayEscalate(p.req, p.server);
    EscalationIsKeyed(p.req, p.server);
    var w := s'.writes[|s.writes|];
    assert w in s'.writes && Accounts(s'.live, s'.now, w, i, s'.entries[KeyOf(i)]);
    assert EntryFor(s'.live, s'.writes, s'.now, i, s'.entries[KeyOf(i)]);
  }

  lemma StepKeepsInv(s: State, step: Step)
    requires Inv(s) && Enabled(s, step)
    ensures Inv(Apply(s, step)) && s.live <= Apply(s, step).live && s.hits <= Apply(s, step).hits
  {
    hide Inv;
    match step {
      case Arrive(id, req, server, budgetMs) => ArriveKeepsInv(s, id, req, server, budgetMs);
      case FetchReturns(id, fetched) => FetchKeepsInv(s, id, fetched);
      case EscalationReturns(id, rendered, accepted) => EscalationKeepsInv(s, id, rendered, accepted);
      case Commit(id, usable, budgetMs) => CommitKeepsInv(s, id, usable, budgetMs);
      case Abandon(id) => DroppingKeepsInv(s, id, "");
      case Evict(key) => DroppingKeepsInv(s, 0, key);
      case Tick(ms) => InvLater(s, s.(now := s.now + ms));
    }
  }

  lemma DroppingKeepsInv(s: State, id: nat, key: string)
    requires Inv(s)
    ensures Inv(s.(pending := s.pending - {id})) && Inv(s.(entries := s.entries - {key}))
  {
  }

  /** In every run, every hit keeps the promise of the cache. */
  lemma {:induction false} HitsAgreeWithTheNetwork(states: seq<State>, steps: seq<Step>, k: nat)
    requires Run(states, steps) && k < |states|
    ensures Inv(states[k])
    ensures forall h :: h in states[k].hits ==>
      HitOk(states[k].live, states[k].writes, states[k].now, h) && Promised(states[k].live, states[k].writes, h)
    decreases k
  {
    hide HitOk, EntryOk, PendingOk, Apply, Enabled, Promised;
    if k > 0 {
      HitsAgreeWithTheNetwork(states, steps, k - 1);
      StepKeepsInv(states[k - 1], steps[k - 1]);
    }
    forall h | h in states[k].hits
      ensures Promised(states[k].live, states[k].writes, h)
    {
      HitIsAsPromised(states[k].live, states[k].writes, states[k].now, h);
    }
  }

  /** Replay cannot extend an entry's life: committing a hit that did not escalate leaves the cache as it
      was, and any commit that does write dates the entry by a fetch of its own request. */
  lemma ReplayDoesNotRewrite(states: seq<State>, steps: seq<Step>, k: nat)
    requires Run(states, steps) && k < |steps| && steps[k].Commit?
    ensures var s, p := states[k], states[k].pending[steps[k].id];
      && (p.fromCache && p.render.None? ==> states[k + 1].entries == s.entries)
      && (states[k + 1].entries != s.entries ==>
            && MayShare(p.req) && steps[k].usable && Candidate(p).Some? && p.req.storeInCache != Some(false)
            && Witnessed(s.live, s.now, Inputs(p.req, p.server), Candidate(p).value, p.fetchedAt)
            && states[k + 1].entries
               == s.entries[KeyOf(Inputs(p.req, p.server)) :=
                    CachedPage(p.fetchedAt, BudgetBucket(steps[k].budgetMs), Candidate(p).value)])
  {
    hide KeyOf, Inputs, HitOk, EntryOk, CommitStep, Candidate, Witnessed, Anonymous;
    HitsAgreeWithTheNetwork(states, steps, k);
    var s, p := states[k], states[k].pending[steps[k].id];
    assert Enabled(s, steps[k]) && states[k + 1] == CommitStep(s, steps[k].id, steps[k].usable, steps[k].budgetMs);
    assert PendingOk(s.live, s.now, p);
    if states[k + 1].entries != s.entries {
      StoredIsOk(s, steps[k].id, steps[k].usable, steps[k].budgetMs);
    }
  }

  // ----- what the cache is for -----

  /** A sound page of at most eight mebibytes that anyone may share is served again to whoever asks for the same,
      with no roomier a budget, as long as it is recent for them. */
  lemma RepeatIsServed(s: State, id: nat, req: Request, server: Server, page: FetchResult, budgetMs: nat,
                       id': nat, req': Request, server': Server, budgetMs': nat, later: nat)
    requires id !in s.pending && id' !in s.pending && KeyOf(Inputs(req, server)) !in s.entries
    requires ReadsCache(req, server) && req.storeInCache != Some(false)
    requires 200 <= page.status < 300 && !page.walled && !page.truncated && !page.deadlineExceeded && page.html != ""
    requires |AllText(KeyOf(Inputs(req, server)), page)| <= 8_388_608
    requires ReadsCache(req', server') && SameAsk(req, server, req', server')
    requires NoTighter(budgetMs, budgetMs') && IsRecent(req', server', s.now, s.now + later)
    ensures Enabled(s, Arrive(id, req, server, budgetMs))
    ensures var s1 := ArriveStep(s, id, req, server, budgetMs);
      && Enabled(s1, FetchReturns(id, page))
      && var s2 := FetchStep(s1, id, page);
      && Enabled(s2, Commit(id, true, budgetMs))
      && var s3 := CommitStep(s2, id, true, budgetMs);
      && var s4 := s3.(now := s3.now + later);
      && Enabled(s4, Arrive(id', req', server', budgetMs'))
      && var s5 := ArriveStep(s4, id', req', server', budgetMs');
      && |s5.hits| == |s.hits| + 1 && s5.hits[|s.hits|].page.result == page
  {
    hide KeyOf, Inputs, SameAsk, IsRecent, BudgetBucket, EffectiveMaxAge, AllText, EntryBytes, NoTighter;
    SameInputsIffSameAsk(req, server, req', server');
    CacheableIff(req, server);
    CacheableIff(req', server');
    hide ReadsCache, Cacheable;
    ReadsCacheHasLimit(req', server');
    RecentIff(req', server', s.now, s.now + later);
    NoTighterIff(budgetMs, budgetMs');
    EntryBytesAre(KeyOf(Inputs(req, server)), page);
  }

  lemma ReadsCacheHasLimit(req: Request, server: Server)
    ensures ReadsCache(req, server) ==> EffectiveMaxAge(server.Cache(), req.maxAge) > 0
  {
  }

  // ----- facts older than their reader's limit -----

  /** Status, final URL and warning of a hit came from the network within the reader's limit. */
  ghost predicate FactsInTime(live: seq<Live>, h: Hit)
  {
    exists l :: l in live && InTime(l, h)
  }

  predicate InTime(l: Live, h: Hit)
  {
    var r := h.page.result;
    && SameAsk(h.req, h.server, l.req, l.server) && !l.req.hasHeaders && !l.req.proxy && !l.req.stealthDiffers
    && l.status == r.status && l.finalUrl == r.finalUrl && l.warning == r.warning
    && l.at <= h.at && IsRecent(h.req, h.server, l.at, h.at)
  }

  /** The run serves this request, as a hit, facts that are too old for it. */
  ghost predicate ServesStaleFacts(states: seq<State>, steps: seq<Step>, req: Request, server: Server)
  {
    && Run(states, steps)
    && exists h :: h in states[|steps|].hits && h.req == req && h.server == server
        && !FactsInTime(states[|steps|].live, h)
  }

  lemma FactsAreInTime(live: seq<Live>, writes: seq<Written>, now: nat, h: Hit)
    requires HitOk(live, writes, now, h) && !MayEscalate(h.req, h.server)
    ensures FactsInTime(live, h)
  {
    hide KeyOf, Inputs, EffectiveMaxAge, BudgetBucket, Cacheable, Witnesses, MayEscalate, SameAsk, IsRecent, ReadsCache;
    InputsMayEscalate(h.req, h.server);
    CacheableIff(h.req, h.server);
    var w :| w in writes && Accounts(live, h.at, w, Inputs(h.req, h.server), h.page);
    var l :| l in live && WitnessesFacts(l, h.at, Inputs(h.req, h.server), h.page.result, h.page.fetchedAt);
    SameInputsIffSameAsk(h.req, h.server, l.req, l.server);
    CacheableIff(l.req, l.server);
    RecentIff(h.req, h.server, l.at, h.at);
    assert InTime(l, h);
  }

  /** What an escalated request stores: the body of the render, the facts of what it started from. */
  function Merged(r: FetchResult, render: FetchResult): FetchResult
  {
    r.(html := render.html, walled := render.walled, truncated := render.truncated,
       renderedWith := render.renderedWith, warnings := render.warnings, captured := render.captured, rawBytes := None)
  }

  /** Only the body of an entry is always as young as the entry. A request that escalates from a hit stores the
      render under the status, final URL and warning of the entry it read, and dates all of it anew. */
  lemma EscalatedHitRedatesFacts(s: State, id: nat, req: Request, server: Server, arriveMs: nat,
                                 rendered: FetchResult, commitMs: nat)
    requires id !in s.pending && Cacheable(req, server) && MayEscalate(req, server) && req.storeInCache != Some(false)
    requires LookupIn(s.entries, s.now, KeyOf(Inputs(req, server)), EffectiveMaxAge(server.Cache(), req.maxAge),
                      BudgetBucket(arriveMs)).Some?
    requires Sound(s.entries[KeyOf(Inputs(req, server))].result)
    requires Sound(rendered) && rendered.html != ""
    requires EntryBytes(KeyOf(Inputs(req, server)), Merged(s.entries[KeyOf(Inputs(req, server))].result, rendered))
      <= MAX_ENTRY_BYTES
    ensures Enabled(s, Arrive(id, req, server, arriveMs))
    ensures var s1 := ArriveStep(s, id, req, server, arriveMs);
      && Enabled(s1, EscalationReturns(id, rendered, true))
      && var s2 := EscalationStep(s1, id, rendered, true);
      && Enabled(s2, Commit(id, true, commitMs))
      && var entry := CommitStep(s2, id, true, commitMs).entries[KeyOf(Inputs(req, server))];
      && entry.fetchedAt == s.now && entry.result.html == rendered.html
      && SameFacts(entry.result, s.entries[KeyOf(Inputs(req, server))].result)
  {
    hide KeyOf, Inputs, EntryBytes, BudgetBucket;
  }

  // The run in which it happens: a page is fetched and stored, read at the last moment, escalated and
  // stored anew, and read again.

  const FIRST := FetchResult(201, "x", None, None, None, 0, None, [], [], false, false, false)
  const RENDER := FIRST.(status := 200)
  const BUDGET_MS: nat := 60_000

  /** The request as one that stores what it fetches. */
  function Writer(req: Request): Request
  {
    req.(storeInCache := None)
  }

  function Limit(req: Request, server: Server): nat
  {
    EffectiveMaxAge(server.Cache(), req.maxAge)
  }

  function Stored(at: nat): CachedPage
  {
    CachedPage(at, BudgetBucket(BUDGET_MS), FIRST.(rawBytes := None))
  }

  function StaleSteps(req: Request, server: Server): seq<Step>
  {
    var w := Writer(req);
    [Arrive(0, w, server, BUDGET_MS), FetchReturns(0, FIRST), Commit(0, true, BUDGET_MS), Tick(Limit(req, server)),
     Arrive(1, w, server, BUDGET_MS), EscalationReturns(1, RENDER, true), Commit(1, true, BUDGET_MS), Tick(1),
     Arrive(2, req, server, BUDGET_MS)]
  }

  function StaleStates(req: Request, server: Server): seq<State>
  {
    var w, age, i := Writer(req), Limit(req, server), Inputs(req, server);
    var key := KeyOf(i);
    var first, render := LiveOf(w, server, false, FIRST, 0), LiveOf(w, server, true, RENDER, age);
    var write0, write1 := Written(i, BUDGET_MS, false, Stored(0)), Written(i, BUDGET_MS, true, Stored(age));
    var hit0, hit1 := Hit(w, server, age, BUDGET_MS, Stored(0)), Hit(req, server, age + 1, BUDGET_MS, Stored(age));
    [START,
     State(map[], 0, [], [], map[0 := Fetching(w, server)], []),
     State(map[], 0, [first], [], map[0 := Holding(w, server, false, FIRST, 0, Some(FIRST), None)], []),
     State(map[key := Stored(0)], 0, [first], [write0], map[], []),
     State(map[key := Stored(0)], age, [first], [write0], map[], []),
     State(map[key := Stored(0)], age, [first], [write0], map[1 := Holding(w, server, true, FIRST, age, None, None)],
           [hit0]),
     State(map[key := Stored(0)], age, [first, render], [write0],
           map[1 := Holding(w, server, true, FIRST, age, None, Some(RENDER))], [hit0]),
     State(map[key := Stored(age)], age, [first, render], [write0, write1], map[], [hit0]),
     State(map[key := Stored(age)], age + 1, [first, render], [write0, write1], map[], [hit0]),
     State(map[key := Stored(age)], age + 1, [first, render], [write0, write1],
           map[2 := Holding(req, server, true, FIRST, age + 1, None, None)], [hit0, hit1])]
  }

  /** The requests that can be served stale facts. */
  predicate Exposed(req: Request, server: Server)
  {
    ReadsCache(req, server) && EscalationIsOpen(req, server) && |KeyOf(Inputs(req, server))| < 8_388_608
  }

  lemma WriterIsLike(req: Request, server: Server)
    ensures Inputs(Writer(req), server) == Inputs(req, server) && Limit(Writer(req), server) == Limit(req, server)
    ensures Cacheable(Writer(req), server) == Cacheable(req, server)
    ensures EscalationIsOpen(Writer(req), server) == EscalationIsOpen(req, server)
    ensures ReadsCache(req, server) == Cacheable(req, server)
    ensures Cacheable(req, server) ==> Limit(req, server) > 0 && Anonymous(req)
  {
  }

  lemma SizeOfStored(req: Request, server: Server)
    requires KeyFits(req, server)
    ensures EntryBytes(KeyOf(Inputs(req, server)), FIRST) <= MAX_ENTRY_BYTES
  {
    assert |"x"| == 1;
  }

  lemma StaleStepsToStored(req: Request, server: Server, k: nat)
    requires Exposed(req, server) && 0 <= k < 3
    ensures var states, steps := StaleStates(req, server), StaleSteps(req, server);
      Enabled(states[k], steps[k]) && states[k + 1] == Apply(states[k], steps[k])
  {
    hide KeyOf, Inputs, EntryBytes, EscalationIsOpen, Cacheable, BudgetBucket, EffectiveMaxAge, LiveOf;
    WriterIsLike(req, server);
    SizeOfStored(req, server);
    hide ReadsCache, Anonymous;
    assert FIRST.(rawBytes := None) == FIRST;
    var states, steps := StaleStates(req, server), StaleSteps(req, server);
    if k == 0 {
      assert states[1] == Apply(states[0], steps[0]);
    } else if k == 1 {
      assert states[2] == Apply(states[1], steps[1]);
    } else {
      assert states[3] == Apply(states[2], steps[2]);
    }
  }

  lemma StaleStepsToHit(req: Request, server: Server, k: nat)
    requires Exposed(req, server) && 3 <= k < 5
    ensures var states, steps := StaleStates(req, server), StaleSteps(req, server);
      Enabled(states[k], steps[k]) && states[k + 1] == Apply(states[k], steps[k])
  {
    hide KeyOf, Inputs, EntryBytes, EscalationIsOpen, Cacheable, BudgetBucket, EffectiveMaxAge, LiveOf;
    WriterIsLike(req, server);
    SizeOfStored(req, server);
    hide ReadsCache, Anonymous;
    assert FIRST.(rawBytes := None) == FIRST;
    var states, steps := StaleStates(req, server), StaleSteps(req, server);
    if k == 3 {
      assert states[4] == Apply(states[3], steps[3]);
    } else {
      assert states[5] == Apply(states[4], steps[4]);
    }
  }

  lemma StaleStepsFromHit(req: Request, server: Server, k: nat)
    requires Exposed(req, server) && 5 <= k < 9
    ensures var states, steps := StaleStates(req, server), StaleSteps(req, server);
      Enabled(states[k], steps[k]) && states[k + 1] == Apply(states[k], steps[k])
  {
    hide KeyOf, Inputs, EntryBytes, EscalationIsOpen, Cacheable, BudgetBucket, EffectiveMaxAge, LiveOf;
    WriterIsLike(req, server);
    SizeOfStored(req, server);
    hide ReadsCache, Anonymous;
    assert FIRST.(rawBytes := None) == FIRST;
    var states, steps := StaleStates(req, server), StaleSteps(req, server);
    if k == 5 {
      assert states[6] == Apply(states[5], steps[5]);
    } else if k == 6 {
      assert states[7] == Apply(states[6], steps[6]);
    } else if k == 7 {
      assert states[8] == Apply(states[7], steps[7]);
    } else {
      assert states[9] == Apply(states[8], steps[8]);
    }
  }

  lemma StaleShape(req: Request, server: Server)
    ensures var states, steps := StaleStates(req, server), StaleSteps(req, server);
      && |states| == 10 && |steps| == 9 && states[0] == START
      && Hit(req, server, Limit(req, server) + 1, BUDGET_MS, Stored(Limit(req, server))) in states[9].hits
      && states[9].live == [LiveOf(Writer(req), server, false, FIRST, 0),
                            LiveOf(Writer(req), server, true, RENDER, Limit(req, server))]
  {
    hide KeyOf, Inputs, BudgetBucket, LiveOf, Limit, Stored;
    var hits := StaleStates(req, server)[9].hits;
    assert hits[1] in hits;
  }

  lemma StaleRun(req: Request, server: Server)
    requires Exposed(req, server)
    ensures ServesStaleFacts(StaleStates(req, server), StaleSteps(req, server), req, server)
  {
    hide StaleStates, StaleSteps, Exposed, Apply, Enabled, FactsInTime;
    var states, steps := StaleStates(req, server), StaleSteps(req, server);
    StaleShape(req, server);
    forall k | 0 <= k < |steps|
      ensures Enabled(states[k], steps[k]) && states[k + 1] == Apply(states[k], steps[k])
    {
      if k < 3 {
        StaleStepsToStored(req, server, k);
      } else if k < 5 {
        StaleStepsToHit(req, server, k);
      } else {
        StaleStepsFromHit(req, server, k);
      }
    }
    NotInTime(req, server);
  }

  lemma NotInTime(req: Request, server: Server)
    ensures !FactsInTime([LiveOf(Writer(req), server, false, FIRST, 0),
                          LiveOf(Writer(req), server, true, RENDER, Limit(req, server))],
                         Hit(req, server, Limit(req, server) + 1, BUDGET_MS, Stored(Limit(req, server))))
  {
    hide Inputs, BudgetBucket, SameAsk;
    var first := LiveOf(Writer(req), server, false, FIRST, 0);
    var render := LiveOf(Writer(req), server, true, RENDER, Limit(req, server));
    var h := Hit(req, server, Limit(req, server) + 1, BUDGET_MS, Stored(Limit(req, server)));
    assert h.page.result.status == 201 && render.status == 200;
    assert !IsRecent(req, server, 0, Limit(req, server) + 1);
    assert !InTime(first, h) && !InTime(render, h);
  }

  /** Some run serves a request facts older than its own limit exactly when the request is cacheable, may
      escalate, and has a key short enough to store anything under. */
  lemma StaleFactsIff(req: Request, server: Server)
    ensures (exists states: seq<State>, steps: seq<Step> :: ServesStaleFacts(states, steps, req, server))
      <==> Exposed(req, server)
  {
    hide ServesStaleFacts, Exposed, StaleStates, StaleSteps;
    if Exposed(req, server) {
      StaleRun(req, server);
    }
    if states: seq<State>, steps: seq<Step> :| ServesStaleFacts(states, steps, req, server) {
      StaleHitIsExposed(states, steps, req, server);
    }
  }

  lemma StaleHitIsExposed(states: seq<State>, steps: seq<Step>, req: Request, server: Server)
    requires ServesStaleFacts(states, steps, req, server)
    ensures Exposed(req, server)
  {
    hide HitOk, FactsInTime, Exposed;
    HitsAgreeWithTheNetwork(states, steps, |steps|);
    var s := states[|steps|];
    var h :| h in s.hits && h.req == req && h.server == server && !FactsInTime(s.live, h);
    HitIsExposed(s.live, s.writes, s.now, h);
  }

  lemma HitIsExposed(live: seq<Live>, writes: seq<Written>, now: nat, h: Hit)
    requires HitOk(live, writes, now, h) && !FactsInTime(live, h)
    ensures Exposed(h.req, h.server)
  {
    hide FactsInTime, MayEscalate, EscalationIsOpen, Cacheable, ReadsCache, WrittenFor, EffectiveMaxAge, KeyOf, Inputs;
    EscalationIsKeyed(h.req, h.server);
    CacheableIff(h.req, h.server);
    if !MayEscalate(h.req, h.server) {
      FactsAreInTime(live, writes, now, h);
    }
  }
}
