/** Nested timeouts: the inner request deadline, sized by the ladder of rendering tiers, and the outer one
    around every handler. */
module Deadlines {
  import opened Numbers
  import opened Text

  const U64_MAX: int := 0xFFFF_FFFF_FFFF_FFFF
  const CDP_TIER_OVERHEAD_MS := 28_000
  const MAX_WAIT_FOR_MS := 60_000
  const SPA_DEFAULT_MS := 8_000
  const OUTER_BUFFER_SECS := 5
  const MAP_REQUEST_TIMEOUT_CEILING_MS := 300_000

  type U64 = x: int | 0 <= x <= U64_MAX

  function Capped(n: nat): U64
  {
    Min(n, U64_MAX)
  }

  function SaturatingAdd(a: U64, b: U64): U64
  {
    Capped(a + b)
  }

  function SaturatingMul(a: U64, b: U64): U64
  {
    Capped(Product(a, b))
  }

  function Product(a: nat, b: nat): nat
  {
    a * b
  }

  function SaturatingSub(a: U64, b: U64): U64
  {
    if a >= b then a - b else 0
  }

  function DivCeil(a: nat, b: nat): nat
    requires b > 0
  {
    if a % b == 0 then a / b else a / b + 1
  }

  // ----- configuration -----

  /** `Only` stands for the modes that name one browser tier. */
  datatype Mode = Auto | NoRendering | Only(tier: Tier)

  /** Every stage a fetch can pass through, in the order the budget is summed. */
  datatype Tier = Http | Byparr | Impersonated | Lightpanda | Playwright | Chrome | Camofox

  /** The features the binary was built with. */
  datatype Build = Build(cdp: bool, impersonated: bool)

  datatype Renderer = Renderer(
    mode: Mode,
    pageTimeoutMs: U64,
    httpTimeoutMs: Option<U64>,
    lightpandaTimeoutMs: Option<U64>,
    chromeTimeoutMs: Option<U64>,
    lightpanda: bool, playwright: bool, chrome: bool, camofox: bool,
    byparrTimeoutMs: Option<U64>,
    impersonatedEnabled: bool, impersonatedTimeoutMs: U64)
  {
    function HttpTimeout(): U64
    {
      if httpTimeoutMs.Some? then httpTimeoutMs.value else pageTimeoutMs
    }

    function LightpandaTimeout(): U64
    {
      if lightpandaTimeoutMs.Some? then lightpandaTimeoutMs.value else pageTimeoutMs
    }

    function ChromeTimeout(): U64
    {
      if chromeTimeoutMs.Some? then chromeTimeoutMs.value else pageTimeoutMs
    }

    predicate Wants(t: Tier)
    {
      mode == Auto || mode == Only(t)
    }
  }

  datatype Config = Config(
    build: Build, renderer: Renderer,
    deadlineMsDefault: U64, autoExtend: bool,
    requestTimeoutSecs: U64,
    maxConcurrency: U64, searchMaxLimit: U64, searchTimeoutMs: U64)

  // ----- the ladder, tier by tier -----

  predicate IsCdp(t: Tier)
  {
    t in {Lightpanda, Playwright, Chrome, Camofox}
  }

  predicate Configured(r: Renderer, t: Tier)
  {
    match t
    case Http => true
    case Byparr => r.byparrTimeoutMs.Some?
    case Impersonated => r.impersonatedEnabled
    case Lightpanda => r.lightpanda
    case Playwright => r.playwright
    case Chrome => r.chrome
    case Camofox => r.camofox
  }

  /** Whether a fetch can reach the tier at all. */
  predicate Active(c: Config, t: Tier)
  {
    && Configured(c.renderer, t)
    && match t
       case Http => c.renderer.mode != NoRendering
       case Byparr => c.renderer.mode != NoRendering
       case Impersonated => c.build.impersonated
       case _ => c.build.cdp && (c.renderer.mode == Auto || c.renderer.mode == Only(t))
  }

  function OwnOr(own: Option<U64>, general: U64): U64
  {
    match own
    case Some(ms) => ms
    case None => general
  }

  function TimeoutMs(r: Renderer, t: Tier): U64
  {
    match t
    case Http => OwnOr(r.httpTimeoutMs, r.pageTimeoutMs)
    case Byparr => OwnOr(r.byparrTimeoutMs, 0)
    case Impersonated => r.impersonatedTimeoutMs
    case Lightpanda => OwnOr(r.lightpandaTimeoutMs, r.pageTimeoutMs)
    case _ => OwnOr(r.chromeTimeoutMs, r.pageTimeoutMs)
  }

  /** What a tier may take when the page is to be waited for `wait` beyond the default. */
  function AllowanceMs(r: Renderer, t: Tier, wait: nat): nat
  {
    TimeoutMs(r, t) + if IsCdp(t) then 28_000 + wait else 0
  }

  function Share(c: Config, t: Tier, wait: nat): nat
  {
    if Active(c, t) then AllowanceMs(c.renderer, t, wait) else 0
  }

  const TIERS := [Http, Byparr, Impersonated, Lightpanda, Playwright, Chrome, Camofox]

  function LadderMs(c: Config, tiers: seq<Tier>, wait: nat): nat
  {
    if tiers == [] then 0
    else LadderMs(c, tiers[..|tiers| - 1], wait) + Share(c, tiers[|tiers| - 1], wait)
  }

  ghost function ActiveCdpTiers(c: Config): set<Tier>
  {
    set t: Tier | t in {Lightpanda, Playwright, Chrome, Camofox} && Active(c, t)
  }

  /** One for an active browser tier. */
  function One(c: Config, t: Tier): nat
  {
    if IsCdp(t) && Active(c, t) then 1 else 0
  }

  ghost function Singleton(c: Config, t: Tier): set<Tier>
  {
    if IsCdp(t) && Active(c, t) then {t} else {}
  }

  lemma CdpTierSets(c: Config)
    ensures |ActiveCdpTiers(c)| == One(c, Lightpanda) + One(c, Playwright) + One(c, Chrome) + One(c, Camofox)
  {
    var a := Singleton(c, Lightpanda);
    var b := a + Singleton(c, Playwright);
    var d := b + Singleton(c, Chrome);
    var e := d + Singleton(c, Camofox);
    SameTiers(c, e);
    AddSingleton(c, a, Playwright);
    AddSingleton(c, b, Chrome);
    AddSingleton(c, d, Camofox);
  }

  lemma SameTiers(c: Config, s: set<Tier>)
    requires s == Singleton(c, Lightpanda) + Singleton(c, Playwright) + Singleton(c, Chrome) + Singleton(c, Camofox)
    ensures ActiveCdpTiers(c) == s
  {
    hide Active;
  }

  lemma AddSingleton(c: Config, s: set<Tier>, t: Tier)
    requires t !in s
    ensures |s + Singleton(c, t)| == |s| + One(c, t)
  {
    if IsCdp(t) && Active(c, t) {
      assert |s + {t}| == |s| + 1;
    } else {
      assert s + {} == s;
    }
  }

  /** The tiers of the browser ladder that can run. */
  method CdpTierCount(c: Config) returns (n: U64)
    ensures n == |ActiveCdpTiers(c)| <= 4
  {
    var r := c.renderer;
    n := 0;
    CdpTierSets(c);
    if !c.build.cdp {
      return;
    }
    if r.Wants(Lightpanda) && r.lightpanda {
      n := n + 1;
    }
    if r.Wants(Playwright) && r.playwright {
      n := n + 1;
    }
    if r.Wants(Chrome) && r.chrome {
      n := n + 1;
    }
    if r.Wants(Camofox) && r.camofox {
      n := n + 1;
    }
  }

  lemma LadderStep(c: Config, k: nat, wait: nat)
    requires k < |TIERS|
    ensures LadderMs(c, TIERS[..k + 1], wait)
         == LadderMs(c, TIERS[..k], wait) + Share(c, TIERS[k], wait)
  {
    assert TIERS[..k + 1][..k] == TIERS[..k] && TIERS[..k + 1][k] == TIERS[k];
  }

  /** The browser half of the ladder, on top of what has been summed before. */
  method AddCdpTiers(c: Config, ghost before: nat, soFar: U64) returns (sum: U64)
    requires soFar == Capped(before)
    ensures sum == Capped(before + CdpShares(c))
  {
    Timeouts(c);
    hide Active, IsCdp, Share, Product, Capped, AllowanceMs;
    var r := c.renderer;
    ghost var timeouts, total := before, before;
    sum := soFar;
    if !c.build.cdp {
      return;
    }
    var count: U64 := 0;
    if r.Wants(Lightpanda) && r.lightpanda {
      CapOnce(timeouts, r.LightpandaTimeout());
      sum, timeouts := SaturatingAdd(sum, r.LightpandaTimeout()), timeouts + r.LightpandaTimeout();
      count := count + 1;
    }
    assert sum == Capped(timeouts) && count <= 1;
    total := total + Share(c, Lightpanda, 0);
    assert timeouts + 28_000 * count == total;
    if r.Wants(Playwright) && r.playwright {
      CapOnce(timeouts, r.ChromeTimeout());
      sum, timeouts := SaturatingAdd(sum, r.ChromeTimeout()), timeouts + r.ChromeTimeout();
      count := count + 1;
    }
    assert sum == Capped(timeouts) && count <= 2;
    total := total + Share(c, Playwright, 0);
    assert timeouts + 28_000 * count == total;
    if r.Wants(Chrome) && r.chrome {
      CapOnce(timeouts, r.ChromeTimeout());
      sum, timeouts := SaturatingAdd(sum, r.ChromeTimeout()), timeouts + r.ChromeTimeout();
      count := count + 1;
    }
    assert sum == Capped(timeouts) && count <= 3;
    total := total + Share(c, Chrome, 0);
    assert timeouts + 28_000 * count == total;
    if r.Wants(Camofox) && r.camofox {
      CapOnce(timeouts, r.ChromeTimeout());
      sum, timeouts := SaturatingAdd(sum, r.ChromeTimeout()), timeouts + r.ChromeTimeout();
      count := count + 1;
    }
    assert sum == Capped(timeouts) && count <= 4;
    total := total + Share(c, Camofox, 0);
    assert timeouts + 28_000 * count == total;
    Overhead(count);
    CapOnce(timeouts, 28_000 * count);
    sum := SaturatingAdd(sum, SaturatingMul(count, CDP_TIER_OVERHEAD_MS));
  }

  function CdpShares(c: Config): nat
  {
    Share(c, Lightpanda, 0) + Share(c, Playwright, 0) + Share(c, Chrome, 0) + Share(c, Camofox, 0)
  }

  /** Every active tier gets its timeout, every active browser tier its overhead on top, up to the cap. */
  method MinDeadlineForFullLadderMs(c: Config) returns (sum: U64)
    ensures sum == Capped(LadderMs(c, TIERS, 0))
  {
    hide LadderMs, AllowanceMs;
    HttpLadder(c);
    CdpLadder(c);
    Timeouts(c);
    hide Active, IsCdp, Share, Product, Capped;
    var r := c.renderer;
    ghost var timeouts: nat := 0;
    CapOnce(0, 0);
    sum := 0;
    if r.mode != NoRendering {
      CapOnce(timeouts, r.HttpTimeout());
      sum, timeouts := SaturatingAdd(sum, r.HttpTimeout()), timeouts + r.HttpTimeout();
      if r.byparrTimeoutMs.Some? {
        CapOnce(timeouts, r.byparrTimeoutMs.value);
        sum, timeouts := SaturatingAdd(sum, r.byparrTimeoutMs.value), timeouts + r.byparrTimeoutMs.value;
      }
    }
    if c.build.impersonated && r.impersonatedEnabled {
      CapOnce(timeouts, r.impersonatedTimeoutMs);
      sum, timeouts := SaturatingAdd(sum, r.impersonatedTimeoutMs), timeouts + r.impersonatedTimeoutMs;
    }
    assert sum == Capped(timeouts) && timeouts == HttpShares(c);
    sum := AddCdpTiers(c, timeouts, sum);
  }

  function HttpShares(c: Config): nat
  {
    Share(c, Http, 0) + Share(c, Byparr, 0) + Share(c, Impersonated, 0)
  }

  lemma CapOnce(a: nat, b: nat)
    ensures Capped(Capped(a) + b) == Capped(a + b) && Capped(0) == 0
    ensures b <= U64_MAX ==> Capped(b) == b
  {
  }

  lemma Overhead(count: nat)
    ensures Product(count, CDP_TIER_OVERHEAD_MS) == 28_000 * count
  {
  }

  lemma Timeouts(c: Config)
    ensures var r := c.renderer;
      && Share(c, Http, 0) == (if r.mode == NoRendering then 0 else r.HttpTimeout())
      && Share(c, Byparr, 0)
         == (if r.mode == NoRendering || r.byparrTimeoutMs.None? then 0 else r.byparrTimeoutMs.value)
      && Share(c, Impersonated, 0)
         == (if c.build.impersonated && r.impersonatedEnabled then r.impersonatedTimeoutMs else 0)
      && Share(c, Lightpanda, 0)
         == (if c.build.cdp && r.Wants(Lightpanda) && r.lightpanda then r.LightpandaTimeout() + CDP_TIER_OVERHEAD_MS
             else 0)
      && Share(c, Playwright, 0)
         == (if c.build.cdp && r.Wants(Playwright) && r.playwright then r.ChromeTimeout() + CDP_TIER_OVERHEAD_MS else 0)
      && Share(c, Chrome, 0)
         == (if c.build.cdp && r.Wants(Chrome) && r.chrome then r.ChromeTimeout() + CDP_TIER_OVERHEAD_MS else 0)
      && Share(c, Camofox, 0)
         == (if c.build.cdp && r.Wants(Camofox) && r.camofox then r.ChromeTimeout() + CDP_TIER_OVERHEAD_MS else 0)
  {
  }

  lemma HttpLadder(c: Config)
    ensures LadderMs(c, TIERS[..3], 0) == HttpShares(c)
  {
    LadderStep(c, 0, 0);
    LadderStep(c, 1, 0);
    LadderStep(c, 2, 0);
    assert TIERS[..0] == [];
  }

  lemma CdpLadder(c: Config)
    ensures LadderMs(c, TIERS, 0)
         == LadderMs(c, TIERS[..3], 0) + CdpShares(c)
  {
    LadderStep(c, 3, 0);
    LadderStep(c, 4, 0);
    LadderStep(c, 5, 0);
    LadderStep(c, 6, 0);
    assert TIERS[..7] == TIERS;
  }

  // ----- the inner deadline -----

  /** How far a wait goes beyond the default, once clamped. */
  function ExtraWaitMs(waitForMs: Option<U64>): U64
  {
    match waitForMs
    case Some(w) => if w <= 8_000 then 0 else if w <= 60_000 then w - 8_000 else 52_000
    case None => 0
  }

  ghost function InnerMs(c: Config, requestedMs: Option<U64>, waitForMs: Option<U64>): U64
  {
    match requestedMs
    case Some(explicit) => explicit
    case None =>
      if !c.autoExtend || ActiveCdpTiers(c) == {} then c.deadlineMsDefault
      else Max(c.deadlineMsDefault, Capped(LadderMs(c, TIERS, ExtraWaitMs(waitForMs))))
  }

  /** The code adds one extra wait for each browser tier; that is the ladder with every such tier's allowance
      longer by it. */
  method EffectiveDeadlineMs(c: Config, requestedMs: Option<U64>, waitForMs: Option<U64>) returns (ms: U64)
    ensures ms == InnerMs(c, requestedMs, waitForMs)
  {
    hide LadderMs, ActiveCdpTiers, Product, Capped, AllowanceMs;
    if requestedMs.Some? {
      return requestedMs.value;
    }
    if !c.autoExtend {
      return c.deadlineMsDefault;
    }
    var tiers := CdpTierCount(c);
    NoTiersIff(c);
    if tiers == 0 {
      return c.deadlineMsDefault;
    }
    var ladderMin := MinDeadlineForFullLadderMs(c);
    var extra: U64 := 0;
    if waitForMs.Some? {
      var bounded: U64 := if waitForMs.value < MAX_WAIT_FOR_MS then waitForMs.value else MAX_WAIT_FOR_MS;
      var perTier := SaturatingSub(bounded, SPA_DEFAULT_MS);
      assert perTier == ExtraWaitMs(waitForMs);
      extra := SaturatingMul(perTier, tiers);
    }
    ExtraOnTop(c, waitForMs, extra);
    ms := Max(c.deadlineMsDefault, SaturatingAdd(ladderMin, extra));
  }

  lemma NoTiersIff(c: Config)
    ensures |ActiveCdpTiers(c)| == 0 <==> ActiveCdpTiers(c) == {}
  {
  }

  /** The wait on top of the capped ladder comes to the capped ladder in which every browser tier waits longer. */
  lemma ExtraOnTop(c: Config, waitForMs: Option<U64>, extra: U64)
    requires |ActiveCdpTiers(c)| <= 4
    requires extra == if waitForMs.Some? then Capped(Product(ExtraWaitMs(waitForMs), |ActiveCdpTiers(c)|)) else 0
    ensures Capped(Capped(LadderMs(c, TIERS, 0)) + extra) == Capped(LadderMs(c, TIERS, ExtraWaitMs(waitForMs)))
  {
    hide LadderMs, ActiveCdpTiers, Product;
    WaitPerTier(c, ExtraWaitMs(waitForMs));
    ProductIsSmall(ExtraWaitMs(waitForMs), |ActiveCdpTiers(c)|);
  }

  lemma ProductIsSmall(wait: nat, n: nat)
    requires n <= 4
    ensures Product(wait, n) <= 4 * wait && Product(0, n) == 0
  {
  }

  function CdpCount(c: Config, tiers: seq<Tier>): nat
  {
    if tiers == [] then 0
    else CdpCount(c, tiers[..|tiers| - 1]) + One(c, tiers[|tiers| - 1])
  }

  lemma {:induction false} WaitAlong(c: Config, tiers: seq<Tier>, wait: nat)
    ensures LadderMs(c, tiers, wait) == LadderMs(c, tiers, 0) + Product(wait, CdpCount(c, tiers))
  {
    if tiers != [] {
      WaitAlong(c, tiers[..|tiers| - 1], wait);
      assert Product(wait, CdpCount(c, tiers[..|tiers| - 1]) + 1)
          == Product(wait, CdpCount(c, tiers[..|tiers| - 1])) + wait;
    }
  }

  lemma CdpCountIs(c: Config)
    ensures CdpCount(c, TIERS) == |ActiveCdpTiers(c)|
  {
    hide ActiveCdpTiers;
    CountStep(c, 0);
    CountStep(c, 1);
    CountStep(c, 2);
    CountStep(c, 3);
    CountStep(c, 4);
    CountStep(c, 5);
    CountStep(c, 6);
    assert TIERS[..7] == TIERS && TIERS[..0] == [];
    CdpTierSets(c);
  }

  lemma CountStep(c: Config, k: nat)
    requires k < |TIERS|
    ensures CdpCount(c, TIERS[..k + 1])
         == CdpCount(c, TIERS[..k]) + One(c, TIERS[k])
  {
    assert TIERS[..k + 1][..k] == TIERS[..k] && TIERS[..k + 1][k] == TIERS[k];
  }

  lemma WaitPerTier(c: Config, wait: nat)
    ensures LadderMs(c, TIERS, wait) == LadderMs(c, TIERS, 0) + Product(wait, |ActiveCdpTiers(c)|)
  {
    WaitAlong(c, TIERS, wait);
    CdpCountIs(c);
  }

  function TimeoutsMs(c: Config, tiers: seq<Tier>): nat
  {
    if tiers == [] then 0
    else TimeoutsMs(c, tiers[..|tiers| - 1])
         + (if Active(c, tiers[|tiers| - 1]) then TimeoutMs(c.renderer, tiers[|tiers| - 1]) else 0)
  }

  lemma {:induction false} OverheadAlong(c: Config, tiers: seq<Tier>)
    ensures LadderMs(c, tiers, 0) == TimeoutsMs(c, tiers) + 28_000 * CdpCount(c, tiers)
  {
    hide Active;
    if tiers != [] {
      OverheadAlong(c, tiers[..|tiers| - 1]);
    }
  }

  /** The ladder charges its overhead and its wait for exactly the tiers that are counted. */
  lemma LadderCountsTiers(c: Config, wait: nat)
    ensures LadderMs(c, TIERS, wait)
         == TimeoutsMs(c, TIERS) + Product(28_000 + wait, |ActiveCdpTiers(c)|)
  {
    hide LadderMs, TimeoutsMs, ActiveCdpTiers, CdpCount;
    WaitPerTier(c, wait);
    OverheadAlong(c, TIERS);
    CdpCountIs(c);
  }

  // ----- the outer timeout -----

  function SearchMs(c: Config, scrapeMs: U64): U64
  {
    var concurrency := if c.maxConcurrency == 0 then 1 else c.maxConcurrency;
    Capped(c.searchTimeoutMs + Capped(Product(DivCeil(c.searchMaxLimit, concurrency), scrapeMs)))
  }

  /** What it means that a timeout in seconds leaves room for every request without its own deadline. */
  ghost predicate Encloses(c: Config, secs: U64)
  {
    forall w: Option<U64> :: secs * 1000 >= InnerMs(c, None, w) + 5000
  }

  /** The outer timeout is the operator's, or whole seconds enough for the longest handler and the buffer.
      So with auto-extension on it never fires before an inner deadline that was not asked for, whatever the
      wait, and even where sums saturate. */
  method EffectiveRequestTimeoutSecs(c: Config) returns (secs: U64)
    ensures !c.autoExtend ==> secs == c.requestTimeoutSecs
    ensures c.autoExtend ==>
      var scrapeMs := InnerMs(c, None, Some(60_000));
      var longestMs := Max(Max(scrapeMs, SearchMs(c, scrapeMs)), 300_000);
      && secs >= c.requestTimeoutSecs
      && secs * 1000 >= longestMs + 5000
      && (secs > c.requestTimeoutSecs ==> (secs - 1) * 1000 < longestMs + 5000)
    ensures c.autoExtend ==> Encloses(c, secs)
  {
    hide InnerMs, Encloses;
    var baseline := c.requestTimeoutSecs;
    if !c.autoExtend {
      return baseline;
    }
    var scrapeMs := EffectiveDeadlineMs(c, None, Some(MAX_WAIT_FOR_MS));
    var concurrency: U64 := if c.maxConcurrency == 0 then 1 else c.maxConcurrency;
    DivCeilIsSmall(c.searchMaxLimit, concurrency);
    var batches: U64 := DivCeil(c.searchMaxLimit, concurrency);
    var enrichmentMs := SaturatingMul(batches, scrapeMs);
    var searchMs := SaturatingAdd(c.searchTimeoutMs, enrichmentMs);
    var longestMs := Max(Max(scrapeMs, searchMs), MAP_REQUEST_TIMEOUT_CEILING_MS);
    DivCeilIsSmall(longestMs, 1000);
    var neededSecs := SaturatingAdd(DivCeil(longestMs, 1000), OUTER_BUFFER_SECS);
    WholeSeconds(longestMs);
    secs := Max(baseline, neededSecs);
    LongestWaitDecides(c, secs);
  }

  lemma DivCeilIsSmall(a: nat, b: nat)
    requires b > 0
    ensures DivCeil(a, b) <= a
  {
    var q, r := a / b, a % b;
    assert a == b * q + r;
    AtLeastOnce(b, q);
  }

  lemma AtLeastOnce(b: nat, q: nat)
    requires b > 0
    ensures b * q >= q
  {
  }

  lemma WholeSeconds(ms: U64)
    ensures DivCeil(ms, 1000) * 1000 >= ms > (DivCeil(ms, 1000) - 1) * 1000 || ms == DivCeil(ms, 1000) == 0
    ensures DivCeil(ms, 1000) + OUTER_BUFFER_SECS <= U64_MAX
  {
  }

  // ----- how the two fit -----

  lemma {:induction false} LadderGrowsWithWait(c: Config, tiers: seq<Tier>, wait: nat, longer: nat)
    requires wait <= longer
    ensures LadderMs(c, tiers, wait) <= LadderMs(c, tiers, longer)
  {
    if tiers != [] {
      LadderGrowsWithWait(c, tiers[..|tiers| - 1], wait, longer);
    }
  }

  /** A longer wait never shortens the inner deadline, and beyond sixty seconds changes nothing. */
  lemma InnerGrowsWithWait(c: Config, requestedMs: Option<U64>, waitMs: U64, longerMs: U64)
    requires waitMs <= longerMs
    ensures InnerMs(c, requestedMs, None) <= InnerMs(c, requestedMs, Some(waitMs))
      <= InnerMs(c, requestedMs, Some(longerMs))
    ensures InnerMs(c, requestedMs, Some(longerMs)) <= InnerMs(c, requestedMs, Some(60_000))
    ensures waitMs >= 60_000 ==>
      InnerMs(c, requestedMs, Some(waitMs)) == InnerMs(c, requestedMs, Some(longerMs))
  {
    hide LadderMs, ActiveCdpTiers;
    LadderGrowsWithWait(c, TIERS, 0, ExtraWaitMs(Some(waitMs)));
    LadderGrowsWithWait(c, TIERS, ExtraWaitMs(Some(waitMs)), ExtraWaitMs(Some(longerMs)));
    LadderGrowsWithWait(c, TIERS, ExtraWaitMs(Some(longerMs)), ExtraWaitMs(Some(MAX_WAIT_FOR_MS)));
  }

  /** The configuration with one more tier switched on, if it was off. */
  function WithTier(c: Config, t: Tier, byparrTimeoutMs: U64): Config
  {
    var r := c.renderer;
    c.(renderer :=
      match t
      case Http => r
      case Byparr => if r.byparrTimeoutMs.Some? then r else r.(byparrTimeoutMs := Some(byparrTimeoutMs))
      case Impersonated => r.(impersonatedEnabled := true)
      case Lightpanda => r.(lightpanda := true)
      case Playwright => r.(playwright := true)
      case Chrome => r.(chrome := true)
      case Camofox => r.(camofox := true))
  }

  lemma {:induction false} LadderGrowsWithTiers(c: Config, d: Config, tiers: seq<Tier>, wait: nat)
    requires forall t :: Share(c, t, wait) <= Share(d, t, wait)
    ensures LadderMs(c, tiers, wait) <= LadderMs(d, tiers, wait)
  {
    hide Share;
    if tiers != [] {
      LadderGrowsWithTiers(c, d, tiers[..|tiers| - 1], wait);
    }
  }

  lemma ShareGrows(c: Config, t: Tier, byparrTimeoutMs: U64, x: Tier, wait: nat)
    ensures Active(c, x) ==> Active(WithTier(c, t, byparrTimeoutMs), x)
    ensures Share(c, x, wait) <= Share(WithTier(c, t, byparrTimeoutMs), x, wait)
  {
  }

  /** Configuring another tier never shortens the inner deadline. */
  lemma InnerGrowsWithTiers(c: Config, t: Tier, byparrTimeoutMs: U64, requestedMs: Option<U64>, waitForMs: Option<U64>)
    ensures InnerMs(c, requestedMs, waitForMs) <= InnerMs(WithTier(c, t, byparrTimeoutMs), requestedMs, waitForMs)
  {
    hide LadderMs, Active, Share, WithTier;
    var d, wait := WithTier(c, t, byparrTimeoutMs), ExtraWaitMs(waitForMs);
    forall x: Tier
      ensures Active(c, x) ==> Active(d, x)
      ensures Share(c, x, wait) <= Share(d, x, wait)
    {
      ShareGrows(c, t, byparrTimeoutMs, x, wait);
    }
    LadderGrowsWithTiers(c, d, TIERS, wait);
    assert forall x :: x in ActiveCdpTiers(c) ==> x in ActiveCdpTiers(d);
    SameDefaults(c, t, byparrTimeoutMs);
  }

  lemma SameDefaults(c: Config, t: Tier, byparrTimeoutMs: U64)
    ensures var d := WithTier(c, t, byparrTimeoutMs);
      d.autoExtend == c.autoExtend && d.deadlineMsDefault == c.deadlineMsDefault
  {
  }

  /** A request without its own deadline has time for every active tier's full allowance exactly when the
      default already has, or when the extension applies and the sum does not saturate. */
  lemma FullLadderFitsIff(c: Config, waitForMs: Option<U64>)
    ensures var ladderMs := LadderMs(c, TIERS, ExtraWaitMs(waitForMs));
      InnerMs(c, None, waitForMs) >= ladderMs
      <==> || c.deadlineMsDefault >= ladderMs
           || (c.autoExtend && ActiveCdpTiers(c) != {} && ladderMs <= U64_MAX)
  {
    hide LadderMs, ActiveCdpTiers;
  }

  /** Two fetch tiers, no browser: the ladder takes ten seconds more than the default, which stays. */
  lemma HttpOnlyLadderIsNotCovered()
    ensures var r := Renderer(Auto, 15_000, None, None, None, false, false, false, false, Some(3_000), false, 0);
      var c := Config(Build(true, false), r, 8_000, true, 60, 10, 20, 10_000);
      LadderMs(c, TIERS, 0) == 18_000 && InnerMs(c, None, None) == 8_000
  {
    var r := Renderer(Auto, 15_000, None, None, None, false, false, false, false, Some(3_000), false, 0);
    var c := Config(Build(true, false), r, 8_000, true, 60, 10, 20, 10_000);
    HttpLadder(c);
    CdpLadder(c);
    Timeouts(c);
    hide LadderMs;
  }

  lemma LongestWaitDecides(c: Config, secs: U64)
    ensures Encloses(c, secs) <==> secs * 1000 >= InnerMs(c, None, Some(60_000)) + 5000
  {
    hide InnerMs;
    forall w: Option<U64>
      ensures InnerMs(c, None, w) <= InnerMs(c, None, Some(MAX_WAIT_FOR_MS))
    {
      if w.Some? {
        InnerGrowsWithWait(c, None, w.value, w.value);
      } else {
        InnerGrowsWithWait(c, None, 0, MAX_WAIT_FOR_MS);
      }
    }
  }
}
