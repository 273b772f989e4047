/** Folding the token usage of several model calls into one record, with saturating 32-bit counters. */
module Usage {
  import opened Numbers
  import opened Text
  import opened Sequences

  const U32_MAX: int := 0xFFFF_FFFF

  type U32 = x: int | 0 <= x <= U32_MAX

  function Capped(n: nat): U32
  {
    Min(n, U32_MAX)
  }

  function SaturatingAdd(a: U32, b: U32): U32
  {
    Capped(a + b)
  }

  function SaturatingSub(a: U32, b: U32): U32
  {
    if a >= b then a - b else 0
  }

  function OrZero(a: Option<U32>): U32
  {
    match a
    case Some(x) => x
    case None => 0
  }

  function SumOpt(a: Option<U32>, b: Option<U32>): Option<U32>
  {
    match (a, b)
    case (Some(x), Some(y)) => Some(SaturatingAdd(x, y))
    case (Some(x), None) => Some(x)
    case (None, y) => y
  }

  /** Costs are exact here: rounding is not modelled. */
  function SumCost(a: Option<real>, b: Option<real>): Option<real>
  {
    match (a, b)
    case (Some(x), Some(y)) => Some(x + y)
    case (Some(x), None) => Some(x)
    case (None, y) => y
  }

  /** What one leg reports, or several folded together. */
  datatype Usage = Usage(
    inputTokens: U32, outputTokens: U32, totalTokens: U32, cost: Option<real>,
    model: string, provider: string,
    cacheHit: Option<U32>, cacheMiss: Option<U32>,
    truncated: bool, calls: U32, executedSummaries: U32, answerExecuted: bool)

  function AtLeastOne(n: U32): U32
  {
    if n == 0 then 1 else n
  }

  function MergedMiss(a: Usage, b: Usage): Option<U32>
  {
    match (a.cacheMiss, b.cacheMiss)
    case (Some(x), Some(y)) => Some(SaturatingAdd(x, y))
    case (Some(x), None) => Some(SaturatingAdd(x, SaturatingSub(b.inputTokens, OrZero(b.cacheHit))))
    case (None, Some(y)) => Some(SaturatingAdd(SaturatingSub(a.inputTokens, OrZero(a.cacheHit)), y))
    case (None, None) => None
  }

  function Merged(a: Usage, b: Usage): Usage
  {
    Usage(
      SaturatingAdd(a.inputTokens, b.inputTokens),
      SaturatingAdd(a.outputTokens, b.outputTokens),
      SaturatingAdd(a.totalTokens, b.totalTokens),
      SumCost(a.cost, b.cost),
      a.model, a.provider,
      SumOpt(a.cacheHit, b.cacheHit),
      MergedMiss(a, b),
      a.truncated || b.truncated,
      SaturatingAdd(a.calls, AtLeastOne(b.calls)),
      SaturatingAdd(a.executedSummaries, b.executedSummaries),
      a.answerExecuted || b.answerExecuted)
  }

  function Accumulated(slot: Option<Usage>, other: Option<Usage>): Option<Usage>
  {
    match (slot, other)
    case (Some(a), Some(b)) => Some(Merged(a, b))
    case (None, _) => other
    case (_, None) => slot
  }

  class LlmUsage {
    var inputTokens: U32
    var outputTokens: U32
    var totalTokens: U32
    var cost: Option<real>
    const model: string
    const provider: string
    var cacheHit: Option<U32>
    var cacheMiss: Option<U32>
    var truncated: bool
    var calls: U32
    var executedSummaries: U32
    var answerExecuted: bool

    constructor (u: Usage)
      ensures Value() == u
    {
      inputTokens, outputTokens, totalTokens := u.inputTokens, u.outputTokens, u.totalTokens;
      cost, model, provider := u.cost, u.model, u.provider;
      cacheHit, cacheMiss := u.cacheHit, u.cacheMiss;
      truncated, calls := u.truncated, u.calls;
      executedSummaries, answerExecuted := u.executedSummaries, u.answerExecuted;
    }

    function Value(): Usage
      reads this
    {
      Usage(inputTokens, outputTokens, totalTokens, cost, model, provider, cacheHit, cacheMiss,
            truncated, calls, executedSummaries, answerExecuted)
    }

    method Merge(other: Usage)
      modifies this
      ensures Value() == Merged(old(Value()), other)
    {
      hide SaturatingAdd, SaturatingSub, SumOpt, OrZero, AtLeastOne;
      ghost var before := Value();
      var inputBefore := inputTokens;
      var cacheHitBefore := OrZero(cacheHit);
      inputTokens := SaturatingAdd(inputTokens, other.inputTokens);
      outputTokens := SaturatingAdd(outputTokens, other.outputTokens);
      totalTokens := SaturatingAdd(totalTokens, other.totalTokens);
      calls := SaturatingAdd(calls, AtLeastOne(other.calls));
      executedSummaries := SaturatingAdd(executedSummaries, other.executedSummaries);
      answerExecuted := answerExecuted || other.answerExecuted;
      truncated := truncated || other.truncated;
      cacheHit := SumOpt(cacheHit, other.cacheHit);
      cacheMiss :=
        match (cacheMiss, other.cacheMiss)
        case (Some(x), Some(y)) => Some(SaturatingAdd(x, y))
        case (Some(x), None) => Some(SaturatingAdd(x, SaturatingSub(other.inputTokens, OrZero(other.cacheHit))))
        case (None, Some(y)) => Some(SaturatingAdd(SaturatingSub(inputBefore, cacheHitBefore), y))
        case (None, None) => None;
      assert cacheMiss == MergedMiss(before, other);
      cost :=
        match (cost, other.cost)
        case (Some(x), Some(y)) => Some(x + y)
        case (Some(x), None) => Some(x)
        case (None, y) => y;
    }
  }

  /** The optional usage of a scrape that its legs accumulate into. */
  class Slot {
    var usage: LlmUsage?

    constructor ()
      ensures Contents() == None
    {
      usage := null;
    }

    function Contents(): Option<Usage>
      reads this, usage
    {
      if usage == null then None else Some(usage.Value())
    }

    method Accumulate(other: Option<Usage>)
      modifies this, usage
      ensures Contents() == Accumulated(old(Contents()), other)
      ensures old(usage) != null ==> usage == old(usage)
      ensures old(usage) == null && usage != null ==> fresh(usage)
    {
      match other {
        case None =>
        case Some(leg) =>
          if usage != null {
            usage.Merge(leg);
          } else {
            usage := new LlmUsage(leg);
          }
      }
    }
  }

  // ----- any number of legs, in any order -----

  /** The slot after all legs, from an empty one. */
  function Folded(legs: seq<Usage>): Option<Usage>
  {
    if legs == [] then None
    else Accumulated(Folded(legs[..|legs| - 1]), Some(legs[|legs| - 1]))
  }

  function Sum(legs: seq<Usage>, f: Usage -> nat): nat
  {
    if legs == [] then 0 else Sum(legs[..|legs| - 1], f) + f(legs[|legs| - 1])
  }

  ghost predicate Any(legs: seq<Usage>, p: Usage -> bool)
  {
    exists u :: u in legs && p(u)
  }

  predicate Answered(u: Usage) { u.answerExecuted }
  predicate Clipped(u: Usage) { u.truncated }
  predicate ReportsHits(u: Usage) { u.cacheHit.Some? }
  predicate ReportsMisses(u: Usage) { u.cacheMiss.Some? }
  predicate ReportsCost(u: Usage) { u.cost.Some? }

  function Input(u: Usage): nat { u.inputTokens }
  function Output(u: Usage): nat { u.outputTokens }
  function Total(u: Usage): nat { u.totalTokens }
  function Summaries(u: Usage): nat { u.executedSummaries }
  function Hit(u: Usage): nat { OrZero(u.cacheHit) }
  function Calls(u: Usage): nat { AtLeastOne(u.calls) }

  /** The miss count a biller uses: the explicit one, else the input that was no hit. */
  function EffectiveMiss(u: Usage): U32
  {
    match u.cacheMiss
    case Some(x) => x
    case None => SaturatingSub(u.inputTokens, OrZero(u.cacheHit))
  }

  function Miss(u: Usage): nat { EffectiveMiss(u) }

  function CostOf(u: Usage): real
  {
    match u.cost
    case Some(x) => x
    case None => 0.0
  }

  function TotalCost(legs: seq<Usage>): real
  {
    if legs == [] then 0.0 else TotalCost(legs[..|legs| - 1]) + CostOf(legs[|legs| - 1])
  }

  /** What folding must come to: every counter is the capped sum, every flag the disjunction. */
  ghost predicate IsTotalOf(u: Usage, legs: seq<Usage>)
  {
    && u.inputTokens == Capped(Sum(legs, Input))
    && u.outputTokens == Capped(Sum(legs, Output))
    && u.totalTokens == Capped(Sum(legs, Total))
    && u.executedSummaries == Capped(Sum(legs, Summaries))
    && u.answerExecuted == Any(legs, Answered)
    && u.truncated == Any(legs, Clipped)
    && u.cacheHit.Some? == Any(legs, ReportsHits)
    && Hit(u) == Capped(Sum(legs, Hit))
    && u.cacheMiss.Some? == Any(legs, ReportsMisses)
    && u.cost.Some? == Any(legs, ReportsCost)
    && CostOf(u) == TotalCost(legs)
  }

  lemma AnyOfSnoc(legs: seq<Usage>, u: Usage, p: Usage -> bool)
    ensures Any(legs + [u], p) <==> Any(legs, p) || p(u)
  {
    assert u in legs + [u];
    assert forall x :: x in legs ==> x in legs + [u];
  }

  lemma SumOfSnoc(legs: seq<Usage>, u: Usage, f: Usage -> nat)
    ensures Sum(legs + [u], f) == Sum(legs, f) + f(u)
  {
    assert (legs + [u])[..|legs|] == legs;
  }

  /** Merging in one more leg keeps the record a total. */
  lemma MergeKeepsTotal(u: Usage, legs: seq<Usage>, leg: Usage)
    requires IsTotalOf(u, legs)
    ensures IsTotalOf(Merged(u, leg), legs + [leg])
  {
    hide Sum, Any;
    SumOfSnoc(legs, leg, Input);
    SumOfSnoc(legs, leg, Output);
    SumOfSnoc(legs, leg, Total);
    SumOfSnoc(legs, leg, Summaries);
    SumOfSnoc(legs, leg, Hit);
    AnyOfSnoc(legs, leg, Answered);
    AnyOfSnoc(legs, leg, Clipped);
    AnyOfSnoc(legs, leg, ReportsHits);
    AnyOfSnoc(legs, leg, ReportsMisses);
    AnyOfSnoc(legs, leg, ReportsCost);
    assert (legs + [leg])[..|legs|] == legs;
  }

  lemma OfOne(leg: Usage, f: Usage -> nat, p: Usage -> bool)
    ensures Sum([leg], f) == f(leg) && Any([leg], p) == p(leg)
  {
    assert [leg][..0] == [] && leg in [leg];
  }

  lemma OneLegIsTotal(leg: Usage)
    ensures IsTotalOf(leg, [leg]) && Sum([leg], Calls) == AtLeastOne(leg.calls)
  {
    hide Any, Sum;
    OfOne(leg, Input, Answered);
    OfOne(leg, Output, Clipped);
    OfOne(leg, Total, ReportsHits);
    OfOne(leg, Summaries, ReportsMisses);
    OfOne(leg, Hit, ReportsCost);
    assert [leg][..0] == [] && TotalCost([]) == 0.0;
    OfOne(leg, Calls, Answered);
  }

  /** Whatever the legs, tokens, summaries, flags and cache hits add up, and the labels are the first leg's.
      The calls are those of the first leg and at least one for each other. */
  lemma {:induction false} FoldIsTotal(legs: seq<Usage>)
    requires legs != []
    ensures Folded(legs).Some? && IsTotalOf(Folded(legs).value, legs)
    ensures Folded(legs).value.model == legs[0].model && Folded(legs).value.provider == legs[0].provider
    ensures Folded(legs).value.calls == Capped(Sum(legs, Calls) - if legs[0].calls == 0 then 1 else 0)
  {
    hide IsTotalOf, Sum, Merged, Any, Folded;
    var front, last := legs[..|legs| - 1], legs[|legs| - 1];
    assert legs == front + [last];
    FoldedSnoc(front, last);
    if front == [] {
      assert legs == [last];
      OneLegIsTotal(last);
    } else {
      FoldIsTotal(front);
      SumCallsPositive(front);
      MergeKeepsTotal(Folded(front).value, front, last);
      MergedLabels(Folded(front).value, last);
      SumOfSnoc(front, last, Calls);
    }
  }

  lemma FoldedSnoc(front: seq<Usage>, last: Usage)
    ensures Folded(front + [last])
         == if front == [] then Some(last) else Accumulated(Folded(front), Some(last))
  {
    assert (front + [last])[..|front|] == front;
  }

  lemma MergedLabels(u: Usage, leg: Usage)
    ensures Merged(u, leg).model == u.model && Merged(u, leg).provider == u.provider
    ensures Merged(u, leg).calls == SaturatingAdd(u.calls, AtLeastOne(leg.calls))
  {
  }

  lemma SumCallsPositive(legs: seq<Usage>)
    requires legs != []
    ensures Sum(legs, Calls) >= 1
  {
  }

  // ----- order -----

  lemma {:induction false} SumWithout(legs: seq<Usage>, i: nat, f: Usage -> nat)
    requires i < |legs|
    ensures Sum(legs, f) == Sum(legs[..i] + legs[i + 1..], f) + f(legs[i])
  {
    var n := |legs| - 1;
    var without := legs[..i] + legs[i + 1..];
    if i < n {
      assert without[..n - 1] == legs[..n][..i] + legs[..n][i + 1..] && without[n - 1] == legs[n];
      SumWithout(legs[..n], i, f);
    } else {
      assert without == legs[..n];
    }
  }

  lemma {:induction false} SumInAnyOrder(a: seq<Usage>, b: seq<Usage>, f: Usage -> nat)
    requires multiset(a) == multiset(b)
    ensures Sum(a, f) == Sum(b, f)
  {
    hide Sum;
    SameElements(a, b);
    if a == [] {
      assert a == b;
    } else {
      var n := |a| - 1;
      assert a[n] in b;
      var i :| 0 <= i < |b| && b[i] == a[n];
      MultisetWithout(a, n);
      MultisetWithout(b, i);
      SumWithout(a, n, f);
      SumWithout(b, i, f);
      SumInAnyOrder(a[..n] + a[n + 1..], b[..i] + b[i + 1..], f);
    }
  }

  lemma AnyInAnyOrder(a: seq<Usage>, b: seq<Usage>, p: Usage -> bool)
    requires multiset(a) == multiset(b)
    ensures Any(a, p) == Any(b, p)
  {
    SameElements(a, b);
  }

  /** The totals are the same for every order of the legs. */
  lemma TotalsInAnyOrder(a: seq<Usage>, b: seq<Usage>)
    requires a != [] && multiset(a) == multiset(b)
    ensures b != [] && Folded(a).Some? && Folded(b).Some?
    ensures var u, v := Folded(a).value, Folded(b).value;
      && u.inputTokens == v.inputTokens && u.outputTokens == v.outputTokens && u.totalTokens == v.totalTokens
      && u.executedSummaries == v.executedSummaries
      && u.answerExecuted == v.answerExecuted && u.truncated == v.truncated
      && u.cacheHit == v.cacheHit
      && u.cacheMiss.Some? == v.cacheMiss.Some?
  {
    hide Any, Sum, Folded;
    SameElements(a, b);
    FoldIsTotal(a);
    FoldIsTotal(b);
    SumInAnyOrder(a, b, Input);
    SumInAnyOrder(a, b, Output);
    SumInAnyOrder(a, b, Total);
    SumInAnyOrder(a, b, Summaries);
    SumInAnyOrder(a, b, Hit);
    AnyInAnyOrder(a, b, Answered);
    AnyInAnyOrder(a, b, Clipped);
    AnyInAnyOrder(a, b, ReportsHits);
    AnyInAnyOrder(a, b, ReportsMisses);
  }

  /** The call count is not: a leg that counts no call is raised to one unless it comes first. Two orders
      agree exactly when both or neither start with such a leg, or when the count saturates anyway. */
  lemma CallsAgreeIff(a: seq<Usage>, b: seq<Usage>)
    requires a != [] && b != [] && multiset(a) == multiset(b)
    ensures Folded(a).Some? && Folded(b).Some?
    ensures Folded(a).value.calls == Folded(b).value.calls
      <==> (a[0].calls == 0 <==> b[0].calls == 0) || Sum(a, Calls) > U32_MAX
  {
    hide Sum, Folded, IsTotalOf;
    FoldIsTotal(a);
    FoldIsTotal(b);
    SumInAnyOrder(a, b, Calls);
    SumCallsPositive(a);
  }

  lemma CallsDependOnOrder()
    ensures var zero := Usage(0, 0, 0, None, "", "", None, None, false, 0, 0, false);
      var one := zero.(calls := 1);
      Merged(zero, one).calls == 1 && Merged(one, zero).calls == 2
  {
  }

  // ----- hits and misses -----

  /** A leg that reports its cache use reports no more hits than input. */
  predicate HitsWithinInput(u: Usage)
  {
    Hit(u) <= u.inputTokens
  }

  lemma {:induction false} HitsAndMissesAreInput(legs: seq<Usage>)
    requires forall u :: u in legs ==> Hit(u) + EffectiveMiss(u) == u.inputTokens
    ensures Sum(legs, Hit) + Sum(legs, Miss) == Sum(legs, Input)
  {
    if legs != [] {
      assert legs[|legs| - 1] in legs;
      HitsAndMissesAreInput(legs[..|legs| - 1]);
    }
  }

  // ----- misses in any order -----

  function Difference(a: nat, b: nat): nat
  {
    if a >= b then a - b else 0
  }

  /** The misses of one leg with this much input and these hits, counters capped. */
  function Pool(input: nat, hits: nat): nat
  {
    Difference(Capped(input), Capped(hits))
  }

  /** Pooling one more leg adds at most its own misses. */
  lemma PoolIsSubadditive(input: nat, hits: nat, moreInput: nat, moreHits: nat)
    ensures Pool(input + moreInput, hits + moreHits) <= Pool(input, hits) + Difference(moreInput, moreHits)
  {
  }

  /** How many legs come before the first that reports a miss count. */
  function SilentPrefix(legs: seq<Usage>): (n: nat)
    ensures n <= |legs|
    ensures forall i :: 0 <= i < n ==> !ReportsMisses(legs[i])
    ensures n < |legs| ==> ReportsMisses(legs[n])
    ensures n < |legs| <==> Any(legs, ReportsMisses)
  {
    if legs == [] then 0
    else
      var front, last := legs[..|legs| - 1], legs[|legs| - 1];
      assert legs == front + [last];
      AnyOfSnoc(front, last, ReportsMisses);
      var n := SilentPrefix(front);
      if n < |front| || ReportsMisses(last) then n else |legs|
  }

  /** The legs before the first report are pooled, as one leg with their input and their hits; from there on
      each counts for itself. */
  function PooledMiss(legs: seq<Usage>): nat
  {
    var n := SilentPrefix(legs);
    Pool(Sum(legs[..n], Input), Sum(legs[..n], Hit)) + Sum(legs[n..], Miss)
  }

  /** What folding makes of the misses, for every list of legs in their order. */
  lemma {:induction false} FoldPoolsMisses(legs: seq<Usage>)
    requires legs != []
    ensures Folded(legs).Some? && EffectiveMiss(Folded(legs).value) == Capped(PooledMiss(legs))
  {
    hide Sum, SilentPrefix, Any, Merged;
    var front, last := legs[..|legs| - 1], legs[|legs| - 1];
    assert legs == front + [last];
    PooledSnoc(front, last);
    SumOfSnoc(front, last, Input);
    SumOfSnoc(front, last, Hit);
    FoldIsTotal(legs);
    if front == [] {
      assert legs == [last];
      PooledOne(last);
    } else {
      FoldPoolsMisses(front);
      FoldIsTotal(front);
      MergedMisses(Folded(front).value, last);
    }
  }

  lemma MergedMisses(u: Usage, leg: Usage)
    ensures EffectiveMiss(Merged(u, leg)) ==
      if ReportsMisses(u) || ReportsMisses(leg) then SaturatingAdd(EffectiveMiss(u), EffectiveMiss(leg))
      else SaturatingSub(SaturatingAdd(u.inputTokens, leg.inputTokens), OrZero(SumOpt(u.cacheHit, leg.cacheHit)))
  {
  }

  lemma PooledOne(leg: Usage)
    ensures PooledMiss([leg]) == EffectiveMiss(leg)
  {
    hide Any;
    OfOne(leg, Input, ReportsMisses);
    OfOne(leg, Hit, ReportsMisses);
    OfOne(leg, Miss, ReportsMisses);
    var n := SilentPrefix([leg]);
    if n == 0 {
      assert [leg][..0] == [] && [leg][0..] == [leg];
    } else {
      assert [leg][..1] == [leg] && [leg][1..] == [];
    }
  }

  lemma PooledSnoc(front: seq<Usage>, last: Usage)
    ensures PooledMiss(front + [last]) ==
      if Any(front, ReportsMisses) || ReportsMisses(last) then PooledMiss(front) + Miss(last)
      else Pool(Sum(front + [last], Input), Sum(front + [last], Hit))
    ensures !Any(front, ReportsMisses) ==> PooledMiss(front) == Pool(Sum(front, Input), Sum(front, Hit))
  {
    hide Any, Sum;
    var legs, n := front + [last], SilentPrefix(front);
    SumOfNone(Miss);
    AnyOfSnoc(front, last, ReportsMisses);
    hide SilentPrefix;
    if Any(front, ReportsMisses) || ReportsMisses(last) {
      SilentPrefixSnoc(front, last);
      CutSnoc(front, last, n);
      SumOfSnoc(front[n..], last, Miss);
    } else {
      PooledWithoutReports(legs);
    }
    if !Any(front, ReportsMisses) {
      PooledWithoutReports(front);
    }
  }

  lemma SilentPrefixSnoc(front: seq<Usage>, last: Usage)
    requires Any(front, ReportsMisses) || ReportsMisses(last)
    ensures SilentPrefix(front + [last]) == SilentPrefix(front)
  {
    assert (front + [last])[..|front|] == front;
  }

  lemma CutSnoc(front: seq<Usage>, last: Usage, n: nat)
    requires n <= |front|
    ensures (front + [last])[..n] == front[..n] && (front + [last])[n..] == front[n..] + [last]
  {
  }

  // A silent leg is one that reports no miss count.

  function SilentInput(u: Usage): nat { if ReportsMisses(u) then 0 else Input(u) }
  function SilentHit(u: Usage): nat { if ReportsMisses(u) then 0 else Hit(u) }
  function SilentMiss(u: Usage): nat { if ReportsMisses(u) then 0 else Miss(u) }
  function ReportedMiss(u: Usage): nat { if ReportsMisses(u) then Miss(u) else 0 }

  /** By how much a silent leg's hits exceed its input. */
  function Excess(u: Usage): nat { if ReportsMisses(u) then 0 else Difference(Hit(u), Input(u)) }

  /** The misses with all silent legs pooled. */
  function LeastMiss(legs: seq<Usage>): nat
  {
    Pool(Sum(legs, SilentInput), Sum(legs, SilentHit)) + Sum(legs, ReportedMiss)
  }

  lemma {:induction false} SumsBalance(legs: seq<Usage>)
    ensures Sum(legs, SilentInput) + Sum(legs, Excess) == Sum(legs, SilentHit) + Sum(legs, SilentMiss)
    ensures Sum(legs, Miss) == Sum(legs, SilentMiss) + Sum(legs, ReportedMiss)
  {
    if legs != [] {
      SumsBalance(legs[..|legs| - 1]);
    }
  }

  lemma {:induction false} SumIsPositiveIff(legs: seq<Usage>, f: Usage -> nat)
    ensures Sum(legs, f) > 0 <==> exists u :: u in legs && f(u) > 0
  {
    if legs != [] {
      var front, last := legs[..|legs| - 1], legs[|legs| - 1];
      assert legs == front + [last];
      SumIsPositiveIff(front, f);
    }
  }

  lemma {:induction false} SumOfConcat(a: seq<Usage>, b: seq<Usage>, f: Usage -> nat)
    ensures Sum(a + b, f) == Sum(a, f) + Sum(b, f)
  {
    if b == [] {
      assert a + b == a;
    } else {
      var front, last := b[..|b| - 1], b[|b| - 1];
      assert b == front + [last] && a + b == (a + front) + [last];
      SumOfConcat(a, front, f);
      SumOfSnoc(a + front, last, f);
      SumOfSnoc(front, last, f);
    }
  }

  lemma {:induction false} SilentSums(legs: seq<Usage>)
    requires forall u :: u in legs ==> !ReportsMisses(u)
    ensures Sum(legs, Input) == Sum(legs, SilentInput) && Sum(legs, Hit) == Sum(legs, SilentHit)
    ensures Sum(legs, ReportedMiss) == 0
  {
    if legs != [] {
      var front, last := legs[..|legs| - 1], legs[|legs| - 1];
      assert legs == front + [last];
      assert last in legs;
      SilentSums(front);
    }
  }

  /** No order misses less than pooling all silent legs, none more than the sum over the legs. */
  lemma PooledMissBounds(legs: seq<Usage>)
    ensures LeastMiss(legs) <= PooledMiss(legs) <= Sum(legs, Miss)
  {
    hide Sum, Any;
    var n := SilentPrefix(legs);
    var silent, rest := legs[..n], legs[n..];
    assert legs == silent + rest;
    SilentSums(silent);
    SumOfConcat(silent, rest, SilentInput);
    SumOfConcat(silent, rest, SilentHit);
    SumOfConcat(silent, rest, ReportedMiss);
    SumOfConcat(silent, rest, Miss);
    SumsBalance(silent);
    SumsBalance(rest);
    PoolIsSubadditive(Sum(silent, SilentInput), Sum(silent, SilentHit), Sum(rest, SilentInput), Sum(rest, SilentHit));
    PoolIsSubadditive(0, 0, Sum(silent, SilentInput), Sum(silent, SilentHit));
  }

  /** Pooling the silent legs keeps their misses: none has any, or none has excess hits to set off against
      them and their input stays below the cap. */
  ghost predicate PoolingKeepsMisses(legs: seq<Usage>)
  {
    || (forall u :: u in legs && !ReportsMisses(u) ==> Hit(u) >= u.inputTokens)
    || ((forall u :: u in legs && !ReportsMisses(u) ==> Hit(u) <= u.inputTokens) && Sum(legs, SilentInput) <= U32_MAX)
  }

  lemma PoolingKeepsMissesMeans(legs: seq<Usage>)
    ensures PoolingKeepsMisses(legs)
      <==> Sum(legs, SilentMiss) == 0 || (Sum(legs, Excess) == 0 && Sum(legs, SilentInput) <= U32_MAX)
  {
    hide Sum;
    SumIsPositiveIff(legs, SilentMiss);
    SumIsPositiveIff(legs, Excess);
    assert forall u: Usage :: SilentMiss(u) > 0 <==> !ReportsMisses(u) && Hit(u) < u.inputTokens;
    assert forall u: Usage :: Excess(u) > 0 <==> !ReportsMisses(u) && Hit(u) > u.inputTokens;
  }

  lemma LeastIsAllIff(legs: seq<Usage>)
    ensures LeastMiss(legs) == Sum(legs, Miss) <==> PoolingKeepsMisses(legs)
  {
    hide Sum, PoolingKeepsMisses;
    SumsBalance(legs);
    PoolingKeepsMissesMeans(legs);
  }

  function Silent(legs: seq<Usage>): seq<Usage>
  {
    if legs == [] then []
    else Silent(legs[..|legs| - 1]) + if ReportsMisses(legs[|legs| - 1]) then [] else [legs[|legs| - 1]]
  }

  function Reporting(legs: seq<Usage>): seq<Usage>
  {
    if legs == [] then []
    else Reporting(legs[..|legs| - 1]) + if ReportsMisses(legs[|legs| - 1]) then [legs[|legs| - 1]] else []
  }

  lemma {:induction false} SilentAndReporting(legs: seq<Usage>)
    ensures multiset(Silent(legs) + Reporting(legs)) == multiset(legs)
    ensures forall u :: u in Silent(legs) ==> !ReportsMisses(u)
    ensures forall u :: u in Reporting(legs) ==> ReportsMisses(u)
  {
    if legs != [] {
      var front, last := legs[..|legs| - 1], legs[|legs| - 1];
      assert legs == front + [last];
      SilentAndReporting(front);
    }
  }

  lemma {:induction false} ReportingSums(legs: seq<Usage>)
    requires forall u :: u in legs ==> ReportsMisses(u)
    ensures Sum(legs, SilentInput) == Sum(legs, SilentHit) == 0 && Sum(legs, Miss) == Sum(legs, ReportedMiss)
  {
    if legs != [] {
      var front, last := legs[..|legs| - 1], legs[|legs| - 1];
      assert legs == front + [last];
      assert last in legs;
      ReportingSums(front);
    }
  }

  /** The order with the silent legs first misses least, and one that starts with a report misses most. */
  lemma ExtremeOrders(legs: seq<Usage>) returns (least: seq<Usage>, most: seq<Usage>)
    requires Any(legs, ReportsMisses)
    ensures multiset(least) == multiset(most) == multiset(legs)
    ensures PooledMiss(least) == LeastMiss(legs) && PooledMiss(most) == Sum(legs, Miss)
  {
    least := SilentFirst(legs);
    most := ReportFirst(legs);
  }

  lemma SilentFirst(legs: seq<Usage>) returns (order: seq<Usage>)
    requires Any(legs, ReportsMisses)
    ensures multiset(order) == multiset(legs) && PooledMiss(order) == LeastMiss(legs)
  {
    hide Sum, Any, Silent, Reporting;
    var silent, reporting := Silent(legs), Reporting(legs);
    order := silent + reporting;
    SilentAndReporting(legs);
    AnyInAnyOrder(order, legs, ReportsMisses);
    var n := SilentPrefix(order);
    assert forall i :: 0 <= i < |silent| ==> order[i] in silent;
    assert reporting != [] ==> order[|silent|] in reporting;
    assert n == |silent|;
    assert order[..n] == silent && order[n..] == reporting;
    SilentSums(silent);
    ReportingSums(reporting);
    SumInAnyOrder(order, legs, SilentInput);
    SumInAnyOrder(order, legs, SilentHit);
    SumInAnyOrder(order, legs, ReportedMiss);
    SumOfConcat(silent, reporting, SilentInput);
    SumOfConcat(silent, reporting, SilentHit);
    SumOfConcat(silent, reporting, ReportedMiss);
  }

  lemma ReportFirst(legs: seq<Usage>) returns (order: seq<Usage>)
    requires Any(legs, ReportsMisses)
    ensures multiset(order) == multiset(legs) && PooledMiss(order) == Sum(legs, Miss)
  {
    hide Sum;
    var n := SilentPrefix(legs);
    MultisetWithout(legs, n);
    order := [legs[n]] + (legs[..n] + legs[n + 1..]);
    assert multiset(order) == multiset(legs);
    SumInAnyOrder(order, legs, Miss);
    assert SilentPrefix(order) == 0 by {
      assert ReportsMisses(order[0]);
    }
    assert order[..0] == [] && order[0..] == order;
    SumOfNone(Input);
    SumOfNone(Hit);
  }

  lemma SumOfNone(f: Usage -> nat)
    ensures Sum([], f) == 0
  {
  }

  ghost predicate SameMisses(a: seq<Usage>, b: seq<Usage>)
  {
    && Folded(a).Some? && Folded(b).Some?
    && EffectiveMiss(Folded(a).value) == EffectiveMiss(Folded(b).value)
  }

  /** Every order of the legs gives the same misses exactly when none reports a miss count, or pooling the
      legs that report none keeps their misses, or even the least count saturates. */
  lemma MissesAgreeIff(legs: seq<Usage>)
    requires legs != []
    ensures (forall order: seq<Usage> :: multiset(order) == multiset(legs) ==> SameMisses(order, legs))
      <==> !Any(legs, ReportsMisses) || PoolingKeepsMisses(legs) || LeastMiss(legs) >= U32_MAX
  {
    hide Sum, Any, Folded, PooledMiss, LeastMiss, PoolingKeepsMisses;
    LeastIsAllIff(legs);
    PooledMissBounds(legs);
    if !Any(legs, ReportsMisses) || PoolingKeepsMisses(legs) || LeastMiss(legs) >= U32_MAX {
      forall order: seq<Usage> | multiset(order) == multiset(legs)
        ensures SameMisses(order, legs)
      {
        OrdersAgree(order, legs);
      }
    } else {
      var least, most := ExtremeOrders(legs);
      OrderPools(least, legs);
      OrderPools(most, legs);
      assert !(SameMisses(least, legs) && SameMisses(most, legs));
    }
  }

  lemma OrderPools(order: seq<Usage>, legs: seq<Usage>)
    requires legs != [] && multiset(order) == multiset(legs)
    ensures Folded(order).Some? && EffectiveMiss(Folded(order).value) == Capped(PooledMiss(order))
  {
    hide Sum, PooledMiss;
    SameElements(order, legs);
    FoldPoolsMisses(order);
  }

  lemma OrdersAgree(order: seq<Usage>, legs: seq<Usage>)
    requires legs != [] && multiset(order) == multiset(legs)
    requires !Any(legs, ReportsMisses) || LeastMiss(legs) == Sum(legs, Miss) || LeastMiss(legs) >= U32_MAX
    ensures SameMisses(order, legs)
  {
    hide Sum, Any, Folded, SilentPrefix;
    OrderPools(order, legs);
    OrderPools(legs, legs);
    AnyInAnyOrder(order, legs, ReportsMisses);
    SumInAnyOrder(order, legs, Input);
    SumInAnyOrder(order, legs, Hit);
    SumInAnyOrder(order, legs, Miss);
    SumInAnyOrder(order, legs, SilentInput);
    SumInAnyOrder(order, legs, SilentHit);
    SumInAnyOrder(order, legs, ReportedMiss);
    PooledMissBounds(order);
    PooledMissBounds(legs);
    if !Any(legs, ReportsMisses) {
      PooledWithoutReports(order);
      PooledWithoutReports(legs);
    }
  }

  lemma PooledWithoutReports(legs: seq<Usage>)
    requires !Any(legs, ReportsMisses)
    ensures PooledMiss(legs) == Pool(Sum(legs, Input), Sum(legs, Hit))
  {
    assert legs[..|legs|] == legs && legs[|legs|..] == [];
  }

  /** In a given order the misses are the capped sum exactly when pooling the legs before the first report
      keeps their misses, or the count saturates all the same. */
  lemma MissesAddUpIff(legs: seq<Usage>)
    requires legs != []
    ensures Folded(legs).Some?
    ensures EffectiveMiss(Folded(legs).value) == Capped(Sum(legs, Miss))
      <==> PoolingKeepsMisses(legs[..SilentPrefix(legs)]) || PooledMiss(legs) >= U32_MAX
  {
    hide Sum, Any, Folded, LeastMiss, PoolingKeepsMisses, SilentPrefix;
    FoldPoolsMisses(legs);
    PooledMissBounds(legs);
    PrefixDecides(legs);
  }

  lemma PrefixDecides(legs: seq<Usage>)
    ensures PooledMiss(legs) == Sum(legs, Miss) <==> PoolingKeepsMisses(legs[..SilentPrefix(legs)])
  {
    hide Sum, Any, PoolingKeepsMisses;
    var n := SilentPrefix(legs);
    var silent, rest := legs[..n], legs[n..];
    assert legs == silent + rest;
    SilentSums(silent);
    SumOfConcat(silent, rest, Miss);
    LeastIsAllIff(silent);
  }

  /** In particular, they are when no leg claims more hits than input and the legs that report no miss count
      have input below the cap together. */
  lemma MissesAddUp(legs: seq<Usage>)
    requires legs != [] && (forall u :: u in legs ==> HitsWithinInput(u)) && Sum(legs, SilentInput) <= U32_MAX
    ensures Folded(legs).Some? && EffectiveMiss(Folded(legs).value) == Capped(Sum(legs, Miss))
  {
    hide Sum, Any, Folded, PooledMiss, LeastMiss;
    FoldPoolsMisses(legs);
    PooledMissBounds(legs);
    LeastIsAllIff(legs);
  }

  /** Past the cap they need not be: two legs without a miss count, the first all hits. */
  lemma MissesFallShortPastTheCap()
    ensures var a := Usage(3_000_000_000, 0, 0, None, "", "", Some(3_000_000_000), None, false, 1, 0, false);
      var b := a.(cacheHit := None);
      && EffectiveMiss(a) == 0 && EffectiveMiss(b) == 3_000_000_000
      && EffectiveMiss(Merged(a, b)) == 1_294_967_295
  {
  }

  /** For two legs: misses add up, to the cap, exactly when one side reports them, or neither side has any, or
      neither claims more hits than input and their input stays below the cap, or the count saturates. */
  lemma MergeAddsMissesIff(a: Usage, b: Usage)
    ensures EffectiveMiss(Merged(a, b)) == SaturatingAdd(EffectiveMiss(a), EffectiveMiss(b))
      <==> || a.cacheMiss.Some? || b.cacheMiss.Some?
           || (Hit(a) >= a.inputTokens && Hit(b) >= b.inputTokens)
           || (HitsWithinInput(a) && HitsWithinInput(b) && a.inputTokens + b.inputTokens <= U32_MAX)
           || Pool(a.inputTokens + b.inputTokens, Hit(a) + Hit(b)) >= U32_MAX
  {
    MergedMisses(a, b);
  }

  lemma {:induction false} SilentIsPart(legs: seq<Usage>)
    ensures Sum(legs, SilentInput) <= Sum(legs, Input)
  {
    if legs != [] {
      SilentIsPart(legs[..|legs| - 1]);
    }
  }

  /** Below the cap, hits and effective misses make up the input of the whole whenever they do for each leg,
      whichever legs report which of the two, and every order gives the same misses. */
  lemma CacheSplitIsKept(legs: seq<Usage>, shuffled: seq<Usage>)
    requires legs != [] && multiset(legs) == multiset(shuffled)
    requires forall u :: u in legs ==> Hit(u) + EffectiveMiss(u) == u.inputTokens
    requires Sum(legs, Input) <= U32_MAX
    ensures shuffled != [] && Folded(legs).Some? && Folded(shuffled).Some?
    ensures var u := Folded(legs).value; Hit(u) + EffectiveMiss(u) == u.inputTokens
    ensures EffectiveMiss(Folded(shuffled).value) == EffectiveMiss(Folded(legs).value) == Sum(legs, Miss)
  {
    hide Sum, Folded, Any, SumOpt, EffectiveMiss;
    SameElements(legs, shuffled);
    HitsAndMissesAreInput(legs);
    SumInAnyOrder(legs, shuffled, Input);
    SumInAnyOrder(legs, shuffled, Miss);
    FoldIsTotal(legs);
    SilentIsPart(legs);
    SilentIsPart(shuffled);
    MissesAddUp(legs);
    MissesAddUp(shuffled);
  }

  /** Three legs whose misses depend on their order: two silent ones that differ, and a report. */
  lemma MissesDependOnOrder()
    ensures var a := Usage(10, 0, 0, None, "", "", None, None, false, 1, 0, false);
      var b := a.(inputTokens := 0, cacheHit := Some(5));
      var c := a.(inputTokens := 0, cacheMiss := Some(0));
      && Merged(Merged(a, b), c).cacheMiss == Some(5)
      && Merged(Merged(a, c), b).cacheMiss == Some(10)
  {
  }
}
