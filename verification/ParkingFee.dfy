/** What a stay costs under the rates of a curb rule: tiers by minutes since arrival, each with its own cap. */
module ParkingFee {
  import opened Util

  datatype Tier = Tier(rate: Option<real>, start: Option<real>, end: Option<real>, unit: string, cap: Option<real>)

  datatype Rule = Rule(activity: string, tiers: seq<Tier>)

  // ---- one tier ----

  /** The part of an hourly, daily or weekly rate a minute costs; a missing unit is an hour. `None` for other units. */
  function PerMinute(unit: string): Option<real> {
    if unit == "minute" then Some(1.0)
    else if unit == "" || unit == "hour" then Some(1.0 / 60.0)
    else if unit == "day" then Some(1.0 / 1440.0)
    else if unit == "week" then Some(1.0 / 10080.0)
    else None
  }

  function Lo(t: Tier): real {
    if t.start.Some? then t.start.value else 0.0
  }

  function RateOf(t: Tier): real {
    if t.rate.Some? then t.rate.value else 0.0
  }

  /** The minutes of the stay the tier charges for. */
  function Span(t: Tier, minutes: real): (s: real)
    ensures s >= 0.0
  {
    var hi := if t.end.Some? && t.end.value < minutes then t.end.value else minutes;
    if hi - Lo(t) < 0.0 then 0.0 else hi - Lo(t)
  }

  function Times(a: real, b: real): real {
    a * b
  }

  /** Time-based rates scale with the span, others are charged once. */
  function Uncapped(t: Tier, span: real): real {
    var per := PerMinute(t.unit);
    if per.None? then RateOf(t) else Times(Times(RateOf(t), per.value), span)
  }

  function Cost(t: Tier, minutes: real): real {
    var span := Span(t, minutes);
    if span <= 0.0 then 0.0
    else
      var cost := Uncapped(t, span);
      if t.cap.Some? && t.cap.value < cost then t.cap.value else cost
  }

  // ---- the fee ----

  function Total(tiers: seq<Tier>, minutes: real): real {
    if tiers == [] then 0.0 else Cost(tiers[0], minutes) + Total(tiers[1..], minutes)
  }

  function Priced(tiers: seq<Tier>, n: nat): (r: seq<Tier>)
    requires n <= |tiers|
    ensures forall t :: t in r ==> t in tiers && t.rate.Some?
  {
    if n == 0 then [] else Priced(tiers, n - 1) + if tiers[n - 1].rate.Some? then [tiers[n - 1]] else []
  }

  predicate Applies(r: Rule) {
    r.activity == "parking" && Priced(r.tiers, |r.tiers|) != []
  }

  /** The first rule that prices parking. */
  function Pricing(rules: seq<Rule>, i: nat): Option<Rule>
    requires i <= |rules|
    decreases |rules| - i
  {
    if i == |rules| then None else if Applies(rules[i]) then Some(rules[i]) else Pricing(rules, i + 1)
  }

  function Minutes(hours: real): (m: real)
    ensures m >= 0.0
  {
    if hours * 60.0 < 0.0 then 0.0 else hours * 60.0
  }

  /** The fee, in whole units; the order the tiers are listed in does not matter. */
  function Fee(rules: seq<Rule>, hours: real): Option<int> {
    var r := Pricing(rules, 0);
    if r.None? then None else Some(RoundHalfEven(Total(Priced(r.value.tiers, |r.value.tiers|), Minutes(hours))))
  }

  // ---- longer stays ----

  predicate NonNegative(t: Tier) {
    RateOf(t) >= 0.0 && (t.cap.Some? ==> t.cap.value >= 0.0)
  }

  lemma TimesGrows(a: real, b: real, c: real)
    requires a >= 0.0 && 0.0 <= b <= c
    ensures 0.0 <= Times(a, b) <= Times(a, c)
  {
    assert a * c == a * b + a * (c - b);
  }

  lemma CostGrows(t: Tier, a: real, b: real)
    requires NonNegative(t) && a <= b
    ensures 0.0 <= Cost(t, a) <= Cost(t, b)
  {
    hide Times;
    var per := PerMinute(t.unit);
    if per.Some? {
      TimesGrows(RateOf(t), 0.0, per.value);
      TimesGrows(Times(RateOf(t), per.value), 0.0, Span(t, a));
      TimesGrows(Times(RateOf(t), per.value), Span(t, a), Span(t, b));
    }
  }

  lemma {:induction false} TotalGrows(tiers: seq<Tier>, a: real, b: real)
    requires (forall t :: t in tiers ==> NonNegative(t)) && a <= b
    ensures 0.0 <= Total(tiers, a) <= Total(tiers, b)
  {
    hide Cost, NonNegative;
    if tiers != [] {
      CostGrows(tiers[0], a, b);
      TotalGrows(tiers[1..], a, b);
    }
  }

  lemma RoundGrows(a: real, b: real)
    requires a <= b
    ensures RoundHalfEven(a) <= RoundHalfEven(b)
  {}

  predicate NonNegativeRates(rules: seq<Rule>) {
    forall r :: r in rules ==> forall t :: t in r.tiers ==> NonNegative(t)
  }

  lemma {:induction false} PricingIsRule(rules: seq<Rule>, i: nat)
    requires i <= |rules|
    ensures Pricing(rules, i).Some? ==> Pricing(rules, i).value in rules
    decreases |rules| - i
  {
    if i < |rules| {
      PricingIsRule(rules, i + 1);
    }
  }

  /** With rates and caps that are not negative, a longer stay never costs less, and no stay less than nothing. */
  lemma FeeGrows(rules: seq<Rule>, a: real, b: real)
    requires NonNegativeRates(rules) && a <= b
    ensures Fee(rules, a).Some? == Fee(rules, b).Some?
    ensures Fee(rules, a).Some? ==> 0 <= Fee(rules, a).value <= Fee(rules, b).value
  {
    hide Total, NonNegative, Priced;
    PricingIsRule(rules, 0);
    var r := Pricing(rules, 0);
    if r.Some? {
      var tiers := Priced(r.value.tiers, |r.value.tiers|);
      TotalGrows(tiers, Minutes(a), Minutes(b));
      RoundGrows(0.0, Total(tiers, Minutes(a)));
      RoundGrows(Total(tiers, Minutes(a)), Total(tiers, Minutes(b)));
    }
  }

  function Caps(tiers: seq<Tier>): real {
    if tiers == [] then 0.0 else (if tiers[0].cap.Some? then tiers[0].cap.value else 0.0) + Caps(tiers[1..])
  }

  lemma {:induction false} TotalCapped(tiers: seq<Tier>, minutes: real)
    requires forall t :: t in tiers ==> t.cap.Some? && NonNegative(t)
    ensures Total(tiers, minutes) <= Caps(tiers)
  {
    hide Uncapped, Span;
    if tiers != [] {
      TotalCapped(tiers[1..], minutes);
    }
  }

  /** Where every priced tier has a cap, no stay costs more than the caps together, rounded. */
  lemma FeeCapped(rules: seq<Rule>, hours: real)
    requires NonNegativeRates(rules) && Fee(rules, hours).Some?
    requires forall t :: t in Priced(Pricing(rules, 0).value.tiers, |Pricing(rules, 0).value.tiers|) ==> t.cap.Some?
    ensures var tiers := Pricing(rules, 0).value.tiers;
            Fee(rules, hours).value <= RoundHalfEven(Caps(Priced(tiers, |tiers|)))
  {
    hide Total, NonNegative, Priced, Caps;
    PricingIsRule(rules, 0);
    var r := Pricing(rules, 0).value;
    var tiers := Priced(r.tiers, |r.tiers|);
    TotalCapped(tiers, Minutes(hours));
    RoundGrows(Total(tiers, Minutes(hours)), Caps(tiers));
  }

  // ---- between two moments ----

  /** A tier by time and without a cap. */
  predicate Timed(t: Tier) {
    PerMinute(t.unit).Some? && t.cap.None?
  }

  function PricePerMinute(t: Tier): real
    requires Timed(t)
  {
    Times(RateOf(t), PerMinute(t.unit).value)
  }

  /** The minutes between two moments of the stay that fall into the tier. */
  function Overlap(t: Tier, a: real, b: real): real {
    var lo := if Lo(t) < a then a else Lo(t);
    var hi := if t.end.Some? && t.end.value < b then t.end.value else b;
    if hi < lo then 0.0 else hi - lo
  }

  function Charge(tiers: seq<Tier>, a: real, b: real): real
    requires forall t :: t in tiers ==> Timed(t)
  {
    if tiers == [] then 0.0 else Times(PricePerMinute(tiers[0]), Overlap(tiers[0], a, b)) + Charge(tiers[1..], a, b)
  }

  lemma SpanBetween(t: Tier, a: real, b: real)
    requires a <= b
    ensures Span(t, b) == Span(t, a) + Overlap(t, a, b)
  {}

  lemma CostBetween(t: Tier, a: real, b: real)
    requires Timed(t) && a <= b
    ensures Cost(t, b) == Cost(t, a) + Times(PricePerMinute(t), Overlap(t, a, b))
  {
    hide Overlap, PerMinute, Times;
    SpanBetween(t, a, b);
    TimesAdds(PricePerMinute(t), Span(t, a), Overlap(t, a, b));
  }

  /**
   Uncapped tiers by time charge, from one moment to any later one, the price of each tier for the time spent in it.
   */
  lemma {:induction false} TotalBetween(tiers: seq<Tier>, a: real, b: real)
    requires (forall t :: t in tiers ==> Timed(t)) && a <= b
    ensures Total(tiers, b) == Total(tiers, a) + Charge(tiers, a, b)
  {
    hide Cost, Timed, Overlap, PricePerMinute, Times;
    if tiers != [] {
      CostBetween(tiers[0], a, b);
      TotalBetween(tiers[1..], a, b);
    }
  }

  // ---- minute by minute ----

  /** A tier by time and without a cap, with whole-minute bounds that are not negative. */
  predicate Metered(t: Tier) {
    && PerMinute(t.unit).Some? && t.cap.None?
    && Lo(t) >= 0.0 && Lo(t) == Lo(t).Floor as real
    && (t.end.Some? ==> t.end.value == t.end.value.Floor as real)
  }

  /** What the `k`-th minute of the stay costs in this tier. */
  function MinutePrice(t: Tier, k: nat): real
    requires Metered(t)
  {
    if Lo(t) <= k as real && (t.end.Some? ==> (k as real) < t.end.value) then Times(RateOf(t), PerMinute(t.unit).value)
    else 0.0
  }

  function MinutePrices(tiers: seq<Tier>, k: nat): real
    requires forall t :: t in tiers ==> Metered(t)
  {
    if tiers == [] then 0.0 else MinutePrice(tiers[0], k) + MinutePrices(tiers[1..], k)
  }

  /** Adding up the prices of the first `n` minutes. */
  function MeterTotal(tiers: seq<Tier>, n: nat): real
    requires forall t :: t in tiers ==> Metered(t)
  {
    if n == 0 then 0.0 else MeterTotal(tiers, n - 1) + MinutePrices(tiers, n - 1)
  }

  lemma SpanNext(t: Tier, k: nat)
    requires Metered(t)
    ensures Span(t, 0.0) == 0.0
    ensures Span(t, (k + 1) as real) == Span(t, k as real) +
            if Lo(t) <= k as real && (t.end.Some? ==> (k as real) < t.end.value) then 1.0 else 0.0
  {
    hide PerMinute;
    var lo := Lo(t).Floor;
    assert lo <= k || k + 1 <= lo;
    if t.end.Some? {
      var hi := t.end.value.Floor;
      assert hi <= k || k + 1 <= hi;
    }
  }

  lemma CostNext(t: Tier, k: nat)
    requires Metered(t)
    ensures Cost(t, 0.0) == 0.0
    ensures Cost(t, (k + 1) as real) == Cost(t, k as real) + MinutePrice(t, k)
  {
    hide Span;
    SpanNext(t, k);
    var price := Times(RateOf(t), PerMinute(t.unit).value);
    assert Times(price, Span(t, k as real) + 1.0) == Times(price, Span(t, k as real)) + price;
    assert Times(price, 0.0) == 0.0;
  }

  lemma {:induction false} TotalNext(tiers: seq<Tier>, k: nat)
    requires forall t :: t in tiers ==> Metered(t)
    ensures Total(tiers, 0.0) == 0.0
    ensures Total(tiers, (k + 1) as real) == Total(tiers, k as real) + MinutePrices(tiers, k)
  {
    hide Cost, MinutePrice, Metered;
    if tiers != [] {
      CostNext(tiers[0], k);
      TotalNext(tiers[1..], k);
    }
  }

  /** Uncapped tiers by time charge exactly what a meter adding up each minute's price would. */
  lemma {:induction false} TotalIsMetered(tiers: seq<Tier>, n: nat)
    requires forall t :: t in tiers ==> Metered(t)
    ensures Total(tiers, n as real) == MeterTotal(tiers, n)
  {
    hide Total, MinutePrices, Metered;
    if n == 0 {
      TotalNext(tiers, 0);
    } else {
      TotalIsMetered(tiers, n - 1);
      TotalNext(tiers, n - 1);
    }
  }

  /** From `start` on, tier after tier without a gap, the last one open-ended, all at one time-based rate. */
  predicate Chain(tiers: seq<Tier>, start: real, rate: real, unit: string) {
    tiers != [] && Lo(tiers[0]) == start && tiers[0].rate == Some(rate) && tiers[0].unit == unit &&
    tiers[0].cap.None? &&
    if |tiers| == 1 then tiers[0].end.None?
    else tiers[0].end.Some? && tiers[0].end.value >= start && Chain(tiers[1..], tiers[0].end.value, rate, unit)
  }

  /** Cutting a flat rate into tiers changes nothing. */
  lemma {:induction false} TiersOfOneRate(tiers: seq<Tier>, start: real, rate: real, unit: string, minutes: real)
    requires Chain(tiers, start, rate, unit) && PerMinute(unit).Some?
    ensures Total(tiers, minutes) == Cost(Tier(Some(rate), Some(start), None, unit, None), minutes)
  {
    hide Times, PerMinute;
    var whole := Tier(Some(rate), Some(start), None, unit, None);
    if |tiers| > 1 {
      var cut := tiers[0].end.value;
      TiersOfOneRate(tiers[1..], cut, rate, unit, minutes);
      var later := Tier(Some(rate), Some(cut), None, unit, None);
      var price := Times(rate, PerMinute(unit).value);
      assert Span(tiers[0], minutes) + Span(later, minutes) == Span(whole, minutes);
      TimesAdds(price, Span(tiers[0], minutes), Span(later, minutes));
    } else {
      assert Total(tiers[1..], minutes) == 0.0;
    }
  }

  /**
   One minute, hour, day or week at a rate per minute, hour, day or week costs the rate; a missing unit is an hour.
   */
  lemma UnitPrices(rate: real)
    ensures Cost(Tier(Some(rate), None, None, "minute", None), 1.0) == rate
    ensures Cost(Tier(Some(rate), None, None, "hour", None), 60.0) == rate
    ensures Cost(Tier(Some(rate), None, None, "", None), 60.0) == rate
    ensures Cost(Tier(Some(rate), None, None, "day", None), 1440.0) == rate
    ensures Cost(Tier(Some(rate), None, None, "week", None), 10080.0) == rate
  {
    UnitPrice(rate, 1.0);
    UnitPrice(rate, 60.0);
    UnitPrice(rate, 1440.0);
    UnitPrice(rate, 10080.0);
  }

  lemma UnitPrice(rate: real, minutes: real)
    requires minutes > 0.0
    ensures Times(Times(rate, 1.0 / minutes), minutes) == rate
  {
    assert rate * (1.0 / minutes) * minutes == rate * (1.0 / minutes * minutes);
  }

  lemma TimesAdds(a: real, b: real, c: real)
    ensures Times(a, b) + Times(a, c) == Times(a, b + c)
    ensures Times(a, 0.0) == 0.0
  {}

  // ---- the loop as it is written ----

  function ByStart(tiers: seq<Tier>): seq<Tier> {
    SortBy(tiers, (a, b) => Lo(a) <= Lo(b))
  }

  lemma {:induction false} TotalInsert(t: Tier, tiers: seq<Tier>, le: (Tier, Tier) -> bool, minutes: real)
    ensures Total(InsertBy(t, tiers, le), minutes) == Cost(t, minutes) + Total(tiers, minutes)
  {
    hide Cost;
    if tiers != [] && !le(t, tiers[0]) {
      TotalInsert(t, tiers[1..], le, minutes);
      assert InsertBy(t, tiers, le)[1..] == InsertBy(t, tiers[1..], le);
    } else {
      assert ([t] + tiers)[1..] == tiers;
    }
  }

  lemma {:induction false} TotalSorted(tiers: seq<Tier>, le: (Tier, Tier) -> bool, minutes: real)
    ensures Total(SortBy(tiers, le), minutes) == Total(tiers, minutes)
  {
    hide Cost;
    if tiers != [] {
      TotalSorted(tiers[1..], le, minutes);
      TotalInsert(tiers[0], SortBy(tiers[1..], le), le, minutes);
    }
  }

  method SumTiers(tiers: seq<Tier>, minutes: real) returns (total: real)
    ensures total == Total(tiers, minutes)
  {
    hide Uncapped, Span;
    total := 0.0;
    for n := 0 to |tiers|
      invariant total + Total(tiers[n..], minutes) == Total(tiers, minutes)
    {
      assert tiers[n..][1..] == tiers[n + 1..];
      var t := tiers[n];
      var span := Span(t, minutes);
      if span <= 0.0 {
        continue;
      }
      var cost := Uncapped(t, span);
      if t.cap.Some? && t.cap.value < cost {
        cost := t.cap.value;
      }
      total := total + cost;
    }
  }

  method ComputeFee(rules: seq<Rule>, hours: real) returns (fee: Option<int>)
    ensures fee == Fee(rules, hours)
  {
    hide Total, Priced, ByStart;
    var minutes := Minutes(hours);
    for i := 0 to |rules|
      invariant Pricing(rules, i) == Pricing(rules, 0)
    {
      var rates := Priced(rules[i].tiers, |rules[i].tiers|);
      if rates == [] || rules[i].activity != "parking" {
        continue;
      }
      var total := SumTiers(ByStart(rates), minutes);
      SortedTotal(rates, minutes);
      return Some(RoundHalfEven(total));
    }
    return None;
  }

  lemma SortedTotal(tiers: seq<Tier>, minutes: real)
    ensures Total(ByStart(tiers), minutes) == Total(tiers, minutes)
  {
    TotalSorted(tiers, (a, b) => Lo(a) <= Lo(b), minutes);
  }
}
