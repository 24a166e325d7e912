/**
 What a stay costs, worked out in hours from the rows of the rules as they are listed: which rule prices it, what each
 of its rows charges, and that nothing else is charged.
 */
module ParkingStays {
  import opened Util
  import opened ParkingFee

  predicate PricesParking(r: Rule) {
    r.activity == "parking" && exists k :: 0 <= k < |r.tiers| && r.tiers[k].rate.Some?
  }

  /** Hours of a stay of `hours` that lie between the tier's bounds, which are minutes from arrival. */
  function HoursInside(t: Tier, hours: real): real {
    var from := if t.start.Some? then t.start.value / 60.0 else 0.0;
    var upTo := if t.end.Some? && t.end.value / 60.0 < hours then t.end.value / 60.0 else hours;
    if from < upTo then upTo - from else 0.0
  }

  /** Hours of a unit of time, or `None`: such a price is for the whole stay. */
  function UnitHours(unit: string): Option<real> {
    if unit == "minute" then Some(1.0 / 60.0)
    else if unit == "hour" || unit == "" then Some(1.0)
    else if unit == "day" then Some(24.0)
    else if unit == "week" then Some(168.0)
    else None
  }

  function Quotient(a: real, b: real): real
    requires b != 0.0
  {
    a / b
  }

  /** So many units at the rate, or the rate once if the stay gets into the tier at all; no more than the cap. */
  function RowPrice(t: Tier, hours: real): real {
    var inside := HoursInside(t, hours);
    if t.rate.None? || inside == 0.0 then 0.0
    else
      var price := match UnitHours(t.unit)
        case None => t.rate.value
        case Some(u) => if u == 0.0 then 0.0 else Times(t.rate.value, Quotient(inside, u));
      match t.cap
      case None => price
      case Some(cap) => if price < cap then price else cap
  }

  function RowPrices(tiers: seq<Tier>, hours: real, n: nat): real
    requires n <= |tiers|
  {
    if n == 0 then 0.0 else RowPrices(tiers, hours, n - 1) + RowPrice(tiers[n - 1], hours)
  }

  lemma PerUnit(rate: real, inside: real)
    ensures Times(Times(rate, 1.0), 60.0 * inside) == Times(rate, Quotient(inside, 1.0 / 60.0))
    ensures Times(Times(rate, 1.0 / 60.0), 60.0 * inside) == Times(rate, Quotient(inside, 1.0))
    ensures Times(Times(rate, 1.0 / 1440.0), 60.0 * inside) == Times(rate, Quotient(inside, 24.0))
    ensures Times(Times(rate, 1.0 / 10080.0), 60.0 * inside) == Times(rate, Quotient(inside, 168.0))
  {
    assert Quotient(inside, 1.0 / 60.0) == 60.0 * inside;
    assert (rate * (1.0 / 60.0)) * (60.0 * inside) == rate * ((1.0 / 60.0) * (60.0 * inside));
    assert (rate * (1.0 / 1440.0)) * (60.0 * inside) == rate * ((1.0 / 1440.0) * (60.0 * inside));
    assert (rate * (1.0 / 10080.0)) * (60.0 * inside) == rate * ((1.0 / 10080.0) * (60.0 * inside));
  }

  lemma CostInHours(t: Tier, hours: real)
    requires hours >= 0.0 && t.rate.Some?
    ensures Cost(t, 60.0 * hours) == RowPrice(t, hours)
  {
    hide Times, Quotient;
    var inside := HoursInside(t, hours);
    assert Span(t, 60.0 * hours) == 60.0 * inside;
    PerUnit(t.rate.value, inside);
  }

  lemma {:induction false} TotalAppend(a: seq<Tier>, t: Tier, minutes: real)
    ensures Total(a + [t], minutes) == Total(a, minutes) + Cost(t, minutes)
  {
    hide Cost;
    if a == [] {
      assert ([t])[1..] == [] && a + [t] == [t];
    } else {
      TotalAppend(a[1..], t, minutes);
      assert (a + [t])[1..] == a[1..] + [t];
    }
  }

  lemma {:induction false} TotalInHours(tiers: seq<Tier>, hours: real, n: nat)
    requires n <= |tiers| && hours >= 0.0
    ensures Total(Priced(tiers, n), 60.0 * hours) == RowPrices(tiers, hours, n)
    ensures Priced(tiers, n) != [] <==> exists k :: 0 <= k < n && tiers[k].rate.Some?
  {
    hide Cost, RowPrice, Total;
    if n == 0 {
      assert Total([], 60.0 * hours) == 0.0 by { NothingCharged(hours); }
    } else {
      TotalInHours(tiers, hours, n - 1);
      if tiers[n - 1].rate.Some? {
        CostInHours(tiers[n - 1], hours);
        TotalAppend(Priced(tiers, n - 1), tiers[n - 1], 60.0 * hours);
      } else {
        FreeRow(tiers[n - 1], hours);
        assert Priced(tiers, n) == Priced(tiers, n - 1);
      }
    }
  }

  lemma NothingCharged(hours: real)
    ensures Total([], 60.0 * hours) == 0.0
  {}

  lemma FreeRow(t: Tier, hours: real)
    requires t.rate.None?
    ensures RowPrice(t, hours) == 0.0
  {}

  /** The stay is priced by rule `i`, and by no rule before it. */
  predicate IsFirst(rules: seq<Rule>, i: int) {
    0 <= i < |rules| && PricesParking(rules[i]) && forall k :: 0 <= k < i ==> !PricesParking(rules[k])
  }

  lemma {:induction false} PricingIsFirst(rules: seq<Rule>, i: nat)
    requires i <= |rules| && forall k :: 0 <= k < i ==> !PricesParking(rules[k])
    ensures Pricing(rules, i).None? <==> forall k :: 0 <= k < |rules| ==> !PricesParking(rules[k])
    ensures Pricing(rules, i).Some? ==> exists k :: IsFirst(rules, k) && rules[k] == Pricing(rules, i).value
    decreases |rules| - i
  {
    if i < |rules| {
      TotalInHours(rules[i].tiers, 0.0, |rules[i].tiers|);
      if Applies(rules[i]) {
        assert IsFirst(rules, i);
      } else {
        PricingIsFirst(rules, i + 1);
      }
    }
  }

  /** What the rows of the rule charge for the stay together. No stay is shorter than none. */
  function StayPrice(r: Rule, hours: real): real {
    RowPrices(r.tiers, if hours < 0.0 then 0.0 else hours, |r.tiers|)
  }

  lemma StayInHours(r: Rule, hours: real)
    ensures Total(Priced(r.tiers, |r.tiers|), Minutes(hours)) == StayPrice(r, hours)
  {
    hide Total, Priced, RowPrices;
    TotalInHours(r.tiers, if hours < 0.0 then 0.0 else hours, |r.tiers|);
    assert Minutes(hours) == 60.0 * (if hours < 0.0 then 0.0 else hours);
  }

  /**
   There is a fee exactly when some parking rule has a row with a rate, and it is the rounded sum of what the rows of
   the first such rule charge, each for the hours of the stay inside its bounds.
   */
  lemma FeeExactly(rules: seq<Rule>, hours: real)
    ensures Fee(rules, hours).None? <==> forall i :: 0 <= i < |rules| ==> !PricesParking(rules[i])
    ensures forall i :: IsFirst(rules, i) ==> Fee(rules, hours) == Some(RoundHalfEven(StayPrice(rules[i], hours)))
  {
    hide Total, Priced, Pricing, PricesParking, StayPrice, RoundHalfEven;
    PricingIsFirst(rules, 0);
    forall i | IsFirst(rules, i) ensures Fee(rules, hours) == Some(RoundHalfEven(StayPrice(rules[i], hours))) {
      var k :| IsFirst(rules, k) && rules[k] == Pricing(rules, 0).value;
      assert k == i;
      StayInHours(rules[i], hours);
    }
  }

  /** One open row at an hourly rate costs the rate times the hours, and a stay that ends before it starts nothing. */
  lemma HourlyStay(rate: real, hours: real)
    ensures Fee([Rule("parking", [Tier(Some(rate), None, None, "hour", None)])], hours) ==
            Some(RoundHalfEven(if hours < 0.0 then 0.0 else rate * hours))
  {
    hide Fee, RoundHalfEven, StayPrice;
    var t := Tier(Some(rate), None, None, "hour", None);
    var rules := [Rule("parking", [t])];
    FeeExactly(rules, hours);
    assert rules[0] == Rule("parking", [t]) && rules[0].tiers[0].rate.Some?;
    assert IsFirst(rules, 0);
    OneRow(t, hours);
    assert Fee(rules, hours) == Some(RoundHalfEven(StayPrice(rules[0], hours)));
    assert StayPrice(rules[0], hours) == if hours < 0.0 then 0.0 else rate * hours;
  }

  lemma OneRow(t: Tier, hours: real)
    requires t == Tier(t.rate, None, None, "hour", None) && t.rate.Some?
    ensures StayPrice(Rule("parking", [t]), hours) == if hours < 0.0 then 0.0 else t.rate.value * hours
  {
    var h := if hours < 0.0 then 0.0 else hours;
    assert RowPrices([t], h, 1) == RowPrices([t], h, 0) + RowPrice(t, h);
  }
}
