/** Pricing of the crane and of the erection crews (`computeCraneCost`,
    `computeCrewCost`). Every amount is computed unrounded and rounded to
    cents once, at the end; the public price is the unrounded cost times a
    markup, rounded on its own. */
module Costing {
  import opened Text
  import opened Money
  import opened Catalog
  import Charts

  // ---------------------------------------------------------------- lookups

  /** `m?.[k] || d`: a missing entry and an entry of 0 both fall back to `d`. */
  function OrElse(m: map<string, real>, k: string, d: real): real {
    if k in m && m[k] != 0.0 then m[k] else d
  }

  /** `m?.[k] ?? d`: only a missing entry falls back to `d`. */
  function Lookup(m: map<string, real>, k: string, d: real): real {
    if k in m then m[k] else d
  }

  /** `o ?? d`. */
  function OptOr(o: Option<real>, d: real): real {
    if o.Some? then o.value else d
  }

  function Max(a: real, b: real): (m: real)
    ensures m >= a && m >= b && (m == a || m == b)
  {
    if a >= b then a else b
  }

  /** The shift surcharge on crews and on flat-rate cranes: 1.45 for a
      holiday night, 1.35 for another night, 1 by day. */
  function ShiftFactor(isNight: bool, isHolidayNight: bool): (f: real)
    ensures isHolidayNight ==> f == 1.45
    ensures !isHolidayNight && isNight ==> f == 1.35
    ensures !isHolidayNight && !isNight ==> f == 1.0
  {
    if isHolidayNight then 1.45 else if isNight then 1.35 else 1.0
  }

  // ---------------------------------------------------------------- crane

  /** `supplyCity || jobCity`: the city whose rates price the crane. */
  function ProviderCity(jobCity: string, supply: Option<string>): (city: string)
    ensures supply.Some? && supply.value != "" ==> city == supply.value
    ensures supply.None? || supply.value == "" ==> city == jobCity
  {
    if supply.Some? && supply.value != "" then supply.value else jobCity
  }

  /** `(DIST_KM[prov]?.[job] ?? 0) * 2`: the round trip, 0 when the table
      has no entry. */
  function RoundTripKm(cat: Catalog, prov: string, job: string): (km: real)
    ensures DistKm(cat, prov, job).None? ==> km == 0.0
    ensures DistKm(cat, prov, job).Some? ==> km == 2.0 * DistKm(cat, prov, job).value
  {
    match DistKm(cat, prov, job)
    case Some(d) => 2.0 * d
    case None => 0.0
  }

  /** The least number of hours billed: per class for Aguado (8 when the
      class has none), `min_hours` for the flat schemes (7 when absent). */
  function MinimumHours(rates: CityRates, cls: string): real {
    if rates.provider == Aguado then OrElse(rates.minHoursByClass, cls, 8.0)
    else OptOr(rates.minHours, 7.0)
  }

  /** `Math.max(hours, minH)`. */
  function BilledHours(rates: CityRates, cls: string, hours: real): (b: real)
    ensures b >= hours && b >= MinimumHours(rates, cls)
    ensures b == hours || b == MinimumHours(rates, cls)
  {
    Max(hours, MinimumHours(rates, cls))
  }

  /** The Aguado night surcharge: the class's `extra_pct` (0.30 when absent
      or 0) for any night shift, 0 by day. */
  function SurchargePct(rates: CityRates, cls: string, isNight: bool, isHolidayNight: bool): real {
    if isHolidayNight || isNight then OrElse(rates.extraPctByClass, cls, 0.30) else 0.0
  }

  /** The crane cost before rounding, for `km` kilometres of round trip. */
  function CraneUnrounded(rates: CityRates, cls: string, hours: real, isNight: bool,
                          isHolidayNight: bool, km: real): real
  {
    var billed := BilledHours(rates, cls, hours);
    if rates.provider == Aguado then
      OrElse(rates.hourlyByClass, cls, 0.0) * billed * (1.0 + SurchargePct(rates, cls, isNight, isHolidayNight))
      + km * OrElse(rates.kmPerKmByClass, cls, 0.0)
      + OrElse(rates.salidaByClass, cls, 0.0)
    else
      Lookup(rates.hourly, cls, 0.0) * billed * ShiftFactor(isNight, isHolidayNight)
      + km * OptOr(rates.kmPerKmDefault, 3.0)
  }

  /** A cost and the public price charged for it. */
  datatype Priced = Priced(cost: real, public: real)

  /** The unrounded cost of the crane: the rates of the supplying city
      (`supplyCity || jobCity`) and the round trip from it to the job. */
  function CraneBill(cat: Catalog, jobCity: string, cls: string, hours: real, isNight: bool,
                     isHolidayNight: bool, supply: Option<string>): real
  {
    CraneUnrounded(RatesFor(cat, ProviderCity(jobCity, supply)), cls, hours, isNight, isHolidayNight,
                   RoundTripKm(cat, ProviderCity(jobCity, supply), jobCity))
  }

  /** `computeCraneCost`: nothing is charged for a class still to be agreed;
      otherwise the cost is the bill rounded to cents, and the public price
      the bill times the markup, rounded to cents. */
  function CraneCost(cat: Catalog, markup: real, jobCity: string, cls: string, hours: real,
                     isNight: bool, isHolidayNight: bool, supply: Option<string>): (p: Priced)
    ensures IsCents(p.cost) && IsCents(p.public)
    ensures cls == Charts.NeedsReviewName ==> p == Priced(0.0, 0.0)
    ensures cls != Charts.NeedsReviewName ==>
      var u := CraneBill(cat, jobCity, cls, hours, isNight, isHolidayNight, supply);
      u - 0.005 < p.cost <= u + 0.005 && u * markup - 0.005 < p.public <= u * markup + 0.005
  {
    if cls == Charts.NeedsReviewName then IntegerIsCents(0); Priced(0.0, 0.0)
    else MarkedUp(CraneBill(cat, jobCity, cls, hours, isNight, isHolidayNight, supply), markup)
  }

  /** An unrounded cost and its price at `markup`, each rounded to cents. */
  function MarkedUp(u: real, markup: real): (p: Priced)
    ensures IsCents(p.cost) && IsCents(p.public)
    ensures u - 0.005 < p.cost <= u + 0.005 && u * markup - 0.005 < p.public <= u * markup + 0.005
  {
    Priced(Round2(u), Round2(u * markup))
  }

  /** Below the minimum the number of hours asked for does not matter: the
      minimum is billed. */
  lemma {:induction false} MinimumBilling(rates: CityRates, cls: string, h1: real, h2: real, isNight: bool,
                       isHolidayNight: bool, km: real)
    requires h1 <= MinimumHours(rates, cls) && h2 <= MinimumHours(rates, cls)
    ensures CraneUnrounded(rates, cls, h1, isNight, isHolidayNight, km) ==
            CraneUnrounded(rates, cls, h2, isNight, isHolidayNight, km)
  {
    assert BilledHours(rates, cls, h1) == BilledHours(rates, cls, h2);
  }

  /** Aguado: a night shift surcharges the hourly part only, by the class's
      percentage; kilometres and the call-out fee (salida) are not surcharged,
      and a holiday night is surcharged like any other night. */
  lemma {:induction false} AguadoNightSurcharge(rates: CityRates, cls: string, hours: real, isNight: bool,
                             isHolidayNight: bool, km: real)
    requires rates.provider == Aguado
    requires isNight || isHolidayNight
    ensures CraneUnrounded(rates, cls, hours, isNight, isHolidayNight, km) -
            CraneUnrounded(rates, cls, hours, false, false, km) ==
            OrElse(rates.hourlyByClass, cls, 0.0) * BilledHours(rates, cls, hours) *
            OrElse(rates.extraPctByClass, cls, 0.30)
    ensures CraneUnrounded(rates, cls, hours, isNight, isHolidayNight, km) ==
            CraneUnrounded(rates, cls, hours, true, false, km)
  {
    var hourly := OrElse(rates.hourlyByClass, cls, 0.0);
    var billed := BilledHours(rates, cls, hours);
    var pct := OrElse(rates.extraPctByClass, cls, 0.30);
    var rest := km * OrElse(rates.kmPerKmByClass, cls, 0.0) + OrElse(rates.salidaByClass, cls, 0.0);
    assert SurchargePct(rates, cls, isNight, isHolidayNight) == pct;
    assert SurchargePct(rates, cls, true, false) == pct;
    assert SurchargePct(rates, cls, false, false) == 0.0;
    SurchargeSplit(hourly * billed, pct, rest);
  }

  /** The surcharged hourly part minus the plain one is the surcharge. */
  lemma {:induction false} SurchargeSplit(base: real, pct: real, rest: real)
    ensures (base * (1.0 + pct) + rest) - (base * (1.0 + 0.0) + rest) == base * pct
  {
    assert base * (1.0 + pct) == base + base * pct;
  }

  /** Flat rates: the shift factor multiplies the hourly part only, and there
      is no call-out fee. */
  lemma {:induction false} FlatShift(rates: CityRates, cls: string, hours: real, isNight: bool,
                  isHolidayNight: bool, km: real)
    requires rates.provider != Aguado
    ensures CraneUnrounded(rates, cls, hours, isNight, isHolidayNight, km) -
            CraneUnrounded(rates, cls, hours, false, false, km) ==
            Lookup(rates.hourly, cls, 0.0) * BilledHours(rates, cls, hours) *
            (ShiftFactor(isNight, isHolidayNight) - 1.0)
  {
    var base := Lookup(rates.hourly, cls, 0.0) * BilledHours(rates, cls, hours);
    var f := ShiftFactor(isNight, isHolidayNight);
    assert base * f - base * 1.0 == base * (f - 1.0);
  }

  /** No rate of the record is negative. */
  predicate NonNegative(rates: CityRates, cls: string) {
    OrElse(rates.hourlyByClass, cls, 0.0) >= 0.0 && OrElse(rates.kmPerKmByClass, cls, 0.0) >= 0.0 &&
    OrElse(rates.salidaByClass, cls, 0.0) >= 0.0 && OrElse(rates.extraPctByClass, cls, 0.30) >= 0.0 &&
    Lookup(rates.hourly, cls, 0.0) >= 0.0 && OptOr(rates.kmPerKmDefault, 3.0) >= 0.0
  }

  /** With non-negative rates, hours and distance the crane costs something
      non-negative, and a markup of at least 1 never prices it below cost. */
  lemma {:induction false} CranePublicCoversCost(cat: Catalog, markup: real, jobCity: string, cls: string,
                              hours: real, isNight: bool, isHolidayNight: bool,
                              supply: Option<string>)
    requires markup >= 1.0 && hours >= 0.0
    requires NonNegative(RatesFor(cat, ProviderCity(jobCity, supply)), cls)
    requires RoundTripKm(cat, ProviderCity(jobCity, supply), jobCity) >= 0.0
    ensures var p := CraneCost(cat, markup, jobCity, cls, hours, isNight, isHolidayNight, supply);
      0.0 <= p.cost <= p.public
  {
    if cls != Charts.NeedsReviewName {
      CraneUnroundedNonNegative(RatesFor(cat, ProviderCity(jobCity, supply)), cls, hours, isNight,
                                isHolidayNight, RoundTripKm(cat, ProviderCity(jobCity, supply), jobCity));
      MarkupCovers(CraneBill(cat, jobCity, cls, hours, isNight, isHolidayNight, supply), markup);
    }
  }

  /** A markup of at least 1 never rounds a non-negative amount below itself. */
  lemma {:induction false} MarkupCovers(u: real, markup: real)
    requires u >= 0.0 && markup >= 1.0
    ensures 0.0 <= MarkedUp(u, markup).cost <= MarkedUp(u, markup).public
  {
    assert u <= u * markup by {
      assert u * markup - u == u * (markup - 1.0);
    }
    Round2NonNegative(u);
    Round2Monotone(u, u * markup);
  }

  lemma {:induction false} CraneUnroundedNonNegative(rates: CityRates, cls: string, hours: real, isNight: bool,
                                  isHolidayNight: bool, km: real)
    requires hours >= 0.0 && km >= 0.0 && NonNegative(rates, cls)
    ensures CraneUnrounded(rates, cls, hours, isNight, isHolidayNight, km) >= 0.0
  {
    if rates.provider == Aguado {
      AguadoNonNegative(rates, cls, hours, isNight, isHolidayNight, km);
    } else {
      FlatNonNegative(rates, cls, hours, isNight, isHolidayNight, km);
    }
  }

  lemma {:induction false} AguadoNonNegative(rates: CityRates, cls: string, hours: real, isNight: bool,
                                             isHolidayNight: bool, km: real)
    requires rates.provider == Aguado
    requires hours >= 0.0 && km >= 0.0 && NonNegative(rates, cls)
    ensures CraneUnrounded(rates, cls, hours, isNight, isHolidayNight, km) >= 0.0
  {
    var billed := BilledHours(rates, cls, hours);
    var pct := SurchargePct(rates, cls, isNight, isHolidayNight);
    assert billed >= 0.0 && pct >= 0.0;
    SumOfProductsNonNegative(OrElse(rates.hourlyByClass, cls, 0.0), billed, 1.0 + pct,
                             km, OrElse(rates.kmPerKmByClass, cls, 0.0), OrElse(rates.salidaByClass, cls, 0.0));
  }

  lemma {:induction false} FlatNonNegative(rates: CityRates, cls: string, hours: real, isNight: bool,
                                           isHolidayNight: bool, km: real)
    requires rates.provider != Aguado
    requires hours >= 0.0 && km >= 0.0 && NonNegative(rates, cls)
    ensures CraneUnrounded(rates, cls, hours, isNight, isHolidayNight, km) >= 0.0
  {
    var billed := BilledHours(rates, cls, hours);
    assert billed >= 0.0;
    SumOfProductsNonNegative(Lookup(rates.hourly, cls, 0.0), billed, ShiftFactor(isNight, isHolidayNight),
                             km, OptOr(rates.kmPerKmDefault, 3.0), 0.0);
  }

  /** `a × b × c + d × e + f` of non-negative terms is non-negative. */
  lemma {:induction false} SumOfProductsNonNegative(a: real, b: real, c: real, d: real, e: real, f: real)
    requires a >= 0.0 && b >= 0.0 && c >= 0.0 && d >= 0.0 && e >= 0.0 && f >= 0.0
    ensures a * b * c + d * e + f >= 0.0
    ensures a * b * c + d * e >= 0.0
  {
    assert a * b >= 0.0;
    assert a * b * c >= 0.0;
    assert d * e >= 0.0;
  }


  /** The shipped rate records have no negative rate. */
  lemma {:induction false} DefaultNonNegative(city: string, cls: string)
    ensures NonNegative(RatesFor(Default, city), cls)
  {
    var r := RatesFor(Default, city);
    if city == "Madrid" {
      assert r == AguadoMadrid;
      MadridRatesNonNegative();
    } else if city == "Valencia" {
      assert r == RigarValencia;
      ValenciaRatesNonNegative();
    } else {
      assert r == GenericCity;
      GenericRatesNonNegative();
    }
    RatesNonNegativeFor(r, cls);
  }

  /** Every entry of a rate map is non-negative. */
  predicate AllNonNegative(m: map<string, real>) {
    forall k | k in m :: m[k] >= 0.0
  }

  /** Every rate the record holds is non-negative. */
  predicate RatesNonNegative(rates: CityRates) {
    AllNonNegative(rates.hourly) && AllNonNegative(rates.hourlyByClass) &&
    AllNonNegative(rates.kmPerKmByClass) && AllNonNegative(rates.salidaByClass) &&
    AllNonNegative(rates.extraPctByClass) &&
    (rates.kmPerKmDefault.Some? ==> rates.kmPerKmDefault.value >= 0.0)
  }

  /** A record with no negative entry gives no negative rate, whatever the
      fallbacks pick. */
  lemma {:induction false} RatesNonNegativeFor(rates: CityRates, cls: string)
    requires RatesNonNegative(rates)
    ensures NonNegative(rates, cls)
  {
  }

  lemma MadridRatesNonNegative()
    ensures RatesNonNegative(AguadoMadrid)
  {
    MadridHourlyNonNegative();
    MadridKmNonNegative();
    MadridSalidaNonNegative();
    MadridExtraNonNegative();
  }

  lemma MadridHourlyNonNegative()
    ensures AllNonNegative(AguadoMadrid.hourlyByClass)
  {
  }

  lemma MadridKmNonNegative()
    ensures AllNonNegative(AguadoMadrid.kmPerKmByClass)
  {
  }

  lemma MadridSalidaNonNegative()
    ensures AllNonNegative(AguadoMadrid.salidaByClass)
  {
  }

  lemma MadridExtraNonNegative()
    ensures AllNonNegative(AguadoMadrid.extraPctByClass)
  {
  }

  lemma ValenciaRatesNonNegative()
    ensures RatesNonNegative(RigarValencia)
  {
  }

  lemma GenericRatesNonNegative()
    ensures RatesNonNegative(GenericCity)
  {
  }

  /** In the shipped distance table a city is 0 km from itself, and a city
      the table does not know has no entry: either way a crane supplied from
      the job's own city travels 0 km. */
  lemma {:induction false} DefaultNoTravel(city: string)
    ensures RoundTripKm(Default, city, city) == 0.0
  {
    if city in {"Madrid", "Valencia", "Barcelona", "Zaragoza", "Sevilla"} {
      DefaultSelfDistance(city);
    }
  }

  /** A day's 60T crane in Madrid (Aguado): 8 h at 85.50 plus the 177.30
      call-out fee is 861.30; with the 1.25 markup the public price is
      1076.625, rounded half up to 1076.63. */
  lemma {:induction false} MadridCraneExample()
    ensures CraneCost(Default, 1.25, "Madrid", "60T", 8.0, false, false, None) ==
            Priced(861.30, 1076.63)
  {
    MadridDayBill();
    MadridDayRounded();
  }

  /** 861.30 is already in cents; 1076.625 rounds half up to 1076.63. */
  lemma {:induction false} MadridDayRounded()
    ensures MarkedUp(861.30, 1.25) == Priced(861.30, 1076.63)
  {
    assert Round2(861.30) == 861.30 by {
      assert (86130.0 + 0.5).Floor == 86130;
    }
    assert Round2(861.30 * 1.25) == 1076.63 by {
      assert 861.30 * 1.25 * 100.0 + 0.5 == 107663.0;
    }
  }

  /** The unrounded bill of that day: the Madrid rates and no travel. */
  lemma {:induction false} MadridDayBill()
    ensures CraneBill(Default, "Madrid", "60T", 8.0, false, false, None) == 861.30
  {
    assert ProviderCity("Madrid", None) == "Madrid";
    assert RatesFor(Default, "Madrid") == AguadoMadrid;
    DefaultNoTravel("Madrid");
    MadridDayUnrounded();
  }

  lemma {:induction false} MadridDayUnrounded()
    ensures CraneUnrounded(AguadoMadrid, "60T", 8.0, false, false, 0.0) == 861.30
  {
    assert BilledHours(AguadoMadrid, "60T", 8.0) == 8.0;
    assert OrElse(AguadoMadrid.hourlyByClass, "60T", 0.0) == 85.50;
    assert OrElse(AguadoMadrid.salidaByClass, "60T", 0.0) == 177.30;
  }


  // ---------------------------------------------------------------- crews

  /** The cost of one crew for one day, before the shift factor. */
  const CrewDayRate: real := 1150.0

  /** What `computeCrewCost` returns, apart from its description. */
  datatype Crew = Crew(cost: real, public: real, unitPublic: real, unitQty: nat)

  /** `computeCrewCost`: `teams × days` crew-days at 1150 € times the shift
      factor; the public side applies the crew markup. */
  function CrewCost(markup: real, teams: nat, days: nat, isNight: bool, isHolidayNight: bool): (c: Crew)
    ensures c.unitQty == teams * days
    ensures IsCents(c.cost) && IsCents(c.public) && IsCents(c.unitPublic)
    ensures var exact := Times(CrewDayCost(isNight, isHolidayNight), teams * days);
      exact - 0.005 < c.cost <= exact + 0.005
    ensures var exact := Times(CrewDayCost(isNight, isHolidayNight) * markup, teams * days);
      exact - 0.005 < c.public <= exact + 0.005
    ensures var unit := CrewDayCost(isNight, isHolidayNight) * markup;
      unit - 0.005 < c.unitPublic <= unit + 0.005
  {
    CrewOf(CrewDayCost(isNight, isHolidayNight), markup, teams * days)
  }

  /** `qty` crew-days at `day` each: the cost, the public price at the
      markup, and the rounded public price of one crew-day. */
  function CrewOf(day: real, markup: real, qty: nat): (c: Crew)
    ensures c.unitQty == qty
    ensures IsCents(c.cost) && IsCents(c.public) && IsCents(c.unitPublic)
    ensures day * markup - 0.005 < c.unitPublic <= day * markup + 0.005
  {
    Crew(Round2(Times(day, qty)), Round2(Times(day * markup, qty)), Round2(day * markup), qty)
  }

  /** One crew-day at the shift's rate. */
  function CrewDayCost(isNight: bool, isHolidayNight: bool): (c: real)
    ensures c == 1150.0 || c == 1552.5 || c == 1667.5
  {
    CrewDayRate * ShiftFactor(isNight, isHolidayNight)
  }

  /** More crew-days never cost less, for any non-negative markup. */
  lemma {:induction false} CrewMonotone(markup: real, t1: nat, d1: nat, t2: nat, d2: nat, isNight: bool, isHolidayNight: bool)
    requires markup >= 0.0
    requires t1 * d1 <= t2 * d2
    ensures CrewCost(markup, t1, d1, isNight, isHolidayNight).cost <=
            CrewCost(markup, t2, d2, isNight, isHolidayNight).cost
    ensures CrewCost(markup, t1, d1, isNight, isHolidayNight).public <=
            CrewCost(markup, t2, d2, isNight, isHolidayNight).public
  {
    CrewOfQuantity(CrewDayCost(isNight, isHolidayNight), markup, t1 * d1, t2 * d2);
  }

  lemma {:induction false} CrewOfQuantity(day: real, markup: real, q1: nat, q2: nat)
    requires day >= 0.0 && markup >= 0.0 && q1 <= q2
    ensures CrewOf(day, markup, q1).cost <= CrewOf(day, markup, q2).cost
    ensures CrewOf(day, markup, q1).public <= CrewOf(day, markup, q2).public
  {
    assert Times(day, q1) <= Times(day, q2);
    assert day * markup >= 0.0;
    assert Times(day * markup, q1) <= Times(day * markup, q2);
    Round2Monotone(Times(day, q1), Times(day, q2));
    Round2Monotone(Times(day * markup, q1), Times(day * markup, q2));
  }

  /** Night work costs at least day work, and a holiday night at least a
      night. */
  lemma {:induction false} CrewShiftOrder(markup: real, teams: nat, days: nat)
    requires markup >= 0.0
    ensures CrewCost(markup, teams, days, false, false).cost <= CrewCost(markup, teams, days, true, false).cost
    ensures CrewCost(markup, teams, days, true, false).cost <= CrewCost(markup, teams, days, true, true).cost
    ensures CrewCost(markup, teams, days, false, false).public <= CrewCost(markup, teams, days, true, false).public
    ensures CrewCost(markup, teams, days, true, false).public <= CrewCost(markup, teams, days, true, true).public
  {
    CrewOfRate(CrewDayCost(false, false), CrewDayCost(true, false), markup, teams * days);
    CrewOfRate(CrewDayCost(true, false), CrewDayCost(true, true), markup, teams * days);
  }

  lemma {:induction false} CrewOfRate(lo: real, hi: real, markup: real, qty: nat)
    requires lo <= hi && markup >= 0.0
    ensures CrewOf(lo, markup, qty).cost <= CrewOf(hi, markup, qty).cost
    ensures CrewOf(lo, markup, qty).public <= CrewOf(hi, markup, qty).public
  {
    TimesMonotone(lo, hi, qty);
    assert lo * markup <= hi * markup;
    TimesMonotone(lo * markup, hi * markup, qty);
    Round2Monotone(Times(lo, qty), Times(hi, qty));
    Round2Monotone(Times(lo * markup, qty), Times(hi * markup, qty));
  }

  /** A markup of at least 1 never prices the crews below cost. */
  lemma {:induction false} CrewPublicCoversCost(markup: real, teams: nat, days: nat, isNight: bool, isHolidayNight: bool)
    requires markup >= 1.0
    ensures CrewCost(markup, teams, days, isNight, isHolidayNight).cost <=
            CrewCost(markup, teams, days, isNight, isHolidayNight).public
  {
    CrewOfMarkup(CrewDayCost(isNight, isHolidayNight), markup, teams * days);
  }

  lemma {:induction false} CrewOfMarkup(day: real, markup: real, qty: nat)
    requires markup >= 1.0 && day >= 0.0
    ensures CrewOf(day, markup, qty).cost <= CrewOf(day, markup, qty).public
  {
    assert day <= day * markup;
    TimesMonotone(day, day * markup, qty);
    Round2Monotone(Times(day, qty), Times(day * markup, qty));
  }
}
