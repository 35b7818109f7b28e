/** The quotation controller (`POST` of the quotation route, up to the public
    line items): it reads the request fields, derives the number of teams and
    days and the shift from free text, chooses the crane class and the
    supplying city, prices crane, crews and transport coordination, and
    totals both the cost basis and the public price with 21 % VAT. */
module Quotation {
  import opened Text
  import opened Money
  import opened Catalog
  import opened Costing
  import Charts

  // ------------------------------------------------------------- request

  /** The request fields the price depends on; a text field the body lacks is `None`. */
  datatype Body = Body(
    ciudad: Option<string>,
    pesoMaxT: real,
    radioMaxM: real,
    jornadas: Option<string>,
    gruaPrevista: Option<string>,
    trabajoNoche: Option<string>)

  /** `(x ?? d).toString()` on a text field. */
  function TextOr(o: Option<string>, d: string): string {
    match o
    case Some(s) => s
    case None => d
  }

  // ------------------------------------------------------------- teams

  /** The rest of the text after position `j` reads, after any blanks and
      ignoring case, "equip". */
  predicate EquipAfter(s: string, j: nat)
    requires j <= |s|
  {
    StartsWith(ToLower(TrimLeft(s[j..])), "equip")
  }

  /** `/(^|\s)([123])\s*equip/i` matches with its digit at position `d`. */
  predicate TeamsAt(s: string, d: int) {
    0 <= d < |s| && (d == 0 || IsSpace(s[d - 1])) && '1' <= s[d] <= '3' && EquipAfter(s, d + 1)
  }

  /** The least position in `[from, to)` where `p` holds, if any: where a
      regular expression's leftmost match starts. */
  function FirstWhere(p: nat -> bool, from: nat, to: nat): (d: Option<nat>)
    requires from <= to
    ensures d.Some? ==> from <= d.value < to && p(d.value)
    ensures d.Some? ==> (forall k: nat :: from <= k < d.value ==> !p(k))
    ensures d.None? ==> (forall k: nat :: from <= k < to ==> !p(k))
    decreases (to as int) - from
  {
    if from == to then None
    else if p(from) then Some(from)
    else FirstWhere(p, from + 1, to)
  }

  /** The positions where the teams pattern matches, as a test. */
  function TeamsMatch(s: string): nat -> bool {
    (k: nat) => TeamsAt(s, k)
  }

  /** `equiposN`: the digit of the leftmost "N equip" (N one of 1, 2, 3), or 1. */
  function Teams(s: string): (n: nat)
    ensures 1 <= n <= 3
  {
    match FirstWhere(TeamsMatch(s), 0, |s|)
    case Some(d) => DigitValue(s[d])
    case None => 1
  }

  /** With no "N equip" in the text there is one team. */
  lemma {:induction false} TeamsDefault(s: string)
    requires forall k :: 0 <= k < |s| ==> !TeamsAt(s, k)
    ensures Teams(s) == 1
  {
    var r := FirstWhere(TeamsMatch(s), 0, |s|);
    if r.Some? {
      assert false;
    }
  }

  /** Otherwise the leftmost match gives the number of teams. */
  lemma {:induction false} TeamsLeftmost(s: string, d: nat)
    requires TeamsAt(s, d) && forall k :: 0 <= k < d ==> !TeamsAt(s, k)
    ensures Teams(s) == DigitValue(s[d])
  {
    var r := FirstWhere(TeamsMatch(s), 0, |s|);
    assert TeamsMatch(s)(d);
    assert r.Some? && r.value == d;
  }

  /** `jornadasN`: the first run of digits, at least 1, or 1 when there is none. */
  function Days(s: string): (n: nat)
    ensures n >= 1
    ensures DigitRuns(s) == [] ==> n == 1
    ensures DigitRuns(s) != [] ==> n == if DigitRuns(s)[0] >= 1 then DigitRuns(s)[0] else 1
  {
    match FirstDigitRun(s)
    case Some(v) => if v >= 1 then v else 1
    case None => 1
  }

  // ------------------------------------------------------------- shift

  /** The shift text mentions `w`, ignoring case. */
  predicate Mentions(t: string, w: string) {
    Contains(ToLower(t), w)
  }

  /** `isNight`: a night shift that is not a holiday one. */
  predicate IsNight(t: string) {
    Mentions(t, "nocturna") && !Mentions(t, "festivo")
  }

  /** `isHolidayNight`: a night shift on a holiday or at the week-end. */
  predicate IsHolidayNight(t: string) {
    Mentions(t, "nocturna") && (Mentions(t, "festivo") || Mentions(t, "fin"))
  }

  /** The shift factor crews and flat-rate cranes are charged with follows
      the words of the shift text: 1.45 for a holiday or week-end night, 1.35
      for any other night, 1 for day work. */
  lemma {:induction false} ShiftFactorOfText(t: string)
    ensures !Mentions(t, "nocturna") ==> ShiftFactor(IsNight(t), IsHolidayNight(t)) == 1.0
    ensures Mentions(t, "nocturna") && (Mentions(t, "festivo") || Mentions(t, "fin")) ==>
              ShiftFactor(IsNight(t), IsHolidayNight(t)) == 1.45
    ensures Mentions(t, "nocturna") && !Mentions(t, "festivo") && !Mentions(t, "fin") ==>
              ShiftFactor(IsNight(t), IsHolidayNight(t)) == 1.35
  {
  }

  /** A night shift is at most one of the two kinds, except "nocturna ... fin"
      without "festivo", which is both and is charged as a holiday night. */
  lemma {:induction false} ShiftKinds(t: string)
    ensures IsNight(t) && IsHolidayNight(t) <==>
              Mentions(t, "nocturna") && !Mentions(t, "festivo") && Mentions(t, "fin")
    ensures IsNight(t) || IsHolidayNight(t) <==> Mentions(t, "nocturna")
  {
  }

  // ------------------------------------------------------------- class

  /** The label the form sends when the class is left to the technician. */
  const UndecidedLabel: string := "A convenir con t\U{E9}cnico"

  /** `requestedClass`: the class the client names, unless none is named or
      it is left to the technician; then the one the charts recommend. */
  function RequestedClass(prevista: string, weightT: real, radiusM: real): string {
    if prevista != "" && prevista != UndecidedLabel then prevista
    else Charts.ChoiceName(Charts.Recommended(weightT, radiusM))
  }

  /** When the class is left open, the requested class is the smallest one
      whose chart lifts the load with its margin, or "A CONVENIR" exactly when
      no chart does. */
  lemma {:induction false} RequestedFromCharts(prevista: string, weightT: real, radiusM: real)
    requires prevista == "" || prevista == UndecidedLabel
    ensures RequestedClass(prevista, weightT, radiusM) == Charts.NeedsReviewName <==>
              forall c :: Charts.CapacityAt(c, radiusM) < Charts.Required(weightT)
    ensures RequestedClass(prevista, weightT, radiusM) != Charts.NeedsReviewName ==>
              exists c :: Charts.Name(c) == RequestedClass(prevista, weightT, radiusM)
                && Charts.CapacityAt(c, radiusM) >= Charts.Required(weightT)
                && forall c' :: Charts.Rank(c') < Charts.Rank(c) ==>
                     Charts.CapacityAt(c', radiusM) < Charts.Required(weightT)
  {
    Charts.RecommendedIsMinimal(weightT, radiusM);
    match Charts.Recommended(weightT, radiusM)
    case Class(c) =>
      assert Charts.Name(c) == RequestedClass(prevista, weightT, radiusM);
      assert Charts.Name(c) != Charts.NeedsReviewName by {
        assert |Charts.Name(c)| <= 4 < |Charts.NeedsReviewName|;
      }
    case NeedsReview =>
  }

  // ------------------------------------------------------------- money

  /** The three markups (`MARKUP_CREW`, `MARKUP_CRANE`, `MARKUP_MISC`). */
  datatype Markups = Markups(crew: real, crane: real, misc: real)

  /** The markups when the environment does not set them. */
  const DefaultMarkups: Markups := Markups(1.2, 1.25, 1.15)

  /** The fixed cost of transport coordination. */
  const TransportCost: real := 450.0

  /** Transport coordination at the miscellaneous markup, rounded to cents. */
  function TransportPublic(misc: real): (p: real)
    ensures IsCents(p)
    ensures TransportCost * misc - 0.005 < p <= TransportCost * misc + 0.005
  {
    Round2(TransportCost * misc)
  }

  datatype Totals = Totals(subtotal: real, vat: real, total: real)

  /** The subtotal of `sum` rounded to cents, 21 % VAT on it rounded to cents,
      and their total. */
  function TotalsOf(sum: real): (t: Totals)
    ensures IsCents(t.subtotal) && IsCents(t.vat) && IsCents(t.total)
    ensures sum - 0.005 < t.subtotal <= sum + 0.005
    ensures t.subtotal * 0.21 - 0.005 < t.vat <= t.subtotal * 0.21 + 0.005
    ensures t.total == t.subtotal + t.vat
    ensures IsCents(sum) ==> t.subtotal == sum
  {
    var sub := Round2(sum);
    var vat := Round2(sub * 0.21);
    CentsSum(sub, vat);
    Round2OfCents(sub + vat);
    Round2Fixes(sum);
    Totals(sub, vat, Round2(sub + vat))
  }

  /** The VAT is 21 % of the subtotal to within half a cent, so the total is
      within half a cent of 1.21 times the subtotal. */
  lemma {:induction false} TotalNearGross(sum: real)
    ensures var t := TotalsOf(sum);
      t.subtotal * 1.21 - 0.005 < t.total <= t.subtotal * 1.21 + 0.005
  {
  }

  // ------------------------------------------------------------- rows

  /** A public line item (`PublicRow`), without its free-text description. */
  datatype Row = Row(code: string, item: string, unit: string, quantity: real, unitPrice: real, amount: real)

  /** The amount of the crew row: the rounded unit price times the crew-days, rounded again. */
  function CrewRowAmount(c: Crew): real {
    RowAmount(c.unitPublic, c.unitQty)
  }

  /** A unit price times a quantity, rounded to cents. */
  function RowAmount(unitPrice: real, qty: nat): real {
    Round2(Times(unitPrice, qty))
  }

  /** The three public line items, in this order: crews, crane, transport. */
  function Rows(cls: string, crew: Crew, crane: Priced, transport: real): (rows: seq<Row>)
    ensures |rows| == 3
    ensures rows[0].code == "01" && rows[1].code == "02" && rows[2].code == "03"
  {
    [Row("01", "Cuadrillas de montaje", "jornada", crew.unitQty as real, crew.unitPublic, CrewRowAmount(crew)),
     Row("02", "Gr\U{FA}a " + cls, "lote", 1.0, crane.public, crane.public),
     Row("03", "Coordinaci\U{F3}n de transporte", "lote", 1.0, transport, transport)]
  }

  // ------------------------------------------------------------- quote

  /** What the controller reads from the body before pricing. */
  datatype Request = Request(
    city: string,
    teams: nat,
    days: nat,
    isNight: bool,
    isHolidayNight: bool,
    requestedClass: string)

  /** The controller's reading of the body, with its defaults: no city,
      "1 diurna" for the days, no class and "Diurna" for the shift. */
  function ParseBody(body: Body): (r: Request)
    ensures r.city == NormalizeCity(TextOr(body.ciudad, ""))
    ensures 1 <= r.teams <= 3 && r.days >= 1
    ensures r.requestedClass == RequestedClass(TextOr(body.gruaPrevista, ""), body.pesoMaxT, body.radioMaxM)
  {
    var jornadas := TextOr(body.jornadas, "1 diurna");
    var shift := TextOr(body.trabajoNoche, "Diurna");
    Request(NormalizeCity(TextOr(body.ciudad, "")), Teams(jornadas), Days(jornadas),
            IsNight(shift), IsHolidayNight(shift),
            RequestedClass(TextOr(body.gruaPrevista, ""), body.pesoMaxT, body.radioMaxM))
  }

  datatype Quote = Quote(
    request: Request,
    supply: Pick,
    crane: Priced,
    crew: Crew,
    transport: real,
    cost: Totals,
    public: Totals,
    rows: seq<Row>)

  /** The crane bill's supply argument: none when the class is local. */
  function SupplyArg(p: Pick): Option<string> {
    if p.availableHere then None else Some(p.city)
  }

  /** The priced quote for a parsed request: the crane for `8 × days` hours
      from the chosen city, `teams × days` crew-days, transport coordination,
      and the two sets of totals. Every subtotal is the exact sum of its parts,
      since each part is already in cents. */
  function Price(cat: Catalog, mk: Markups, r: Request): (q: Quote)
    requires Valid(cat)
    ensures q.request == r
    ensures q.supply == PickCity(cat, r.city, r.requestedClass)
    ensures q.crane == CraneCost(cat, mk.crane, r.city, r.requestedClass, 8.0 * (r.days as real),
                                 r.isNight, r.isHolidayNight, SupplyArg(q.supply))
    ensures q.crew == CrewCost(mk.crew, r.teams, r.days, r.isNight, r.isHolidayNight)
    ensures q.transport == TransportPublic(mk.misc)
    ensures q == Assemble(r, q.supply, q.crane, q.crew, q.transport)
  {
    var pick := PickCity(cat, r.city, r.requestedClass);
    var crane := CraneCost(cat, mk.crane, r.city, r.requestedClass, 8.0 * (r.days as real),
                           r.isNight, r.isHolidayNight, SupplyArg(pick));
    var crew := CrewCost(mk.crew, r.teams, r.days, r.isNight, r.isHolidayNight);
    var transport := TransportPublic(mk.misc);
    Assemble(r, pick, crane, crew, transport)
  }

  /** A quote from its priced parts: both subtotals are the exact sums of
      the parts, which are already in cents. */
  function Assemble(r: Request, pick: Pick, crane: Priced, crew: Crew, transport: real): (q: Quote)
    requires IsCents(crane.cost) && IsCents(crane.public) && IsCents(crew.cost)
    requires IsCents(crew.public) && IsCents(transport)
    ensures q.request == r && q.supply == pick && q.crane == crane && q.crew == crew
    ensures q.transport == transport
    ensures q.cost == TotalsOf(crew.cost + crane.cost + TransportCost)
    ensures q.public == TotalsOf(crew.public + crane.public + transport)
    ensures q.rows == Rows(r.requestedClass, crew, crane, transport)
    ensures q.cost.subtotal == crew.cost + crane.cost + TransportCost
    ensures q.public.subtotal == crew.public + crane.public + transport
    ensures q.cost.total == q.cost.subtotal + q.cost.vat
    ensures q.public.total == q.public.subtotal + q.public.vat
    ensures |q.rows| == 3 && q.rows[1].amount == crane.public && q.rows[2].amount == transport
  {
    IntegerIsCents(450);
    CentsSum(crew.cost, crane.cost);
    CentsSum(crew.cost + crane.cost, TransportCost);
    CentsSum(crew.public, crane.public);
    CentsSum(crew.public + crane.public, transport);
    Quote(r, pick, crane, crew, transport,
          TotalsOf(crew.cost + crane.cost + TransportCost),
          TotalsOf(crew.public + crane.public + transport),
          Rows(r.requestedClass, crew, crane, transport))
  }

  /** What the controller computes for a request body, up to the public rows. */
  function BuildQuote(cat: Catalog, mk: Markups, body: Body): (q: Quote)
    requires Valid(cat)
    ensures q.request == ParseBody(body)
    ensures q == Price(cat, mk, ParseBody(body))
  {
    Price(cat, mk, ParseBody(body))
  }

  // ------------------------------------------------------------- properties

  /** The payload the form sends leaves the class open, so the quote prices
      the class the charts recommend. */
  lemma {:induction false} UndecidedUsesCharts(body: Body)
    requires body.gruaPrevista == Some(UndecidedLabel) || body.gruaPrevista == None
    ensures ParseBody(body).requestedClass == Charts.ChoiceName(Charts.Recommended(body.pesoMaxT, body.radioMaxM))
  {
  }

  /** A class still to be agreed puts nothing on the crane row: the public
      subtotal is the crews and transport alone, and the crane stays at the
      job's city. */
  lemma {:induction false} NeedsReviewQuote(cat: Catalog, mk: Markups, r: Request)
    requires Valid(cat)
    requires r.requestedClass == Charts.NeedsReviewName
    ensures var q := Price(cat, mk, r);
      q.crane == Priced(0.0, 0.0) && q.rows[1].amount == 0.0
      && q.rows[1].item == "Gr\U{FA}a A CONVENIR"
      && q.public.subtotal == q.crew.public + q.transport
      && q.cost.subtotal == q.crew.cost + TransportCost
      && q.supply == Pick(r.city, false)
  {
    PickNeedsReview(cat, r.city);
  }

  /** With the shipped tables the crane always comes from the job's city, and
      it is local exactly when the class is one of the seven catalogued ones. */
  lemma {:induction false} DefaultSupplyIsLocal(mk: Markups, r: Request)
    ensures Valid(Default)
    ensures var q := Price(Default, mk, r);
      q.supply.city == r.city
      && (q.supply.availableHere <==> r.requestedClass != Charts.NeedsReviewName && r.requestedClass in AllClasses)
  {
    DefaultValid();
    DefaultPickStays(r.city, r.requestedClass);
  }

  /** With the shipped tables and markups of at least 1, the public quote
      never falls below the cost basis: not in the subtotal, not in the total. */
  lemma {:induction false} DefaultQuoteCoversCost(mk: Markups, r: Request)
    requires mk.crew >= 1.0 && mk.crane >= 1.0 && mk.misc >= 1.0
    ensures Valid(Default)
    ensures var q := Price(Default, mk, r);
      q.cost.subtotal <= q.public.subtotal && q.cost.total <= q.public.total
  {
    DefaultValid();
    DefaultPickStays(r.city, r.requestedClass);
    var supply := SupplyArg(PickCity(Default, r.city, r.requestedClass));
    assert ProviderCity(r.city, supply) == r.city;
    DefaultNonNegative(r.city, r.requestedClass);
    DefaultNoTravel(r.city);
    PriceCoversCost(Default, mk, r);
  }

  /** Markups of at least 1 keep every public figure at or above its cost,
      provided the crane's supplier has non-negative rates and a non-negative
      trip: the public subtotal and total then cover the cost basis. */
  lemma {:induction false} PriceCoversCost(cat: Catalog, mk: Markups, r: Request)
    requires Valid(cat)
    requires mk.crew >= 1.0 && mk.crane >= 1.0 && mk.misc >= 1.0
    requires var supply := SupplyArg(PickCity(cat, r.city, r.requestedClass));
      NonNegative(RatesFor(cat, ProviderCity(r.city, supply)), r.requestedClass)
      && RoundTripKm(cat, ProviderCity(r.city, supply), r.city) >= 0.0
    ensures var q := Price(cat, mk, r);
      q.cost.subtotal <= q.public.subtotal && q.cost.total <= q.public.total
  {
    var q := Price(cat, mk, r);
    var hours := 8.0 * (r.days as real);
    var crane := CraneCost(cat, mk.crane, r.city, r.requestedClass, hours,
                           r.isNight, r.isHolidayNight, SupplyArg(q.supply));
    assert q.crane == crane;
    CranePublicCoversCost(cat, mk.crane, r.city, r.requestedClass, hours,
                          r.isNight, r.isHolidayNight, SupplyArg(q.supply));
    var crew := CrewCost(mk.crew, r.teams, r.days, r.isNight, r.isHolidayNight);
    assert q.crew == crew;
    CrewPublicCoversCost(mk.crew, r.teams, r.days, r.isNight, r.isHolidayNight);
    TransportCoversCost(mk.misc);
    AssembleCoversCost(r, q.supply, crane, crew, q.transport);
  }

  /** Parts whose public price covers their cost give a quote whose public
      subtotal and total cover the cost basis. */
  lemma {:induction false} AssembleCoversCost(r: Request, pick: Pick, crane: Priced, crew: Crew, transport: real)
    requires IsCents(crane.cost) && IsCents(crane.public) && IsCents(crew.cost)
    requires IsCents(crew.public) && IsCents(transport)
    requires crane.cost <= crane.public && crew.cost <= crew.public && TransportCost <= transport
    ensures var q := Assemble(r, pick, crane, crew, transport);
      q.cost.subtotal <= q.public.subtotal && q.cost.total <= q.public.total
  {
    TotalsMonotone(crew.cost + crane.cost + TransportCost, crew.public + crane.public + transport);
  }

  /** Transport coordination is never priced below its cost at a markup of at least 1. */
  lemma {:induction false} TransportCoversCost(misc: real)
    requires misc >= 1.0
    ensures TransportCost <= TransportPublic(misc)
  {
    IntegerIsCents(450);
    Round2OfCents(TransportCost);
    Round2Monotone(TransportCost, TransportCost * misc);
  }

  /** A larger sum never gets a smaller subtotal or total. */
  lemma {:induction false} TotalsMonotone(a: real, b: real)
    requires a <= b
    ensures TotalsOf(a).subtotal <= TotalsOf(b).subtotal
    ensures TotalsOf(a).total <= TotalsOf(b).total
  {
    Round2Monotone(a, b);
    Round2Monotone(Round2(a) * 0.21, Round2(b) * 0.21);
  }

  /** Row 01 may differ from the crew price the subtotal adds: its amount
      rounds the already rounded price of one crew-day, so it is only within
      `0.01 + 0.005 × crew-days` of it. */
  lemma {:induction false} CrewRowNearCrewPrice(day: real, markup: real, qty: nat)
    ensures var c := CrewOf(day, markup, qty);
      c.public - 0.01 - 0.005 * (qty as real) < CrewRowAmount(c) < c.public + 0.01 + 0.005 * (qty as real)
  {
    TimesClose(Round2(day * markup), day * markup, qty);
  }

  /** When one crew-day's public price is a whole number of cents, as it is
      with the default crew markup for every shift, row 01 equals the crew price. */
  lemma {:induction false} CrewRowExact(day: real, markup: real, qty: nat)
    requires IsCents(day * markup)
    ensures CrewRowAmount(CrewOf(day, markup, qty)) == CrewOf(day, markup, qty).public
  {
    Round2OfCents(day * markup);
  }

  /** With the default crew markup a crew-day costs 1380, 1863 or 2001 in
      public, so row 01 always equals the crew price. */
  lemma {:induction false} DefaultCrewRowExact(teams: nat, days: nat, isNight: bool, isHolidayNight: bool)
    ensures var c := CrewCost(DefaultMarkups.crew, teams, days, isNight, isHolidayNight);
      CrewRowAmount(c) == c.public
  {
    var day := CrewDayCost(isNight, isHolidayNight);
    if day == 1150.0 {
      IntegerIsCents(1380);
    } else if day == 1552.5 {
      IntegerIsCents(1863);
    } else {
      IntegerIsCents(2001);
    }
    CrewRowExact(day, 1.2, teams * days);
  }

  /** With a crew markup of 1.2345 a day crew-day is 1419.675 in public: two
      crew-days are priced 2839.35 but row 01 shows 2 × 1419.68 = 2839.36. */
  lemma {:induction false} CrewRowCentExample()
    ensures var c := CrewCost(1.2345, 2, 1, false, false);
      c.public == 2839.35 && c.unitPublic == 1419.68 && CrewRowAmount(c) == 2839.36
  {
    assert CrewDayCost(false, false) == 1150.0;
    assert RoundHalfUp(283935.0) == 283935;
    assert RoundHalfUp(141967.5) == 141968;
    assert RoundHalfUp(283936.0) == 283936;
  }

  /** A text that opens with "N equip" (N one of 1, 2, 3) asks for N teams,
      whatever follows. */
  lemma {:induction false} LeadingTeams(d: char, rest: string)
    requires '1' <= d <= '3'
    ensures Teams([d] + " equip" + rest) == DigitValue(d)
  {
    var s := [d] + " equip" + rest;
    var x := "equip" + rest;
    assert s[1..] == " " + x;
    assert x[0] == 'e';
    TrimLeftSpacePrefix(" ", x);
    LowerEquip(rest);
    assert EquipAfter(s, 1);
    assert TeamsAt(s, 0);
    TeamsLeftmost(s, 0);
  }

  /** A text starting "equip" starts "equip" once lowered. */
  lemma {:induction false} LowerEquip(rest: string)
    ensures StartsWith(ToLower("equip" + rest), "equip")
  {
    var x := "equip" + rest;
    assert ToLower(x)[..5] == "equip";
  }


  /** "2 equipos, 3 jornadas" asks for two days: the first number counts. */
  lemma {:induction false} DaysExample()
    ensures Days("2 equipos, 3 jornadas") == 2
  {
    assert "2 equipos, 3 jornadas" == ['2'] + " equipos, 3 jornadas";
    LeadingDigitRun('2', " equipos, 3 jornadas");
  }

  /** A text opening with one digit and then something else has that digit
      as its first run. */
  lemma {:induction false} LeadingDigitRun(d: char, rest: string)
    requires IsDigit(d) && rest != "" && !IsDigit(rest[0])
    ensures FirstDigitRun([d] + rest) == Some(DigitValue(d))
  {
    var s := [d] + rest;
    assert s[1..] == rest;
    assert LeadingDigits(rest) == 0;
    assert LeadingDigits(s) == 1;
    assert s[..1] == [d];
    assert DigitsValue([d]) == DigitsValue([]) * 10 + DigitValue(d);
  }


  /** A concrete quote: a 60T crane in Madrid, one team for one day shift,
      default markups and tables. */
  lemma {:induction false} MadridQuoteExample()
    ensures Valid(Default)
    ensures var q := Price(Default, DefaultMarkups, Request("Madrid", 1, 1, false, false, "60T"));
      q.crane == Priced(861.30, 1076.63) && q.crew == Crew(1150.0, 1380.0, 1380.0, 1)
      && q.transport == 517.5 && q.public.subtotal == 2974.13 && q.cost.subtotal == 2461.30
  {
    DefaultValid();
    DefaultPickStays("Madrid", "60T");
    MadridCraneExample();
    assert 8.0 * (1 as real) == 8.0;
    assert RoundHalfUp(115000.0) == 115000;
    assert RoundHalfUp(138000.0) == 138000;
    assert RoundHalfUp(51750.0) == 51750;
  }
}
