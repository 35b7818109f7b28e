# Crane quotation engine of montajedeprefabricados, in Dafny

This project models the quotation logic of the montajedeprefabricados web
site and proves properties of it. The site quotes the assembly of precast
concrete structures. The model covers four parts of the site:

- **The quotation route** (`app/api/presupuesto/route.ts`). It does these steps:
  - normalises the job's city;
  - chooses the smallest crane class whose load chart lifts the heaviest piece at the longest radius, with a ×1.1×1.3 margin;
  - chooses the city that supplies that class;
  - prices the crane under two rate schemes (per-class Aguado rates, and flat Rigar/Generic rates);
  - prices the crews and the transport coordination;
  - totals the cost basis and the public price with 21 % VAT, rounding to cents at every step, and lays out the three public line items.

  Its greedy PDF word wrapper `wrap` is modelled too.
- **The quotation form** (`app/presupuesto/page.tsx`):
  - decimal-comma parsing (`parseDec`);
  - the guard on typed dimension text (`setDraftField`);
  - selecting and unselecting work items (`togglePartida`);
  - the maximum weight and radius (`deriveMaxPesoRadio`);
  - the quantity buckets and request body (`buildPayload`);
  - the calendar's month arrows.
- **The quick estimate** (`app/api/calc/route.ts`).
- **The city and type landing-page copy** (`lib/copy.ts`).

Modules, one per file:

| module | file | models |
|---|---|---|
| `Text` | text.dfy | the JavaScript string built-ins the code relies on: `trim`, `toLowerCase`, `startsWith`, `includes`, one-character `replace`, `\d+` runs, `split(/\s+/)` |
| `Money` | money.dfy | `round2`, i.e. `Math.round(n * 100) / 100` on exact reals |
| `Charts` | charts.dfy | `CAPACITY_BY_CLASS`, `capacityAtRadius`, `recommendCraneClassByCharts` |
| `Catalog` | catalog.dfy | `normalizeCity`, the rate records, `CITY_TABLE`, `DIST_KM`, `pickCityForClass` |
| `Costing` | costing.dfy | `computeCraneCost`, `computeCrewCost` |
| `Quotation` | quotation.dfy | the request parsing, pricing, totals and line items of `POST` |
| `Wrapping` | wrapping.dfy | `wrap` of the PDF builder |
| `QuoteForm` | quote_form.dfy | the form-side helpers of the quotation page |
| `QuickEstimate` | quick_estimate.dfy | the estimate formula of the calc route |
| `Copy` | copy.dfy | `cityCopy`, `tipoCopy` |

How the source is represented:

- **Loops.** Loops that update variables are methods with loop invariants, each proved equal to a specification function:
  - `capacityAtRadius` and `recommendCraneClassByCharts`;
  - the supplier scan of `pickCityForClass`;
  - `wrap`;
  - `deriveMaxPesoRadio` and `buildPayload`.
- **State updated in place.** This is modelled as classes whose methods modify their fields:
  - the form's `seleccion`/`partidas`/`draft` state;
  - the calendar's year and month.
- **Money.** Money is `real`. `round2` rounds half up to whole cents, as `Math.round` does.
- **Inputs.** The markups (`MARKUP_CREW`, `MARKUP_CRANE`, `MARKUP_MISC`) and the rate and distance tables are parameters. `DefaultMarkups` and `Catalog.Default` hold the values the code ships with.

## Model

| member | source | states |
|---|---|---|
| Money.Round2 | app/api/presupuesto/route.ts:27 | the result is a whole number of cents within half a cent of the input (half a cent rounds up) |
| Money.Round2Fixes | app/api/presupuesto/route.ts:27 | rounding leaves an amount unchanged exactly when it already is in cents |
| Money.Round2Idempotent | app/api/presupuesto/route.ts:27 | rounding twice is rounding once |
| Money.Round2Monotone | app/api/presupuesto/route.ts:27 | rounding keeps the order of two amounts |
| Catalog.NormalizeCity | app/api/presupuesto/route.ts:28-37 | the result is one of the five canonical cities or the trimmed input, and never empty |
| Catalog.NormalizeBlank | app/api/presupuesto/route.ts:29-30 | empty or whitespace-only input gives "Madrid" |
| Catalog.NormalizePrefixes | app/api/presupuesto/route.ts:31-35 | on the trimmed lower-case text, madri→Madrid, vale→Valencia, barc→Barcelona, zar→Zaragoza, sev→Sevilla, checked in that order |
| Catalog.NormalizeValenciaArea | app/api/presupuesto/route.ts:32 | text containing quart, poblet, sagunto, alicante or castellón/castellon gives Valencia (unless it starts with "madri") |
| Catalog.NormalizeUnknown | app/api/presupuesto/route.ts:36 | unrecognised text is returned trimmed with its case kept, not replaced by a default |
| Catalog.NormalizeTrimmed | app/api/presupuesto/route.ts:28-37 | the result has no white space at either end |
| Catalog.NormalizeIdempotent | app/api/presupuesto/route.ts:28-37 | normalising a normalised city changes nothing |
| Catalog.CanonicalFixed | app/api/presupuesto/route.ts:28-37 | each canonical city name is recognised as itself |
| Charts.Chart | app/api/presupuesto/route.ts:41-49 | each class's chart pairs the table's 13 radii (10 m to 40 m) with that class's loads, sample by sample |
| Charts.ChartIsCurve | app/api/presupuesto/route.ts:41-49 | every chart has strictly ascending radii and non-increasing loads |
| Charts.CapacityAtRadius | app/api/presupuesto/route.ts:50-56 | the scan with `last` and early returns computes the stepwise lookup `CapacityAt` |
| Charts.CapacityAtSample | app/api/presupuesto/route.ts:53 | at a sample radius the lookup returns that sample's load |
| Charts.CapacityBetweenSamples | app/api/presupuesto/route.ts:53 | strictly between two samples it returns the lower-radius sample's load |
| Charts.CapacityOutsideChart | app/api/presupuesto/route.ts:52-55 | below 10 m it returns the 10 m load; from 40 m on the 40 m load |
| Charts.CapacityAtThirteenMetres | app/api/presupuesto/route.ts:53 | 13 m reads the 12 m sample, which is larger than the 14 m one |
| Charts.CapacityNonIncreasing | app/api/presupuesto/route.ts:50-56 | a longer radius never lifts more |
| Charts.CapacityGrowsWithClass | app/api/presupuesto/route.ts:41-49 | at every radius a class later in the order lifts at least as much |
| Charts.RecommendCraneClassByCharts | app/api/presupuesto/route.ts:57-62 | the method computes `Recommended`, the first class of the order adequate for weight × 1.1 × 1.3 |
| Charts.FirstAdequateIn | app/api/presupuesto/route.ts:60 | the early-return loop over a class list returns the first adequate class, or "A CONVENIR" |
| Charts.FirstAdequateIndex | app/api/presupuesto/route.ts:60 | the choice is the class at the first adequate index, with none adequate before it |
| Charts.RecommendedIsMinimal | app/api/presupuesto/route.ts:57-62 | a recommended class covers the required load and every earlier class does not; "A CONVENIR" exactly when no class does |
| Charts.NeedsReviewExactlyWhenLargestFails | app/api/presupuesto/route.ts:60-61 | "A CONVENIR" exactly when even 350T falls short |
| Charts.LargerClassesAlsoAdequate | app/api/presupuesto/route.ts:59-60 | every class after the recommended one would also do |
| Charts.RecommendedMonotoneInWeight | app/api/presupuesto/route.ts:57-62 | a heavier piece never gets a smaller class |
| Charts.RecommendedMonotoneInRadius | app/api/presupuesto/route.ts:57-62 | a longer radius never gets a smaller class |
| Charts.RecommendTenTonnesAtTen | app/api/presupuesto/route.ts:57-62 | 10 t at 10 m gets 60T |
| Charts.RecommendHeavyAtEighteen | app/api/presupuesto/route.ts:57-62 | 35 t at 18 m gets 350T |
| Charts.RecommendBetweenSamples | app/api/presupuesto/route.ts:57-62 | 5 t at 13 m gets 60T |
| Charts.RecommendTooHeavy | app/api/presupuesto/route.ts:57-62 | 500 t at 10 m gets "A CONVENIR" |
| Catalog.RatesFor | app/api/presupuesto/route.ts:149 | a city missing from the city table gets the generic record |
| Catalog.DistRow | app/api/presupuesto/route.ts:152 | a city missing from the distance table gets Madrid's row |
| Catalog.LegKm | app/api/presupuesto/route.ts:177 | a distance is absent exactly when no entry of the row names the city |
| Catalog.DistKm | app/api/presupuesto/route.ts:177 | `DIST_KM[from]?.[to]` has no Madrid fallback: an unknown origin gives no distance |
| Catalog.InsertLeg | app/api/presupuesto/route.ts:153 | inserting into a row sorted by distance keeps it sorted and adds exactly that entry |
| Catalog.SortByKm | app/api/presupuesto/route.ts:153 | the sorted row is sorted by distance and a permutation of the row |
| Catalog.InsertLegStable | app/api/presupuesto/route.ts:153 | inserting an entry keeps the order of the entries at every distance and places it behind those at its own distance |
| Catalog.SortByKmStable | app/api/presupuesto/route.ts:153 | the sort is stable: at every distance the sorted row lists the same entries in the same order as the table |
| Catalog.SortedMember | app/api/presupuesto/route.ts:153 | sorting keeps exactly the entries of the row |
| Catalog.FirstSupplier | app/api/presupuesto/route.ts:154-157 | the scan ends inside the row only at a city whose list names the class; otherwise it ends at the end of the row |
| Catalog.PickCityForClass | app/api/presupuesto/route.ts:148-159 | the method computes `PickCity` with the route's early-return loop |
| Catalog.PickNeedsReview | app/api/presupuesto/route.ts:150 | "A CONVENIR" gives (preferred city, not local) |
| Catalog.PickLocal | app/api/presupuesto/route.ts:151 | a class in the local list gives (preferred city, local) |
| Catalog.PickNearest | app/api/presupuesto/route.ts:152-156 | otherwise the supplier has the class, is in the distance row, and no city of the row with the class is nearer |
| Catalog.PickAway | app/api/presupuesto/route.ts:153-156 | that supplier is the first one in the distance-sorted row, tagged not local |
| Catalog.FirstSupplierNearest | app/api/presupuesto/route.ts:153-156 | in a row sorted by distance the first supplier is no farther than any other supplier |
| Catalog.PickNone | app/api/presupuesto/route.ts:158 | when no city of the row has the class, (preferred city, not local) |
| Catalog.DefaultAvailability | app/api/presupuesto/route.ts:79-102 | in the shipped tables every city, known or not (inherited object keys aside), lists the same seven classes |
| Catalog.DefaultValid | app/api/presupuesto/route.ts:103-109 | the shipped distance table has the Madrid row the fallback needs |
| Catalog.DefaultPickStays | app/api/presupuesto/route.ts:148-159 | with the shipped tables the supplier is always the job's city, and is local exactly for a listed class |
| Catalog.ChartClassesListed | app/api/presupuesto/route.ts:81 | every chart class is in the shipped availability lists |
| Catalog.DefaultSelfDistance | app/api/presupuesto/route.ts:103-109 | the shipped distance from each known city to itself is 0 |
| Costing.ShiftFactor | app/api/presupuesto/route.ts:193-195 | 1.45 for a holiday night, 1.35 for another night, 1 by day |
| Costing.ProviderCity | app/api/presupuesto/route.ts:164 | `supplyCity \|\| jobCity`: an empty supply city falls back to the job city |
| Costing.RoundTripKm | app/api/presupuesto/route.ts:177 | twice the table distance, or 0 when the entry is missing |
| Costing.BilledHours | app/api/presupuesto/route.ts:173 | the billed hours are `max(hours, minimum)` |
| Costing.CraneCost | app/api/presupuesto/route.ts:160-205 | "A CONVENIR" costs 0 and 0; otherwise cost = round2(bill) and public = round2(bill × markup), both in cents |
| Costing.MarkedUp | app/api/presupuesto/route.ts:182-185 | cost and public are each within half a cent of the bill and of the bill × markup |
| Costing.MinimumBilling | app/api/presupuesto/route.ts:169-190 | below the minimum (per class for Aguado, default 8; `min_hours` for flat rates, default 7) the hours asked for do not matter |
| Costing.AguadoNightSurcharge | app/api/presupuesto/route.ts:174-181 | an Aguado night adds exactly hourly × billed hours × `extra_pct` (default 0.30), so km and call-out fee are not surcharged; a holiday night costs the same as a night |
| Costing.FlatShift | app/api/presupuesto/route.ts:193-201 | flat rates: a night adds exactly hourly × billed hours × (factor − 1), so the km charge is not surcharged |
| Costing.CranePublicCoversCost | app/api/presupuesto/route.ts:160-205 | with non-negative rates and a markup ≥ 1 the crane costs ≥ 0 and its public price is ≥ its cost |
| Costing.CraneUnroundedNonNegative | app/api/presupuesto/route.ts:179-200 | non-negative rates, hours and km give a non-negative bill |
| Costing.DefaultNonNegative | app/api/presupuesto/route.ts:79-99 | no shipped rate record yields a negative rate, whatever the fallbacks pick |
| Costing.DefaultNoTravel | app/api/presupuesto/route.ts:177 | a crane supplied from the job's own city travels 0 km with the shipped table |
| Costing.MadridCraneExample | app/api/presupuesto/route.ts:160-185 | a day's 60T in Madrid costs 861.30 and is priced 1076.63 at markup 1.25 |
| Costing.CrewCost | app/api/presupuesto/route.ts:206-227 | unit_qty = teams × days; cost and public are within half a cent of 1150 × factor × qty and of that × markup; unit_public is within half a cent of 1150 × factor × markup |
| Costing.CrewDayCost | app/api/presupuesto/route.ts:207-211 | a crew-day costs 1150, 1552.5 or 1667.5 |
| Costing.CrewMonotone | app/api/presupuesto/route.ts:215-217 | more crew-days never cost less |
| Costing.CrewShiftOrder | app/api/presupuesto/route.ts:208-211 | night costs at least day, and a holiday night at least a night |
| Costing.CrewPublicCoversCost | app/api/presupuesto/route.ts:213-217 | a markup ≥ 1 never prices the crews below cost |
| Quotation.Teams | app/api/presupuesto/route.ts:405 | the number of teams is 1, 2 or 3 |
| Quotation.TeamsDefault | app/api/presupuesto/route.ts:405 | without an "N equip" match there is one team |
| Quotation.TeamsLeftmost | app/api/presupuesto/route.ts:405 | otherwise the leftmost match's digit is the number of teams |
| Quotation.LeadingTeams | app/api/presupuesto/route.ts:405 | a text opening with "N equip" (N in 1..3) asks for N teams |
| Quotation.Days | app/api/presupuesto/route.ts:406 | days = max(1, first run of digits), or 1 with no digits |
| Quotation.DaysExample | app/api/presupuesto/route.ts:406 | "2 equipos, 3 jornadas" gives 2 days: the first number counts |
| Quotation.ShiftFactorOfText | app/api/presupuesto/route.ts:407-408 | the factor follows the shift words: 1.45 for nocturna with festivo or fin, 1.35 for nocturna alone, 1 otherwise |
| Quotation.ShiftKinds | app/api/presupuesto/route.ts:407-408 | a shift is night or holiday night exactly when it mentions nocturna; both only for nocturna + fin without festivo |
| Quotation.RequestedFromCharts | app/api/presupuesto/route.ts:412-416 | with no class or "A convenir con técnico", the requested class is the minimal adequate one, "A CONVENIR" exactly when none is |
| Quotation.ParseBody | app/api/presupuesto/route.ts:391-416 | the city is normalised, 1 ≤ teams ≤ 3, days ≥ 1, and the class is the requested one |
| Quotation.TransportPublic | app/api/presupuesto/route.ts:432-433 | transport is round2(450 × misc markup) |
| Quotation.TotalsOf | app/api/presupuesto/route.ts:436-441 | subtotal = round2(sum), VAT = round2(subtotal × 0.21), total = subtotal + VAT, all in cents |
| Quotation.TotalNearGross | app/api/presupuesto/route.ts:436-441 | the total is within half a cent of 1.21 × subtotal |
| Quotation.Rows | app/api/presupuesto/route.ts:444-448 | exactly three rows, coded "01", "02", "03" in that order |
| Quotation.Price | app/api/presupuesto/route.ts:418-448 | the supplier is `pickCityForClass`; the crane is `computeCraneCost` for 8 × days hours, from the supplier when the class is not local; the crews are `computeCrewCost`; transport is 450 × misc markup; totals and rows are assembled from exactly these parts |
| Quotation.Assemble | app/api/presupuesto/route.ts:432-448 | cost totals are the totals of crew + crane + 450 and public totals those of crew + crane + transport (21 % VAT), both subtotals are the exact sums of the parts, and the rows are the three rows of those parts |
| Quotation.BuildQuote | app/api/presupuesto/route.ts:381-448 | the quote is the priced quote of the parsed request (normalised city, 1 to 3 teams, at least one day, requested class) |
| Quotation.UndecidedUsesCharts | app/api/presupuesto/route.ts:412-416 | a body with class "A convenir con técnico" or none is priced with the chart-recommended class |
| Quotation.NeedsReviewQuote | app/api/presupuesto/route.ts:418-446 | an undecided class puts 0 on the crane row ("Grúa A CONVENIR"), stays at the job city, and leaves crews plus transport as the subtotal |
| Quotation.DefaultSupplyIsLocal | app/api/presupuesto/route.ts:148-159 | with the shipped tables the crane comes from the job's city |
| Quotation.DefaultQuoteCoversCost | app/api/presupuesto/route.ts:418-441 | with the shipped tables and markups of at least 1, the public subtotal and total never fall below the cost subtotal and total |
| Quotation.PriceCoversCost | app/api/presupuesto/route.ts:418-441 | with markups of at least 1 and a supplier whose rates and trip are non-negative, the public subtotal and total cover the cost ones |
| Quotation.AssembleCoversCost | app/api/presupuesto/route.ts:432-441 | parts whose public price covers their cost give public totals that cover the cost totals |
| Quotation.TransportCoversCost | app/api/presupuesto/route.ts:432-433 | public transport coordination is at least its 450 cost when the markup is at least 1 |
| Quotation.TotalsMonotone | app/api/presupuesto/route.ts:436-441 | a larger sum never gets a smaller subtotal or total |
| Quotation.CrewRowNearCrewPrice | app/api/presupuesto/route.ts:445 | row 01's amount round2(unit_public × qty) may differ from crew.public, by at most 0.01 + 0.005 × qty |
| Quotation.DefaultCrewRowExact | app/api/presupuesto/route.ts:445 | with the default crew markup row 01 equals the crew price |
| Quotation.CrewRowCentExample | app/api/presupuesto/route.ts:445 | with markup 1.2345 two day crew-days differ by one cent between row 01 and crew.public |
| Quotation.MadridQuoteExample | app/api/presupuesto/route.ts:418-441 | one team, one day, 60T in Madrid with the default markups: crane 861.30/1076.63, crews 1150/1380, transport 517.50, subtotals 2461.30 and 2974.13 |
| Wrapping.WrapLines | app/api/presupuesto/route.ts:272-276 | the loop with a mutable line computes `Wrap` |
| Wrapping.WrapWords | app/api/presupuesto/route.ts:274 | the loop over the split words folds them with `Step` |
| Wrapping.WrapShape | app/api/presupuesto/route.ts:272-276 | every line is non-empty and trimmed, and exceeds the width only as a single word |
| Wrapping.WrapKeepsWords | app/api/presupuesto/route.ts:272-276 | joining the lines with single spaces gives the input's words joined with single spaces |
| Wrapping.AsWrittenOnlyAddsBlankLines | app/api/presupuesto/route.ts:274 | the route's wrap differs from the corrected one only by empty lines |
| Wrapping.AsWrittenBlankLine | app/api/presupuesto/route.ts:274 | " " + a word wider than the limit: the route returns ["", word], the corrected wrap [word] |
| QuoteForm.Strip | app/presupuesto/page.tsx:88 | only digits, points and minus signs remain, and nothing is added |
| QuoteForm.StripAppend | app/presupuesto/page.tsx:88 | stripping distributes over concatenation |
| QuoteForm.ParseDec | app/presupuesto/page.tsx:84-91 | "", ",", "." and blank text give 0 |
| QuoteForm.ParseDecDecimal | app/presupuesto/page.tsx:87-89 | digits, a comma or a point, digits read as whole + fraction: "12,5" and "12.5" are both 12.5 |
| QuoteForm.ParseDecWhole | app/presupuesto/page.tsx:84-91 | a digit run reads as its value |
| QuoteForm.ParseDecIgnoresUnits | app/presupuesto/page.tsx:88 | trailing non-numeric text such as a unit is stripped: "12 kg" is 12 |
| QuoteForm.ParseDecLaterCommas | app/presupuesto/page.tsx:88 | only the first comma becomes a point; a later one is dropped, so "1,2,5" reads as "1,25" |
| QuoteForm.ParseDecMinusAlone | app/presupuesto/page.tsx:89-90 | "-" is not a number and gives 0, not NaN |
| QuoteForm.ParseDecTwoPoints | app/presupuesto/page.tsx:89-90 | a text with two points is not a number and gives 0, not NaN |
| QuoteForm.Without | app/presupuesto/page.tsx:296 | the filter keeps exactly the other keys |
| QuoteForm.ToggleFlips | app/presupuesto/page.tsx:293-314 | toggling flips whether the key is selected, has a record and has a draft |
| QuoteForm.ToggleAdds | app/presupuesto/page.tsx:305-311 | an unselected key is appended with all-zero dims, no platforms and an empty draft |
| QuoteForm.ToggleKeepsOthers | app/presupuesto/page.tsx:293-314 | no other key's selection, record or draft changes |
| QuoteForm.ToggleKeepsConsistent | app/presupuesto/page.tsx:293-314 | keys stay unique and exactly the selected keys have a record and a draft |
| QuoteForm.ToggleTwiceRestores | app/presupuesto/page.tsx:293-314 | selecting and then unselecting an item restores the state |
| QuoteForm.FormState.constructor | app/presupuesto/page.tsx:256-260 | the page starts with nothing selected |
| QuoteForm.FormState.TogglePartida | app/presupuesto/page.tsx:293-314 | the handler updates the fields to `Toggled` of the old state |
| QuoteForm.DraftRejects | app/presupuesto/page.tsx:319 | text with a character outside `[0-9.,]` leaves the state unchanged |
| QuoteForm.DraftAccepts | app/presupuesto/page.tsx:320 | accepted text becomes that field's draft; nothing else changes |
| QuoteForm.DraftKeepsConsistent | app/presupuesto/page.tsx:317-321 | typing into a selected item keeps the state consistent |
| QuoteForm.FormState.SetDraftField | app/presupuesto/page.tsx:317-321 | the handler updates the fields to `DraftSet` of the old state |
| QuoteForm.MaxOverSpec | app/presupuesto/page.tsx:350-360 | the maximum is ≥ 0, ≥ each selected item's value, and is 0 or one of them |
| QuoteForm.MaxOverNone | app/presupuesto/page.tsx:351-352 | with no selected item having a record the maximum is 0 |
| QuoteForm.FormState.DeriveMaxPesoRadio | app/presupuesto/page.tsx:350-360 | the loop computes the running maxima of weight and radius over the selection |
| QuoteForm.QtyOf | app/presupuesto/page.tsx:371 | `max(0, floor(qty))`: the floor for a non-negative qty, 0 for a negative one |
| QuoteForm.OneBucket | app/presupuesto/page.tsx:372-375 | every key but "obra_singular" is in exactly one bucket; "obra_singular" in none |
| QuoteForm.BucketsPartition | app/presupuesto/page.tsx:368-376 | the four buckets add up to the counted quantity of every selected item but "obra_singular" |
| QuoteForm.FormState.BuildPayload | app/presupuesto/page.tsx:362-398 | the loop and the assembled body equal `PayloadOf` of the state |
| QuoteForm.PayloadCountsEveryItem | app/presupuesto/page.tsx:368-388 | the body's four totals add up to the counted quantity |
| QuoteForm.ToBody | app/presupuesto/page.tsx:394 | the route receives the class label and both maxima as sent |
| QuoteForm.FormRequestsChartClass | app/presupuesto/page.tsx:391-394 | the form always sends "A convenir con técnico", so the route prices the chart class for the heaviest weight at the longest radius |
| QuoteForm.MonthSteps | app/presupuesto/page.tsx:120-129 | both arrows keep the month in 0..11 and move exactly one month, carrying the year |
| QuoteForm.MonthRoundTrip | app/presupuesto/page.tsx:120-129 | next then previous, and previous then next, return to the same page |
| QuoteForm.MonthCursor.constructor | app/presupuesto/page.tsx:112-113 | the calendar opens on a valid month |
| QuoteForm.MonthCursor.PrevMonth | app/presupuesto/page.tsx:120-124 | the arrow moves the fields to `Prev` of the old page |
| QuoteForm.MonthCursor.NextMonth | app/presupuesto/page.tsx:125-129 | the arrow moves the fields to `Next` of the old page |
| QuickEstimate.AverageTons | app/api/calc/route.ts:6-7 | 30 when `tonelajes` holds no number |
| QuickEstimate.AverageWithinTons | app/api/calc/route.ts:6-7 | the average lies between the least and the greatest tonnage given |
| QuickEstimate.MeanWithin | app/api/calc/route.ts:7 | the mean of non-empty terms lies between their bounds |
| QuickEstimate.NoTonsDefault | app/api/calc/route.ts:6-7 | text without digits averages 30 t |
| QuickEstimate.MaxOf | app/api/calc/route.ts:8 | `Math.max` is ≥ every element and is one of them |
| QuickEstimate.MaxRadiusSpec | app/api/calc/route.ts:8 | maxR ≥ 18, ≥ every radius given, and is 18 or one of them |
| QuickEstimate.BaseRadiusTerm | app/api/calc/route.ts:9 | up to 20 m no radius term; beyond, 80 per metre, never decreasing |
| QuickEstimate.Urgency | app/api/calc/route.ts:10 | 1.25 exactly when the deadline is urgent (noche, urgente, a standalone 2 or 3), 1 otherwise |
| QuickEstimate.SpacedDigitUrgent | app/api/calc/route.ts:10 | a lone 2 or 3 between blanks is urgent |
| QuickEstimate.QuickEstimate | app/api/calc/route.ts:11-22 | subtotal is within half a unit of base × urgency; the lines are 1200 per crew day, 4200 for the 350 T crane day, 750 for transport coordination and 380 for safety and quality; total = subtotal + those four = subtotal + 6530 |
| QuickEstimate.UrgencyRaises | app/api/calc/route.ts:10-11 | an urgent deadline raises the subtotal by a quarter, up to rounding |
| QuickEstimate.EmptyRequestEstimate | app/api/calc/route.ts:5-22 | an empty request gives subtotal 3900 and total 10430 |
| Copy.Capitalised | lib/copy.ts:6 | the first character is upper-cased and the rest kept as given |
| Copy.CapitalisedIdempotent | lib/copy.ts:6 | capitalising twice is capitalising once; a capitalised city is kept |
| Copy.CityTitleNamesCity | lib/copy.ts:8 | the title is "Montaje de prefabricados en " followed by the capitalised city |
| Copy.CityDescNamesCity | lib/copy.ts:9 | the description contains the capitalised city followed by ". Vigas" |
| Copy.TipoTitleFirstDash | lib/copy.ts:14-16 | the title is "Montaje de prefabricados: " + the type with only its first dash made a space; later dashes are kept |

## Left out

- Sending e-mail and calling the AI service: network I/O, not decision logic. This covers `sendEmail`, `askOpenAI`, the "enviar" branch and the contact route.
- PDF rendering other than `wrap`, and the HTML table and e-mail templates. These are calls into pdf-lib and pdfkit, and presentation strings.
- The `detail` and `descripcion` strings of the crane, crew and row records. They are display text, and no price depends on them.
- Reading the markups from `process.env`. They are parameters, with the defaults 1.2, 1.25 and 1.15.
- Floating point:
  - Money is exact `real`, and `round2` is exact half-up rounding. The binary representation artefacts of `Math.round(n * 100) / 100` are not reproduced.
  - `Number()` parsing is a decimal grammar with no NaN, exponent or hexadecimal forms. After the strip in `parseDec` only digits, points and minus signs can reach it.
- Regular expressions are modelled as predicates on strings: prefix, substring, digit runs, and the leftmost "N equip" match.
- Case mapping is ASCII-only, and accented Latin letters are lowered one for one. Multi-character upper-case forms are not modelled.
- `null`/`undefined` and non-string JSON values in the request bodies. Absent text fields are `Option` values with the route's defaults. The numeric body fields arrive as numbers.
- QuoteForm.FormState.TogglePartida: the handler reads `partidas` and `draft` from the render's closure inside a state updater. The model applies the three updates in sequence, so React's batching and stale closures are not modelled.
- `commitDraftField` and `updateQty`: they are not among the modelled handlers. The parsing that `commitDraftField` applies is `ParseDec`.
- The calendar's `Date`, `Intl` and `daysInMonth` uses, and picking a day. Only the month arrows are modelled.
- The quick estimate's echo of `ciudad` and `elementos` and its AI note. They do not affect the estimate.
- Copy.CityCopy: an empty city makes `city[0].toUpperCase()` throw in the source; the model requires a non-empty city instead of modelling the exception.
- Catalog.PickCityForClass: JavaScript's `Object.entries` order for the distance rows is the declaration order. The model sorts that order stably, as `Array.prototype.sort` does (Catalog.SortByKmStable).
- Catalog.RatesFor: the city table is a `map`, so a city named after a key inherited from `Object.prototype` ("constructor", "toString", "valueOf", "hasOwnProperty", "__proto__") falls back to the generic record. In the source such a lookup finds the inherited member; `availability.includes` then throws (route.ts:151) and the outer catch answers with HTTP 500 (route.ts:543-546). That 500 path does not occur in the model.
- Catalog.DefaultAvailability: holds for every city except the inherited object keys above, for which the source throws instead of listing the seven classes.
- Costing.CraneCost: the per-class hour and km tables are `map`s, so a class named after an inherited object key is simply absent. In the source the Madrid branch then throws at `kmPrice.toFixed` (route.ts:184), and the inner catch zeroes the crane and crew (route.ts:421-430); the flat-rate branch yields NaN prices. Neither the inner catch's fallback nor NaN occurs in the model.

## Findings

| source | as written | input that shows it | evidently intended | confidence | as-written member | corrected member |
|---|---|---|---|---|---|---|
| app/api/presupuesto/route.ts:274 | on overflow the current line is pushed whenever it is a non-empty string, even when it holds only the blank that `line += " " + w` added for an empty first word | the AI scope note, wrapped untrimmed by `wrap(ai, 95)` (route.ts:313), reading " " + a word longer than 95 characters: `split(/\s+/)` yields ["", word], the first step sets `line` to " ", and the second pushes `" ".trim()`, an empty line | push only a line that holds a word, as the final push (`if (line.trim())`) already does | not executed | Wrapping.AsWrittenBlankLine | Wrapping.WrapShape |
