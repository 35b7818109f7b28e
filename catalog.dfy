/** The rate catalogue of the quotation route: city normalisation, the rate
    record of each city, the road-distance table and the choice of the city
    that supplies a crane class (`pickCityForClass`).

    The tables are a value of type `Catalog`, so that the supplier search can
    be stated for any table; `Default` holds the tables the route ships. */
module Catalog {
  import opened Text
  import Charts

  // ---------------------------------------------------------------- cities

  /** Lower-case fragments that name a town served from Valencia. */
  predicate ValenciaArea(c: string) {
    Contains(c, "quart") || Contains(c, "poblet") || Contains(c, "sagunto") ||
    Contains(c, "alicante") || Contains(c, "castellon") || Contains(c, "castell\U{F3}n")
  }

  /** The five cities the route knows by name. */
  predicate Canonical(city: string) {
    city == "Madrid" || city == "Valencia" || city == "Barcelona" ||
    city == "Zaragoza" || city == "Sevilla"
  }

  /** The known city a trimmed, lower-cased text names: the prefixes and the
      Valencia-area towns are checked in the route's order. */
  function KnownCity(c: string): (city: Option<string>)
    ensures c == "" ==> city == Some("Madrid")
    ensures city.Some? ==> Canonical(city.value)
  {
    if c == "" then Some("Madrid")
    else if StartsWith(c, "madri") then Some("Madrid")
    else if StartsWith(c, "vale") || ValenciaArea(c) then Some("Valencia")
    else if StartsWith(c, "barc") then Some("Barcelona")
    else if StartsWith(c, "zar") then Some("Zaragoza")
    else if StartsWith(c, "sev") then Some("Sevilla")
    else None
  }

  /** `normalizeCity`: the canonical name of a city the route knows, or the
      trimmed input with its case untouched. */
  function NormalizeCity(raw: string): (city: string)
    ensures Canonical(city) || city == Trim(raw)
    ensures city != ""
  {
    match KnownCity(ToLower(Trim(raw)))
    case Some(name) => name
    case None => Trim(raw)
  }

  /** The result never has white space at either end. */
  lemma {:induction false} NormalizeTrimmed(raw: string)
    ensures Trim(NormalizeCity(raw)) == NormalizeCity(raw)
  {
    var city := NormalizeCity(raw);
    if Canonical(city) {
      CanonicalTrimmed(city);
    } else {
      TrimIdempotent(raw);
    }
  }

  /** Empty or blank input is Madrid. */
  lemma {:induction false} NormalizeBlank(raw: string)
    requires forall i :: 0 <= i < |raw| ==> IsSpace(raw[i])
    ensures NormalizeCity(raw) == "Madrid"
  {
    TrimLeftAllSpaces(raw);
  }

  /** The five prefixes, checked on the trimmed lower-case text in this order. */
  lemma {:induction false} NormalizePrefixes(raw: string)
    ensures var c := ToLower(Trim(raw));
      (StartsWith(c, "madri") ==> NormalizeCity(raw) == "Madrid") &&
      (!StartsWith(c, "madri") && StartsWith(c, "vale") ==> NormalizeCity(raw) == "Valencia") &&
      (!StartsWith(c, "madri") && !StartsWith(c, "vale") && !ValenciaArea(c) ==>
         (StartsWith(c, "barc") ==> NormalizeCity(raw) == "Barcelona") &&
         (!StartsWith(c, "barc") && StartsWith(c, "zar") ==> NormalizeCity(raw) == "Zaragoza") &&
         (!StartsWith(c, "barc") && !StartsWith(c, "zar") && StartsWith(c, "sev") ==>
            NormalizeCity(raw) == "Sevilla"))
  {
    var c := ToLower(Trim(raw));
    KnownPrefixes(c);
  }

  lemma {:induction false} KnownPrefixes(c: string)
    ensures StartsWith(c, "madri") ==> KnownCity(c) == Some("Madrid")
    ensures !StartsWith(c, "madri") && StartsWith(c, "vale") ==> KnownCity(c) == Some("Valencia")
    ensures !StartsWith(c, "madri") && !StartsWith(c, "vale") && !ValenciaArea(c) ==>
      (StartsWith(c, "barc") ==> KnownCity(c) == Some("Barcelona")) &&
      (!StartsWith(c, "barc") && StartsWith(c, "zar") ==> KnownCity(c) == Some("Zaragoza")) &&
      (!StartsWith(c, "barc") && !StartsWith(c, "zar") && StartsWith(c, "sev") ==>
         KnownCity(c) == Some("Sevilla"))
  {
  }

  /** Towns around Valencia (quart, poblet, sagunto, alicante, castellón) map
      to Valencia unless the text starts with "madri". */
  lemma {:induction false} NormalizeValenciaArea(raw: string)
    requires ValenciaArea(ToLower(Trim(raw)))
    requires !StartsWith(ToLower(Trim(raw)), "madri")
    ensures NormalizeCity(raw) == "Valencia"
  {
    KnownValenciaArea(ToLower(Trim(raw)));
  }

  lemma {:induction false} KnownValenciaArea(c: string)
    requires ValenciaArea(c) && !StartsWith(c, "madri")
    ensures KnownCity(c) == Some("Valencia")
  {
    if c == "" {
      assert ValenciaArea(c);
      EmptyNotValenciaArea();
      assert false;
    }
  }

  lemma {:induction false} EmptyNotValenciaArea()
    ensures !ValenciaArea("")
  {
    NotContains("", "quart", 0);
    NotContains("", "poblet", 0);
    NotContains("", "sagunto", 0);
    NotContains("", "alicante", 0);
    NotContains("", "castellon", 0);
    NotContains("", "castell\U{F3}n", 0);
  }

  /** Text the route does not recognise comes back trimmed, with its case kept. */
  lemma {:induction false} NormalizeUnknown(raw: string)
    requires Trim(raw) != ""
    requires !StartsWith(ToLower(Trim(raw)), "madri") && !StartsWith(ToLower(Trim(raw)), "vale")
    requires !ValenciaArea(ToLower(Trim(raw)))
    requires !StartsWith(ToLower(Trim(raw)), "barc") && !StartsWith(ToLower(Trim(raw)), "zar")
    requires !StartsWith(ToLower(Trim(raw)), "sev")
    ensures NormalizeCity(raw) == Trim(raw)
  {
    KnownUnknown(ToLower(Trim(raw)));
  }

  lemma {:induction false} KnownUnknown(c: string)
    requires c != ""
    requires !StartsWith(c, "madri") && !StartsWith(c, "vale") && !ValenciaArea(c)
    requires !StartsWith(c, "barc") && !StartsWith(c, "zar") && !StartsWith(c, "sev")
    ensures KnownCity(c) == None
  {
  }

  /** Normalising a normalised city changes nothing. */
  lemma {:induction false} NormalizeIdempotent(raw: string)
    ensures NormalizeCity(NormalizeCity(raw)) == NormalizeCity(raw)
  {
    var city := NormalizeCity(raw);
    if Canonical(city) {
      CanonicalFixed(city);
    } else {
      var t := Trim(raw);
      assert KnownCity(ToLower(t)) == None && city == t;
      TrimIdempotent(raw);
      assert Trim(city) == t;
    }
  }

  lemma {:induction false} CanonicalTrimmed(city: string)
    requires Canonical(city)
    ensures Trim(city) == city
  {
    TrimOfTrimmed(city);
  }

  /** Each canonical name is recognised as itself. */
  lemma {:induction false} CanonicalFixed(city: string)
    requires Canonical(city)
    ensures KnownCity(ToLower(Trim(city))) == Some(city)
  {
    CanonicalTrimmed(city);
    if city == "Madrid" {
      KnownMadrid();
    } else if city == "Valencia" {
      KnownValencia();
    } else if city == "Barcelona" {
      KnownBarcelona();
    } else if city == "Zaragoza" {
      KnownZaragoza();
    } else {
      KnownSevilla();
    }
  }

  lemma {:induction false} KnownMadrid()
    ensures KnownCity(ToLower("Madrid")) == Some("Madrid")
  {
    LowerMadrid();
    KnownMadridLower();
  }

  lemma {:induction false} LowerMadrid()
    ensures ToLower("Madrid") == "madrid"
  {
    LowerCapitalised("Madrid");
  }

  lemma {:induction false} KnownMadridLower()
    ensures KnownCity("madrid") == Some("Madrid")
  {
    assert "madrid"[..5] == "madri";
  }

  lemma {:induction false} KnownValencia()
    ensures KnownCity(ToLower("Valencia")) == Some("Valencia")
  {
    LowerValencia();
    KnownValenciaLower();
  }

  lemma {:induction false} LowerValencia()
    ensures ToLower("Valencia") == "valencia"
  {
    LowerCapitalised("Valencia");
  }

  lemma {:induction false} KnownValenciaLower()
    ensures KnownCity("valencia") == Some("Valencia")
  {
    NotPrefix("valencia", "madri", 0);
    assert "valencia"[..4] == "vale";
  }

  lemma {:induction false} KnownBarcelona()
    ensures KnownCity(ToLower("Barcelona")) == Some("Barcelona")
  {
    LowerBarcelona();
    KnownBarcelonaLower();
  }

  lemma {:induction false} LowerBarcelona()
    ensures ToLower("Barcelona") == "barcelona"
  {
    LowerCapitalised("Barcelona");
  }

  lemma {:induction false} KnownBarcelonaLower()
    ensures KnownCity("barcelona") == Some("Barcelona")
  {
    NotPrefix("barcelona", "madri", 0);
    NotPrefix("barcelona", "vale", 0);
    NotValenciaArea("barcelona");
    assert "barcelona"[..4] == "barc";
  }

  lemma {:induction false} KnownZaragoza()
    ensures KnownCity(ToLower("Zaragoza")) == Some("Zaragoza")
  {
    LowerZaragoza();
    KnownZaragozaLower();
  }

  lemma {:induction false} LowerZaragoza()
    ensures ToLower("Zaragoza") == "zaragoza"
  {
    LowerCapitalised("Zaragoza");
  }

  lemma {:induction false} KnownZaragozaLower()
    ensures KnownCity("zaragoza") == Some("Zaragoza")
  {
    NotPrefix("zaragoza", "madri", 0);
    NotPrefix("zaragoza", "vale", 0);
    NotPrefix("zaragoza", "barc", 0);
    NotValenciaArea("zaragoza");
    assert "zaragoza"[..3] == "zar";
  }

  lemma {:induction false} KnownSevilla()
    ensures KnownCity(ToLower("Sevilla")) == Some("Sevilla")
  {
    LowerSevilla();
    KnownSevillaLower();
  }

  lemma {:induction false} LowerSevilla()
    ensures ToLower("Sevilla") == "sevilla"
  {
    LowerCapitalised("Sevilla");
  }

  lemma {:induction false} KnownSevillaLower()
    ensures KnownCity("sevilla") == Some("Sevilla")
  {
    NotPrefix("sevilla", "madri", 0);
    NotPrefix("sevilla", "vale", 0);
    NotPrefix("sevilla", "barc", 0);
    NotPrefix("sevilla", "zar", 0);
    NotValenciaArea("sevilla");
    assert "sevilla"[..3] == "sev";
  }

  /** The lower-case names of the other canonical cities are not Valencia-area names. */
  lemma {:induction false} NotValenciaArea(lower: string)
    requires lower == "barcelona" || lower == "zaragoza" || lower == "sevilla"
    ensures !ValenciaArea(lower)
  {
    if lower == "barcelona" {
      NotContains(lower, "quart", 0);
      NotContains(lower, "poblet", 0);
      NotContains(lower, "sagunto", 0);
      NotContains(lower, "alicante", 2);
      NotContains(lower, "castellon", 3);
      NotContains(lower, "castell\U{F3}n", 3);
    } else if lower == "zaragoza" {
      NotContains(lower, "quart", 0);
      NotContains(lower, "poblet", 0);
      NotContains(lower, "sagunto", 0);
      NotContains(lower, "alicante", 1);
      NotContains(lower, "castellon", 0);
      NotContains(lower, "castell\U{F3}n", 0);
    } else {
      NotContains(lower, "quart", 0);
      NotContains(lower, "poblet", 0);
      NotContains(lower, "sagunto", 3);
      NotContains(lower, "alicante", 3);
      NotContains(lower, "castellon", 0);
      NotContains(lower, "castell\U{F3}n", 0);
    }
  }

  // ---------------------------------------------------------------- rates

  datatype Provider = Rigar | Aguado | Generic

  /** `CityRates`. An absent optional table is the empty map: every lookup in
      it misses, exactly as `rates.hourly?.[c]` yields `undefined`. */
  datatype CityRates = CityRates(
    provider: Provider,
    availability: seq<string>,
    hourly: map<string, real>,
    minHours: Option<real>,
    kmPerKmDefault: Option<real>,
    hourlyByClass: map<string, real>,
    minHoursByClass: map<string, real>,
    kmPerKmByClass: map<string, real>,
    salidaByClass: map<string, real>,
    extraPctByClass: map<string, real>)

  /** One entry of a row of the distance table, in the row's written order. */
  datatype Leg = Leg(city: string, km: real)

  /** `CITY_TABLE`, `GENERIC_CITY` and `DIST_KM`. */
  datatype Catalog = Catalog(
    cityTable: map<string, CityRates>,
    generic: CityRates,
    dist: map<string, seq<Leg>>)

  /** The distance table has the Madrid row every fallback relies on. */
  predicate Valid(cat: Catalog) {
    "Madrid" in cat.dist
  }

  /** `CITY_TABLE[city] || GENERIC_CITY`. */
  function RatesFor(cat: Catalog, city: string): (r: CityRates)
    ensures city !in cat.cityTable ==> r == cat.generic
  {
    if city in cat.cityTable then cat.cityTable[city] else cat.generic
  }

  /** The city's availability list names the class. */
  predicate Supplies(cat: Catalog, city: string, cls: string) {
    cls in RatesFor(cat, city).availability
  }

  /** `DIST_KM[city] || DIST_KM["Madrid"]`. */
  function DistRow(cat: Catalog, city: string): (row: seq<Leg>)
    requires Valid(cat)
    ensures city !in cat.dist ==> row == cat.dist["Madrid"]
  {
    if city in cat.dist then cat.dist[city] else cat.dist["Madrid"]
  }

  /** The distance recorded for `to` in a row: its first entry, if any. */
  function LegKm(row: seq<Leg>, to: string): (km: Option<real>)
    ensures km.None? <==> forall i :: 0 <= i < |row| ==> row[i].city != to
    ensures km.Some? ==> exists i :: 0 <= i < |row| && row[i] == Leg(to, km.value)
  {
    if row == [] then None
    else if row[0].city == to then Some(row[0].km)
    else
      var km := LegKm(row[1..], to);
      assert forall i :: 1 <= i < |row| ==> row[i] == row[1..][i - 1];
      km
  }

  /** `DIST_KM[from]?.[to]`: no fallback to the Madrid row here. */
  function DistKm(cat: Catalog, from: string, to: string): (km: Option<real>)
    ensures from !in cat.dist ==> km.None?
  {
    if from in cat.dist then LegKm(cat.dist[from], to) else None
  }

  // ---------------------------------------------------------------- sort

  /** A row in ascending order of distance. */
  predicate SortedByKm(legs: seq<Leg>) {
    forall i, j :: 0 <= i < j < |legs| ==> legs[i].km <= legs[j].km
  }

  /** Places `x` behind every entry of `legs` that is no farther than it. */
  function InsertLeg(legs: seq<Leg>, x: Leg): (r: seq<Leg>)
    requires SortedByKm(legs)
    ensures SortedByKm(r)
    ensures multiset(r) == multiset(legs) + multiset{x}
    ensures forall i :: 0 <= i < |r| ==> r[i] == x || r[i] in legs
  {
    if legs == [] then [x]
    else if x.km < legs[0].km then [x] + legs
    else
      var rest := InsertLeg(legs[1..], x);
      InsertLegCons(legs, x, rest);
      [legs[0]] + rest
  }

  /** Putting the head of a sorted row back in front of the insertion into
      its tail. */
  lemma {:induction false} InsertLegCons(legs: seq<Leg>, x: Leg, rest: seq<Leg>)
    requires SortedByKm(legs) && legs != [] && legs[0].km <= x.km
    requires SortedByKm(rest) && multiset(rest) == multiset(legs[1..]) + multiset{x}
    requires forall i :: 0 <= i < |rest| ==> rest[i] == x || rest[i] in legs[1..]
    ensures SortedByKm([legs[0]] + rest)
    ensures multiset([legs[0]] + rest) == multiset(legs) + multiset{x}
    ensures forall i :: 0 <= i < |rest| + 1 ==> ([legs[0]] + rest)[i] == x || ([legs[0]] + rest)[i] in legs
  {
    InsertLegBound(legs, x, rest);
    SortedCons(legs[0], rest);
    assert legs == [legs[0]] + legs[1..];
    forall i | 0 <= i < |rest| + 1
      ensures ([legs[0]] + rest)[i] == x || ([legs[0]] + rest)[i] in legs
    {
      if i > 0 {
        assert ([legs[0]] + rest)[i] == rest[i - 1];
      }
    }
  }

  /** A sorted row stays sorted behind an entry no farther than any of it. */
  lemma {:induction false} SortedCons(h: Leg, rest: seq<Leg>)
    requires SortedByKm(rest) && forall i :: 0 <= i < |rest| ==> h.km <= rest[i].km
    ensures SortedByKm([h] + rest)
  {
    var r := [h] + rest;
    forall i, j | 0 <= i < j < |r| ensures r[i].km <= r[j].km {
      assert r[j] == rest[j - 1];
      if i > 0 {
        assert r[i] == rest[i - 1];
      }
    }
  }

  /** The head of a sorted row is no farther than anything inserted behind it. */
  lemma {:induction false} InsertLegBound(legs: seq<Leg>, x: Leg, rest: seq<Leg>)
    requires SortedByKm(legs) && legs != [] && legs[0].km <= x.km
    requires forall i :: 0 <= i < |rest| ==> rest[i] == x || rest[i] in legs[1..]
    ensures forall i :: 0 <= i < |rest| ==> legs[0].km <= rest[i].km
  {
    forall i | 0 <= i < |rest|
      ensures legs[0].km <= rest[i].km
    {
      if rest[i] != x {
        var j :| 0 <= j < |legs[1..]| && legs[1..][j] == rest[i];
        assert legs[j + 1] == rest[i];
      }
    }
  }

  /** `Object.entries(row).sort((a, b) => a[1] - b[1])`: a stable sort by
      distance, so entries at equal distance keep the table's order. */
  function SortByKm(row: seq<Leg>): (r: seq<Leg>)
    ensures SortedByKm(r)
    ensures multiset(r) == multiset(row)
  {
    if row == [] then []
    else
      assert row == row[..|row| - 1] + [row[|row| - 1]];
      InsertLeg(SortByKm(row[..|row| - 1]), row[|row| - 1])
  }

  /** The legs of `legs` that lie exactly `d` km away, in their order. */
  function AtKm(legs: seq<Leg>, d: real): seq<Leg> {
    if legs == [] then []
    else (if legs[0].km == d then [legs[0]] else []) + AtKm(legs[1..], d)
  }

  lemma {:induction false} AtKmAppend(a: seq<Leg>, b: seq<Leg>, d: real)
    ensures AtKm(a + b, d) == AtKm(a, d) + AtKm(b, d)
  {
    if a == [] {
      assert a + b == b;
    } else {
      assert (a + b)[0] == a[0];
      assert (a + b)[1..] == a[1..] + b;
      AtKmAppend(a[1..], b, d);
    }
  }

  /** No leg of a row lying wholly beyond `d` is at `d`. */
  lemma {:induction false} AtKmBeyond(legs: seq<Leg>, d: real)
    requires forall i :: 0 <= i < |legs| ==> d < legs[i].km
    ensures AtKm(legs, d) == []
  {
    if legs != [] {
      AtKmBeyond(legs[1..], d);
    }
  }

  /** Inserting `x` keeps the order of the legs at every distance and puts
      `x` behind those at its own distance. */
  lemma {:induction false} InsertLegStable(legs: seq<Leg>, x: Leg, d: real)
    requires SortedByKm(legs)
    ensures AtKm(InsertLeg(legs, x), d) == AtKm(legs, d) + AtKm([x], d)
  {
    if legs == [] {
      assert InsertLeg(legs, x) == [x];
      assert AtKm(legs, d) == [];
    } else if x.km < legs[0].km {
      assert InsertLeg(legs, x) == [x] + legs;
      FrontStable(legs, x, d);
    } else {
      var rest := InsertLeg(legs[1..], x);
      assert InsertLeg(legs, x) == [legs[0]] + rest;
      InsertLegStable(legs[1..], x, d);
      ConsStable(legs, x, rest, d);
    }
  }

  /** `x` nearer than every leg of a sorted row goes in front without
      passing any leg at its own distance. */
  lemma {:induction false} FrontStable(legs: seq<Leg>, x: Leg, d: real)
    requires SortedByKm(legs) && legs != [] && x.km < legs[0].km
    ensures AtKm([x] + legs, d) == AtKm(legs, d) + AtKm([x], d)
  {
    AtKmAppend([x], legs, d);
    if x.km == d {
      assert forall i :: 0 <= i < |legs| ==> legs[0].km <= legs[i].km;
      AtKmBeyond(legs, d);
      assert AtKm([x], d) + AtKm(legs, d) == AtKm(legs, d) + AtKm([x], d);
    } else {
      assert AtKm([x], d) == [];
      assert AtKm([x], d) + AtKm(legs, d) == AtKm(legs, d) + AtKm([x], d);
    }
  }

  /** Keeping the head in front of a stable insertion into the tail. */
  lemma {:induction false} ConsStable(legs: seq<Leg>, x: Leg, rest: seq<Leg>, d: real)
    requires legs != [] && AtKm(rest, d) == AtKm(legs[1..], d) + AtKm([x], d)
    ensures AtKm([legs[0]] + rest, d) == AtKm(legs, d) + AtKm([x], d)
  {
    var a0, b, c := AtKm([legs[0]], d), AtKm(legs[1..], d), AtKm([x], d);
    AtKmCons(legs[0], rest, d);
    AtKmCons(legs[0], legs[1..], d);
    assert [legs[0]] + legs[1..] == legs;
    assert a0 + (b + c) == (a0 + b) + c;
  }

  lemma {:induction false} AtKmCons(h: Leg, t: seq<Leg>, d: real)
    ensures AtKm([h] + t, d) == AtKm([h], d) + AtKm(t, d)
  {
    assert ([h] + t)[1..] == t;
    assert [h][1..] == [];
  }

  /** The sort is stable: at every distance the sorted row lists the same
      legs, in the same order, as the unsorted one. */
  lemma {:induction false} SortByKmStable(row: seq<Leg>, d: real)
    ensures AtKm(SortByKm(row), d) == AtKm(row, d)
  {
    if row != [] {
      var init, last := row[..|row| - 1], row[|row| - 1];
      SortByKmStable(init, d);
      InsertLegStable(SortByKm(init), last, d);
      assert row == init + [last];
      AtKmAppend(init, [last], d);
    }
  }

  // ---------------------------------------------------------------- supplier

  /** What `pickCityForClass` returns. */
  datatype Pick = Pick(city: string, availableHere: bool)

  /** The position of the first leg whose city supplies `cls`, or `|legs|`. */
  function FirstSupplier(cat: Catalog, legs: seq<Leg>, cls: string): (i: nat)
    ensures i <= |legs|
    ensures i < |legs| ==> Supplies(cat, legs[i].city, cls)
    ensures forall j :: 0 <= j < i ==> !Supplies(cat, legs[j].city, cls)
  {
    if legs == [] then 0
    else if Supplies(cat, legs[0].city, cls) then 0
    else
      var k := FirstSupplier(cat, legs[1..], cls);
      assert forall j :: 1 <= j < k + 1 ==> legs[j] == legs[1..][j - 1];
      k + 1
  }

  /** `pickCityForClass(preferredCity, craneClass)`. */
  function PickCity(cat: Catalog, preferred: string, cls: string): (p: Pick)
    requires Valid(cat)
  {
    if cls == Charts.NeedsReviewName then Pick(preferred, false)
    else if Supplies(cat, preferred, cls) then Pick(preferred, true)
    else
      var sorted := SortByKm(DistRow(cat, preferred));
      var i := FirstSupplier(cat, sorted, cls);
      if i < |sorted| then Pick(sorted[i].city, false) else Pick(preferred, false)
  }

  /** The route's loop: the distance row in ascending order, scanned until a
      city whose availability list names the class. */
  method PickCityForClass(cat: Catalog, preferred: string, cls: string) returns (p: Pick)
    requires Valid(cat)
    ensures p == PickCity(cat, preferred, cls)
  {
    if cls == Charts.NeedsReviewName {
      return Pick(preferred, false);
    }
    if cls in RatesFor(cat, preferred).availability {
      return Pick(preferred, true);
    }
    var sorted := SortByKm(DistRow(cat, preferred));
    var i := 0;
    while i < |sorted|
      invariant 0 <= i <= |sorted|
      invariant forall j :: 0 <= j < i ==> !Supplies(cat, sorted[j].city, cls)
    {
      var r := RatesFor(cat, sorted[i].city);
      if cls in r.availability {
        FirstSupplierIs(cat, sorted, cls, i);
        return Pick(sorted[i].city, false);
      }
      i := i + 1;
    }
    FirstSupplierIs(cat, sorted, cls, i);
    return Pick(preferred, false);
  }

  /** The first supplier is the position before which nobody supplies the
      class and at which somebody does, or the end of the row. */
  lemma {:induction false} FirstSupplierIs(cat: Catalog, legs: seq<Leg>, cls: string, i: nat)
    requires i <= |legs| && (i < |legs| ==> Supplies(cat, legs[i].city, cls))
    requires forall j :: 0 <= j < i ==> !Supplies(cat, legs[j].city, cls)
    ensures FirstSupplier(cat, legs, cls) == i
  {
  }

  /** A class to be agreed later stays at the job's city and is not local. */
  lemma {:induction false} PickNeedsReview(cat: Catalog, preferred: string)
    requires Valid(cat)
    ensures PickCity(cat, preferred, Charts.NeedsReviewName) == Pick(preferred, false)
  {
  }

  /** A class in the local availability list is supplied locally. */
  lemma {:induction false} PickLocal(cat: Catalog, preferred: string, cls: string)
    requires Valid(cat)
    requires cls != Charts.NeedsReviewName && Supplies(cat, preferred, cls)
    ensures PickCity(cat, preferred, cls) == Pick(preferred, true)
  {
  }

  /** Otherwise the supplier is a city of the distance row that has the class,
      and no city of the row that has the class is nearer. */
  lemma {:induction false} PickNearest(cat: Catalog, preferred: string, cls: string, l: Leg)
    requires Valid(cat)
    requires cls != Charts.NeedsReviewName && !Supplies(cat, preferred, cls)
    requires l in DistRow(cat, preferred) && Supplies(cat, l.city, cls)
    ensures !PickCity(cat, preferred, cls).availableHere
    ensures Supplies(cat, PickCity(cat, preferred, cls).city, cls)
    ensures exists m :: m in DistRow(cat, preferred) && m.city == PickCity(cat, preferred, cls).city &&
              m.km <= l.km
  {
    var row := DistRow(cat, preferred);
    var sorted := SortByKm(row);
    var k := SortedIndex(row, l);
    FirstSupplierNearest(cat, sorted, cls, k);
    var i := FirstSupplier(cat, sorted, cls);
    PickAway(cat, preferred, cls);
    SortedMember(row, sorted[i]);
    assert sorted[i] in row && sorted[i].city == PickCity(cat, preferred, cls).city;
  }

  /** Where an entry of the row sits once the row is sorted. */
  lemma {:induction false} SortedIndex(row: seq<Leg>, x: Leg) returns (k: nat)
    requires x in row
    ensures k < |SortByKm(row)| && SortByKm(row)[k] == x
  {
    SortedMember(row, x);
    k :| 0 <= k < |SortByKm(row)| && SortByKm(row)[k] == x;
  }

  /** A class the preferred city lacks comes from the first supplier of the
      sorted row, when there is one. */
  lemma {:induction false} PickAway(cat: Catalog, preferred: string, cls: string)
    requires Valid(cat)
    requires cls != Charts.NeedsReviewName && !Supplies(cat, preferred, cls)
    requires FirstSupplier(cat, SortByKm(DistRow(cat, preferred)), cls) < |SortByKm(DistRow(cat, preferred))|
    ensures var sorted := SortByKm(DistRow(cat, preferred));
      PickCity(cat, preferred, cls) == Pick(sorted[FirstSupplier(cat, sorted, cls)].city, false)
  {
  }

  /** In a row sorted by distance, the first supplier is no farther than any other. */
  lemma {:induction false} FirstSupplierNearest(cat: Catalog, sorted: seq<Leg>, cls: string, k: nat)
    requires SortedByKm(sorted) && k < |sorted| && Supplies(cat, sorted[k].city, cls)
    ensures FirstSupplier(cat, sorted, cls) <= k
    ensures sorted[FirstSupplier(cat, sorted, cls)].km <= sorted[k].km
  {
  }

  /** Sorting keeps exactly the entries of the row. */
  lemma {:induction false} SortedMember(row: seq<Leg>, x: Leg)
    ensures x in SortByKm(row) <==> x in row
  {
    assert x in SortByKm(row) <==> x in multiset(SortByKm(row));
    assert x in row <==> x in multiset(row);
  }

  /** When no city of the row has the class, the job's city is returned, not local. */
  lemma {:induction false} PickNone(cat: Catalog, preferred: string, cls: string)
    requires Valid(cat)
    requires cls != Charts.NeedsReviewName && !Supplies(cat, preferred, cls)
    requires forall l :: l in DistRow(cat, preferred) ==> !Supplies(cat, l.city, cls)
    ensures PickCity(cat, preferred, cls) == Pick(preferred, false)
  {
    var row := DistRow(cat, preferred);
    var sorted := SortByKm(row);
    forall l | l in sorted
      ensures !Supplies(cat, l.city, cls)
    {
      SortedMember(row, l);
    }
    assert FirstSupplier(cat, sorted, cls) == |sorted|;
  }

  // ---------------------------------------------------------------- tables

  /** The seven classes every shipped rate record lists. */
  const AllClasses: seq<string> := ["60T", "90T", "100T", "120T", "150T", "250T", "350T"]

  /** `RIGAR_VALENCIA`. */
  const RigarValencia: CityRates := CityRates(
    Rigar, AllClasses,
    map["60T" := 95.0, "70T" := 102.0, "80T" := 112.0, "90T" := 129.0, "100T" := 139.0,
        "120T" := 179.0, "150T" := 201.0, "200T" := 245.0, "250T" := 286.0, "300T" := 310.0,
        "350T" := 340.0],
    Some(7.0), Some(3.2), map[], map[], map[], map[], map[])

  /** `AGUADO_MADRID`. */
  const AguadoMadrid: CityRates := CityRates(
    Aguado, AllClasses, map[], None, None,
    map["60T" := 85.50, "90T" := 117.00, "100T" := 150.30, "120T" := 154.80, "150T" := 186.30,
        "250T" := 287.10, "350T" := 392.40],
    map["60T" := 6.0, "90T" := 6.0, "100T" := 8.0, "120T" := 8.0, "150T" := 8.0, "250T" := 8.0,
        "350T" := 8.0],
    map["60T" := 2.87, "90T" := 4.50, "100T" := 4.57, "120T" := 4.64, "150T" := 5.60,
        "250T" := 8.83, "350T" := 10.13],
    map["60T" := 177.30, "90T" := 331.20, "100T" := 620.10, "120T" := 891.00, "150T" := 1251.00,
        "250T" := 2921.40, "350T" := 4449.60],
    map["60T" := 0.45, "90T" := 0.40, "100T" := 0.30, "120T" := 0.30, "150T" := 0.30,
        "250T" := 0.20, "350T" := 0.20])

  /** `GENERIC_CITY`. */
  const GenericCity: CityRates := CityRates(
    Generic, AllClasses,
    map["60T" := 190.0, "90T" := 240.0, "100T" := 310.0, "120T" := 380.0, "150T" := 460.0,
        "250T" := 820.0, "350T" := 1000.0],
    Some(4.0), Some(3.0), map[], map[], map[], map[], map[])

  /** `CITY_TABLE`, `GENERIC_CITY` and `DIST_KM` as the route ships them. */
  const Default: Catalog := Catalog(
    map["Madrid" := AguadoMadrid, "Valencia" := RigarValencia, "Barcelona" := GenericCity,
        "Zaragoza" := GenericCity, "Sevilla" := GenericCity],
    GenericCity,
    map[
      "Madrid" := [Leg("Madrid", 0.0), Leg("Valencia", 355.0), Leg("Barcelona", 620.0),
                   Leg("Zaragoza", 315.0), Leg("Sevilla", 530.0)],
      "Valencia" := [Leg("Madrid", 355.0), Leg("Valencia", 0.0), Leg("Barcelona", 350.0),
                     Leg("Zaragoza", 310.0), Leg("Sevilla", 650.0)],
      "Barcelona" := [Leg("Madrid", 620.0), Leg("Valencia", 350.0), Leg("Barcelona", 0.0),
                      Leg("Zaragoza", 300.0), Leg("Sevilla", 1000.0)],
      "Zaragoza" := [Leg("Madrid", 315.0), Leg("Valencia", 310.0), Leg("Barcelona", 300.0),
                     Leg("Zaragoza", 0.0), Leg("Sevilla", 820.0)],
      "Sevilla" := [Leg("Madrid", 530.0), Leg("Valencia", 650.0), Leg("Barcelona", 1000.0),
                    Leg("Zaragoza", 820.0), Leg("Sevilla", 0.0)]])

  /** In the shipped tables every city, known or not, lists the same seven classes. */
  lemma {:induction false} DefaultAvailability(city: string)
    ensures RatesFor(Default, city).availability == AllClasses
  {
  }

  lemma {:induction false} DefaultValid()
    ensures Valid(Default)
  {
  }

  /** With the shipped tables the supplier is always the job's city: a class
      is either local or listed nowhere, so the nearest-city search never
      finds another city. */
  lemma {:induction false} DefaultPickStays(preferred: string, cls: string)
    ensures Valid(Default)
    ensures PickCity(Default, preferred, cls).city == preferred
    ensures PickCity(Default, preferred, cls).availableHere <==>
              cls != Charts.NeedsReviewName && cls in AllClasses
  {
    DefaultAvailability(preferred);
    if cls != Charts.NeedsReviewName && !Supplies(Default, preferred, cls) {
      forall l | l in DistRow(Default, preferred)
        ensures !Supplies(Default, l.city, cls)
      {
        DefaultAvailability(l.city);
      }
      PickNone(Default, preferred, cls);
    }
  }

  /** Every chart class is listed in the shipped availability lists. */
  lemma {:induction false} ChartClassesListed(c: Charts.CraneClass)
    ensures Charts.Name(c) in AllClasses
  {
  }

  /** The shipped distance from a city to itself is 0 for the five known cities. */
  lemma {:induction false} DefaultSelfDistance(city: string)
    requires city in {"Madrid", "Valencia", "Barcelona", "Zaragoza", "Sevilla"}
    ensures DistKm(Default, city, city) == Some(0.0)
  {
  }
}
