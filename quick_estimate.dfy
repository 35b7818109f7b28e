/** The quick estimate of the calculator endpoint: a closed formula on the
    average tonnage, the largest radius and an urgency factor, plus fixed
    reference amounts. */
module QuickEstimate {
  import opened Text
  import opened Money

  // ------------------------------------------------------------- tonnage

  /** `tons.reduce((a, b) => a + b, 0)`. */
  function Sum(xs: seq<nat>): nat
    decreases |xs|
  {
    if xs == [] then 0 else xs[0] + Sum(xs[1..])
  }

  /** `avgT`: the mean of the numbers written in `tonelajes`, or 30 t when it
      holds none. */
  function AverageTons(tonelajes: string): (avg: real)
    ensures DigitRuns(tonelajes) == [] ==> avg == 30.0
  {
    var tons := DigitRuns(tonelajes);
    if tons == [] then 30.0 else Sum(tons) as real / |tons| as real
  }

  /** The average lies between the least and the greatest tonnage given. */
  lemma {:induction false} AverageWithinTons(tonelajes: string, lo: real, hi: real)
    requires DigitRuns(tonelajes) != []
    requires forall i :: 0 <= i < |DigitRuns(tonelajes)| ==> lo <= DigitRuns(tonelajes)[i] as real <= hi
    ensures lo <= AverageTons(tonelajes) <= hi
  {
    MeanWithin(DigitRuns(tonelajes), lo, hi);
  }

  /** The mean of non-empty terms lies between their bounds. */
  lemma {:induction false} MeanWithin(xs: seq<nat>, lo: real, hi: real)
    requires xs != []
    requires forall i :: 0 <= i < |xs| ==> lo <= xs[i] as real <= hi
    ensures lo <= Sum(xs) as real / |xs| as real <= hi
  {
    SumAtLeast(xs, lo);
    SumAtMost(xs, hi);
    MeanBetween(Sum(xs) as real, |xs|, lo, hi);
  }

  /** `n` terms of at least `lo` sum to at least `n × lo`. */
  lemma {:induction false} SumAtLeast(xs: seq<nat>, lo: real)
    requires forall i :: 0 <= i < |xs| ==> lo <= xs[i] as real
    ensures Times(lo, |xs|) <= Sum(xs) as real
    decreases |xs|
  {
    if xs == [] {
      assert Times(lo, 0) == 0.0;
    } else {
      assert forall i :: 0 <= i < |xs| - 1 ==> xs[1..][i] == xs[i + 1];
      SumAtLeast(xs[1..], lo);
      TimesSucc(lo, |xs| - 1);
    }
  }

  /** `n` terms of at most `hi` sum to at most `n × hi`. */
  lemma {:induction false} SumAtMost(xs: seq<nat>, hi: real)
    requires forall i :: 0 <= i < |xs| ==> xs[i] as real <= hi
    ensures Sum(xs) as real <= Times(hi, |xs|)
    decreases |xs|
  {
    if xs == [] {
      assert Times(hi, 0) == 0.0;
    } else {
      assert forall i :: 0 <= i < |xs| - 1 ==> xs[1..][i] == xs[i + 1];
      SumAtMost(xs[1..], hi);
      TimesSucc(hi, |xs| - 1);
    }
  }

  lemma {:induction false} TimesSucc(x: real, n: nat)
    ensures Times(x, n + 1) == Times(x, n) + x
  {
  }

  lemma {:induction false} MeanBetween(sum: real, n: nat, lo: real, hi: real)
    requires n > 0 && Times(lo, n) <= sum <= Times(hi, n)
    ensures lo <= sum / n as real <= hi
  {
    var k := n as real;
    var q := sum / k;
    assert q * k == sum;
    assert (q - lo) * k == sum - Times(lo, n);
    assert (hi - q) * k == Times(hi, n) - sum;
    NonNegativeFactor(q - lo, k);
    NonNegativeFactor(hi - q, k);
  }

  lemma {:induction false} NonNegativeFactor(a: real, n: real)
    requires n > 0.0 && a * n >= 0.0
    ensures a >= 0.0
  {
  }

  /** Text without any digit averages the default 30 t. */
  lemma {:induction false} NoTonsDefault(tonelajes: string)
    requires forall i :: 0 <= i < |tonelajes| ==> !IsDigit(tonelajes[i])
    ensures AverageTons(tonelajes) == 30.0
  {
    NoDigitNoRuns(tonelajes);
  }

  // ------------------------------------------------------------- radius

  /** `Math.max(...xs)` on a non-empty list. */
  function MaxOf(xs: seq<nat>): (m: nat)
    requires xs != []
    ensures forall i :: 0 <= i < |xs| ==> xs[i] <= m
    ensures exists i :: 0 <= i < |xs| && xs[i] == m
    decreases |xs|
  {
    if |xs| == 1 then xs[0]
    else
      var rest := MaxOf(xs[1..]);
      assert forall i :: 1 <= i < |xs| ==> xs[i] == xs[1..][i - 1];
      if xs[0] >= rest then xs[0] else rest
  }

  /** `maxR`: the largest number written in `radios`, with 18 m always among
      the candidates. */
  function MaxRadius(radios: string): nat
  {
    MaxOf(DigitRuns(radios) + [18])
  }

  /** `maxR` is at least 18, at least every radius given, and is 18 or one of them. */
  lemma {:induction false} MaxRadiusSpec(radios: string)
    ensures MaxRadius(radios) >= 18
    ensures forall i :: 0 <= i < |DigitRuns(radios)| ==> DigitRuns(radios)[i] <= MaxRadius(radios)
    ensures MaxRadius(radios) == 18 || MaxRadius(radios) in DigitRuns(radios)
  {
    var rs := DigitRuns(radios);
    var xs := rs + [18];
    assert xs[|rs|] == 18;
    assert forall i :: 0 <= i < |rs| ==> xs[i] == rs[i];
    var k :| 0 <= k < |xs| && xs[k] == MaxOf(xs);
    if k < |rs| {
      assert rs[k] == MaxOf(xs);
    }
  }

  // ------------------------------------------------------------- formula

  /** `base`: 1200 plus 90 per average tonne, plus 80 per metre beyond 20 m. */
  function Base(avgT: real, maxR: nat): real
  {
    1200.0 + avgT * 90.0 + (if maxR > 20 then (maxR - 20) as real * 80.0 else 0.0)
  }

  /** Up to 20 m the radius adds nothing; beyond, the base grows with it. */
  lemma {:induction false} BaseRadiusTerm(avgT: real, r1: nat, r2: nat)
    requires r1 <= r2
    ensures r2 <= 20 ==> Base(avgT, r2) == 1200.0 + avgT * 90.0
    ensures Base(avgT, r1) <= Base(avgT, r2)
    ensures r1 >= 20 ==> Base(avgT, r2) - Base(avgT, r1) == (r2 - r1) as real * 80.0
  {
  }

  /** A character `\b` treats as part of a word. */
  predicate WordChar(c: char) {
    'a' <= c <= 'z' || 'A' <= c <= 'Z' || '0' <= c <= '9' || c == '_'
  }

  /** `\bc\b` matches at `i`: the character `c` with no word character on either side. */
  predicate StandaloneAt(t: string, i: nat, c: char)
    requires i < |t|
  {
    t[i] == c && (i == 0 || !WordChar(t[i - 1])) && (i + 1 == |t| || !WordChar(t[i + 1]))
  }

  /** `/noche|urgente|\b3\b|\b2\b/` on the lower-cased deadline text. */
  predicate Urgent(plazo: string) {
    var t := ToLower(plazo);
    Contains(t, "noche") || Contains(t, "urgente") ||
    exists i :: 0 <= i < |t| && (StandaloneAt(t, i, '3') || StandaloneAt(t, i, '2'))
  }

  /** `urg`: 1.25 for an urgent deadline, 1 otherwise. */
  function Urgency(plazo: string): (u: real)
    ensures u == 1.25 <==> Urgent(plazo)
    ensures u == 1.0 <==> !Urgent(plazo)
  {
    if Urgent(plazo) then 1.25 else 1.0
  }

  /** A lone 2 or 3 between blanks makes the deadline urgent. */
  lemma {:induction false} SpacedDigitUrgent(plazo: string, i: nat)
    requires i < |plazo| && (plazo[i] == '2' || plazo[i] == '3')
    requires i == 0 || plazo[i - 1] == ' '
    requires i + 1 == |plazo| || plazo[i + 1] == ' '
    ensures Urgency(plazo) == 1.25
  {
    var t := ToLower(plazo);
    assert t[i] == plazo[i];
    if i > 0 {
      assert t[i - 1] == ' ';
    }
    if i + 1 < |t| {
      assert t[i + 1] == ' ';
    }
    assert StandaloneAt(t, i, '2') || StandaloneAt(t, i, '3');
  }

  /** The reference amounts added to the subtotal. */
  const CrewDay: int := 1200
  const Crane350Day: int := 4200
  const TransportCoord: int := 750
  const SafetyAndQuality: int := 380

  datatype Estimate = Estimate(subtotal: int, crewDay: int, crane350Day: int,
                               transportCoord: int, safetyAndQuality: int, total: int)

  /** The `estimacion` of the response. */
  function QuickEstimate(tonelajes: string, radios: string, plazo: string): (e: Estimate)
    ensures var exact := Base(AverageTons(tonelajes), MaxRadius(radios)) * Urgency(plazo);
      exact - 0.5 < e.subtotal as real <= exact + 0.5
    ensures e.crewDay == 1200 && e.crane350Day == 4200 && e.transportCoord == 750 && e.safetyAndQuality == 380
    ensures e.total == e.subtotal + e.crewDay + e.crane350Day + e.transportCoord + e.safetyAndQuality
    ensures e.total == e.subtotal + 6530
  {
    var subtotal := RoundHalfUp(Base(AverageTons(tonelajes), MaxRadius(radios)) * Urgency(plazo));
    Estimate(subtotal, CrewDay, Crane350Day, TransportCoord, SafetyAndQuality,
             subtotal + CrewDay + Crane350Day + TransportCoord + SafetyAndQuality)
  }

  /** An urgent deadline raises the subtotal by a quarter, up to rounding. */
  lemma {:induction false} UrgencyRaises(tonelajes: string, radios: string, plazo: string)
    requires Urgent(plazo)
    ensures var base := Base(AverageTons(tonelajes), MaxRadius(radios));
      base * 1.25 - 0.5 < QuickEstimate(tonelajes, radios, plazo).subtotal as real <= base * 1.25 + 0.5
  {
  }

  /** An empty request: 30 t on average, 18 m, no urgency, so 1200 + 2700 =
      3900 and a reference total of 10430. */
  lemma {:induction false} EmptyRequestEstimate()
    ensures QuickEstimate("", "", "").subtotal == 3900
    ensures QuickEstimate("", "", "").total == 10430
  {
    assert DigitRuns("") == [];
    assert MaxOf([18]) == 18;
    assert MaxRadius("") == 18 by {
      assert DigitRuns("") + [18] == [18];
    }
    assert !Urgent("") by {
      assert ToLower("") == "";
      NotContains("", "noche", 0);
      NotContains("", "urgente", 0);
    }
    assert (3900.0 + 0.5).Floor == 3900;
  }
}
