/** Load charts and the crane-class recommender of the quotation route
    (`CAPACITY_BY_CLASS`, `capacityAtRadius`, `recommendCraneClassByCharts`).
    A chart maps sample radii (metres) to the largest liftable load (tonnes);
    between samples the lookup snaps to the lower sample radius. */
module Charts {

  datatype CraneClass = C60 | C90 | C100 | C120 | C150 | C250 | C350

  /** The recommender's answer: a catalogued class, or "A CONVENIR" when none suffices. */
  datatype Choice = Class(crane: CraneClass) | NeedsReview

  datatype Sample = Sample(radius: real, load: real)

  /** The order in which the recommender tries the classes, smallest first. */
  const ClassOrder: seq<CraneClass> := [C60, C90, C100, C120, C150, C250, C350]

  /** Position of a class in `ClassOrder`. */
  function Rank(c: CraneClass): (i: nat)
    ensures i < |ClassOrder| && ClassOrder[i] == c
  {
    match c
    case C60 => 0
    case C90 => 1
    case C100 => 2
    case C120 => 3
    case C150 => 4
    case C250 => 5
    case C350 => 6
  }

  /** The class name the rest of the route works with. */
  function Name(c: CraneClass): string
  {
    match c
    case C60 => "60T"
    case C90 => "90T"
    case C100 => "100T"
    case C120 => "120T"
    case C150 => "150T"
    case C250 => "250T"
    case C350 => "350T"
  }

  const NeedsReviewName: string := "A CONVENIR"

  function ChoiceName(ch: Choice): string
  {
    match ch
    case Class(c) => Name(c)
    case NeedsReview => NeedsReviewName
  }

  /** The radii every chart is sampled at. */
  const Radii: seq<real> := [10.0, 12.0, 14.0, 16.0, 18.0, 20.0, 22.0, 24.0, 26.0, 28.0, 30.0, 35.0, 40.0]

  function Loads(c: CraneClass): (l: seq<real>)
    ensures |l| == |Radii|
  {
    match c
    case C60 => [18.0, 14.0, 11.0, 9.0, 7.0, 6.0, 5.0, 4.0, 3.5, 3.0, 2.5, 1.8, 1.2]
    case C90 => [28.0, 22.0, 18.0, 15.0, 12.0, 10.0, 8.5, 7.5, 6.5, 5.8, 5.0, 3.5, 2.5]
    case C100 => [32.0, 26.0, 22.0, 18.0, 15.0, 13.0, 11.0, 9.5, 8.5, 7.5, 6.5, 4.5, 3.2]
    case C120 => [40.0, 32.0, 28.0, 24.0, 20.0, 17.0, 15.0, 13.0, 11.5, 10.0, 9.0, 6.2, 4.5]
    case C150 => [48.0, 40.0, 34.0, 30.0, 26.0, 22.0, 19.0, 17.0, 15.0, 13.5, 12.0, 8.5, 6.0]
    case C250 => [70.0, 60.0, 52.0, 46.0, 40.0, 35.0, 31.0, 28.0, 26.0, 23.0, 21.0, 16.0, 12.0]
    case C350 => [90.0, 80.0, 70.0, 62.0, 55.0, 49.0, 44.0, 40.0, 37.0, 34.0, 31.0, 24.0, 18.0]
  }

  /** `CAPACITY_BY_CLASS[c]` with its keys in ascending order. */
  function Chart(c: CraneClass): (t: seq<Sample>)
    ensures |t| == |Radii|
    ensures forall i :: 0 <= i < |t| ==> t[i] == Sample(Radii[i], Loads(c)[i])
  {
    seq(|Radii|, i requires 0 <= i < |Radii| => Sample(Radii[i], Loads(c)[i]))
  }

  /** Sample radii strictly increase. */
  predicate Ascending(t: seq<Sample>) {
    forall i, j :: 0 <= i < j < |t| ==> t[i].radius < t[j].radius
  }

  /** Loads never grow from one sample to the next. */
  predicate LoadsNonIncreasing(t: seq<Sample>) {
    forall i :: 0 <= i < |t| - 1 ==> t[i].load >= t[i + 1].load
  }

  lemma {:induction false} StepAscending(t: seq<Sample>)
    requires forall i :: 0 <= i < |t| - 1 ==> t[i].radius < t[i + 1].radius
    ensures Ascending(t)
  {
    if |t| > 1 {
      StepAscending(t[1..]);
      assert forall j :: 1 <= j < |t| ==> t[0].radius < t[1].radius <= t[j].radius;
    }
  }

  lemma {:induction false} LoadsCurve(c: CraneClass)
    ensures forall i :: 0 <= i < |Radii| - 1 ==> Loads(c)[i] >= Loads(c)[i + 1]
  {
    match c
    case C60 => LoadsC60Curve();
    case C90 => LoadsC90Curve();
    case C100 => LoadsC100Curve();
    case C120 => LoadsC120Curve();
    case C150 => LoadsC150Curve();
    case C250 => LoadsC250Curve();
    case C350 => LoadsC350Curve();
  }

  lemma {:induction false} LoadsC60Curve()
    ensures forall i :: 0 <= i < |Radii| - 1 ==> Loads(C60)[i] >= Loads(C60)[i + 1]
  {
  }

  lemma {:induction false} LoadsC90Curve()
    ensures forall i :: 0 <= i < |Radii| - 1 ==> Loads(C90)[i] >= Loads(C90)[i + 1]
  {
  }

  lemma {:induction false} LoadsC100Curve()
    ensures forall i :: 0 <= i < |Radii| - 1 ==> Loads(C100)[i] >= Loads(C100)[i + 1]
  {
  }

  lemma {:induction false} LoadsC120Curve()
    ensures forall i :: 0 <= i < |Radii| - 1 ==> Loads(C120)[i] >= Loads(C120)[i + 1]
  {
  }

  lemma {:induction false} LoadsC150Curve()
    ensures forall i :: 0 <= i < |Radii| - 1 ==> Loads(C150)[i] >= Loads(C150)[i + 1]
  {
  }

  lemma {:induction false} LoadsC250Curve()
    ensures forall i :: 0 <= i < |Radii| - 1 ==> Loads(C250)[i] >= Loads(C250)[i + 1]
  {
  }

  lemma {:induction false} LoadsC350Curve()
    ensures forall i :: 0 <= i < |Radii| - 1 ==> Loads(C350)[i] >= Loads(C350)[i + 1]
  {
  }

  /** Every chart is a proper load curve. */
  lemma {:induction false} ChartIsCurve(c: CraneClass)
    ensures Ascending(Chart(c)) && LoadsNonIncreasing(Chart(c))
  {
    StepAscending(Chart(c));
    LoadsCurve(c);
  }

  /** The stepwise policy: the load of the last sample whose radius does not
      exceed `r`, or of the first sample when `r` lies below all of them. */
  function StepLoad(t: seq<Sample>, r: real): real
    requires |t| > 0
  {
    if |t| == 1 || r < t[1].radius then t[0].load else StepLoad(t[1..], r)
  }

  /** The capacity of class `c` at radius `r`. */
  function CapacityAt(c: CraneClass, r: real): real
  {
    StepLoad(Chart(c), r)
  }

  /** The lookup returns the load of sample `i` for every radius from sample
      `i` up to (not including) sample `i + 1`, and beyond the last sample. */
  lemma {:induction false} StepLoadAt(t: seq<Sample>, i: nat, r: real)
    requires Ascending(t) && i < |t|
    requires t[i].radius <= r && (i == |t| - 1 || r < t[i + 1].radius)
    ensures StepLoad(t, r) == t[i].load
  {
    if i > 0 {
      StepLoadAt(t[1..], i - 1, r);
    }
  }

  /** Below the second sample the lookup returns the first sample's load. */
  lemma {:induction false} StepLoadBelow(t: seq<Sample>, r: real)
    requires |t| > 1 && r < t[1].radius
    ensures StepLoad(t, r) == t[0].load
  {
  }

  /** `capacityAtRadius` at a sample radius returns that sample's load. */
  lemma {:induction false} CapacityAtSample(c: CraneClass, i: nat)
    requires i < |Radii|
    ensures CapacityAt(c, Radii[i]) == Loads(c)[i]
  {
    ChartIsCurve(c);
    StepLoadAt(Chart(c), i, Radii[i]);
  }

  /** Strictly between two samples it returns the lower-radius sample's load. */
  lemma {:induction false} CapacityBetweenSamples(c: CraneClass, i: nat, r: real)
    requires i + 1 < |Radii| && Radii[i] < r < Radii[i + 1]
    ensures CapacityAt(c, r) == Loads(c)[i]
  {
    ChartIsCurve(c);
    StepLoadAt(Chart(c), i, r);
  }

  /** Below 10 m it returns the 10 m load; beyond 40 m the 40 m load. */
  lemma {:induction false} CapacityOutsideChart(c: CraneClass, r: real)
    ensures r <= 10.0 ==> CapacityAt(c, r) == Loads(c)[0]
    ensures r >= 40.0 ==> CapacityAt(c, r) == Loads(c)[12]
  {
    ChartIsCurve(c);
    if r >= 40.0 {
      StepLoadAt(Chart(c), 12, r);
    }
  }

  /** The regression case for the stepwise policy: 13 m reads the 12 m sample, not the 14 m one. */
  lemma {:induction false} CapacityAtThirteenMetres(c: CraneClass)
    ensures CapacityAt(c, 13.0) == CapacityAt(c, 12.0) == Loads(c)[1]
    ensures CapacityAt(c, 13.0) > Loads(c)[2]
  {
    CapacityBetweenSamples(c, 1, 13.0);
    CapacityAtSample(c, 1);
  }

  lemma {:induction false} StepLoadAtMostFirst(t: seq<Sample>, r: real)
    requires |t| > 0 && LoadsNonIncreasing(t)
    ensures StepLoad(t, r) <= t[0].load
  {
    if |t| > 1 && r >= t[1].radius {
      StepLoadAtMostFirst(t[1..], r);
    }
  }

  /** On a proper curve a longer reach never lifts more. */
  lemma {:induction false} StepLoadNonIncreasing(t: seq<Sample>, r1: real, r2: real)
    requires |t| > 0 && Ascending(t) && LoadsNonIncreasing(t) && r1 <= r2
    ensures StepLoad(t, r1) >= StepLoad(t, r2)
  {
    if |t| > 1 {
      if r1 >= t[1].radius {
        StepLoadNonIncreasing(t[1..], r1, r2);
      } else if r2 >= t[1].radius {
        StepLoadAtMostFirst(t[1..], r2);
      }
    }
  }

  lemma {:induction false} CapacityNonIncreasing(c: CraneClass, r1: real, r2: real)
    requires r1 <= r2
    ensures CapacityAt(c, r1) >= CapacityAt(c, r2)
  {
    ChartIsCurve(c);
    StepLoadNonIncreasing(Chart(c), r1, r2);
  }

  /** `capacityAtRadius`: scans the sorted sample radii keeping the last one
      passed, returning early on an exact match or on the first larger one. */
  method CapacityAtRadius(cls: CraneClass, r: real) returns (load: real)
    ensures load == CapacityAt(cls, r)
  {
    var t := Chart(cls);
    ChartIsCurve(cls);
    var last := 0;
    for i := 0 to |t|
      invariant last == if i == 0 then 0 else i - 1
      invariant i > 0 ==> t[last].radius < r
      invariant CapacityAt(cls, r) == StepLoad(t[last..], r)
    {
      if r == t[i].radius {
        StepLoadAt(t, i, r);
        return t[i].load;
      }
      if r < t[i].radius {
        if i == 0 {
          StepLoadBelow(t, r);
        } else {
          StepLoadAt(t, last, r);
        }
        return t[last].load;
      }
      if i > 0 {
        assert t[last..][1..] == t[i..];
      }
      last := i;
    }
    return t[last].load;
  }

  /** The load a class must lift: the piece weight with a 10% rigging and a 30% safety margin. */
  function Required(weightT: real): real
  {
    weightT * 1.1 * 1.3
  }

  predicate Adequate(c: CraneClass, radiusM: real, required: real) {
    CapacityAt(c, radiusM) >= required
  }

  /** The first class of `classes` that can lift `required` at `radiusM`. */
  function FirstAdequate(classes: seq<CraneClass>, radiusM: real, required: real): Choice
  {
    if classes == [] then NeedsReview
    else if Adequate(classes[0], radiusM, required) then Class(classes[0])
    else FirstAdequate(classes[1..], radiusM, required)
  }

  /** The class `recommendCraneClassByCharts` selects. */
  function Recommended(weightT: real, radiusM: real): Choice
  {
    FirstAdequate(ClassOrder, radiusM, Required(weightT))
  }

  /** The first adequate class is the one at the first index whose class is adequate. */
  lemma {:induction false} FirstAdequateAt(classes: seq<CraneClass>, radiusM: real, required: real, i: nat)
    requires i <= |classes|
    requires forall j :: 0 <= j < i ==> !Adequate(classes[j], radiusM, required)
    ensures i < |classes| && Adequate(classes[i], radiusM, required) ==>
      FirstAdequate(classes, radiusM, required) == Class(classes[i])
    ensures i == |classes| ==> FirstAdequate(classes, radiusM, required) == NeedsReview
  {
    if i > 0 {
      FirstAdequateAt(classes[1..], radiusM, required, i - 1);
    }
  }

  /** `recommendCraneClassByCharts`: tries the classes smallest first and returns
      the first whose capacity at the radius covers the required load. */
  method RecommendCraneClassByCharts(weightT: real, radiusM: real) returns (choice: Choice)
    ensures choice == Recommended(weightT, radiusM)
  {
    var required := weightT * 1.1 * 1.3;
    choice := FirstAdequateIn(ClassOrder, radiusM, required);
  }

  /** The loop of `recommendCraneClassByCharts` over a list of classes. */
  method FirstAdequateIn(classes: seq<CraneClass>, radiusM: real, required: real) returns (choice: Choice)
    ensures choice == FirstAdequate(classes, radiusM, required)
  {
    for i := 0 to |classes|
      invariant forall j :: 0 <= j < i ==> !Adequate(classes[j], radiusM, required)
    {
      var capacity := CapacityAtRadius(classes[i], radiusM);
      if capacity >= required {
        FirstAdequateAt(classes, radiusM, required, i);
        return Class(classes[i]);
      }
    }
    FirstAdequateAt(classes, radiusM, required, |classes|);
    return NeedsReview;
  }

  /** Minimality: a recommended class lifts the required load and every
      smaller class does not; "A CONVENIR" exactly when no class does. */
  lemma {:induction false} RecommendedIsMinimal(weightT: real, radiusM: real)
    ensures Recommended(weightT, radiusM).Class? ==>
      var c := Recommended(weightT, radiusM).crane;
      CapacityAt(c, radiusM) >= Required(weightT)
      && forall c' :: Rank(c') < Rank(c) ==> CapacityAt(c', radiusM) < Required(weightT)
    ensures Recommended(weightT, radiusM) == NeedsReview <==>
      forall c :: CapacityAt(c, radiusM) < Required(weightT)
  {
    var req := Required(weightT);
    var k := FirstAdequateIndex(ClassOrder, radiusM, req);
    if k == |ClassOrder| {
      forall c ensures CapacityAt(c, radiusM) < req {
        assert !Adequate(ClassOrder[Rank(c)], radiusM, req);
      }
    } else {
      RankOfOrder(k);
      forall c' | Rank(c') < k ensures CapacityAt(c', radiusM) < req {
        assert !Adequate(ClassOrder[Rank(c')], radiusM, req);
      }
    }
  }

  /** The index of the first adequate class of `classes`, or `|classes|`. */
  lemma {:induction false} FirstAdequateIndex(classes: seq<CraneClass>, radiusM: real, required: real) returns (k: nat)
    ensures k <= |classes|
    ensures forall j :: 0 <= j < k ==> !Adequate(classes[j], radiusM, required)
    ensures k < |classes| ==> Adequate(classes[k], radiusM, required)
    ensures k < |classes| ==> FirstAdequate(classes, radiusM, required) == Class(classes[k])
    ensures k == |classes| ==> FirstAdequate(classes, radiusM, required) == NeedsReview
    decreases |classes|
  {
    if classes == [] || Adequate(classes[0], radiusM, required) {
      k := 0;
    } else {
      var rest := FirstAdequateIndex(classes[1..], radiusM, required);
      k := rest + 1;
      forall j | 0 <= j < k ensures !Adequate(classes[j], radiusM, required) {
        if j > 0 {
          assert classes[j] == classes[1..][j - 1];
        }
      }
    }
  }


  /** `Rank` inverts indexing into `ClassOrder`. */
  lemma RankOfOrder(k: nat)
    requires k < |ClassOrder|
    ensures Rank(ClassOrder[k]) == k
  {
  }


  /** At every radius each class lifts at least as much as the one before it. */
  lemma {:induction false} StepLoadDominated(t: seq<Sample>, u: seq<Sample>, r: real)
    requires |t| == |u| > 0
    requires forall i :: 0 <= i < |t| ==> t[i].radius == u[i].radius && t[i].load <= u[i].load
    ensures StepLoad(t, r) <= StepLoad(u, r)
  {
    if |t| > 1 && r >= t[1].radius {
      StepLoadDominated(t[1..], u[1..], r);
    }
  }

  /** Each class's chart dominates the previous class's, sample by sample. */
  lemma {:induction false} LoadsDominate(i: nat)
    requires i + 1 < |ClassOrder|
    ensures forall k :: 0 <= k < |Radii| ==> Loads(ClassOrder[i])[k] <= Loads(ClassOrder[i + 1])[k]
  {
    if i == 0 {
      LoadsC90Dominates();
    } else if i == 1 {
      LoadsC100Dominates();
    } else if i == 2 {
      LoadsC120Dominates();
    } else if i == 3 {
      LoadsC150Dominates();
    } else if i == 4 {
      LoadsC250Dominates();
    } else {
      LoadsC350Dominates();
    }
  }

  lemma {:induction false} LoadsC90Dominates()
    ensures forall k :: 0 <= k < |Radii| ==> Loads(C60)[k] <= Loads(C90)[k]
  {
  }

  lemma {:induction false} LoadsC100Dominates()
    ensures forall k :: 0 <= k < |Radii| ==> Loads(C90)[k] <= Loads(C100)[k]
  {
  }

  lemma {:induction false} LoadsC120Dominates()
    ensures forall k :: 0 <= k < |Radii| ==> Loads(C100)[k] <= Loads(C120)[k]
  {
  }

  lemma {:induction false} LoadsC150Dominates()
    ensures forall k :: 0 <= k < |Radii| ==> Loads(C120)[k] <= Loads(C150)[k]
  {
  }

  lemma {:induction false} LoadsC250Dominates()
    ensures forall k :: 0 <= k < |Radii| ==> Loads(C150)[k] <= Loads(C250)[k]
  {
  }

  lemma {:induction false} LoadsC350Dominates()
    ensures forall k :: 0 <= k < |Radii| ==> Loads(C250)[k] <= Loads(C350)[k]
  {
  }

  lemma {:induction false} CapacityGrowsWithClass(a: CraneClass, b: CraneClass, r: real)
    requires Rank(a) <= Rank(b)
    ensures CapacityAt(a, r) <= CapacityAt(b, r)
  {
    var i := Rank(a);
    while i < Rank(b)
      invariant Rank(a) <= i <= Rank(b)
      invariant CapacityAt(a, r) <= CapacityAt(ClassOrder[i], r)
    {
      CapacityStep(i, r);
      i := i + 1;
    }
  }

  /** The next class up lifts at least as much at any radius. */
  lemma {:induction false} CapacityStep(i: nat, r: real)
    requires i + 1 < |ClassOrder|
    ensures CapacityAt(ClassOrder[i], r) <= CapacityAt(ClassOrder[i + 1], r)
  {
    LoadsDominate(i);
    StepLoadDominated(Chart(ClassOrder[i]), Chart(ClassOrder[i + 1]), r);
  }

  /** Adequacy is upward closed: every class after the recommended one would also do. */
  lemma {:induction false} LargerClassesAlsoAdequate(weightT: real, radiusM: real, c: CraneClass)
    requires Recommended(weightT, radiusM).Class?
    requires Rank(c) >= Rank(Recommended(weightT, radiusM).crane)
    ensures CapacityAt(c, radiusM) >= Required(weightT)
  {
    RecommendedIsMinimal(weightT, radiusM);
    CapacityGrowsWithClass(Recommended(weightT, radiusM).crane, c, radiusM);
  }

  /** Position of a choice in the order, "A CONVENIR" last. */
  function ChoiceRank(ch: Choice): nat
  {
    match ch
    case Class(c) => Rank(c)
    case NeedsReview => |ClassOrder|
  }

  /** A heavier piece never gets a smaller class. */
  lemma {:induction false} RecommendedMonotoneInWeight(w1: real, w2: real, radiusM: real)
    requires w1 <= w2
    ensures ChoiceRank(Recommended(w1, radiusM)) <= ChoiceRank(Recommended(w2, radiusM))
  {
    RecommendedIsMinimal(w1, radiusM);
    RecommendedIsMinimal(w2, radiusM);
    assert Required(w1) <= Required(w2);
  }

  /** A longer reach never gets a smaller class. */
  lemma {:induction false} RecommendedMonotoneInRadius(weightT: real, r1: real, r2: real)
    requires r1 <= r2
    ensures ChoiceRank(Recommended(weightT, r1)) <= ChoiceRank(Recommended(weightT, r2))
  {
    RecommendedIsMinimal(weightT, r1);
    RecommendedIsMinimal(weightT, r2);
    if Recommended(weightT, r2).Class? {
      CapacityNonIncreasing(Recommended(weightT, r2).crane, r1, r2);
    }
  }

  /** Worked cases: 10 t at 10 m, 35 t at 18 m, 5 t at 13 m, 500 t at 10 m. */
  lemma {:induction false} RecommendTenTonnesAtTen()
    ensures Recommended(10.0, 10.0) == Class(C60)
  {
    CapacityAtSample(C60, 0);
  }

  lemma {:induction false} RecommendHeavyAtEighteen()
    ensures Recommended(35.0, 18.0) == Class(C350)
  {
    CapacityAtSample(C60, 4);
    CapacityAtSample(C90, 4);
    CapacityAtSample(C100, 4);
    CapacityAtSample(C120, 4);
    CapacityAtSample(C150, 4);
    CapacityAtSample(C250, 4);
    CapacityAtSample(C350, 4);
  }

  lemma {:induction false} RecommendBetweenSamples()
    ensures Recommended(5.0, 13.0) == Class(C60)
  {
    CapacityBetweenSamples(C60, 1, 13.0);
  }

  lemma {:induction false} RecommendTooHeavy()
    ensures Recommended(500.0, 10.0) == NeedsReview
  {
    CapacityAtSample(C350, 0);
    NeedsReviewExactlyWhenLargestFails(500.0, 10.0);
  }

  /** "A CONVENIR" is returned exactly when even the largest class falls short. */
  lemma {:induction false} NeedsReviewExactlyWhenLargestFails(weightT: real, radiusM: real)
    ensures Recommended(weightT, radiusM) == NeedsReview <==>
      CapacityAt(C350, radiusM) < Required(weightT)
  {
    RecommendedIsMinimal(weightT, radiusM);
    if CapacityAt(C350, radiusM) < Required(weightT) {
      forall c ensures CapacityAt(c, radiusM) < Required(weightT) {
        CapacityGrowsWithClass(c, C350, radiusM);
      }
    }
  }

}
