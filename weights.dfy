/** Weight calculator (calculate_vertex_weights, round_float) and normalizer
    (normalize_vertex_weighting, calculate_total_vertex_weight). */
module Weights {
  import opened Outcomes
  import opened Vectors

  /** One (bone name, weight) pair of a vertex's weight list. */
  datatype Entry = Entry(bone: string, weight: real)

  /** Nearest integer to y, ties to the even neighbour (how a decimal format rounds a tie). */
  function RoundHalfEven(y: real): int
  {
    var f := y.Floor;
    var frac := y - f as real;
    if frac < 0.5 then f
    else if frac > 0.5 then f + 1
    else if f % 2 == 0 then f
    else f + 1
  }

  /** round_float: the value formatted with three decimals and read back. */
  function Round3(x: real): (r: real)
    ensures x >= 0.0 ==> r >= 0.0
    ensures -0.0005 <= r - x <= 0.0005
  {
    var n := RoundHalfEven(x * 1000.0);
    assert -0.5 <= n as real - x * 1000.0 <= 0.5;
    n as real / 1000.0
  }

  /** Rounding an already-rounded value leaves it alone. */
  lemma Round3Idempotent(x: real)
    ensures Round3(Round3(x)) == Round3(x)
  {
    var n := RoundHalfEven(x * 1000.0);
    assert Round3(x) * 1000.0 == n as real;
    assert RoundHalfEven(n as real) == n;
  }

  /** The weights calculate_vertex_weights produces for one bone: every index present in both
      snapshots whose position moved, mapped to its rounded displacement over the bone delta. */
  function VertexWeights(newPositions: seq<Vec3>, restPositions: seq<Vec3>, delta: real,
                         distance: (Vec3, Vec3) -> real): map<nat, real>
    requires delta > 0.0
  {
    map i: nat | i < |newPositions| && i < |restPositions| && newPositions[i] != restPositions[i]
      :: Round3(distance(newPositions[i], restPositions[i]) / delta)
  }

  /** calculate_vertex_weights: first the moved indices over the zipped snapshots, then one
      rounded weight per moved index. */
  method CalculateVertexWeights(newPositions: seq<Vec3>, restPositions: seq<Vec3>, delta: real,
                                distance: (Vec3, Vec3) -> real)
    returns (weights: map<nat, real>)
    requires delta > 0.0
    ensures forall i: nat :: i in weights <==>
      i < |newPositions| && i < |restPositions| && newPositions[i] != restPositions[i]
    ensures forall i :: i in weights ==>
      weights[i] == Round3(distance(newPositions[i], restPositions[i]) / delta)
    ensures forall i :: i in weights && distance(newPositions[i], restPositions[i]) >= 0.0 ==>
      weights[i] >= 0.0
    ensures weights == VertexWeights(newPositions, restPositions, delta, distance)
  {
    var n := if |newPositions| < |restPositions| then |newPositions| else |restPositions|;
    var indexList: seq<nat> := [];
    for i := 0 to n
      invariant forall k :: 0 <= k < |indexList| ==> indexList[k] < i
      invariant forall j: nat :: j < i && newPositions[j] != restPositions[j] ==> j in indexList
      invariant forall k :: 0 <= k < |indexList| ==> newPositions[indexList[k]] != restPositions[indexList[k]]
    {
      if newPositions[i] != restPositions[i] {
        indexList := indexList + [i];
      }
    }
    weights := map[];
    for k := 0 to |indexList|
      invariant forall j :: j in weights <==> j in indexList[..k]
      invariant forall j :: j in weights ==>
        weights[j] == Round3(distance(newPositions[j], restPositions[j]) / delta)
    {
      var index := indexList[k];
      var weight := distance(newPositions[index], restPositions[index]) / delta;
      weight := Round3(weight);
      weights := weights[index := weight];
    }
    assert indexList[..|indexList|] == indexList;
    forall i | i in weights && distance(newPositions[i], restPositions[i]) >= 0.0
      ensures weights[i] >= 0.0
    {
      assert Round3(distance(newPositions[i], restPositions[i]) / delta) >= 0.0;
    }
  }

  /** The plain sum of a weight list. */
  function Sum(wl: seq<Entry>): real
  {
    if wl == [] then 0.0 else Sum(wl[..|wl| - 1]) + wl[|wl| - 1].weight
  }

  /** calculate_total_vertex_weight: adds up the non-zero weights, which is the plain sum. */
  method CalculateTotalVertexWeight(wl: seq<Entry>) returns (total: real)
    ensures total == Sum(wl)
  {
    total := 0.0;
    for i := 0 to |wl|
      invariant total == Sum(wl[..i])
    {
      assert wl[..i + 1][..i] == wl[..i];
      if wl[i].weight != 0.0 {
        total := total + wl[i].weight;
      }
    }
    assert wl[..|wl|] == wl;
  }

  /** Every weight of the list divided by `total`, bone names kept in place. */
  function Scaled(wl: seq<Entry>, total: real): seq<Entry>
    requires total != 0.0
  {
    seq(|wl|, i requires 0 <= i < |wl| => Entry(wl[i].bone, wl[i].weight / total))
  }

  /** What normalize_vertex_weighting yields: the list rescaled by its total, or the division
      by zero its first iteration raises when a non-empty list totals zero. */
  function Normalized(wl: seq<Entry>): Result<seq<Entry>>
  {
    if wl == [] then Ok([])
    else if Sum(wl) == 0.0 then Raised(ZeroDivision)
    else Ok(Scaled(wl, Sum(wl)))
  }

  /** normalize_vertex_weighting: divides each weight by the list's total. */
  method NormalizeVertexWeighting(wl: seq<Entry>) returns (r: Result<seq<Entry>>)
    ensures r.Raised? <==> wl != [] && Sum(wl) == 0.0
    ensures r.Ok? ==> |r.value| == |wl|
    ensures r.Ok? ==> forall i :: 0 <= i < |wl| ==>
      r.value[i].bone == wl[i].bone && r.value[i].weight == wl[i].weight / Sum(wl)
    ensures r == Normalized(wl)
  {
    var total := CalculateTotalVertexWeight(wl);
    var normalizedWeightList: seq<Entry> := [];
    for i := 0 to |wl|
      invariant i > 0 ==> total != 0.0
      invariant |normalizedWeightList| == i
      invariant forall k :: 0 <= k < i ==>
        normalizedWeightList[k] == Entry(wl[k].bone, wl[k].weight / total)
    {
      if total == 0.0 {
        return Raised(ZeroDivision);
      }
      normalizedWeightList := normalizedWeightList + [Entry(wl[i].bone, wl[i].weight / total)];
    }
    if wl == [] {
      return Ok([]);
    }
    assert normalizedWeightList == Scaled(wl, total);
    r := Ok(normalizedWeightList);
  }

  lemma {:induction false} SumScaled(wl: seq<Entry>, total: real)
    requires total != 0.0
    ensures Sum(Scaled(wl, total)) == Sum(wl) / total
  {
    if wl != [] {
      var n := |wl| - 1;
      assert Scaled(wl, total)[..n] == Scaled(wl[..n], total);
      SumScaled(wl[..n], total);
    }
  }

  /** A normalized non-empty list sums to one (with exact arithmetic). */
  lemma NormalizedSumsToOne(wl: seq<Entry>)
    requires Normalized(wl).Ok? && wl != []
    ensures Sum(Normalized(wl).value) == 1.0
  {
    SumScaled(wl, Sum(wl));
  }

  /** Normalizing a normalized list changes nothing. */
  lemma NormalizedIdempotent(wl: seq<Entry>)
    requires Normalized(wl).Ok?
    ensures Normalized(Normalized(wl).value) == Normalized(wl)
  {
    if wl != [] {
      var r := Normalized(wl).value;
      NormalizedSumsToOne(wl);
      assert Scaled(r, 1.0) == r;
    }
  }

  lemma {:induction false} SumPositive(wl: seq<Entry>, tolerance: real)
    requires tolerance >= 0.0
    requires forall i :: 0 <= i < |wl| ==> wl[i].weight > tolerance
    ensures wl != [] ==> Sum(wl) > 0.0
    ensures Sum(wl) >= 0.0
  {
    if wl != [] {
      SumPositive(wl[..|wl| - 1], tolerance);
    }
  }

  /** A list whose every weight is above a non-negative tolerance always normalizes. */
  lemma AboveToleranceNormalizes(wl: seq<Entry>, tolerance: real)
    requires tolerance >= 0.0
    requires forall i :: 0 <= i < |wl| ==> wl[i].weight > tolerance
    ensures Normalized(wl).Ok?
  {
    SumPositive(wl, tolerance);
  }
}
