/** determine_weighting from the resolved mesh and root on: walk the bones, measure each
    one, tabulate the weights above the tolerance, normalize, and build the record. */
module Calculation {
  import opened Outcomes
  import opened Settings
  import opened Vectors
  import opened Hierarchy
  import opened Weights
  import opened VertexKeys
  import opened Posing
  import opened Aggregation
  import opened Records

  /** What each bone of `order` measures, every bone perturbed from the rest pose `t0`. */
  function Measurements(t0: map<string, Vec3>, order: seq<Node>, mesh: map<string, Vec3> -> seq<Vec3>,
                        delta: real, distance: (Vec3, Vec3) -> real): seq<Measurement>
    requires delta > 0.0
  {
    seq(|order|, j requires 0 <= j < |order| =>
      Measurement(order[j].name, VertexWeights(mesh(Perturbed(t0, order[j], delta)), mesh(t0), delta, distance)))
  }

  function BoneNames(order: seq<Node>): seq<string>
  {
    seq(|order|, j requires 0 <= j < |order| => order[j].name)
  }

  /** Every list of the table normalized, or the division by zero the first list with a
      zero total raises. */
  function NormalizeTable(t: map<string, seq<Entry>>): Result<map<string, seq<Entry>>>
  {
    if exists k :: k in t && Normalized(t[k]).Raised? then Raised(ZeroDivision)
    else Ok(map k | k in t :: Normalized(t[k]).value)
  }

  /** The result determine_weighting returns for a rest pose `t0`. */
  function Calculated(t0: map<string, Vec3>, root: Node, mesh: map<string, Vec3> -> seq<Vec3>,
                      distance: (Vec3, Vec3) -> real, tolerance: real, config: Config): Result<Value>
    requires config.boneDelta > 0.0
  {
    var order := BoneOrder(root);
    var table := Table(Measurements(t0, order, mesh, config.boneDelta, distance), tolerance);
    if config.normalize then
      match NormalizeTable(table)
      case Raised(e) => Raised(e)
      case Ok(normalized) => Ok(ConsolidateData(normalized, BoneNames(order)))
    else Ok(ConsolidateData(table, BoneNames(order)))
  }

  /** The inner loop of determine_weighting (methods.py lines 98-106): append
      (bone, weight) to the list of every vertex the bone moved above the tolerance, creating
      the list on first use. */
  method RecordBoneWeights(weightData: map<string, seq<Entry>>, ghost done: seq<Measurement>,
                           boneName: string, newVertWeights: map<nat, real>, tolerance: real)
    returns (recorded: map<string, seq<Entry>>)
    requires Tabulates(weightData, done, tolerance)
    ensures Tabulates(recorded, done + [Measurement(boneName, newVertWeights)], tolerance)
  {
    recorded := weightData;
    var todo := newVertWeights.Keys;
    ghost var seen: map<nat, real> := map[];
    forall v: nat ensures Entries(v, done + [Measurement(boneName, seen)], tolerance) == Entries(v, done, tolerance) {
      EntriesSnoc(v, done, Measurement(boneName, seen), tolerance);
    }
    while todo != {}
      invariant todo <= newVertWeights.Keys
      invariant forall v :: v in seen <==> v in newVertWeights && v !in todo
      invariant forall v :: v in seen ==> seen[v] == newVertWeights[v]
      invariant Tabulates(recorded, done + [Measurement(boneName, seen)], tolerance)
      decreases todo
    {
      var vertId :| vertId in todo;
      var weight := newVertWeights[vertId];
      todo := todo - {vertId};
      RecordStep(recorded, done, boneName, seen, vertId, weight, tolerance);
      seen := seen[vertId := weight];
      if weight <= tolerance {
        continue;
      }
      var vertIdString := VertexKey(vertId);
      if vertIdString !in recorded {
        recorded := recorded[vertIdString := []];
      }
      recorded := recorded[vertIdString := recorded[vertIdString] + [Entry(boneName, weight)]];
    }
    assert seen == newVertWeights;
  }

  /** The normalization pass of determine_weighting (methods.py lines 114-119): replace
      every list by its normalized form; a zero total raises out of the whole call. */
  method NormalizeWeightData(weightData: map<string, seq<Entry>>)
    returns (result: Result<map<string, seq<Entry>>>)
    ensures result == NormalizeTable(weightData)
  {
    var normalized := weightData;
    var keys := weightData.Keys;
    while keys != {}
      invariant keys <= weightData.Keys && normalized.Keys == weightData.Keys
      invariant forall k :: k in weightData && k !in keys ==>
        Normalized(weightData[k]).Ok? && normalized[k] == Normalized(weightData[k]).value
      invariant forall k :: k in keys ==> normalized[k] == weightData[k]
      decreases keys
    {
      var vertIdString :| vertIdString in keys;
      keys := keys - {vertIdString};
      var normalizedWeightList := NormalizeVertexWeighting(normalized[vertIdString]);
      if normalizedWeightList.Raised? {
        assert Normalized(weightData[vertIdString]).Raised?;
        return Raised(normalizedWeightList.exception);
      }
      normalized := normalized[vertIdString := normalizedWeightList.value];
    }
    assert !exists k :: k in weightData && Normalized(weightData[k]).Raised?;
    assert (map k | k in weightData :: Normalized(weightData[k]).value) == normalized;
    result := Ok(normalized);
  }

  /** determine_weighting (methods.py lines 48-130) on a resolved mesh, given as the snapshot
      port `mesh`, and a resolved root bone. The pose ends as it started. */
  method DetermineWeighting(pose: Pose, root: Node, mesh: map<string, Vec3> -> seq<Vec3>,
                            distance: (Vec3, Vec3) -> real, tolerance: real, config: Config)
    returns (result: Result<Value>)
    requires config.boneDelta > 0.0
    requires WellFormed(root, pose.translation.Keys)
    modifies pose
    ensures pose.translation == old(pose.translation)
    ensures result == Calculated(old(pose.translation), root, mesh, distance, tolerance, config)
  {
    ghost var t0 := pose.translation;
    var delta := config.boneDelta;
    var restVertPositions := mesh(pose.translation);
    var orderedBoneList := GetOrderedBoneList(root, [root]);
    BoneOrderWellFormed(root, t0.Keys);
    assert orderedBoneList == BoneOrder(root);
    ghost var all := Measurements(t0, orderedBoneList, mesh, delta, distance);
    var weightData: map<string, seq<Entry>> := map[];
    ghost var ms: seq<Measurement> := [];
    TabulatesEmpty(tolerance);

    for index := 0 to |orderedBoneList|
      invariant pose.translation == t0
      invariant ms == all[..index]
      invariant Tabulates(weightData, ms, tolerance)
    {
      var bone := orderedBoneList[index];
      var boneName := bone.name;
      assert bone == BoneOrder(root)[index];
      assert WellFormed(bone, t0.Keys);
      var newVertWeights := PerturbAndMeasure(pose, bone, mesh, restVertPositions, delta, distance);
      weightData := RecordBoneWeights(weightData, ms, boneName, newVertWeights, tolerance);
      ms := ms + [Measurement(boneName, newVertWeights)];
      assert all[..index + 1] == all[..index] + [all[index]];
    }
    assert ms == all;
    TabulatesUnique(weightData, ms, tolerance);
    var boneNameList := BoneNames(orderedBoneList);

    if config.normalize {
      var normalized := NormalizeWeightData(weightData);
      if normalized.Raised? {
        return Raised(normalized.exception);
      }
      weightData := normalized.value;
    }
    result := Ok(ConsolidateData(weightData, boneNameList));
  }

  lemma NormalizedKeepsBones(wl: seq<Entry>, e: Entry)
    requires Normalized(wl).Ok? && e in Normalized(wl).value
    ensures exists i :: 0 <= i < |wl| && wl[i].bone == e.bone
  {
    var r := Normalized(wl).value;
    var i :| 0 <= i < |r| && r[i] == e;
  }

  /** Every bone named in the table, normalized or not, is one of the processed bones. */
  lemma TableBonesAreNamed(ms: seq<Measurement>, tolerance: real, normalize: bool, names: seq<string>)
    requires |names| == |ms| && forall j :: 0 <= j < |ms| ==> names[j] == ms[j].bone
    requires normalize ==> NormalizeTable(Table(ms, tolerance)).Ok?
    ensures var w := if normalize then NormalizeTable(Table(ms, tolerance)).value else Table(ms, tolerance);
      forall k, e: Entry :: k in w && e in w[k] ==> e.bone in names
  {
    var table := Table(ms, tolerance);
    TableNamesProcessedBones(ms, tolerance);
    assert forall k, e: Entry :: k in table && e in table[k] ==> e.bone in names by {
      forall k, e: Entry | k in table && e in table[k] ensures e.bone in names {
        var j :| 0 <= j < |ms| && ms[j].bone == e.bone;
        assert names[j] == e.bone;
      }
    }
    var w := if normalize then NormalizeTable(table).value else table;
    forall k, e: Entry | k in w && e in w[k]
      ensures e.bone in names
    {
      if normalize {
        NormalizedKeepsBones(table[k], e);
      }
    }
  }

  /** The record determine_weighting returns reads back with the root first in its bone
      order, and every bone named in a vertex's list is one of the ordered bones. */
  lemma CalculatedRecordShape(t0: map<string, Vec3>, root: Node, mesh: map<string, Vec3> -> seq<Vec3>,
                              distance: (Vec3, Vec3) -> real, tolerance: real, config: Config)
    requires config.boneDelta > 0.0
    requires Calculated(t0, root, mesh, distance, tolerance, config).Ok?
    ensures var v := Calculated(t0, root, mesh, distance, tolerance, config).value;
      && IsValid(v)
      && Decode(v).Some?
      && Decode(v).value.order == BoneNames(BoneOrder(root))
      && Decode(v).value.order[0] == root.name
      && forall k, e :: k in Decode(v).value.weight && e in Decode(v).value.weight[k] ==>
           e.bone in Decode(v).value.order
  {
    var order := BoneOrder(root);
    var names := BoneNames(order);
    var ms := Measurements(t0, order, mesh, config.boneDelta, distance);
    var table := Table(ms, tolerance);
    var w := if config.normalize then NormalizeTable(table).value else table;
    TableBonesAreNamed(ms, tolerance, config.normalize, names);
    assert Calculated(t0, root, mesh, distance, tolerance, config) == Ok(ConsolidateData(w, names));
    ConsolidatedIsValid(w, names);
    ConsolidateRoundTrip(w, names);
  }

  /** With a non-negative tolerance every recorded weight is positive, so normalization
      cannot divide by zero and the calculation always returns a record. */
  lemma NonNegativeToleranceNeverRaises(t0: map<string, Vec3>, root: Node, mesh: map<string, Vec3> -> seq<Vec3>,
                                        distance: (Vec3, Vec3) -> real, tolerance: real, config: Config)
    requires config.boneDelta > 0.0 && tolerance >= 0.0
    ensures Calculated(t0, root, mesh, distance, tolerance, config).Ok?
  {
    var ms := Measurements(t0, BoneOrder(root), mesh, config.boneDelta, distance);
    var table := Table(ms, tolerance);
    TableTabulates(ms, tolerance);
    forall k | k in table
      ensures Normalized(table[k]).Ok?
    {
      var wl := table[k];
      forall i | 0 <= i < |wl| ensures wl[i].weight > tolerance {
        EntryIff(ParseKey(k), ms, tolerance, wl[i]);
      }
      AboveToleranceNormalizes(wl, tolerance);
    }
  }

  /** A one-vertex mesh whose vertex follows node "root" at a four-thousandth of its height. */
  function CreepingMesh(t: map<string, Vec3>): seq<Vec3>
  {
    if "root" in t then [Vec3(0.0, t["root"].y / 4000.0, 0.0)] else []
  }

  function VerticalDistance(a: Vec3, b: Vec3): real
  {
    if a.y >= b.y then a.y - b.y else b.y - a.y
  }

  lemma ProbeRounding()
    ensures Round3(0.0005 / 2.0) == 0.0
  {
    assert 0.0005 / 2.0 * 1000.0 == 0.25;
    assert (0.25).Floor == 0;
  }

  lemma PerturbedSingleNode(name: string, v: Vec3, delta: real)
    ensures Perturbed(map[name := v], Node(name, true, []), delta) == map[name := AddVector3s(v, Lift(delta))]
  {
    var p := Perturbed(map[name := v], Node(name, true, []), delta);
    assert p.Keys == {name};
  }

  lemma ProbeWeights()
    ensures VertexWeights(CreepingMesh(map["root" := Vec3(0.0, 2.0, 0.0)]),
                          CreepingMesh(map["root" := Vec3(0.0, 0.0, 0.0)]), 2.0, VerticalDistance)
         == map[0 := 0.0]
  {
    assert CreepingMesh(map["root" := Vec3(0.0, 2.0, 0.0)]) == [Vec3(0.0, 0.0005, 0.0)];
    assert CreepingMesh(map["root" := Vec3(0.0, 0.0, 0.0)]) == [Vec3(0.0, 0.0, 0.0)];
    assert VerticalDistance(Vec3(0.0, 0.0005, 0.0), Vec3(0.0, 0.0, 0.0)) == 0.0005;
    ProbeRounding();
  }

  lemma ProbeMeasurements()
    ensures Measurements(map["root" := Vec3(0.0, 0.0, 0.0)], BoneOrder(Node("root", true, [])), CreepingMesh,
                         2.0, VerticalDistance)
         == [Measurement("root", map[0 := 0.0])]
  {
    var t0 := map["root" := Vec3(0.0, 0.0, 0.0)];
    var root := Node("root", true, []);
    assert BoneOrder(root) == [root];
    MeasurementsSingleBone(t0, root, CreepingMesh, 2.0, VerticalDistance);
    var lifted := Perturbed(t0, root, 2.0);
    var up := map["root" := Vec3(0.0, 2.0, 0.0)];
    PerturbedSingleNode("root", Vec3(0.0, 0.0, 0.0), 2.0);
    assert lifted == up;
    ProbeWeights();
    assert VertexWeights(CreepingMesh(lifted), CreepingMesh(t0), 2.0, VerticalDistance) == map[0 := 0.0];
  }

  lemma MeasurementsSingleBone(t0: map<string, Vec3>, bone: Node, mesh: map<string, Vec3> -> seq<Vec3>,
                        delta: real, distance: (Vec3, Vec3) -> real)
    requires delta > 0.0
    ensures Measurements(t0, [bone], mesh, delta, distance)
         == [Measurement(bone.name, VertexWeights(mesh(Perturbed(t0, bone, delta)), mesh(t0), delta, distance))]
  {
  }

  /** With a negative tolerance (the callers default to -1) a weight that rounds to 0.000 is
      recorded, and a vertex whose every weight rounds to zero makes normalization divide by
      zero. Here one bone lifted by the shipped delta of 2 moves its one vertex by 0.0005,
      whose weight Round3(0.00025) is 0.0, so the calculation raises. */
  lemma NegativeToleranceCanRaise()
    ensures Calculated(map["root" := Vec3(0.0, 0.0, 0.0)], Node("root", true, []), CreepingMesh,
                       VerticalDistance, -1.0, Default) == Raised(ZeroDivision)
  {
    var ms := [Measurement("root", map[0 := 0.0])];
    ProbeMeasurements();
    ProbeTable();
    var table := Table(ms, -1.0);
    var zeroList := [Entry("root", 0.0)];
    assert zeroList[..0] == [];
    assert Sum(zeroList) == 0.0;
    assert VertexKey(0) in table && Normalized(table[VertexKey(0)]).Raised?;
    assert NormalizeTable(table) == Raised(ZeroDivision);
    assert Default.boneDelta == 2.0 && Default.normalize;
  }

  lemma ProbeTable()
    ensures var table := Table([Measurement("root", map[0 := 0.0])], -1.0);
      VertexKey(0) in table && table[VertexKey(0)] == [Entry("root", 0.0)]
  {
    var ms := [Measurement("root", map[0 := 0.0])];
    assert ms[..0] == [];
    assert Entries(0, ms, -1.0) == [Entry("root", 0.0)];
    TableKeyIff(ms, -1.0, 0);
  }
}
