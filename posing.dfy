/** The pose port and the per-bone perturbation of determine_weighting (its loop body). */
module Posing {
  import opened Vectors
  import opened Hierarchy
  import opened Weights

  /** The scene's world-space translations, addressed by node name through `xform`. */
  class Pose {
    var translation: map<string, Vec3>

    constructor (initial: map<string, Vec3>)
      ensures translation == initial
    {
      translation := initial;
    }

    /** `xform(name, query=True, translation=True, ws=True)`. */
    function Query(name: string): (v: Vec3)
      reads this
      requires name in translation
      ensures v == translation[name]
    {
      translation[name]
    }

    /** `xform(name, translation=v, ws=True)`: moves the named node only. */
    method SetTranslation(name: string, v: Vec3)
      requires name in translation
      modifies this
      ensures translation == old(translation)[name := v]
    {
      translation := translation[name := v];
    }
  }

  /** The pose while `bone` is measured: the bone lifted by delta, each immediate child
      (joint or not) sunk by delta, every other node where it was. */
  function Perturbed(t: map<string, Vec3>, bone: Node, delta: real): map<string, Vec3>
  {
    map n | n in t ::
      if n == bone.name then AddVector3s(t[n], Lift(delta))
      else if n in ChildNames(bone) then AddVector3s(t[n], Lift(-delta))
      else t[n]
  }

  /** With a non-zero delta, perturbing moves exactly the bone and its immediate children:
      the bone rises by delta, each child drops by delta, and no node is added or lost. */
  lemma PerturbedMovesExactly(t: map<string, Vec3>, bone: Node, delta: real, n: string)
    requires delta != 0.0 && n in t
    ensures Perturbed(t, bone, delta).Keys == t.Keys
    ensures Perturbed(t, bone, delta)[n] != t[n] <==> n == bone.name || n in ChildNames(bone)
    ensures n == bone.name ==> Perturbed(t, bone, delta)[n].y == t[n].y + delta
    ensures n != bone.name && n in ChildNames(bone) ==> Perturbed(t, bone, delta)[n].y == t[n].y - delta
  {
  }

  /** No name occurs twice in `s`. */
  ghost predicate Unique(s: seq<string>)
  {
    forall i, j :: 0 <= i < j < |s| ==> s[i] != s[j]
  }

  /** `t` with every node named in `shifted` sunk by delta. */
  function Sunk(t: map<string, Vec3>, shifted: seq<string>, delta: real): map<string, Vec3>
  {
    map n | n in t :: if n in shifted then AddVector3s(t[n], Lift(-delta)) else t[n]
  }

  lemma UniqueSplit(s: seq<string>, i: nat)
    requires Unique(s) && i < |s|
    ensures s[i] !in s[..i] && s[i] !in s[i + 1..]
    ensures s[..i + 1] == s[..i] + [s[i]] && s[i..] == [s[i]] + s[i + 1..]
  {
  }

  lemma ChildNamesUnique(bone: Node)
    requires DistinctNames(bone)
    ensures Unique(ChildNames(bone)) && bone.name !in ChildNames(bone)
  {
  }

  /** The loop at the start of an iteration: sink every child by delta, recording where each
      child started. */
  method SinkChildren(pose: Pose, names: seq<string>, delta: real)
    returns (childBones: seq<(string, Vec3)>)
    requires Unique(names)
    requires forall k :: 0 <= k < |names| ==> names[k] in pose.translation
    modifies pose
    ensures pose.translation == Sunk(old(pose.translation), names, delta)
    ensures |childBones| == |names|
    ensures forall k :: 0 <= k < |names| ==> childBones[k] == (names[k], old(pose.translation)[names[k]])
  {
    ghost var t0 := pose.translation;
    childBones := [];
    for i := 0 to |names|
      invariant pose.translation == Sunk(t0, names[..i], delta)
      invariant |childBones| == i
      invariant forall k :: 0 <= k < i ==> childBones[k] == (names[k], t0[names[k]])
    {
      var childName := names[i];
      UniqueSplit(names, i);
      var childStart := pose.Query(childName);
      var childMoved := AddVector3s(childStart, Lift(-delta));
      pose.SetTranslation(childName, childMoved);
      childBones := childBones + [(childName, childStart)];
      assert pose.translation == Sunk(t0, names[..i + 1], delta);
    }
    assert names[..|names|] == names;
  }

  /** The loop at the end of an iteration: put every child back where it started. */
  method RestoreChildren(pose: Pose, childBones: seq<(string, Vec3)>, ghost names: seq<string>,
                         ghost t0: map<string, Vec3>, delta: real)
    requires Unique(names) && |childBones| == |names|
    requires forall k :: 0 <= k < |names| ==> names[k] in t0 && childBones[k] == (names[k], t0[names[k]])
    requires pose.translation == Sunk(t0, names, delta)
    modifies pose
    ensures pose.translation == t0
  {
    for i := 0 to |childBones|
      invariant pose.translation == Sunk(t0, names[i..], delta)
    {
      var (childName, childStart) := childBones[i];
      UniqueSplit(names, i);
      pose.SetTranslation(childName, childStart);
      assert pose.translation == Sunk(t0, names[i + 1..], delta);
    }
  }

  /** One iteration of determine_weighting's bone loop: sink the children, lift the bone,
      snapshot the mesh and weigh it against the rest snapshot, then put the bone and the
      children back where they were. */
  method PerturbAndMeasure(pose: Pose, bone: Node, mesh: map<string, Vec3> -> seq<Vec3>,
                           restPositions: seq<Vec3>, delta: real, distance: (Vec3, Vec3) -> real)
    returns (weights: map<nat, real>)
    requires delta > 0.0
    requires bone.name in pose.translation
    requires forall k :: 0 <= k < |bone.children| ==> bone.children[k].name in pose.translation
    requires DistinctNames(bone)
    modifies pose
    ensures pose.translation == old(pose.translation)
    ensures weights == VertexWeights(mesh(Perturbed(old(pose.translation), bone, delta)),
                                     restPositions, delta, distance)
  {
    ghost var t0 := pose.translation;
    var names := ChildNames(bone);
    ChildNamesUnique(bone);
    var childBones := SinkChildren(pose, names, delta);

    var start := pose.Query(bone.name);
    var moved := AddVector3s(start, Lift(delta));
    pose.SetTranslation(bone.name, moved);
    assert pose.translation == Perturbed(t0, bone, delta);

    var newPositions := mesh(pose.translation);
    weights := CalculateVertexWeights(newPositions, restPositions, delta, distance);

    pose.SetTranslation(bone.name, start);
    assert pose.translation == Sunk(t0, names, delta);
    RestoreChildren(pose, childBones, names, t0, delta);
  }
}
