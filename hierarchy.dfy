/** The bone hierarchy and the walker that orders it (get_ordered_bone_list). */
module Hierarchy {

  /** A scene node: its name, whether it is a joint, and its children in the scene's order. */
  datatype Node = Node(name: string, joint: bool, children: seq<Node>)

  /** The joints below the nodes `cs`, depth-first and pre-order: a joint child is listed and
      then its own joints; a non-joint child is skipped together with everything under it. */
  function JointsBelow(cs: seq<Node>): seq<Node>
    decreases cs
  {
    if cs == [] then []
    else (if cs[0].joint then [cs[0]] + JointsBelow(cs[0].children) else []) + JointsBelow(cs[1..])
  }

  /** The order determine_weighting processes: the root first (joint or not), then its joints. */
  function BoneOrder(root: Node): seq<Node>
  {
    [root] + JointsBelow(root.children)
  }

  /** `x` can be reached from one of `cs` along a path made only of joints. */
  ghost predicate JointReachable(cs: seq<Node>, x: Node)
    decreases cs
  {
    exists i :: 0 <= i < |cs| && cs[i].joint && (cs[i] == x || JointReachable(cs[i].children, x))
  }

  /** get_ordered_bone_list: appends to `boneList` every joint below `bone`, recursing into
      each joint child right after appending it. */
  method GetOrderedBoneList(bone: Node, boneList: seq<Node>) returns (list: seq<Node>)
    ensures list == boneList + JointsBelow(bone.children)
    decreases bone
  {
    list := boneList;
    for i := 0 to |bone.children|
      invariant list == boneList + JointsBelow(bone.children[..i])
    {
      var child := bone.children[i];
      JointsBelowAppend(bone.children[..i], [child]);
      assert bone.children[..i + 1] == bone.children[..i] + [child];
      assert JointsBelow([child]) == (if child.joint then [child] + JointsBelow(child.children) else []);
      if !child.joint {
        continue;
      }
      list := list + [child];
      list := GetOrderedBoneList(child, list);
    }
    assert bone.children[..|bone.children|] == bone.children;
  }

  /** The walk over a concatenation of sibling lists is the concatenation of the walks. */
  lemma {:induction false} JointsBelowAppend(a: seq<Node>, b: seq<Node>)
    ensures JointsBelow(a + b) == JointsBelow(a) + JointsBelow(b)
    decreases a
  {
    if a == [] {
      assert a + b == b;
    } else {
      assert (a + b)[0] == a[0];
      assert (a + b)[1..] == a[1..] + b;
      JointsBelowAppend(a[1..], b);
    }
  }

  /** Exactly the nodes reachable along joint-only paths appear in the walk. */
  lemma {:induction false} JointsBelowIffReachable(cs: seq<Node>, x: Node)
    ensures x in JointsBelow(cs) <==> JointReachable(cs, x)
    decreases cs
  {
    if cs != [] {
      JointsBelowIffReachable(cs[0].children, x);
      JointsBelowIffReachable(cs[1..], x);
      if JointReachable(cs[1..], x) {
        var i :| 0 <= i < |cs[1..]| && cs[1..][i].joint
                 && (cs[1..][i] == x || JointReachable(cs[1..][i].children, x));
        assert cs[i + 1] == cs[1..][i];
      }
      if JointReachable(cs, x) {
        var i :| 0 <= i < |cs| && cs[i].joint && (cs[i] == x || JointReachable(cs[i].children, x));
        if i > 0 {
          assert cs[1..][i - 1] == cs[i];
        }
      }
    }
  }

  /** Every node the walk lists is a joint. */
  lemma {:induction false} JointsBelowAreJoints(cs: seq<Node>)
    ensures forall k :: 0 <= k < |JointsBelow(cs)| ==> JointsBelow(cs)[k].joint
    decreases cs
  {
    if cs != [] {
      JointsBelowAreJoints(cs[0].children);
      JointsBelowAreJoints(cs[1..]);
    }
  }

  /** Children that are all non-joints give an empty walk, whatever lies beneath them. */
  lemma {:induction false} NoJointChildrenNoJoints(cs: seq<Node>)
    requires forall i :: 0 <= i < |cs| ==> !cs[i].joint
    ensures JointsBelow(cs) == []
    decreases cs
  {
    if cs != [] {
      NoJointChildrenNoJoints(cs[1..]);
    }
  }

  /** The seeded walk starts with the root and lists only joints after it. */
  lemma BoneOrderShape(root: Node)
    ensures |BoneOrder(root)| >= 1 && BoneOrder(root)[0] == root
    ensures forall k :: 1 <= k < |BoneOrder(root)| ==> BoneOrder(root)[k].joint
  {
    JointsBelowAreJoints(root.children);
  }

  /** The names of a node's immediate children, in order. */
  function ChildNames(n: Node): seq<string>
  {
    seq(|n.children|, i requires 0 <= i < |n.children| => n.children[i].name)
  }

  /** A node's name differs from its children's names, which differ from each other: what
      the name-addressed pose port needs to move and restore them independently. */
  ghost predicate DistinctNames(n: Node)
  {
    && n.name !in ChildNames(n)
    && forall i, j :: 0 <= i < j < |n.children| ==> n.children[i].name != n.children[j].name
  }

  /** Every node of the tree has its name in `keys` and distinct names around it. */
  ghost predicate WellFormed(n: Node, keys: set<string>)
    decreases n
  {
    && n.name in keys
    && DistinctNames(n)
    && forall i :: 0 <= i < |n.children| ==> WellFormed(n.children[i], keys)
  }

  /** Every node the walk lists is itself a well-formed subtree. */
  lemma {:induction false} JointsBelowWellFormed(cs: seq<Node>, keys: set<string>)
    requires forall i :: 0 <= i < |cs| ==> WellFormed(cs[i], keys)
    ensures forall k :: 0 <= k < |JointsBelow(cs)| ==> WellFormed(JointsBelow(cs)[k], keys)
    decreases cs
  {
    if cs != [] {
      JointsBelowWellFormed(cs[0].children, keys);
      JointsBelowWellFormed(cs[1..], keys);
    }
  }

  /** Every bone of the seeded order is a well-formed subtree of a well-formed root. */
  lemma BoneOrderWellFormed(root: Node, keys: set<string>)
    requires WellFormed(root, keys)
    ensures forall k :: 0 <= k < |BoneOrder(root)| ==> WellFormed(BoneOrder(root)[k], keys)
  {
    JointsBelowWellFormed(root.children, keys);
  }
}
