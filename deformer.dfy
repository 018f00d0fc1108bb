/** The skin deformer port (a skinCluster driven through `skinPercent`) and
    remove_all_weighting. */
module Deformer {
  import opened Outcomes
  import opened Weights

  /** The weight vertex `vid` has for bone `b`; an influence never assigned weighs zero. */
  function WeightOf(w: map<(string, string), real>, vid: string, b: string): real
  {
    if (vid, b) in w then w[(vid, b)] else 0.0
  }

  /** The list names bone `b`. */
  predicate Mentions(tv: seq<Entry>, b: string)
  {
    exists i :: 0 <= i < |tv| && tv[i].bone == b
  }

  /** The weight the last pair naming `b` gives. */
  function LastWeight(tv: seq<Entry>, b: string): real
    requires Mentions(tv, b)
  {
    if tv[|tv| - 1].bone == b then tv[|tv| - 1].weight
    else
      assert Mentions(tv[..|tv| - 1], b) by {
        var i :| 0 <= i < |tv| && tv[i].bone == b;
        assert tv[..|tv| - 1][i] == tv[i];
      }
      LastWeight(tv[..|tv| - 1], b)
  }

  /** The table after `skinPercent(vertex, tv=tv)` with normalization off: each pair, in
      order, sets that vertex's weight for its bone. */
  function SetWeights(w: map<(string, string), real>, vid: string, tv: seq<Entry>): map<(string, string), real>
  {
    if tv == [] then w
    else SetWeights(w, vid, tv[..|tv| - 1])[(vid, tv[|tv| - 1].bone) := tv[|tv| - 1].weight]
  }

  /** The first bone of the list that is not an influence of the deformer. */
  function FirstForeign(tv: seq<Entry>, influences: set<string>): Option<string>
  {
    if tv == [] then None
    else if tv[0].bone !in influences then Some(tv[0].bone)
    else FirstForeign(tv[1..], influences)
  }

  /** The first position in `s` where `p` holds, or |s| when it holds nowhere. */
  function FirstWhere<T>(s: seq<T>, p: T -> bool): (n: nat)
    ensures n <= |s|
    ensures forall j :: 0 <= j < n ==> !p(s[j])
    ensures n < |s| ==> p(s[n])
  {
    if s == [] then 0 else if p(s[0]) then 0 else 1 + FirstWhere(s[1..], p)
  }

  /** A skinCluster: its bound influences and mesh vertices, its per-vertex, per-influence
      weights and its normalization mode. */
  class SkinCluster {
    const influences: set<string>
    const vertices: set<string>
    var weights: map<(string, string), real>
    var normalizeWeights: bool

    constructor (influences: set<string>, vertices: set<string>, weights: map<(string, string), real>)
      ensures this.influences == influences && this.vertices == vertices
      ensures this.weights == weights && normalizeWeights
    {
      this.influences := influences;
      this.vertices := vertices;
      this.weights := weights;
      normalizeWeights := true;
    }

    /** `setNormalizeWeights`: switches the deformer's own normalization. */
    method SetNormalizeWeights(on: bool)
      modifies this
      ensures normalizeWeights == on && weights == old(weights)
    {
      normalizeWeights := on;
    }

    /** `skinPercent(cluster, vertex, tv=tv)` with normalization off: sets the listed
        weights, or changes nothing and reports the error it raises. */
    method SkinPercent(vid: string, tv: seq<Entry>) returns (error: Option<string>)
      requires !normalizeWeights
      modifies this
      ensures error == Rejection(this, vid, tv)
      ensures weights == if error.None? then SetWeights(old(weights), vid, tv) else old(weights)
      ensures normalizeWeights == old(normalizeWeights)
    {
      error := Rejection(this, vid, tv);
      if error.None? {
        weights := SetWeights(weights, vid, tv);
      }
    }
  }

  /** The RuntimeError text `skinPercent` raises: an unknown vertex, or a listed bone that
      is not an influence of the deformer; None when it accepts the call. */
  function Rejection(c: SkinCluster, vid: string, tv: seq<Entry>): Option<string>
  {
    if vid !in c.vertices then Some("Invalid vertex: " + vid)
    else match FirstForeign(tv, c.influences)
      case None => None
      case Some(b) => Some("Invalid influence: " + b)
  }

  /** The list remove_all_weighting assigns: every ordered bone at weight zero. */
  function Zeros(bones: seq<string>): seq<Entry>
  {
    seq(|bones|, i requires 0 <= i < |bones| => Entry(bones[i], 0.0))
  }

  /** The table after every vertex of `vids` has been given the zero list. */
  function ZeroFill(w: map<(string, string), real>, bones: seq<string>, vids: seq<string>): map<(string, string), real>
  {
    if vids == [] then w
    else SetWeights(ZeroFill(w, bones, vids[..|vids| - 1]), vids[|vids| - 1], Zeros(bones))
  }

  /** The position of the first vertex whose reset `skinPercent` rejects. */
  function FirstResetRejected(c: SkinCluster, bones: seq<string>, vids: seq<string>): nat
  {
    FirstWhere(vids, (vid: string) => Rejection(c, vid, Zeros(bones)).Some?)
  }

  /** remove_all_weighting: gives every vertex of `vertList` weight zero for every bone of
      `boneList`. A rejected call is not caught, so it ends the loop and raises. */
  method RemoveAllWeighting(c: SkinCluster, boneList: seq<string>, vertList: seq<string>)
    returns (r: Result<bool>)
    requires !c.normalizeWeights
    modifies c
    ensures !c.normalizeWeights
    ensures var n := FirstResetRejected(c, boneList, vertList);
      && c.weights == ZeroFill(old(c.weights), boneList, vertList[..n])
      && r == if n < |vertList| then Raised("RuntimeError: " + Rejection(c, vertList[n], Zeros(boneList)).value)
              else Ok(true)
  {
    var zeroValueList := Zeros(boneList);
    ghost var w0 := c.weights;
    ghost var n := FirstResetRejected(c, boneList, vertList);
    for i := 0 to |vertList|
      invariant i <= n
      invariant !c.normalizeWeights
      invariant c.weights == ZeroFill(w0, boneList, vertList[..i])
    {
      var error := c.SkinPercent(vertList[i], zeroValueList);
      if error.Some? {
        return Raised("RuntimeError: " + error.value);
      }
      assert vertList[..i + 1][..i] == vertList[..i];
    }
    assert vertList[..|vertList|] == vertList;
    r := Ok(true);
  }

  /** The weight `SetWeights` leaves at each cell: the last listed weight for a listed bone of
      that vertex, the previous weight everywhere else. */
  lemma {:induction false} SetWeightsAt(w: map<(string, string), real>, vid: string, tv: seq<Entry>,
                                        u: string, b: string)
    ensures WeightOf(SetWeights(w, vid, tv), u, b)
         == if u == vid && Mentions(tv, b) then LastWeight(tv, b) else WeightOf(w, u, b)
  {
    if tv != [] {
      var init := tv[..|tv| - 1];
      SetWeightsAt(w, vid, init, u, b);
      if Mentions(tv, b) && tv[|tv| - 1].bone != b {
        var i :| 0 <= i < |tv| && tv[i].bone == b;
        assert init[i] == tv[i];
      }
      if Mentions(init, b) {
        var i :| 0 <= i < |init| && init[i].bone == b;
        assert tv[i] == init[i];
      }
    }
  }

  lemma ZerosAt(bones: seq<string>, b: string)
    ensures Mentions(Zeros(bones), b) <==> b in bones
    ensures b in bones ==> LastWeight(Zeros(bones), b) == 0.0
  {
    var z := Zeros(bones);
    if b in bones {
      var i :| 0 <= i < |bones| && bones[i] == b;
      assert z[i].bone == b;
      LastWeightIsListed(z, b);
    }
  }

  /** The last weight for a bone is one of the weights listed for it. */
  lemma {:induction false} LastWeightIsListed(tv: seq<Entry>, b: string)
    requires Mentions(tv, b)
    ensures exists i :: 0 <= i < |tv| && tv[i] == Entry(b, LastWeight(tv, b))
  {
    if tv[|tv| - 1].bone != b {
      var init := tv[..|tv| - 1];
      assert Mentions(init, b) by {
        var i :| 0 <= i < |tv| && tv[i].bone == b;
        assert init[i] == tv[i];
      }
      LastWeightIsListed(init, b);
      var i :| 0 <= i < |init| && init[i] == Entry(b, LastWeight(init, b));
      assert tv[i] == init[i];
    }
  }

  /** After the reset, every vertex of `vids` weighs zero for every bone of `bones`; every
      other cell is as before. */
  lemma {:induction false} ZeroFillAt(w: map<(string, string), real>, bones: seq<string>, vids: seq<string>,
                                      u: string, b: string)
    ensures WeightOf(ZeroFill(w, bones, vids), u, b)
         == if u in vids && b in bones then 0.0 else WeightOf(w, u, b)
  {
    if vids != [] {
      var init := vids[..|vids| - 1];
      ZeroFillAt(w, bones, init, u, b);
      SetWeightsAt(ZeroFill(w, bones, init), vids[|vids| - 1], Zeros(bones), u, b);
      ZerosAt(bones, b);
      assert u in vids <==> u in init || u == vids[|vids| - 1];
    }
  }
}
