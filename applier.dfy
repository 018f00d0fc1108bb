/** apply_weighting: resolve the skin cluster, reset every data vertex, then assign each
    vertex's weight list, collecting distinct failures instead of stopping. */
module Applier {
  import opened Outcomes
  import opened Settings
  import opened Weights
  import opened Records
  import opened Deformer

  const UnboundClusterMessage: string := "UnboundLocalError: local variable 'py_cluster' referenced before assignment"
  const NoSkinClusterMessage: string := "No skin cluster found, apply one to the mesh passed in"
  const SuccessMessage: string := "Success"

  function FailureText(error: string): string
  {
    "Bone Failure: " + error
  }

  /** `visit` lists each key of `keys` exactly once: the order in which the dictionary's
      keys are iterated. */
  ghost predicate Enumerates(visit: seq<string>, keys: set<string>)
  {
    && (forall v :: v in visit <==> v in keys)
    && forall i, j :: 0 <= i < j < |visit| ==> visit[i] != visit[j]
  }

  /** The table after each vertex of `vids` has been offered its list from `table`; a
      rejected vertex is left as it was and the loop goes on. */
  function AssignAll(c: SkinCluster, w: map<(string, string), real>, table: map<string, seq<Entry>>,
                     vids: seq<string>): map<(string, string), real>
    requires forall v :: v in vids ==> v in table
  {
    if vids == [] then w
    else
      var vid := vids[|vids| - 1];
      var before := AssignAll(c, w, table, vids[..|vids| - 1]);
      if Rejection(c, vid, table[vid]).None? then SetWeights(before, vid, table[vid]) else before
  }

  /** The failure list after `vids`: each rejection's text, prefixed, kept only the first
      time it occurs. */
  function Failures(c: SkinCluster, table: map<string, seq<Entry>>, vids: seq<string>): seq<string>
    requires forall v :: v in vids ==> v in table
  {
    if vids == [] then []
    else
      var vid := vids[|vids| - 1];
      var before := Failures(c, table, vids[..|vids| - 1]);
      match Rejection(c, vid, table[vid])
      case None => before
      case Some(e) => if FailureText(e) in before then before else before + [FailureText(e)]
  }

  /** The position in `visit` of the first vertex whose weight list cannot be normalized
      (non-empty, summing to zero), or |visit| when there is none or normalization is off. */
  function FirstUnnormalizable(table: map<string, seq<Entry>>, visit: seq<string>, normalize: bool): (p: nat)
    requires forall v :: v in visit ==> v in table
    ensures p <= |visit|
    ensures forall i :: 0 <= i < p ==> !(normalize && Normalized(table[visit[i]]).Raised?)
    ensures p < |visit| ==> normalize && Normalized(table[visit[p]]).Raised?
  {
    if normalize
    then FirstWhere(visit, (vid: string) => vid in table && Normalized(table[vid]).Raised?)
    else |visit|
  }

  /** What apply_weighting returns, the failures it collected and the deformer's table. */
  datatype Applied = Applied(outcome: Result<Verdict>, failures: seq<string>, weights: map<(string, string), real>)

  /** apply_weighting on a resolved cluster `c` whose table starts as `w0`. */
  function ApplySpec(c: SkinCluster, w0: map<(string, string), real>, data: SkinData,
                     visit: seq<string>, normalize: bool): Applied
    requires forall v :: v in visit ==> v in data.weight
  {
    var n := FirstResetRejected(c, data.order, visit);
    if n < |visit| then
      Applied(Raised("RuntimeError: " + Rejection(c, visit[n], Zeros(data.order)).value), [],
              ZeroFill(w0, data.order, visit[..n]))
    else
      var reset := ZeroFill(w0, data.order, visit);
      var p := FirstUnnormalizable(data.weight, visit, normalize);
      if p < |visit| then Applied(Raised(ZeroDivision), [], AssignAll(c, reset, data.weight, visit[..p]))
      else Applied(Ok(Verdict(true, SuccessMessage)), Failures(c, data.weight, visit),
                   AssignAll(c, reset, data.weight, visit))
  }

  /** The assignment loop of apply_weighting (methods.py lines 173-194): each vertex's list is
      normalized when asked (which may raise), then offered to the cluster; rejections are
      collected without repeats. */
  method AssignWeights(cluster: SkinCluster, weightData: map<string, seq<Entry>>, visit: seq<string>,
                       normalize: bool)
    returns (raised: bool, failures: seq<string>)
    requires forall v :: v in visit ==> v in weightData
    requires !cluster.normalizeWeights
    modifies cluster
    ensures !cluster.normalizeWeights
    ensures raised == (FirstUnnormalizable(weightData, visit, normalize) < |visit|)
    ensures cluster.weights
            == AssignAll(cluster, old(cluster.weights), weightData,
                         visit[..FirstUnnormalizable(weightData, visit, normalize)])
    ensures failures == if raised then [] else Failures(cluster, weightData, visit)
  {
    ghost var w1 := cluster.weights;
    ghost var p := FirstUnnormalizable(weightData, visit, normalize);
    var boneFailure: seq<string> := [];
    for i := 0 to |visit|
      invariant i <= p
      invariant !cluster.normalizeWeights
      invariant cluster.weights == AssignAll(cluster, w1, weightData, visit[..i])
      invariant boneFailure == Failures(cluster, weightData, visit[..i])
    {
      var vertId := visit[i];
      var weightList := weightData[vertId];
      if normalize {
        var normalized := NormalizeVertexWeighting(weightList);
        if normalized.Raised? {
          assert i == p;
          return true, [];
        }
        weightList := normalized.value;
      }
      ghost var before := cluster.weights;
      assert visit[..i + 1][..i] == visit[..i] && visit[..i + 1][i] == vertId;
      var error := cluster.SkinPercent(vertId, weightData[vertId]);
      assert cluster.weights == AssignAll(cluster, w1, weightData, visit[..i + 1]);
      if error.Some? {
        var failureString := FailureText(error.value);
        if failureString !in boneFailure {
          boneFailure := boneFailure + [failureString];
        }
      }
    }
    assert visit[..|visit|] == visit;
    return false, boneFailure;
  }

  /** apply_weighting (methods.py lines 144-213) on a resolved transform. `skincluster` is the
      cluster passed in, if any; `history` the skin clusters found in the mesh's history;
      `visit` the order in which the weight table's keys are iterated. */
  method ApplyWeighting(skincluster: Option<SkinCluster>, history: seq<SkinCluster>, data: SkinData,
                        visit: seq<string>, config: Config)
    returns (outcome: Result<Verdict>, failures: seq<string>, warned: bool)
    requires Enumerates(visit, data.weight.Keys)
    modifies if history == [] then {} else {history[0]}
    ensures skincluster.Some? ==>
      outcome == Raised(UnboundClusterMessage) && failures == [] && !warned
      && (history != [] ==> unchanged(history[0]))
    ensures skincluster.None? && history == [] ==>
      outcome == Ok(Verdict(false, NoSkinClusterMessage)) && failures == [] && !warned
    ensures skincluster.None? && history != [] ==>
      && !history[0].normalizeWeights
      && Applied(outcome, failures, history[0].weights)
         == ApplySpec(history[0], old(history[0].weights), data, visit, config.normalize)
      && warned == (outcome.Ok? && |failures| > config.failureThreshold)
  {
    if skincluster.Some? {
      return Raised(UnboundClusterMessage), [], false;
    }
    if history == [] {
      return Ok(Verdict(false, NoSkinClusterMessage)), [], false;
    }
    var cluster := history[0];
    cluster.SetNormalizeWeights(false);
    var reset := RemoveAllWeighting(cluster, data.order, visit);
    if reset.Raised? {
      return Raised(reset.exception), [], false;
    }
    assert visit[..|visit|] == visit;
    var raised, boneFailure := AssignWeights(cluster, data.weight, visit, config.normalize);
    if raised {
      return Raised(ZeroDivision), [], false;
    }
    failures := boneFailure;
    warned := |boneFailure| > config.failureThreshold;
    outcome := Ok(Verdict(true, SuccessMessage));
  }

  /** After the assignment loop, a cell holds the vertex's own listed weight when the
      cluster accepted the vertex's list and the list names the bone; otherwise it is as
      it was. A repeated vertex receives the same list again, so repeats change nothing. */
  lemma {:induction false} AssignAllAt(c: SkinCluster, w: map<(string, string), real>,
                                       table: map<string, seq<Entry>>, vids: seq<string>,
                                       u: string, b: string)
    requires forall v :: v in vids ==> v in table
    ensures WeightOf(AssignAll(c, w, table, vids), u, b)
         == if u in vids && Rejection(c, u, table[u]).None? && Mentions(table[u], b)
            then LastWeight(table[u], b) else WeightOf(w, u, b)
  {
    if vids != [] {
      var init := vids[..|vids| - 1];
      var last := vids[|vids| - 1];
      assert forall v :: v in vids <==> v in init || v == last;
      AssignAllAt(c, w, table, init, u, b);
      if Rejection(c, last, table[last]).None? {
        SetWeightsAt(AssignAll(c, w, table, init), last, table[last], u, b);
      }
    }
  }

  /** The failure list holds no repeats, holds the text of every rejected vertex (a
      rejection does not stop the vertices after it), and holds nothing else. */
  lemma {:induction false} FailuresShape(c: SkinCluster, table: map<string, seq<Entry>>, vids: seq<string>)
    requires forall v :: v in vids ==> v in table
    ensures forall i, j :: 0 <= i < j < |Failures(c, table, vids)|
              ==> Failures(c, table, vids)[i] != Failures(c, table, vids)[j]
    ensures forall v :: v in vids && Rejection(c, v, table[v]).Some?
              ==> FailureText(Rejection(c, v, table[v]).value) in Failures(c, table, vids)
    ensures forall f :: f in Failures(c, table, vids)
              ==> exists v :: v in vids && Rejection(c, v, table[v]).Some?
                              && f == FailureText(Rejection(c, v, table[v]).value)
  {
    if vids != [] {
      var init := vids[..|vids| - 1];
      var last := vids[|vids| - 1];
      assert forall v :: v in vids <==> v in init || v == last;
      FailuresShape(c, table, init);
    }
  }

  /** apply_weighting reports success exactly when every vertex survives the reset and,
      when normalization is on, every weight list can be normalized. */
  lemma ApplySucceedsIff(c: SkinCluster, w0: map<(string, string), real>, data: SkinData,
                         visit: seq<string>, normalize: bool)
    requires forall v :: v in visit ==> v in data.weight
    ensures ApplySpec(c, w0, data, visit, normalize).outcome.Ok?
        <==> (forall i :: 0 <= i < |visit| ==> Rejection(c, visit[i], Zeros(data.order)).None?)
             && (normalize ==> forall i :: 0 <= i < |visit| ==> !Normalized(data.weight[visit[i]]).Raised?)
    ensures ApplySpec(c, w0, data, visit, normalize).outcome.Ok?
        ==> ApplySpec(c, w0, data, visit, normalize).outcome == Ok(Verdict(true, SuccessMessage))
  {
    var n := FirstResetRejected(c, data.order, visit);
    var rejected := (vid: string) => Rejection(c, vid, Zeros(data.order)).Some?;
    assert n == FirstWhere(visit, rejected);
    assert forall i :: 0 <= i < n ==> !rejected(visit[i]);
  }

  /** After a successful run, every vertex of the table holds its own listed weight for the
      bones its list names (if the cluster accepted the list), zero for the other bones of
      the bone order, and its earlier weight for any other bone; vertices outside the table
      keep theirs. */
  lemma AppliedWeights(c: SkinCluster, w0: map<(string, string), real>, data: SkinData,
                       visit: seq<string>, normalize: bool, u: string, b: string)
    requires forall v :: v in visit ==> v in data.weight
    requires ApplySpec(c, w0, data, visit, normalize).outcome.Ok?
    ensures WeightOf(ApplySpec(c, w0, data, visit, normalize).weights, u, b)
         == if u in visit && Rejection(c, u, data.weight[u]).None? && Mentions(data.weight[u], b)
            then LastWeight(data.weight[u], b)
            else if u in visit && b in data.order then 0.0
            else WeightOf(w0, u, b)
  {
    var reset := ZeroFill(w0, data.order, visit);
    AssignAllAt(c, reset, data.weight, visit, u, b);
    ZeroFillAt(w0, data.order, visit, u, b);
  }
}
