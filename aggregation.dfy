/** The weight table determine_weighting builds: for each vertex key, the (bone, weight)
    pairs of every bone, in processing order, whose weight for that vertex is above the
    tolerance. */
module Aggregation {
  import opened Weights
  import opened VertexKeys

  /** What one bone's iteration measured: its name and its weight per moved vertex. */
  datatype Measurement = Measurement(bone: string, weights: map<nat, real>)

  /** The entry a bone contributes to vertex v: one pair if its weight is above tolerance. */
  function Hit(v: nat, m: Measurement, tolerance: real): seq<Entry>
  {
    if v in m.weights && m.weights[v] > tolerance then [Entry(m.bone, m.weights[v])] else []
  }

  /** Vertex v's weight list after the bones `ms` have been processed in order. */
  function Entries(v: nat, ms: seq<Measurement>, tolerance: real): seq<Entry>
  {
    if ms == [] then []
    else Entries(v, ms[..|ms| - 1], tolerance) + Hit(v, ms[|ms| - 1], tolerance)
  }

  /** The positions in `ms` of the bones that contribute to vertex v's list. */
  function HitIndices(v: nat, ms: seq<Measurement>, tolerance: real): seq<nat>
  {
    if ms == [] then []
    else HitIndices(v, ms[..|ms| - 1], tolerance) + (if Hit(v, ms[|ms| - 1], tolerance) != [] then [|ms| - 1] else [])
  }

  /** Every vertex any bone moved. */
  function Vertices(ms: seq<Measurement>): set<nat>
  {
    if ms == [] then {} else Vertices(ms[..|ms| - 1]) + ms[|ms| - 1].weights.Keys
  }

  /** The table after all bones: the key str(v) of every vertex with a non-empty list. */
  function Table(ms: seq<Measurement>, tolerance: real): map<string, seq<Entry>>
  {
    var keys := set v | v in Vertices(ms) && Entries(v, ms, tolerance) != [] :: VertexKey(v);
    map k | k in keys :: Entries(ParseKey(k), ms, tolerance)
  }

  /** `wd` holds exactly the non-empty lists of `ms`, each under its vertex's key. */
  ghost predicate Tabulates(wd: map<string, seq<Entry>>, ms: seq<Measurement>, tolerance: real)
  {
    && (forall k :: k in wd ==>
          k == VertexKey(ParseKey(k)) && wd[k] == Entries(ParseKey(k), ms, tolerance) && wd[k] != [])
    && (forall v: nat :: Entries(v, ms, tolerance) != [] ==> VertexKey(v) in wd)
  }

  lemma EntriesSnoc(v: nat, ms: seq<Measurement>, m: Measurement, tolerance: real)
    ensures Entries(v, ms + [m], tolerance) == Entries(v, ms, tolerance) + Hit(v, m, tolerance)
  {
    assert (ms + [m])[..|ms|] == ms;
  }

  lemma {:induction false} EntriesOnlyFromVertices(v: nat, ms: seq<Measurement>, tolerance: real)
    ensures Entries(v, ms, tolerance) != [] ==> v in Vertices(ms)
  {
    if ms != [] {
      EntriesOnlyFromVertices(v, ms[..|ms| - 1], tolerance);
    }
  }

  /** Before any bone, the table is empty. */
  lemma TabulatesEmpty(tolerance: real)
    ensures Tabulates(map[], [], tolerance)
  {
  }

  /** The closed form tabulates the bones. */
  lemma TableTabulates(ms: seq<Measurement>, tolerance: real)
    ensures Tabulates(Table(ms, tolerance), ms, tolerance)
  {
    var t := Table(ms, tolerance);
    forall k | k in t
      ensures k == VertexKey(ParseKey(k)) && t[k] == Entries(ParseKey(k), ms, tolerance) && t[k] != []
    {
      var v :| v in Vertices(ms) && Entries(v, ms, tolerance) != [] && VertexKey(v) == k;
      KeyRoundTrip(v);
      assert ParseKey(k) == v;
      assert t[k] == Entries(v, ms, tolerance);
    }
    forall v: nat | Entries(v, ms, tolerance) != []
      ensures VertexKey(v) in t
    {
      EntriesOnlyFromVertices(v, ms, tolerance);
    }
  }

  /** Tabulating determines the table: any map that tabulates the bones is the closed form. */
  lemma TabulatesUnique(wd: map<string, seq<Entry>>, ms: seq<Measurement>, tolerance: real)
    requires Tabulates(wd, ms, tolerance)
    ensures wd == Table(ms, tolerance)
  {
    var t := Table(ms, tolerance);
    TableTabulates(ms, tolerance);
    forall k ensures k in wd <==> k in t {
      if k in wd {
        assert Entries(ParseKey(k), ms, tolerance) != [];
      }
      if k in t {
        assert Entries(ParseKey(k), ms, tolerance) != [];
      }
    }
    assert wd.Keys == t.Keys;
  }

  /** Recording vertex v's weight w for the current bone changes v's list only, and only
      when w is above the tolerance. */
  lemma EntriesDelta(done: seq<Measurement>, bone: string, seen: map<nat, real>,
                     v: nat, w: real, tolerance: real, u: nat)
    requires v !in seen
    ensures Entries(u, done + [Measurement(bone, seen[v := w])], tolerance)
         == Entries(u, done + [Measurement(bone, seen)], tolerance)
            + (if u == v && w > tolerance then [Entry(bone, w)] else [])
  {
    EntriesSnoc(u, done, Measurement(bone, seen), tolerance);
    EntriesSnoc(u, done, Measurement(bone, seen[v := w]), tolerance);
  }

  /** One step of the inner loop of determine_weighting (methods.py lines 98-106): the
      vertex v, not yet seen for the current bone, is recorded iff its weight is above the
      tolerance, appended to its list (created on first use). */
  lemma RecordStep(wd: map<string, seq<Entry>>, done: seq<Measurement>, bone: string,
                   seen: map<nat, real>, v: nat, w: real, tolerance: real)
    requires Tabulates(wd, done + [Measurement(bone, seen)], tolerance)
    requires v !in seen
    ensures var key := VertexKey(v);
      Tabulates(if w <= tolerance then wd
                else wd[key := (if key in wd then wd[key] else []) + [Entry(bone, w)]],
                done + [Measurement(bone, seen[v := w])], tolerance)
  {
    var before := done + [Measurement(bone, seen)];
    var after := done + [Measurement(bone, seen[v := w])];
    var key := VertexKey(v);
    KeyRoundTrip(v);
    var wd' := if w <= tolerance then wd
               else wd[key := (if key in wd then wd[key] else []) + [Entry(bone, w)]];
    forall k | k in wd'
      ensures k == VertexKey(ParseKey(k)) && wd'[k] == Entries(ParseKey(k), after, tolerance) && wd'[k] != []
    {
      EntriesDelta(done, bone, seen, v, w, tolerance, ParseKey(k));
      if k != key || w <= tolerance {
        assert k in wd;
        KeyInjective(ParseKey(k), v);
      } else if key !in wd {
        assert Entries(v, before, tolerance) == [];
      }
    }
    forall u: nat | Entries(u, after, tolerance) != []
      ensures VertexKey(u) in wd'
    {
      EntriesDelta(done, bone, seen, v, w, tolerance, u);
    }
  }

  /** (b, w) is in vertex v's list iff some bone named b weighed v at w, and w > tolerance:
      a weight equal to the tolerance is dropped. */
  lemma {:induction false} EntryIff(v: nat, ms: seq<Measurement>, tolerance: real, e: Entry)
    ensures e in Entries(v, ms, tolerance) <==>
      exists j :: 0 <= j < |ms| && ms[j].bone == e.bone && v in ms[j].weights
                  && ms[j].weights[v] == e.weight && e.weight > tolerance
  {
    if ms != [] {
      var n := |ms| - 1;
      EntryIff(v, ms[..n], tolerance, e);
      assert Entries(v, ms, tolerance) == Entries(v, ms[..n], tolerance) + Hit(v, ms[n], tolerance);
      assert e in Hit(v, ms[n], tolerance) <==>
        ms[n].bone == e.bone && v in ms[n].weights && ms[n].weights[v] == e.weight && e.weight > tolerance;
      if exists j :: 0 <= j < n && ms[..n][j].bone == e.bone && v in ms[..n][j].weights
                     && ms[..n][j].weights[v] == e.weight && e.weight > tolerance {
        var j :| 0 <= j < n && ms[..n][j].bone == e.bone && v in ms[..n][j].weights
                 && ms[..n][j].weights[v] == e.weight && e.weight > tolerance;
        assert ms[j] == ms[..n][j];
      }
      if exists j :: 0 <= j < |ms| && ms[j].bone == e.bone && v in ms[j].weights
                     && ms[j].weights[v] == e.weight && e.weight > tolerance {
        var j :| 0 <= j < |ms| && ms[j].bone == e.bone && v in ms[j].weights
                 && ms[j].weights[v] == e.weight && e.weight > tolerance;
        if j < n {
          assert ms[..n][j] == ms[j];
        }
      }
    }
  }

  /** Vertex v's list follows the order the bones were processed in: its k-th entry comes
      from the bone at a position that strictly increases with k. */
  lemma {:induction false} EntriesFollowBoneOrder(v: nat, ms: seq<Measurement>, tolerance: real)
    ensures |HitIndices(v, ms, tolerance)| == |Entries(v, ms, tolerance)|
    ensures forall k :: 0 <= k < |HitIndices(v, ms, tolerance)| ==>
      HitIndices(v, ms, tolerance)[k] < |ms|
      && v in ms[HitIndices(v, ms, tolerance)[k]].weights
      && Entries(v, ms, tolerance)[k]
         == Entry(ms[HitIndices(v, ms, tolerance)[k]].bone, ms[HitIndices(v, ms, tolerance)[k]].weights[v])
    ensures forall k, l :: 0 <= k < l < |HitIndices(v, ms, tolerance)| ==>
      HitIndices(v, ms, tolerance)[k] < HitIndices(v, ms, tolerance)[l]
  {
    if ms != [] {
      var n := |ms| - 1;
      EntriesFollowBoneOrder(v, ms[..n], tolerance);
      var idx := HitIndices(v, ms, tolerance);
      var pre := HitIndices(v, ms[..n], tolerance);
      forall k | 0 <= k < |pre|
        ensures ms[pre[k]] == ms[..n][pre[k]]
      {
      }
    }
  }

  /** A vertex has a key in the table iff some bone weighed it above the tolerance. */
  lemma TableKeyIff(ms: seq<Measurement>, tolerance: real, v: nat)
    ensures VertexKey(v) in Table(ms, tolerance) <==>
      exists j :: 0 <= j < |ms| && v in ms[j].weights && ms[j].weights[v] > tolerance
    ensures VertexKey(v) in Table(ms, tolerance) ==> Table(ms, tolerance)[VertexKey(v)] == Entries(v, ms, tolerance)
  {
    var t := Table(ms, tolerance);
    TableTabulates(ms, tolerance);
    KeyRoundTrip(v);
    var es := Entries(v, ms, tolerance);
    if es != [] {
      EntryIff(v, ms, tolerance, es[0]);
    }
    if exists j :: 0 <= j < |ms| && v in ms[j].weights && ms[j].weights[v] > tolerance {
      var j :| 0 <= j < |ms| && v in ms[j].weights && ms[j].weights[v] > tolerance;
      EntryIff(v, ms, tolerance, Entry(ms[j].bone, ms[j].weights[v]));
    }
  }

  /** Every table key spells a vertex index and every bone named in the table is one of
      the processed bones. */
  lemma TableNamesProcessedBones(ms: seq<Measurement>, tolerance: real)
    ensures forall k :: k in Table(ms, tolerance) ==> k == VertexKey(ParseKey(k))
    ensures forall k, e :: k in Table(ms, tolerance) && e in Table(ms, tolerance)[k] ==>
      exists j :: 0 <= j < |ms| && ms[j].bone == e.bone
  {
    TableTabulates(ms, tolerance);
    forall k, e | k in Table(ms, tolerance) && e in Table(ms, tolerance)[k]
      ensures exists j :: 0 <= j < |ms| && ms[j].bone == e.bone
    {
      EntryIff(ParseKey(k), ms, tolerance, e);
    }
  }
}
