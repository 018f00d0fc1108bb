# Skonverter core, modelled in Dafny

Skonverter turns a rigged, deforming mesh into skin weights. The bone walk
(`get_ordered_bone_list`) appends, in pre-order, the joints below a bone that can be reached
through joints only: a non-joint child is skipped together with everything beneath it, and the
bone itself is never listed. `determine_weighting` seeds the walk with the root, so its bone
order is the root followed by those joints. It then handles one bone at a time:

- it sinks the bone's immediate children by the bone delta (2 units in `const.py`) along Y;
- it lifts the bone by the same delta;
- it snapshots the mesh and turns each moved vertex's displacement into a weight;
- it puts the bone back, then the children.

The per-bone weights above a tolerance are then gathered per vertex into `(bone, weight)` lists
keyed by `str(vertex index)`. Each list is normalized to sum to one, and the result is packed
into a `{'weight': ..., 'order': ...}` record. `apply_weighting` takes such a record and applies
it to a skin cluster:

- it switches the cluster's normalization off;
- it zeroes every listed vertex for every ordered bone;
- it assigns each vertex's list through `skinPercent`;
- it collects the distinct failure messages instead of stopping at the first one.

The record helpers check a record (`verify_data`), read one from a file (`load_data_from_file`)
and choose between a file and data in memory (`determine_data_to_source`).

The model has one module per part:

- `Outcomes`: Python exceptions become `Result<T> = Ok | Raised(message)`.
- `Settings`: the constants of `const.py`.
- `Vectors`: translations and `add_vector3s`.
- `Hierarchy`: scene nodes and the bone walk.
- `Weights`: the weight formula, rounding, summing and normalization.
- `VertexKeys`: `str(vid)` and its inverse.
- `Posing`: the scene's translations as a `Pose` object, and the per-bone perturbation.
- `Aggregation`: the weight table, specified in closed form.
- `Records`: the JSON-like record and the data-source decision.
- `Calculation`: `determine_weighting`.
- `Deformer`: a `SkinCluster` object with `skinPercent`, and `remove_all_weighting`.
- `Applier`: `apply_weighting`.

Maya itself is modelled as ports:

- The pose is an object whose translation map the `xform` calls read and write.
- Mesh snapshots come from a function parameter `mesh` from translations to vertex positions.
- The skin cluster is an object holding its influences, its vertices and a weight table.
- The Euclidean distance is a function parameter `distance`.

## Model

| member | source | states |
|---|---|---|
| Vectors.AddVector3s | methods.py:321-332 | Taking the offset away from the sum gives back the first translation. The sum differs from the first translation exactly when the offset is non-zero. |
| Hierarchy.GetOrderedBoneList | methods.py:220-237 | Returns the given list extended by the pre-order walk of the joints below the bone. Non-joint children are skipped together with their subtrees. |
| Hierarchy.JointsBelowAppend | methods.py:228-235 | Walking two sibling lists one after the other gives the two walks concatenated. |
| Hierarchy.JointsBelowIffReachable | methods.py:228-235 | A node is listed exactly when it can be reached along a path made only of joints. |
| Hierarchy.JointsBelowAreJoints | methods.py:230-234 | Every listed node is a joint. |
| Hierarchy.NoJointChildrenNoJoints | methods.py:230-231 | Non-joint children hide everything beneath them. |
| Hierarchy.BoneOrderShape | methods.py:49 | The seeded walk starts with the root (joint or not), and every later entry is a joint. |
| Hierarchy.JointsBelowWellFormed | methods.py:228-235 | Every listed node is itself a well-formed subtree. |
| Hierarchy.BoneOrderWellFormed | methods.py:49 | Every bone of the order for a well-formed root is well formed (names known to the pose, distinct around it). |
| Weights.Round3 | methods.py:283-289 | Rounding to three decimals keeps a non-negative value non-negative and moves it by at most 0.0005. |
| Weights.Round3Idempotent | methods.py:283-289 | Rounding an already rounded value leaves it unchanged. |
| Weights.CalculateVertexWeights | methods.py:292-318 | Weighs exactly the indices present in both snapshots whose positions differ. Each weight is the rounded distance divided by the delta. A non-negative distance gives a non-negative weight. The result equals the closed form VertexWeights. |
| Weights.CalculateTotalVertexWeight | methods.py:374-382 | Skipping zero weights leaves the plain sum of the list. |
| Weights.NormalizeVertexWeighting | methods.py:348-371 | Raises the division by zero exactly for a non-empty list that sums to zero. Otherwise it keeps the length and the bones, and divides each weight by the sum. |
| Weights.SumScaled | methods.py:354-362 | The scaled list sums to the original sum divided by the divisor. |
| Weights.NormalizedSumsToOne | methods.py:348-371 | A normalized non-empty list sums to exactly one. |
| Weights.NormalizedIdempotent | methods.py:348-371 | Normalizing a normalized list changes nothing. |
| Weights.SumPositive | methods.py:374-382 | A non-empty list of weights above a non-negative tolerance has a positive sum. |
| Weights.AboveToleranceNormalizes | methods.py:354-358 | A list of weights above a non-negative tolerance never divides by zero. |
| VertexKeys.VertexKey | methods.py:103 | `str(vert_id)` is non-empty and has no leading zero unless it is "0". |
| VertexKeys.KeyIsDecimal | methods.py:103 | A vertex key consists of decimal digits only. |
| VertexKeys.KeyRoundTrip | methods.py:103 | A vertex key reads back as the vertex index. |
| VertexKeys.KeyInjective | methods.py:103 | Distinct vertices get distinct keys, so no two vertices share a list. |
| Posing.Pose.constructor | methods.py:70 | The pose starts with the given translations. |
| Posing.Pose.Query | methods.py:78 | Querying a node's translation returns its stored world-space translation. |
| Posing.Pose.SetTranslation | methods.py:72 | Setting a translation changes that node's translation and nothing else. |
| Posing.PerturbedMovesExactly | methods.py:64-80 | With a non-zero delta, the perturbed pose moves exactly the bone and its immediate children. The bone rises by delta and each child drops by delta. No node is added or lost. |
| Posing.UniqueSplit | methods.py:67-75 | A name at position i of a duplicate-free list occurs neither before nor after it. |
| Posing.ChildNamesUnique | methods.py:66-67 | The children of a bone with distinct names have duplicate-free names that differ from the bone's own. |
| Posing.SinkChildren | methods.py:64-75 | Every child ends sunk by the delta. The recorded pairs are each child's name and its starting translation, in order. |
| Posing.RestoreChildren | methods.py:92-95 | Putting each recorded child back restores the pose from before the sinking. |
| Posing.PerturbAndMeasure | methods.py:64-95 | The pose ends as it started. The weights are those of the snapshot taken with the bone lifted and its children sunk, measured against the rest snapshot. |
| Aggregation.EntriesSnoc | methods.py:98-106 | Processing one more bone appends at most that bone's pair to a vertex's list. |
| Aggregation.EntriesOnlyFromVertices | methods.py:98-106 | Only a vertex that some bone moved can have a non-empty list. |
| Aggregation.TabulatesEmpty | methods.py:56 | The empty table is the table for no bones. |
| Aggregation.TableTabulates | methods.py:98-106 | The closed-form table holds exactly the non-empty lists, each under its vertex's key. |
| Aggregation.TabulatesUnique | methods.py:98-106 | Any table that satisfies that invariant is the closed form. |
| Aggregation.EntriesDelta | methods.py:98-106 | Recording one vertex's weight for the current bone changes that vertex's list only. |
| Aggregation.RecordStep | methods.py:98-106 | One inner-loop step (skip at or below the tolerance, else create-then-append) keeps the table invariant. |
| Aggregation.EntryIff | methods.py:98-106 | (b, w) is in a vertex's list exactly when some bone named b weighed it at w and w is above the tolerance. |
| Aggregation.EntriesFollowBoneOrder | methods.py:98-106 | A vertex's k-th pair comes from the k-th contributing bone, and the contributing bones are in processing order. |
| Aggregation.TableKeyIff | methods.py:98-106 | A vertex has a key exactly when some bone weighed it above the tolerance. Its list is then that vertex's list. |
| Aggregation.TableNamesProcessedBones | methods.py:98-109 | Every key is the spelling of a vertex index. Every bone named in the table is a processed bone. |
| Calculation.RecordBoneWeights | methods.py:98-106 | The inner loop extends the table invariant from the bones done so far to the current bone. |
| Calculation.NormalizeWeightData | methods.py:111-119 | Returns every list normalized, or the division by zero when some list sums to zero. |
| Calculation.DetermineWeighting | methods.py:48-130 | The pose ends as it started. The result equals the closed form Calculated: the normalized table of all bones in walk order, packed with the bone names. |
| Calculation.NormalizedKeepsBones | methods.py:114-118 | Every bone in a normalized list was in the original list. |
| Calculation.TableBonesAreNamed | methods.py:98-119 | Every bone in the table, normalized or not, is one of the processed bones. |
| Calculation.CalculatedRecordShape | methods.py:109-130 | The returned record passes verify_data and reads back as a typed record. Its order is the bone names with the root first. Every bone in a vertex's list is in the order. |
| Calculation.NonNegativeToleranceNeverRaises | methods.py:98-119 | With a non-negative tolerance, normalization never divides by zero. |
| Calculation.NegativeToleranceCanRaise | methods.py:98-119 | With a negative tolerance such as -1 (the default of the callers that pass one), a weight that rounds to 0.000 is recorded. A vertex whose every weight rounds to zero then makes normalization raise the division by zero. The witness is one bone lifted by the shipped delta of 2 that moves its one vertex by 0.0005. |
| Records.VerifyData | methods.py:423-442 | Returns False exactly for a non-dictionary, a missing key, or an 'order' list holding a non-string, each with its own message. Raises exactly when 'order' is None, a bool or a number, with the TypeError naming that type. Returns True with "Data is valid" otherwise. |
| Records.ConsolidateData | methods.py:415-421 | The record is a dictionary with exactly the keys 'weight' and 'order'. Its 'weight' has exactly the table's keys and its 'order' has one item per bone name. The round trip is in ConsolidateRoundTrip. |
| Records.ConsolidatedIsValid | methods.py:415-421 | A record that consolidate_data builds from string names passes verify_data. |
| Records.DecodableIsValid | methods.py:423-442 | Every record that reads back in typed form passes verify_data. |
| Records.EntriesRoundTrip | methods.py:415-421 | An encoded weight list reads back as the same list. |
| Records.ConsolidateRoundTrip | methods.py:415-421 | The record consolidate_data builds reads back as the same table and order. |
| Records.LoadJson | methods.py:398-409 | A missing path reads as None. An existing file reads as its parsed content. |
| Records.LoadDataFromFile | methods.py:477-486 | Accepts exactly an existing file whose content verifies, and then returns that content. It never falls through to None. |
| Records.DetermineDataToSource | methods.py:444-474 | The full decision table: refuse with no valid source, or take valid data when there is no file. With both valid, FILE_PREFERENCE picks. With invalid data and a file, the result is the bare None. Whatever it accepts verifies. |
| Deformer.FirstWhere | methods.py:343-344 | The first position where the predicate holds, or the length when it holds nowhere. |
| Deformer.SkinCluster.constructor | methods.py:147-154 | A found cluster starts with its own weights and with its normalization on. |
| Deformer.SkinCluster.SetNormalizeWeights | methods.py:169 | Switches normalization and leaves the weights alone. |
| Deformer.SkinCluster.SkinPercent | methods.py:187 | Raises an unknown vertex or unknown influence and changes nothing. Otherwise it sets each listed pair in order. |
| Deformer.RemoveAllWeighting | methods.py:335-345 | Zeroes every ordered bone on each vertex up to the first rejected vertex. It raises that rejection if there is one, and otherwise returns True. |
| Deformer.SetWeightsAt | methods.py:187 | After skinPercent, a listed bone holds the last weight listed for it. Every other cell is unchanged. |
| Deformer.ZerosAt | methods.py:340 | The zero list names exactly the ordered bones, each at 0.0. |
| Deformer.LastWeightIsListed | methods.py:187 | The weight a bone ends with is one of the pairs listed for it. |
| Deformer.ZeroFillAt | methods.py:340-344 | After the reset, each listed vertex weighs 0.0 for each ordered bone. Every other cell is unchanged. |
| Applier.FirstUnnormalizable | methods.py:173-178 | The first vertex whose list would divide by zero, or the end when there is none or normalization is off. |
| Applier.AssignWeights | methods.py:173-194 | Stops at the first list that cannot be normalized. Before that, each vertex gets its own list unless skinPercent rejects it. The failure list is the distinct prefixed rejection texts. |
| Applier.ApplyWeighting | methods.py:133-213 | A passed-in cluster raises an UnboundLocalError, a NameError subclass. No cluster in the history gives False with its message. Otherwise normalization is switched off and the result equals the closed form ApplySpec. It warns exactly when the failures exceed FAILURE_THRESHOLD. |
| Applier.AssignAllAt | methods.py:173-188 | After the loop, an accepted vertex holds its own listed weights. Every other cell is unchanged, and a repeated vertex changes nothing. |
| Applier.FailuresShape | methods.py:190-194 | The failures have no repeats. Every rejected vertex's text is there, because a failure does not stop the loop. Nothing else is. |
| Applier.ApplySucceedsIff | methods.py:170-213 | Reports success exactly when every vertex survives the reset and, with normalization on, every list normalizes. |
| Applier.AppliedWeights | methods.py:168-194 | After a success, each vertex holds its listed weight for the bones its accepted list names, 0.0 for the other ordered bones, and its old weight otherwise. Vertices outside the record keep theirs. |

## Left out

- Resolving names to scene nodes (`PyNode`, methods.py lines 36-46 and 138-142) and its error returns: the model receives the resolved root bone, pose and cluster.
- `query_vertex_positions` (Maya API) is the `mesh` function parameter.
- `calculate_vertex_distance`: the square root is not modelled. The distance is a function parameter; only its non-negativity is used.
- `save_json` and the parsing inside `load_json`: a file is modelled as present with its parsed value, or as absent.
- Printing, `maya.cmds.warning`, and the DEBUG-only checks and logging (`total_weights`, `vertices_evaluated`): DEBUG is False in `const.py`. The DEBUG branch of `normalize_vertex_weighting` (a `False` flag when the total is not 1.0) is therefore not modelled, and the flag is always True.
- The commented-out locator and expression helpers.
- Pose: transform inheritance is not modelled. Setting a node's world-space translation moves that node only, so moving a bone leaves its children's stored translations as they were.
- Records.VerifyData: a JSON number stands for both Python `int` and `float`, so the TypeError for a numeric 'order' always names 'float'.
- Maya's own error texts for `skinPercent` and the RuntimeError wording are placeholders: "Invalid vertex: ..." and "Invalid influence: ...".
- Applier.ApplyWeighting: takes the record already read into typed form (`SkinData`). Records that verify_data accepts but whose 'weight' entries are not lists of (name, number) pairs are not modelled. The order in which the dictionary's keys are iterated is the parameter `visit`.
- Calculation.DetermineWeighting: requires every node of the tree to be well formed. That includes nodes under non-joint children, which the walk never visits. Every such node's name must be a key of the pose, and names must be distinct around it: a node and its children, and siblings among themselves. Without distinct names, restoring the children need not restore the pose.
- Posing.PerturbAndMeasure: the source keeps no try/finally, so an exception between the move and the reset would leave the scene perturbed. The model has no such exception, because the snapshot port cannot fail.
- Hierarchy.GetOrderedBoneList: the source appends to the caller's list in place. The model returns the extended list, which is equal to it.
- Calculation.NonNegativeToleranceNeverRaises: covers tolerances of 0 or more only. The callers default to -1, and Calculation.NegativeToleranceCanRaise shows that the calculation can then raise.
- Floating point: weights are exact reals. `round_float` is modelled as round-half-even at three decimals on exact values. "Sums to exactly one" therefore holds for the model, not for binary floating point.
- Where the documented behaviour and the code differ, the model follows the code:
  - A non-joint child hides its whole subtree from the walk.
  - A file path that exists with invalid data in memory makes `determine_data_to_source` return a bare `None`, modelled as `FellThrough`.
  - `apply_weighting` raises an UnboundLocalError (a NameError subclass) when a skin cluster is passed in. `py_cluster` is then never assigned before its use at methods.py line 169.
  - `apply_weighting` assigns the stored list, not the normalized one (methods.py line 187). Normalization is still computed and can still raise the division by zero.
