# Human wellbeing simulation: agent locomotion and friendship graph in Dafny

This project models the movement machinery of the Unity simulation, and the
person records and friendship graph of the Python prototype. Coordinates are
exact `real`s.

- **Cubic Bezier curves** (`mathutils.dfy`, `personmovement.dfy`):
  - `GetPoint` is three rounds of `Vector2.Lerp`. Unity's `Lerp` clamps `t` to [0,1], and so does the model.
  - Reflection mirrors all four control points across one domain edge, in place.
  - The G1 chaining step builds the next segment from the previous one.
  - The Gaussian sampler's standard-normal draws are inputs; only its affine tail is modelled.
- **`MovementCurve`** (`movementcurve.dfy`): a class holding a curve, a progress parameter `curveTime`, and samples cached at construction.
  - Reflection changes the curve but not the cached samples.
  - Progress past 1 resets to exactly 0, and the model follows the code. Later revisions of the program wrap it to `t − 1` instead; that is not modelled.
- **`People`** (`people.dfy`): the population controller, generic over the person type.
  - An entry is `None` where `CreatePerson` returned `null`.
  - The list grows by appending and shrinks from the tail.
  - Removing a `null` entry, or removing from an empty list, raises an exception in C#. These cases are modelled as a `Fault` result.
- **`Person`** (`person.dfy`): the Unity person. It is a position clamped to the unit square, plus a speed coefficient and inert attributes.
- **`Structures`** (`structures.dfy`): the Python `Person` and `FriendshipGraph`.
  - `Person` has defaulted constructor arguments (a truthiness test for some, a `None` test for others) and a class-wide id counter.
  - `FriendshipGraph` is a 0/1 matrix in an `array2`. Its random add and remove sweeps visit the pairs `j < i`.
  - The friendship probability and `random.random()` become one boolean oracle per pair.

Randomness, noise and rendering stay outside the model. Random draws, Perlin and simplex noise values, and the person the host instantiates (`spawn`) are all parameters.

## Model

| member | source | states |
|---|---|---|
| MathUtils.GetPointAtZero | Unity/Assets/Scripts/MathUtils.cs:27-41 | evaluating at 0 gives `p0` exactly |
| MathUtils.GetPointAtOne | Unity/Assets/Scripts/MathUtils.cs:27-41 | evaluating at 1 gives `p3` exactly |
| MathUtils.GetPointClampsParameter | Unity/Assets/Scripts/MathUtils.cs:30-39 | because `Lerp` clamps, `t` outside [0,1] evaluates at `Clamp01(t)`: `p0` below 0, `p3` above 1 |
| MathUtils.DeCasteljauCoordIsBernstein | GeneralTests/bezier_curve_length_calculation_test.py:7-17 | three rounds of unclamped interpolation equal the cubic Bernstein polynomial on one coordinate, for every `t` |
| MathUtils.GetPointIsBernstein | Unity/Assets/Scripts/MathUtils.cs:18-41 | for `t` in [0,1], `GetPoint(t)` is `(1−t)³p0 + 3(1−t)²t·p1 + 3(1−t)t²·p2 + t³p3` |
| MathUtils.GetPoint | Unity/Assets/Scripts/MathUtils.cs:27-41 | the clamped De Casteljau evaluation; for every `t`, each coordinate of the point lies between the least and greatest value of that coordinate over the four control points |
| MathUtils.GetPointExample | Unity/Assets/Scripts/MathUtils.cs:27-41 | the curve (0,0),(1,0),(1,1),(0,1) at 0.5 is (0.75, 0.5) |
| MathUtils.GetRandomNormalVector2 | Unity/Assets/Scripts/MathUtils.cs:76-86 | the sample minus `mean` is `(z1·std.x, z2·std.y)` |
| MathUtils.SamplerIsCentredOnMean | Unity/Assets/Scripts/MathUtils.cs:65-88 | draws mirrored through 0 give samples mirrored through `mean`; a zero draw or zero deviation gives `mean` |
| MathUtils.GetRandomG1CubicBezier | Unity/Assets/Scripts/MathUtils.cs:43-54 | `new.p0 == old.p3`, `new.p1 − new.p0 == beta·(old.p3 − old.p2)`, and `p2 − p1` and `p3 − p2` are the two Gaussian offsets |
| MathUtils.ChainIsPositionContinuous | Unity/Assets/Scripts/MathUtils.cs:45 | the new segment evaluated at 0 equals the old segment evaluated at 1 |
| MathUtils.VelocityAtEnds | GeneralTests/bezier_curve_length_calculation_test.py:19-20 | the curve's derivative is `3(p1 − p0)` at 0 and `3(p3 − p2)` at 1 |
| MathUtils.ChainIsTangentContinuous | Unity/Assets/Scripts/MathUtils.cs:46 | the new segment's velocity at 0 is `beta` times the old segment's velocity at 1 |
| MathUtils.ChainIsC1WhenBetaIsOne | Unity/Assets/Scripts/PersonMovement.cs:115-122 | with `beta == 1` the two velocities are equal (C1), as the doc comment says |
| MathUtils.ChainIsG1 | Unity/Assets/Scripts/MathUtils.cs:43-48 | for `beta >= 0` the entry tangent is parallel to the exit tangent (cross product 0) and points the same way (dot product ≥ 0, > 0 when `beta > 0` and the exit tangent is non-zero) |
| PersonMovement.SideEdge | Unity/Assets/Scripts/PersonMovement.cs:46-73 | a side code names an edge exactly when it is 0..3 |
| PersonMovement.CubicBezierCurve.constructor | Unity/Assets/Scripts/PersonMovement.cs:10-16 | the object holds the four given control points |
| PersonMovement.CubicBezierCurve.GetPoint | Unity/Assets/Scripts/PersonMovement.cs:27-42 | the point lies in the control points' bounding box for every `t`, and is the Bernstein polynomial of the control points for `t` in [0,1] |
| PersonMovement.CubicBezierCurve.ReflectCurve | Unity/Assets/Scripts/PersonMovement.cs:44-74 | the control points become `ReflectSide` of the old ones; a code outside 0..3 leaves them unchanged |
| PersonMovement.ReflectSideMovesOneAxis | Unity/Assets/Scripts/PersonMovement.cs:44-74 | side 0 maps every `y` to `2·height − y`, side 1 every `x` to `2·width − x`, side 2 negates every `y`, side 3 every `x`, and the other coordinate is kept; any other side changes nothing |
| PersonMovement.ReflectSideIsInvolution | Unity/Assets/Scripts/PersonMovement.cs:44-74 | reflecting twice with the same side, height and width restores all control points |
| PersonMovement.ReflectionCommutesWithGetPoint | Unity/Assets/Scripts/PersonMovement.cs:27-74 | the reflected curve evaluated at `t` is the reflection of the original curve evaluated at `t` |
| PersonMovement.ReflectPointReturnsInside | Unity/Assets/Scripts/PersonMovement.cs:46-73 | a point beyond an edge is mirrored to the inner side of that edge |
| PersonMovement.ReflectExample | Unity/Assets/Scripts/PersonMovement.cs:44-52 | the example curve reflected across the top with height 2 is (0,4),(1,4),(1,3),(0,3) |
| PersonMovement.GetRandomG1CubicBezier | Unity/Assets/Scripts/PersonMovement.cs:119-130 | returns a fresh curve object whose points are `MathUtils.GetRandomG1CubicBezier` of the old curve's points |
| MovementCurve.HitEdge | Unity/Assets/Scripts/MovementCurve.cs:30-60 | a status names an edge exactly when it is one of the four hit sides |
| MovementCurve.ReflectHitAgreesWithReflectSide | Unity/Assets/Scripts/MovementCurve.cs:30-60 | the reflection in `MovementCurve` equals the one in `PersonMovement.cs` under the side codes 0..3 |
| MovementCurve.ReflectHitIsInvolution | Unity/Assets/Scripts/MovementCurve.cs:30-60 | reflecting twice with the same status restores the curve |
| MovementCurve.AdvancedTimeStaysInUnit | Unity/Assets/Scripts/MovementCurve.cs:65-72 | from [0,1] with a step `s >= 0`, progress stays in [0,1]; it becomes `curveTime + s` exactly when that is at most 1, and otherwise 0 |
| MovementCurve.SamplesStartAndEndOnCurve | Unity/Assets/Scripts/MovementCurve.cs:24-27 | for `nSegments > 0` the first sample is `p0` and the last is `p3` |
| MovementCurve.MovementCurve.constructor | Unity/Assets/Scripts/MovementCurve.cs:13-28 | `p0 == position`, the curve is a three-step random walk, `curveTime == 0`, and `segments[i] == GetPoint(i/nSegments)` for `nSegments + 1` entries (none when `nSegments < 0`) |
| MovementCurve.MovementCurve.ReflectCurve | Unity/Assets/Scripts/MovementCurve.cs:30-60 | mirrors the curve for the four hit sides, and is a no-op otherwise; `curveTime` and `segments` are unchanged; the current point becomes its mirror image |
| MovementCurve.MovementCurve.GetPoint | Unity/Assets/Scripts/MovementCurve.cs:61-64 | the current point lies in the control points' bounding box, and is the Bernstein point at `curveTime` when that is in [0,1] |
| MovementCurve.MovementCurve.UpdateCurveTime | Unity/Assets/Scripts/MovementCurve.cs:65-72 | progress advances by `speed` or resets to 0 past 1; nothing else changes; with `speed >= 0` it stays in [0,1] |
| People.AppendedGrowsByOne | Unity/Assets/Scripts/People.cs:134-137 | each round of the add loop appends exactly one entry, the `CreatePerson` result |
| People.RemoveFromTailLeavesPrefix | Unity/Assets/Scripts/People.cs:144-152 | removal, even when it stops with an exception, leaves a prefix of the old list, at most `count` shorter |
| People.RemoveFromTailSucceeds | Unity/Assets/Scripts/People.cs:144-152 | removal raises no exception exactly when `count <= Count` and none of the last `count` entries is `null`; it then leaves exactly the first `Count − count` entries |
| People.AdjustedReachesTarget | Unity/Assets/Scripts/People.cs:116-126 | the adjustment raises no exception exactly when `numPeople >= 0` and no entry past `numPeople` is `null`; it then leaves exactly `numPeople` entries, and the entries before the target are unchanged and in order |
| People.AdjustedToSizeIsNoOp | Unity/Assets/Scripts/People.cs:118-125 | when `numPeople == Count` the list is unchanged |
| People.FailedCreationStillGrows | Unity/Assets/Scripts/People.cs:132-175 | when the prefab has no `Person` component the list still reaches the target, and every new entry is `null` |
| People.People.constructor | Unity/Assets/Scripts/People.cs:42-43 | an empty list and `previousNumPeople == 0` |
| People.People.Start | Unity/Assets/Scripts/People.cs:48-52 | appends `numPeople` created entries, then `previousNumPeople == numPeople` |
| People.People.Update | Unity/Assets/Scripts/People.cs:57-63 | resizes only when `numPeople != previousNumPeople`; after a resize without an exception `previousNumPeople == numPeople` |
| People.People.InitializePeople | Unity/Assets/Scripts/People.cs:72-78 | appends exactly `numPeople` created entries (none if it is negative) |
| People.People.AdjustNumberOfPeople | Unity/Assets/Scripts/People.cs:116-126 | the new list and exception are `Adjusted` of the old list and the target |
| People.People.AddPeople | Unity/Assets/Scripts/People.cs:132-138 | appends exactly `count` entries after the unchanged old ones |
| People.People.RemovePeople | Unity/Assets/Scripts/People.cs:144-152 | the new list and exception are `RemoveFromTail` of the old list |
| People.People.CreatePerson | Unity/Assets/Scripts/People.cs:158-175 | returns the instantiated person exactly when the prefab has a `Person` component, otherwise `null` |
| Person.ClampedMove | Unity/Assets/Scripts/Person.cs:68-71 | the result is always in the unit square, and equals `position + delta` when that is already inside |
| Person.ClampedMoveIsPerAxis | Unity/Assets/Scripts/Person.cs:70 | the new `x` depends only on the old `x` plus `delta.x`, and likewise for `y` |
| Person.MoveByZeroIsIdempotent | Unity/Assets/Scripts/Person.cs:70 | `Move(0)` twice equals `Move(0)` once, and a position inside the square stays put |
| Person.NoiseDirection | Unity/Assets/Scripts/Person.cs:56-59 | noise values in [0,1] give a direction in [−1,1]² |
| Person.Person.constructor | Unity/Assets/Scripts/Person.cs:15-29 | a new component has all fields zero |
| Person.Person.Initialize | Unity/Assets/Scripts/Person.cs:34-43 | `wellbeing == 0`; position, `sfc`, `wpc`, `irc` in [0,1]; `speedCoefficient` in [MIN_RANDOM_SPEED, MAX_RANDOM_SPEED] |
| Person.Person.RandomMove | Unity/Assets/Scripts/Person.cs:49-62 | position becomes the per-axis clamp of `position + (2n − 1)·speedCoefficient`, so it stays in the unit square; other fields are unchanged |
| Person.Person.Move | Unity/Assets/Scripts/Person.cs:68-71 | position becomes `ClampedMove(position, delta)`, which is in the unit square |
| Structures.ZeroArgumentQuirk | src/structures.py:49-67 | an explicit `0` is replaced for `x`, `y`, `speed`, but kept for `sfc`, `wpc`, `irc` |
| Structures.DefaultSpeed | src/structures.py:60-63 | a draw in [0,1) gives a speed in [MIN_RANDOM_SPEED, MAX_RANDOM_SPEED) |
| Structures.ClampUnit | src/structures.py:91-92 | `max(0, min(1, v))` equals `Clamp01(v)` |
| Structures.IdCounter.constructor | src/structures.py:27 | the counter starts at 0 |
| Structures.Person.constructor | src/structures.py:29-81 | the fields follow the defaulting rules; the counter goes up by one and becomes the id; `wellbeing == 0`; a defaulted speed lies in [MIN, MAX) |
| Structures.MakePeople | src/structures.py:78-79 | ids of successive constructions are consecutive, hence strictly increasing and distinct |
| Structures.Person.Move | src/structures.py:83-85 | adds `dx`, `dy` with no clamping; every other field (`speed`, `id`, `sfc`, `wpc`, `irc`, `color`, `wellbeing`) is unchanged |
| Structures.Person.RandomMove | src/structures.py:87-92 | `x`, `y` become `max(0, min(1, · + d·speed))` and so lie in [0,1]; every other field is unchanged |
| Structures.ZeroMatrixHasNoFriendships | src/structures.py:102 | a new graph is all zero, hence symmetric and 0/1 |
| Structures.SetPairCells | src/structures.py:109-117 | setting a pair writes exactly the cells `[i,j]` and `[j,i]` and no other |
| Structures.SetPairPreservesSymmetry | src/structures.py:109-117 | a symmetric matrix stays symmetric |
| Structures.SetPairPreservesZeroOne | src/structures.py:109-117 | writing 0 or 1 keeps a 0/1 matrix 0/1 |
| Structures.SetPairOverwrites | src/structures.py:109-117 | adding twice equals adding once, and remove after add equals remove alone (both cells 0) |
| Structures.SweepPreservesSymmetryAndDiagonal | src/structures.py:122-146 | a sweep keeps symmetry, never touches the diagonal, and touches no row or column at or past `len(people)` |
| Structures.SweepsAreMonotone | src/structures.py:122-146 | the add sweep never clears an edge, the remove sweep never sets one, and both keep the matrix 0/1 |
| Structures.FriendsFrom | src/structures.py:119-120 | the result holds exactly the indices at or after `k` whose cell is 1, in strictly ascending order |
| Structures.FriendshipGraph.constructor | src/structures.py:101-107 | an `n × n` all-zero matrix, and the two distances are stored |
| Structures.FriendshipGraph.SetPairOf | src/structures.py:109-117 | the shared body of `add_friendship` and `remove_friendship`: the matrix becomes `SetPair(old, i, j, v)`, cells `[i,j]` and `[j,i]` set to `v` and nothing else changed |
| Structures.FriendshipGraph.AddFriendship | src/structures.py:109-112 | the matrix becomes `SetPair(old, i, j, 1)` and stays symmetric and 0/1 |
| Structures.FriendshipGraph.RemoveFriendship | src/structures.py:114-117 | the matrix becomes `SetPair(old, i, j, 0)` and stays symmetric and 0/1 |
| Structures.FriendshipGraph.GetFriends | src/structures.py:119-120 | exactly the `k` with `graph[p][k] == 1`, ascending, without duplicates |
| Structures.FriendshipGraph.FriendsAreMutual | src/structures.py:109-120 | in a symmetric graph, `k` is a friend of `p` exactly when `p` is a friend of `k` |
| Structures.FriendshipGraph.SweepPairs | src/structures.py:123-133 | the nested loop over `i < len(people)`, `j < i` shared by both random sweeps: the matrix becomes `Sweep(old, len(people), accept, v)`, each accepted pair set to `v` in both cells and every other cell unchanged |
| Structures.FriendshipGraph.AddRandomFriendships | src/structures.py:122-133 | each pair `j < i < len(people)` whose draw succeeds gets both cells set to 1, and no other cell changes; symmetry and 0/1 are kept |
| Structures.FriendshipGraph.RemoveRandomFriendships | src/structures.py:135-146 | each pair `j < i < len(people)` whose draw succeeds gets both cells set to 0, and no other cell changes; symmetry and 0/1 are kept |

## Left out

- Box-Muller sampling (`Random.Range`, `Log`, `Sqrt`, `Cos`, `Sin`) is not modelled. The standard-normal pair it produces is an input. `Random.Range(0, 1)` can return 0, which makes `Log(0)` infinite; that hazard is not modelled either.
- Floating point is not modelled: no rounding, NaN, infinities or overflow. All equalities hold over exact reals.
- MovementCurve.MovementCurve.constructor: requires `nSegments != 0`. With 0, C# computes the sample parameter `0/0` as NaN, which reals cannot express. A negative `nSegments` is modelled: it caches nothing. A very large `nSegments` is not modelled: C#'s `List<Vector2>` cannot hold 2^31 entries, so near `int.MaxValue` `segments.Add` throws before `i` can wrap; the model has no such limit.
- The arc-length estimate, the speed-normalised advance step and the chaining on overflow of a later revision of the program are not modelled. No method of this revision's `MovementCurve.cs` performs them. `MovementCurve.UpdateCurveTime` only adds and resets.
- `MovementCurve` stores its private curve as a value that `ReflectCurve` reassigns. The C# code mutates the fields of an unshared object instead. The curve is never shared, so there is no aliasing to capture.
- `Flags.HitStatus` is not defined in the source files; it is modelled as the four hit sides plus one `NoHit` value.
- Rendering and host lifecycle are not modelled:
  - `MapToWorld`, `SetPersonSize` and `UpdateTransformPosition` in `Person.cs`;
  - `MovePeople`, `UpdateSizes`, `UpdateTransformPositions`, `Instantiate` and `Destroy` in `People.cs`;
  - pygame drawing (`draw`, `draw_friendships`) and the loop in `main.py`.
- People.People.Update: models only the population part of `Update`. `MovePeople` calls a `Person.Move()` that this revision's `Person.cs` does not define. `MovePeople` would also raise on a `null` entry.
- `People` is generic over the person type. `CreatePerson` calls a five-argument `Initialize` that this revision's `Person.cs` does not define, so the two classes are not linked. `minSpeed`, `speedScale`, `randomMoveBeta`, `randomMoveMean` and `randomMoveStd` (passed to that `Initialize`), `personSize` (passed to `SetPersonSize`) and `friendAttractiveness` (unused) are not modelled.
- The person the host instantiates for list index `i` is the input `spawn(i)`. `Instantiate` with a missing prefab is not modelled.
- Person.Person.RandomMove: the Perlin noise samples are inputs. How they are derived from `t`, `noiseTimeModifier` and the sibling index is not modelled.
- Person.Person.Initialize: requires draws in the documented ranges of `Random.Range` and `Random.value`. These are facts about the random source.
- Structures.Person.constructor: requires draws in the ranges of `random.random()` and `random.randint(20, 255)`. Each field gets its own draw. The order in which Python consumes draws, and its skipping of the draws for arguments it keeps, are not modelled.
- Structures.Person.RandomMove: the `opensimplex.noise2` samples are inputs.
- The friendship probability functions (`friendship_establishment_probability`, `friendship_breaking_probability`, `exp`/`log` curves and a root solver) are not modelled. Neither are the distances between people. Each pair's `random.random() < p` outcome is one boolean of the oracle `accept`, and the sweeps take `len(people)` as a count.
- People.People.AdjustNumberOfPeople: the list length and `numPeople` are unbounded integers. In C#, `people.Count - numPeople` is a 32-bit subtraction. For `numPeople <= people.Count - 2^31` (for example `int.MinValue` with an empty list) it wraps to a negative count, and `RemovePeople` then removes nothing and raises nothing. The model (`People.Adjusted`, `People.People.Update`) instead removes entries from the tail until the list is empty and then reports `ArgumentOutOfRange`, or stops at the first `null` entry and reports `NullReference`.
- Structures.FriendshipGraph.constructor: takes `num_people` as a `nat`. The `ValueError` that `np.zeros` raises for a negative `num_people` is not modelled.
- Structures.FriendshipGraph.AddFriendship: requires indices in range. Numpy's negative-index wrap-around and its `IndexError` are not modelled.
- Structures.FriendshipGraph.RemoveFriendship: same as `AddFriendship`.
- Structures.FriendshipGraph.GetFriends: same as `AddFriendship`.
- Structures.FriendshipGraph.AddRandomFriendships: requires `len(people) <= num_people`. The `IndexError` numpy raises beyond that is not modelled.
- Structures.FriendshipGraph.RemoveRandomFriendships: same as `AddRandomFriendships`.
- The `color` and `wellbeing` fields are stored only. Inert attributes (`sfc`, `wpc`, `irc`, `wellbeing`) are plain fields that nothing reads.
