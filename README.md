# Geographical calculator, modelled in Dafny

This project models the core of the Laravel geographical calculator: the
stateful `Geo` object and the traits it is built from.

**State.** The object holds:
- a list of points `[lat, long]` and a main point;
- a scratch store (`localStorage`), a result array and an options array;
- the longitudes recorded so far and the `sin`/`cos` slots;
- a unit table (factors from statute miles) and a diameter;
- the keys visited by the nearest-neighbour ordering (`pointsAppendedBefore`).

**Operations.** Its operations:
- measure the distance between consecutive points, in the units asked for (`getDistance`);
- order points by the greedy nearest-neighbour rule (`getOrderByNearestNeighbor`, `nearestNeighborAlgorithm`);
- pick the point closest to or farthest from the main point (`getClosest`, `getFarthest`);
- decide whether the first point is farther from the main point than the diameter (`isInArea`; true means farther, as the code at `src/Traits/Areas.php:105` and its feature tests have it, although the docblock at `src/Traits/Areas.php:84` calls true "within the area");
- compute the centre of the points (`getCenter`);
- reset the object (`clearResult`) and combine distance and centre (`allFeatures`).

**Layout.** The model has two layers.
- **Specification functions.** They work on an immutable `GeoState.State`. Each returns `Run(st, out)`: the state the operation leaves and its outcome. The outcome is a value or the exception that stopped it. A thrown exception therefore still records the writes done before it. Most properties are proved about these functions.
- **The class `Geo.Geo`.** It has one field per PHP property and one method per PHP method. Loops are written as `while` loops with invariants, except the rounds of `nearestNeighborAlgorithm`, which call themselves in PHP and are the recursive method `Geo.Geo.NearestNeighborRounds` here. Each method's `ensures` ties its outcome and the new state to the specification function of the old state. State-changing setters give the whole new state, as "nothing else changes".

**PHP data.**
- PHP arrays are `PhpArrays.PhpArray`: a key order plus a map, whose keys are distinct and exactly those of the map. Insertion order matters here. `first()` of a result, the first unit of the table, and the positions `array_merge` gives all depend on it.
- Stored values are `Values.Value`: null, bool, int, float, string, point, list, array, or a picked point.
- PHP warnings under Laravel become exceptions. They are modelled as errors: undefined key, undefined offset, appending to a non-array, reading an unassigned typed property, and an unknown unit.

**Trigonometry.** `sin`, `cos`, `acos`, `atan2` and `sqrt` are uninterpreted, in the record `Kernel.Trig`. The object's environment `Env` passes them in, with the configured key prefix. `deg2rad`, `rad2deg`, `pi()` and the factor 60 × 1.1515 are exact.

**The recorded longitudes.** Every pair is measured with the difference of the FIRST two longitudes on record (`longs[0] - longs[1]`). `getDistance` appends to that list without clearing it, so later pairs and later calls reuse the first pair's difference. The model keeps this (`DistanceLaws.FirstDelta`, `DistanceLoop.DeltaStable`); "## Findings" records it. It is why `getClosest` measures every point with the first point's longitude difference, while the nearest-neighbour ordering clears the object before each measurement.

**The `acos` argument.** `calcDistance` passes its argument to `acos` without clamping it into [-1, 1] (`src/Traits/Distances.php:148`), and the model does the same (`Kernel.CentralAngle`).

## Model

| member | source | states |
|---|---|---|
| Geo.Geo.constructor | src/Traits/Distances.php:62-65 | a new calculator is the initial state: nothing stored, no points, no main point, no longitudes, sin and cos unassigned, diameter 0, the resolved unit table |
| Distances.DefaultUnits | src/Traits/Distances.php:23-29 | the default table lists mile, km, m, cm, mm in that order with factors 1, 1.609344, 1609.344, 160.9344 and 1609344; the `cm` factor is as written, which is hectometres (see "## Findings") |
| Distances.CentimetresAsWritten | src/Traits/Distances.php:27 | the default `cm` factor is 100 times the kilometres and a tenth of the metres |
| Distances.MetricUnits | src/Traits/Distances.php:23-29 | the default table with `cm` at 160934.4: metres 1000 times kilometres, centimetres 100 times metres, millimetres 10 times centimetres, the other factors unchanged |
| Distances.ResolveUnits | src/Traits/Distances.php:208-213 | a configured non-empty table is used as it is; otherwise the default table |
| Distances.Initial | src/Traits/Distances.php:62-65 | the initial state: every collection empty, sin/cos unassigned, diameter 0, units resolved from the configuration |
| Geo.Geo.GetUnits | src/Traits/Distances.php:38-41 | returns the unit table |
| Geo.Geo.SetUnits | src/Traits/Distances.php:50-55 | replaces the unit table wholesale and changes nothing else |
| Distances.CheckIfUnitExists | src/Traits/Distances.php:226-233 | no exception exactly when the table has the unit; otherwise the unknown-unit exception naming it |
| Geo.Geo.CheckIfUnitExists | src/Traits/Distances.php:226-233 | no exception exactly when the table has the unit, the unknown-unit exception otherwise |
| Kernel.CorrectDistanceValue | src/Traits/Distances.php:167-170 | miles are degrees of arc times 69.09 (60 × 1.1515), non-negative for a non-negative arc |
| Kernel.GetAngle | src/Traits/Distances.php:116-121 | the product of sin (or cos) of both latitudes in radians; for equal latitudes it is a square, so never negative |
| Kernel.CentralAngle | src/Traits/Distances.php:148 | no contract: `acos` of sin-product plus cos-product times the cos of the longitude difference, with `acos` uninterpreted and its argument unclamped |
| Distances.RequestedUnits | src/Traits/Distances.php:183-186 | units are requested exactly when `getOptions()` gives the whole options array and its `units` list is non-empty; they are that list |
| Distances.StoreUnits | src/Traits/Distances.php:186-194 | the unit part of a pair changes only the store |
| Distances.ResolveDistanceWithUnits | src/Traits/Distances.php:183-201 | converting a distance changes only the store |
| Geo.Geo.StoreUnitsOf | src/Traits/Distances.php:186-194 | the loop over requested units (or mile) leaves the state and outcome of `Distances.StoreUnits` |
| Geo.Geo.ResolveDistanceWithUnits | src/Traits/Distances.php:183-201 | leaves the state and outcome of `Distances.ResolveDistanceWithUnits` |
| Distances.CalcDistance | src/Traits/Distances.php:144-158 | `calcDistance` keeps points, main point, options, units, diameter, visited keys, longitudes and result |
| Geo.Geo.CalcDistance | src/Traits/Distances.php:144-158 | leaves the state and outcome of `Distances.CalcDistance` |
| Distances.PairSetup | src/Traits/Distances.php:82-96 | setting up a pair fills sin and cos, records two longitudes, and keeps the configuration and result |
| Distances.PairStep | src/Traits/Distances.php:80-99 | one pass of the pair loop keeps points, main point, options, units, diameter and visited keys |
| Geo.Geo.MeasurePair | src/Traits/Distances.php:80-99 | one pass of the pair loop leaves the state and outcome of `Distances.PairStep` |
| Distances.DistanceFrom | src/Traits/Distances.php:80-99 | the rest of the pair loop keeps the configuration |
| Distances.GetDistance | src/Traits/Distances.php:78-103 | `getDistance` never changes the points, main point, options, units, diameter or visited keys; on success it returns the result |
| Geo.Geo.GetDistance | src/Traits/Distances.php:78-103 | the pair loop, as a `while` loop over pairs, leaves the state and outcome of `Distances.GetDistance` |
| Distances.FirstField | src/Traits/Distances.php:261-263 | the callback `first()[$name]` succeeds exactly when the result has a first value that is an array holding the name, and then gives that entry |
| Distances.PointValues | src/Traits/Distances.php:245 | the stored point list has one entry per point, each that point |
| Distances.EachFrom | src/Traits/Distances.php:253-268 | the per-point loop keeps main point, options, units, diameter and visited keys; without a main point a point left fails reading offset 0 and changes nothing |
| Distances.ResolveEachDistanceToMainPoint | src/Traits/Distances.php:242-269 | measuring each point from the main point keeps main point, options, units, diameter and visited keys; without a main point and with a point it fails reading offset 0 |
| DistanceEach.EachNoPoints | src/Traits/Distances.php:242-269 | with no points the main point is never read: only the preparation happens, and it succeeds |
| Geo.Geo.PrepareEach | src/Traits/Distances.php:245-251 | leaves exactly the state `DistanceEach.Prepared` gives |
| Geo.Geo.EachDistanceStep | src/Traits/Distances.php:253-267 | one pass of the per-point loop: on failure (including the read of an unset main point) it ends the loop with its state and error, otherwise the loop goes on from the next point |
| Geo.Geo.ResolveEachDistanceToMainPoint | src/Traits/Distances.php:242-269 | leaves the state and outcome of `Distances.ResolveEachDistanceToMainPoint` |
| DistanceEach.Prepared | src/Traits/Distances.php:245-251 | the prepared state has no points and keeps main point, units and options |
| DistanceEach.Recorded | src/Traits/Distances.php:253-267 | one distance per point, in point order, each the pair's miles in the unit's factor |
| DistanceEach.RecordedSnoc | src/Traits/Distances.php:253-267 | one more point appends exactly its own distance at the end |
| DistanceEach.EachStarts | src/Traits/Distances.php:245-251 | the per-point invariant holds when the loop starts |
| DistanceEach.EachRuns | src/Traits/Distances.php:253-267 | the per-point loop, with its invariant, runs to the end without failing |
| DistanceEach.ResolveEachSpec | src/Traits/Distances.php:242-269 | with the table's first unit requested and no name clash: it succeeds, leaves no points, stores the points and the unit, and appends exactly one distance per point, in order, to the distance list already there |
| DistanceEach.PairTrace | src/Traits/Distances.php:78-103 | on one pair `getDistance` returns the result, keeps the configuration, stores the snapshot of that pair and records its two longitudes |
| DistanceEach.PairKeys | src/Traits/Distances.php:80-99 | on two points the result only gains keys after those it had |
| DistanceEach.PairStepKeys | src/Traits/Distances.php:93-96 | a pass of the pair loop only adds a key after those the result had |
| DistanceEach.DeltaKept | src/Traits/Distances.php:130-133 | once the first pair is recorded, later pairs are measured with the same longitude difference |
| DistanceEach.PairRead | src/Traits/Distances.php:259-263 | after a pair, the callback reads that pair's distance in the stored unit |
| DistanceEach.EachFromStep | src/Traits/Distances.php:253-267 | each failure of a pass ends the loop with its error; a pass that appends goes on from the next point with the points cleared |
| DistanceEach.EachEnds | src/Traits/Distances.php:253-268 | once every point is done the list is the earlier distances followed by the new ones |
| DistanceLaws.SnapshotOfSpec | src/Traits/Distances.php:186-200 | a pair's snapshot holds each requested unit with the distance in it, and every other non-scratch key as before |
| DistanceLaws.StoreUnitsFromFailure | src/Traits/Distances.php:187-191 | the unit loop throws for the first unit the table lacks, and for no other |
| DistanceLaws.StoreUnitsFromAt | src/Traits/Distances.php:187-191 | units before the stopping one hold the distance times their factor; other keys are unchanged |
| Distances.StoreUnitsFrom | src/Traits/Distances.php:187-191 | the unit loop fails exactly when some remaining unit is missing from the table, and then with an unknown-unit error naming a unit the table lacks |
| DistanceLaws.StoreUnitsRequested | src/Traits/Distances.php:186-191 | with units requested and all known, the unit part is the loop over them and succeeds |
| DistanceLaws.StoreUnitsAt | src/Traits/Distances.php:185-194 | key by key, what the unit part stores: the requested units (mile when none) hold distance × factor, other keys kept |
| DistanceLaws.ResolveOutcome | src/Traits/Distances.php:198-200 | after dropping the scratch keys nothing is under `""`, so the whole store is returned |
| DistanceLaws.ResolveSpec | src/Traits/Distances.php:196-200 | dropping the scratch keys after the units leaves exactly the snapshot |
| DistanceLaws.SnapshotIgnoresScratch | src/Traits/Distances.php:196-200 | a snapshot does not depend on what the scratch keys held |
| DistanceLaws.SnapshotTwice | src/Traits/Distances.php:80-99 | a later pair's snapshot overwrites the earlier's units |
| DistanceLaws.Prepared | src/Traits/Distances.php:148-154 | the store before the unit part differs from the state only in the store |
| DistanceLaws.CalcDistanceResolves | src/Traits/Distances.php:144-158 | `calcDistance` is the unit part on the store holding the arc, its degrees and its miles |
| DistanceLaws.PreparedSpec | src/Traits/Distances.php:148-154 | the arc keys are set, and everything outside the scratch keys is kept |
| DistanceLaws.CalcDistanceSpec | src/Traits/Distances.php:144-158 | with known units, the store becomes the snapshot of the arc's miles, which is returned |
| DistanceLaws.PairSetupSpec | src/Traits/Distances.php:82-96 | a pair's set-up stores both sin and cos products of its latitudes, appends its two longitudes, sets position and key, and keeps every other key |
| DistanceLaws.LongPairs | src/Traits/Distances.php:89-91 | the first i pairs record 2·i longitudes, the first pair's two first |
| DistanceLaws.PairSetupMiles | src/Traits/Distances.php:116-158 | a pair's miles come from its latitudes and the first two longitudes on record |
| DistanceLaws.PairSetupPlain | src/Traits/Distances.php:82-96 | set-up keeps every requested unit known |
| DistanceLaws.PairStepOutcome | src/Traits/Distances.php:93-96 | a pass puts the remaining store under the pair's label |
| DistanceLaws.PairStepStorage | src/Traits/Distances.php:80-99 | after a pass the store is the snapshot of its miles |
| DistanceLaws.PairStepSpec | src/Traits/Distances.php:80-99 | a pass appends its longitudes, sets sin and cos, makes the store the snapshot and puts it in the result under the pair's label |
| DistanceLaws.NoPairs | src/Traits/Distances.php:80-103 | with fewer than two points nothing changes and the result is returned as it is |
| DistanceLaws.DistanceFromOk | src/Traits/Distances.php:80-99 | a successful pass hands its state to the rest of the loop |
| DistanceLaws.DistanceFromErr | src/Traits/Distances.php:80-99 | a throwing pass ends the loop with its state |
| DistanceLaws.DistanceFromLast | src/Traits/Distances.php:81 | the last point has no pair |
| DistanceLaws.GetDistanceOfLoop | src/Traits/Distances.php:78-103 | `getDistance` returns the result the loop leaves, or throws what it threw |
| DistanceLoop.Labels | src/Traits/Distances.php:93-96 | i pairs have i labels |
| DistanceLoop.LabelFresh | src/Traits/Distances.php:93-96 | a pair's label differs from every earlier pair's |
| DistanceLaws.OwnMiles | src/Traits/Distances.php:130-133 | the miles of a pair measured with its own longitude difference |
| DistanceLaws.OwnMilesAlone | src/Traits/Distances.php:130-133 | a calculator with no longitudes on record measures a lone pair with its own miles |
| DistanceLaws.StaleDelta | src/Traits/Distances.php:130-133 | in a three-point `getDistance` from no longitudes, the second pair is measured with the first pair's difference, which differs from its own whenever the two differences differ |
| DistanceLoop.DeltaStable | src/Traits/Distances.php:130-133 | every pair is measured with the longitude difference of the first two longitudes on record when the loop started |
| DistanceLoop.LongsStep | src/Traits/Distances.php:89-91 | each pair appends exactly its two longitudes, in order |
| DistanceLoop.StepStepped | src/Traits/Distances.php:80-99 | a pass with known units succeeds |
| DistanceLoop.Advance | src/Traits/Distances.php:80-99 | one pass keeps the loop's invariant: longitudes, store, entries of earlier pairs, other keys, labels |
| DistanceLoop.DistanceFromDone | src/Traits/Distances.php:80-99 | the rest of the pair loop succeeds and ends with every pair done |
| DistanceLoop.GetDistanceSpec | src/Traits/Distances.php:78-103 | with known units `getDistance` succeeds: one entry per adjacent pair under its label, each the snapshot of that pair's miles; other keys kept; from a fresh result the keys are exactly the labels in order; the longitudes of all pairs appended |
| DistanceLoop.FreshSnapshot | src/Traits/Distances.php:196-200 | on a fresh store a pair's entry holds exactly the requested unit keys |
| DistanceLoop.LabelsFirst | src/Traits/Distances.php:93-96 | the first label is the first pair's |
| DistanceLoop.FirstEntryIn | src/Traits/Distances.php:261-263 | in a result keyed by the labels, the first value is the first pair's entry |
| DistanceLoop.FirstPairIn | src/Traits/Ordering.php:159-164 | with a fresh result, the callback reads the first pair's distance in the unit |
| DistanceErrors.ResolveStops | src/Traits/Distances.php:187-191 | the unit part throws at the first unknown unit, with the units before it written |
| DistanceErrors.ResolveStoresBefore | src/Traits/Distances.php:187-191 | a unit listed before the unknown one holds the distance in it |
| DistanceErrors.PreparedUnknown | src/Traits/Distances.php:148-154 | preparing the store keeps which unit is the first unknown |
| DistanceErrors.GetDistanceStops | src/Traits/Distances.php:78-103 | an unknown unit makes `getDistance` throw at the first pair, the result unchanged and the first pair's longitudes recorded |
| DistanceErrors.GetDistanceStoresBefore | src/Traits/Distances.php:187-191 | when `getDistance` throws, each unit listed before the unknown one holds the first pair's distance |
| DistanceErrors.FirstPairStops | src/Traits/Distances.php:80-99 | with an unknown unit, `getDistance` leaves what converting the first pair's miles leaves |
| DistanceErrors.ResolveNoMile | src/Traits/Distances.php:192-194 | with no units requested and no `mile` in the table, reading its factor fails and nothing is stored |
| DistanceErrors.GetDistanceNoMile | src/Traits/Distances.php:192-194 | then `getDistance` fails at the first pair, leaving the result |
| Formatter.FormatDistanceKey | src/Traits/Formatter.php:23-28 | the key is the prefix followed by the key, |prefix| + |key| long; a missing prefix leaves the key unchanged |
| Formatter.NatToStringRoundTrip | src/Traits/Distances.php:87 | the decimal digits of a number read back to that number |
| Formatter.PositionRoundTrip | src/Traits/Distances.php:87 | the label `(i+1)-(i+2)` names pair i |
| Formatter.LabelRoundTrip | src/Traits/Distances.php:93-96 | with any prefix, a pair's label names that pair |
| Formatter.Label | src/Traits/Distances.php:93-96 | no contract of its own: the prefix then `<i+1>-<i+2>`; `Formatter.LabelRoundTrip` and `Formatter.LabelInjective` state what it means |
| Formatter.LabelInjective | src/Traits/Distances.php:93-96 | different pairs get different labels |
| Formatter.FirstDash | src/Traits/Distances.php:87 | the first dash of a label, with none before it |
| DataStorage.Coalesce | src/Traits/DataStorage.php:140-147 | a read finds the value exactly when the key is set (not null), and otherwise gives the whole array |
| DataStorage.OptionsLookup | src/Traits/DataStorage.php:43-46 | an option read gives the option when present, otherwise all options |
| DataStorage.StoreRoundTrip | src/Traits/DataStorage.php:189-194 | writing v then reading the key gives v (the whole store for null); every other key reads as before |
| DataStorage.Append | src/Traits/DataStorage.php:110-119 | appending succeeds exactly when the key is unset or holds a list; the list gains v at the end; any other stored value is reported as the error for a non-array |
| DataStorage.AppendCollects | src/Traits/DataStorage.php:110-119 | appending values one by one from an unset key leaves exactly that sequence, in order |
| DataStorage.CustomKeysSpec | src/Traits/DataStorage.php:169-178 | the copy holds exactly the requested keys, each with its value or the whole store when unset |
| DataStorage.CustomKeys | src/Traits/DataStorage.php:169-178 | the copy holds no key that was not asked for (`DataStorage.CustomKeysSpec` gives the rest) |
| DataStorage.RemoveKeysSpec | src/Traits/DataStorage.php:215-224 | exactly the listed keys that are set go; all else is unchanged |
| DataStorage.RemoveKeys | src/Traits/DataStorage.php:215-224 | no contract of its own: the keys unset one by one, each only if set when it comes up; `DataStorage.RemoveKeysSpec` states the result key by key |
| Geo.Geo.GetOptions | src/Traits/DataStorage.php:43-46 | an option when present, otherwise all options |
| Geo.Geo.SetOptions | src/Traits/DataStorage.php:55-60 | replaces the options wholesale and changes nothing else |
| Geo.Geo.GetResult | src/Traits/DataStorage.php:69-74 | returns the whole result |
| Geo.Geo.GetResultByKey | src/Traits/DataStorage.php:83-86 | the entry when set, otherwise the whole result |
| Geo.Geo.SetResult | src/Traits/DataStorage.php:95-100 | merges: incoming keys override, all other keys kept, nothing else changes |
| Geo.Geo.AppendToStorage | src/Traits/DataStorage.php:110-119 | succeeds exactly when `DataStorage.Append` does, leaving its store; for any stored value other than unset or a list nothing changes and the non-array error is returned |
| Geo.Geo.ClearStoredResults | src/Traits/DataStorage.php:126-131 | empties only the result |
| Geo.Geo.GetFromStorage | src/Traits/DataStorage.php:140-147 | the value when the key is set, otherwise the whole store |
| Geo.Geo.InStorage | src/Traits/DataStorage.php:156-159 | true exactly when the key holds a non-null value |
| Geo.Geo.GetCustomKeysFromStorage | src/Traits/DataStorage.php:169-178 | loops over the keys and returns the copy `DataStorage.CustomKeys` describes |
| Geo.Geo.SetInStorage | src/Traits/DataStorage.php:189-194 | writes one key of the store and changes nothing else |
| Geo.Geo.ClearStorage | src/Traits/DataStorage.php:201-206 | empties only the store |
| Geo.Geo.RemoveFromStorage | src/Traits/DataStorage.php:215-224 | loops over the keys, leaving the store `DataStorage.RemoveKeys` gives, and changes nothing else |
| PhpArrays.Put | src/Traits/DataStorage.php:189-194 | `$a[$k] = $v`: an existing key keeps its position, a new one goes last |
| PhpArrays.Merge | src/Traits/DataStorage.php:95-100 | `array_merge`: values of the second override, and the first's keys keep their order at the front |
| PhpArrays.MergeSingle | src/Traits/DataStorage.php:95-100 | merging a one-entry array is writing that entry |
| PhpArrays.Remove | src/Traits/DataStorage.php:215-224 | `unset`: only that key goes |
| Geo.Geo.GetPoints | src/Traits/PointsStorage.php:36-39 | point i when it exists, otherwise the whole list |
| Geo.Geo.SetPoint | src/Traits/PointsStorage.php:48-53 | appends one point at the end; earlier points and everything else unchanged |
| Geo.Geo.UpdatePoint | src/Traits/PointsStorage.php:63-68 | replaces only the point at i by f of it, and fails (changing nothing) when there is no point i |
| Geo.Geo.GetMainPoint | src/Traits/PointsStorage.php:75-78 | returns the main point |
| Geo.Geo.SetMainPoint | src/Traits/PointsStorage.php:87-92 | sets the main point and changes nothing else |
| Geo.Geo.SetPoints | src/Traits/PointsStorage.php:101-106 | appends the points in order after the existing ones |
| Geo.Geo.ReplacePoints | src/Traits/PointsStorage.php:115-120 | sets the list exactly |
| Geo.Geo.ClearPoints | src/Traits/PointsStorage.php:127-132 | empties the list and changes nothing else |
| Geo.Geo.GetSin | src/Traits/AngleStorage.php:45-48 | the slot once assigned; reading it before fails |
| Geo.Geo.SetSin | src/Traits/AngleStorage.php:57-62 | sets only sin |
| Geo.Geo.GetCos | src/Traits/AngleStorage.php:69-72 | the slot once assigned; reading it before fails |
| Geo.Geo.SetCos | src/Traits/AngleStorage.php:105-110 | sets only cos |
| Geo.Geo.GetLongs | src/Traits/AngleStorage.php:79-82 | the longitudes in the order they were appended |
| Geo.Geo.SetLongitude | src/Traits/AngleStorage.php:91-96 | appends one longitude and changes nothing else |
| Geo.Geo.ClearAngles | src/Traits/AngleStorage.php:117-122 | sin and cos become `''`, longitudes empty, nothing else changes |
| Geo.Geo.GetDiameter | src/Traits/DiametersStorage.php:27-30 | returns the diameter |
| Geo.Geo.SetDiameter | src/Traits/DiametersStorage.php:40-45 | sets only the diameter, 0 by default |
| Areas.DegreesOfRadians | src/Traits/Areas.php:66-68 | converting to radians and back gives the coordinate again |
| Areas.ResetDimensions | src/Traits/Areas.php:115-123 | the three accumulators hold 0 |
| Geo.Geo.ResetDimensions | src/Traits/Areas.php:115-123 | leaves the store `Areas.ResetDimensions` gives, nothing else |
| Areas.AddPoint | src/Traits/Areas.php:36-58 | a pass of the point loop keeps the accumulators numbers |
| Areas.AddPointAdds | src/Traits/Areas.php:36-58 | a pass adds the point's contribution to each accumulator |
| Areas.AddPointValues | src/Traits/Areas.php:36-58 | a pass writes the point's radians and the increased accumulators |
| Areas.AddPointStep | src/Traits/Areas.php:34-59 | the loop over one more point is one more pass |
| Geo.Geo.AccumulatePoint | src/Traits/Areas.php:36-58 | leaves the store `Areas.AddPoint` gives |
| Geo.Geo.AccumulatePoints | src/Traits/Areas.php:34-59 | the `foreach` over the points leaves the store `Areas.AfterPoints` gives |
| Areas.AfterPointsSum | src/Traits/Areas.php:34-59 | after the loop each accumulator has grown by the sum of all the points' contributions |
| Areas.AfterPointsFrame | src/Traits/Areas.php:34-59 | the loop writes nothing but the last point's radians and the accumulators |
| Areas.FillFrame | src/Traits/Areas.php:36-58 | a pass writes only its radians and the accumulators |
| Areas.Divide | src/Traits/Areas.php:132-142 | dividing an accumulator by the count changes only that accumulator |
| Areas.DivideDims | src/Traits/Areas.php:132-142 | dividing the three accumulators divides each once and writes nothing else |
| Areas.DivideOf | src/Traits/Areas.php:132-142 | each accumulator ends divided by the count |
| Geo.Geo.ResolveDimensionByPointsCount | src/Traits/Areas.php:132-142 | the loop over x, y, z leaves the store `Areas.DivideAll` gives |
| Areas.DividedMeans | src/Traits/Areas.php:31-62 | after zeroing, the point loop and the division the accumulators hold the mean vector |
| Areas.ResolveCoordinates | src/Traits/Areas.php:151-168 | `long` is atan2(y, x) and `lat` is atan2(z, sqrt(x² + y²)) |
| Areas.ResolveSteps | src/Traits/Areas.php:151-168 | the five writes, each reading back what the previous left, are `Areas.ResolveCoordinates` |
| Geo.Geo.ResolveCoordinates | src/Traits/Areas.php:151-168 | leaves the store `Areas.ResolveCoordinates` gives |
| Areas.CenteredSpec | src/Traits/Areas.php:20-64 | the coordinates resolved are those of the mean of the points' unit vectors |
| Areas.LatLong | src/Traits/Areas.php:66-69 | the entry is exactly `lat` then `long`, in degrees |
| Areas.CenterEntry | src/Traits/Areas.php:66-69 | the merged entry has the keys `lat` and `long` in that order |
| Areas.Center | src/Traits/Areas.php:20-75 | the centre changes only store and result, and returns false or the result |
| Areas.CenterEmpty | src/Traits/Areas.php:23-28 | with no points it stores the count 0 and returns false before touching the accumulators |
| Areas.CenterResult | src/Traits/Areas.php:31-74 | with points it merges `lat`/`long` of the mean vector (in degrees) into the result and returns the whole result |
| Areas.CenterOfPoints | src/Traits/Areas.php:20-75 | the answer depends only on the points and the result |
| Geo.Geo.GetCenter | src/Traits/Areas.php:20-75 | leaves the state and answer of `Areas.Center` |
| Areas.Greater | src/Traits/Areas.php:105 | `>` between a stored number and the diameter; other kinds of value are not interpreted |
| Areas.AreaSetup | src/Traits/Areas.php:89-99 | the points become the main point then the first point, and the options kilometres |
| Areas.CompareArea | src/Traits/Areas.php:99-105 | the comparison keeps the configuration |
| Areas.IsInAreaState | src/Traits/Areas.php:89-103 | whatever the distance, the points are left as [main point, candidate] and the options as kilometres, the rest of the configuration as it was |
| Areas.IsInAreaNoPoints | src/Traits/Areas.php:90 | with no points, reading the first one fails, with or without a main point |
| Areas.CompareAreaNum | src/Traits/Areas.php:105 | the answer is distance > diameter |
| Areas.IsInArea | src/Traits/Areas.php:86-106 | keeps main point, units, diameter and visited keys; with no points fails reading offset 0 and keeps the points; without a main point fails reading offset 0; otherwise leaves the points as main point then first point and the options as `km` |
| Areas.MainValue | src/Traits/PointsStorage.php:27 | `getMainPoint()` stored: a point exactly when one was set, the empty array otherwise |
| Areas.AreaSetupPlain | src/Traits/Areas.php:89-99 | the set-up calculator measures kilometres only |
| Areas.IsInAreaAnswer | src/Traits/Areas.php:86-106 | `isInArea` answers whether the kilometres to the candidate are strictly more than the diameter; a point on the circle gives false |
| Geo.Geo.IsInArea | src/Traits/Areas.php:86-106 | leaves the state and answer of `Areas.IsInArea` |
| Ordering.Keys | src/Traits/Ordering.php:154 | the keys of the points, in order |
| Ordering.Tag | src/Traits/Ordering.php:205-207 | the callback keeps the coordinates and sets the key to index + 1 |
| Ordering.KeyPoints | src/Traits/Ordering.php:202-209 | each point keeps its coordinates and gets its position + 1 as key |
| Ordering.KeyPointsKeys | src/Traits/Ordering.php:202-209 | the keys are 1 to n in order, so distinct |
| Geo.Geo.ResolveKeyForEachPoint | src/Traits/Ordering.php:202-209 | the loop of `updatePoint` calls leaves the points `Ordering.KeyPoints` gives |
| Ordering.Unvisited | src/Traits/Ordering.php:189 | exactly the remaining points whose key was not visited |
| Ordering.UnvisitedShrinks | src/Traits/Ordering.php:183-189 | dropping a visited key that a remaining point has leaves fewer points |
| Ordering.KeyShrinks | src/Traits/Ordering.php:183-189 | the same for a key among the remaining keys |
| Ordering.WithKey | src/Traits/Ordering.php:180 | finds a point exactly when the key is present: the first point with it |
| Ordering.KeyIndex | src/Traits/Ordering.php:180 | the first position holding the key |
| Ordering.Base | src/Traits/Ordering.php:151-162 | the calculator a measurement uses is cleared and set to kilometres |
| Ordering.Measure | src/Traits/Ordering.php:159-164 | a measurement leaves the two points and kilometres as configuration |
| Ordering.MeasureKm | src/Traits/Ordering.php:159-164 | with kilometres in the table a measurement succeeds with the two points' distance, measured with their own longitude difference |
| Ordering.MeasureNoKm | src/Traits/Ordering.php:159-164 | without kilometres it throws the unknown-unit exception |
| Ordering.MeasureBase | src/Traits/Ordering.php:151 | a measurement does not change what the next one starts from |
| Ordering.Below | src/Traits/Ordering.php:167 | `<` with a number; other kinds of value are not interpreted |
| Ordering.Consider | src/Traits/Ordering.php:153-171 | considering a candidate either keeps the pick or takes the candidate's key |
| Ordering.Judge | src/Traits/Ordering.php:166-171 | the same, given the measurement |
| Ordering.JudgeNum | src/Traits/Ordering.php:167-171 | a numeric distance replaces the pick exactly when strictly below it |
| Ordering.ConsiderKm | src/Traits/Ordering.php:153-171 | with kilometres the candidate is taken exactly when its distance is below the best |
| Geo.Geo.ConsiderPoint | src/Traits/Ordering.php:153-171 | leaves the state and pick of `Ordering.Consider` |
| Ordering.Scan | src/Traits/Ordering.php:149-172 | a round's choice, when it changes, is the key of a remaining point |
| Ordering.ScanSkip | src/Traits/Ordering.php:151-156 | the last point of the tour is skipped, after the clear |
| Ordering.ScanNext | src/Traits/Ordering.php:149-172 | any other point is considered, a failure ending the round |
| Geo.Geo.ScanRound | src/Traits/Ordering.php:139-172 | the `foreach` leaves the state and pick of `Ordering.Scan` |
| Geo.Geo.ScanStep | src/Traits/Ordering.php:149-172 | one pass of the `foreach`: a failure ends the round, otherwise the round goes on |
| Ordering.ScanKm | src/Traits/Ordering.php:149-172 | with kilometres a round measures every candidate and chooses among the distances |
| Ordering.ChooseSpec | src/Traits/Ordering.php:166-171 | strict `<` chooses the earliest of the smallest candidate distances when below the bound, and keeps the pick otherwise |
| Ordering.RoundChoice | src/Traits/Ordering.php:139-172 | a round chooses the earliest remaining point, other than the last one, at the smallest distance from it, when below 129600; otherwise nothing |
| Ordering.ScanNoKm | src/Traits/Ordering.php:159-164 | without kilometres a round with a candidate throws |
| Ordering.Decide | src/Traits/Ordering.php:174-177 | with one point left it is chosen whatever its distance; otherwise the round's choice |
| Ordering.Tour | src/Traits/Ordering.php:117-193 | the visited keys are only appended to |
| Ordering.NearestNeighbor | src/Traits/Ordering.php:117-193 | the visited keys gain 0 (the first point) and are then only appended to |
| Ordering.OrderByNearestNeighbor | src/Traits/Ordering.php:87-98 | without a main point fails reading offset 0; with one the main point (key 0) is the first visited key, after those visited before |
| Ordering.TourStep | src/Traits/Ordering.php:139-192 | a failing round or one that chooses nothing stops the tour; otherwise the chosen key is recorded, its point added, visited points dropped |
| Ordering.TourAdvance | src/Traits/Ordering.php:180-192 | a round choosing k advances the tour by k |
| Ordering.TourRound | src/Traits/Ordering.php:180-192 | the tour after a round that chose k, with k's point found |
| Ordering.AdvanceOn | src/Traits/Ordering.php:189-192 | after an advance fewer points remain and the tour continues from the new state |
| Ordering.AdvancesBy | src/Traits/Ordering.php:180-192 | the parts of an advance put together |
| Ordering.BaseKeeps | src/Traits/Ordering.php:151 | measuring does not change the visited keys or the units |
| Ordering.ChosenPoint | src/Traits/Ordering.php:180 | the chosen point is the point with the chosen key |
| Ordering.RoundKeeps | src/Traits/Ordering.php:180-189 | a round keeps: keys distinct, entry 0 first, every entry under its own key, every point in the tour or remaining |
| Ordering.Finished | src/Traits/Ordering.php:135-137 | with no point left the tour is complete |
| Ordering.TourCompletes | src/Traits/Ordering.php:117-193 | a tour that does not fail ends complete |
| Ordering.StartKeeps | src/Traits/Ordering.php:122-127 | the tour starts as entry 0 holding the first point, with 0 visited |
| Ordering.UniqueCard | src/Traits/Ordering.php:189 | distinct keys count as many as there are |
| Ordering.CompleteLength | src/Traits/Ordering.php:117-193 | a complete tour has one entry per point |
| Ordering.NearestNeighborComplete | src/Traits/Ordering.php:117-193 | with distinct keys, the first 0, and none of the others visited before, the tour that does not fail holds each point once under its own key, entry 0 first |
| Geo.Geo.NearestNeighborAlgorithm | src/Traits/Ordering.php:117-193 | the first point as entry 0, then the rounds as the recursive method `Geo.Geo.NearestNeighborRounds` (decreasing on the points left), leaving the state and answer of `Ordering.NearestNeighbor` |
| Geo.Geo.NearestNeighborRounds | src/Traits/Ordering.php:130-192 | the rounds leave the state and answer of `Ordering.Tour` |
| Geo.Geo.NextKey | src/Traits/Ordering.php:139-189 | one round: its failure is the tour's, or it advances the tour by the chosen key |
| Ordering.Planned | src/Traits/Ordering.php:90-95 | the main point first with key 0, then the point at i with key i + 1 and its coordinates |
| Ordering.PlannedOrdered | src/Traits/Ordering.php:87-98 | a complete tour of the planned points holds the main point under 0 and point i under i + 1 |
| Ordering.OrderComplete | src/Traits/Ordering.php:87-98 | on a calculator that has not visited the keys 1 to n, an ordering that does not fail is entry 0 holding the main point, then keys 1 to n in some order, key i + 1 holding point i |
| Ordering.OrderAppends | src/Traits/Ordering.php:117-193 | the visited keys are only appended to, first with 0, and nothing resets them |
| Ordering.LastIsPoint | src/Traits/Ordering.php:146 | the tour's last entry is one of the points |
| Ordering.RoundPicks | src/Traits/Ordering.php:149-172 | a round with a near candidate chooses one |
| Ordering.OpenKeeps | src/Traits/Ordering.php:180-189 | a round keeps every entry a point with a visited key and every remaining point a point, and leaves a candidate other than the last entry when two points remain |
| Ordering.Held | src/Traits/Ordering.php:180-183 | every entry of the tour is one of the points, with a visited key |
| Ordering.HeldLast | src/Traits/Ordering.php:146 | so is the tour's last entry |
| Ordering.RoundOk | src/Traits/Ordering.php:139-177 | every round of a near set of points chooses a key, whatever was visited before |
| Ordering.TourSucceeds | src/Traits/Ordering.php:117-193 | with kilometres and every distance below 129600 the tour does not fail, whatever keys were visited before |
| Ordering.Source | src/Traits/Ordering.php:93-95 | every planned point has the coordinates of the main point or of a point |
| Ordering.PlannedNear | src/Traits/Ordering.php:93-95 | tagging keeps coordinates, so near points stay near |
| Ordering.NearFrom | src/Traits/Ordering.php:159-164 | the distance depends on the coordinates only |
| Ordering.OrderSucceeds | src/Traits/Ordering.php:87-98 | with a main point, kilometres and every distance below 129600 the ordering does not fail, on a fresh calculator or on one that has ordered before |
| Ordering.KmTo | src/Traits/Ordering.php:149-164 | one distance per point from the last point |
| Geo.Geo.GetOrderByNearestNeighbor | src/Traits/Ordering.php:87-98 | leaves the state and answer of `Ordering.OrderByNearestNeighbor` |
| Ordering.TourVisits | src/Traits/Ordering.php:180-183 | every entry of a tour that does not fail has its key visited |
| Ordering.PutVisited | src/Traits/Ordering.php:180-183 | adding an entry under the key then visited keeps every entry's key visited |
| Ordering.OrderVisits | src/Traits/Ordering.php:87-98 | a first ordering of n points that does not fail leaves every key 0 to n visited |
| Ordering.OrderIsTour | src/Traits/Ordering.php:87-98 | the ordering is the tour of the planned points from entry 0, with 0 visited |
| Ordering.FirstPick | src/Traits/Ordering.php:149-172 | the first round from the main point, with the points near, picks a key other than 0 among the points |
| Ordering.OneRound | src/Traits/Ordering.php:180-192 | a round after which every key is visited ends the tour with the chosen point added |
| Ordering.NoneLeft | src/Traits/Ordering.php:189 | with every key visited, no point remains |
| Ordering.SecondEntry | src/Traits/Ordering.php:180 | adding a key other than 0 to entry 0 gives two entries in that order |
| Ordering.RepeatTour | src/Traits/Ordering.php:117-193 | a tour of near points whose keys were all visited before succeeds with two entries |
| Ordering.RepeatOrderTruncated | src/Traits/Ordering.php:87-98 | on a calculator that has visited the keys 0 to n, ordering n ≥ 2 near points succeeds with two entries, so not with the ordered tour |
| Ordering.SecondOrderTruncated | src/Traits/Ordering.php:87-98 | after a first ordering of n points, a calculator that kept its visited keys orders 2 to n near points into two entries |
| Ordering.OrderByNearestNeighborReset | src/Traits/Ordering.php:87-98 | with the visited keys reset first, an ordering that does not fail is the main point under 0 and point i under i + 1, whatever the calculator visited before |
| Ordering.ResetOrderSucceeds | src/Traits/Ordering.php:87-98 | the reset ordering of near points with kilometres does not fail, and is that tour |
| Closest.Extreme | src/Traits/Ordering.php:36 | the first key after a stable sort: nothing sorts ahead of it and it sorts strictly ahead of every earlier value |
| Closest.ExtremeUnique | src/Traits/Ordering.php:36 | those two properties single out one position |
| Closest.ExtremeMirror | src/Traits/Ordering.php:36 | the farthest of a list is the closest of its negation |
| Closest.Amounts | src/Traits/Ordering.php:36 | a list is read as numbers exactly when every entry is an int or a float |
| Closest.AmountsConcat | src/Traits/Ordering.php:36 | two lists of numbers joined read as their numbers joined |
| Closest.FirstSortedKey | src/Traits/Ordering.php:36 | an empty list gives null; a list of numbers the earliest position of the extreme |
| Closest.PointAt | src/Traits/Ordering.php:41 | reading the stored points at i succeeds exactly when there is a point i |
| Closest.PickAt | src/Traits/Ordering.php:34-45 | the index is stored; for a point index that point is returned with its index and put in the result, otherwise the read fails |
| Closest.PickRead | src/Traits/Ordering.php:39-45 | the reads of the pick once the index is stored |
| Closest.SortedIndex | src/Traits/Ordering.php:36 | a stored non-empty list of numbers sorts to its earliest extreme |
| Closest.Measured | src/Traits/Distances.php:253-267 | one measured distance per point |
| Closest.AmountsRecorded | src/Traits/Distances.php:253-267 | the recorded distances are the measured numbers |
| Closest.AmountsAfter | src/Traits/Distances.php:253-267 | the list after the loop is the earlier numbers followed by the new |
| Closest.ItemsStored | src/Traits/DataStorage.php:110-119 | a non-empty list is stored |
| Closest.ExtremeSpec | src/Traits/Ordering.php:29-46 | the index is the earliest extreme of the earlier distances followed by the current ones; a current point's index returns that point |
| Closest.PickExtreme | src/Traits/Ordering.php:34-45 | picking changes only the store and the result; a success returns a picked point |
| Closest.GetExtreme | src/Traits/Ordering.php:29-46 | keeps main point, options, units, diameter and visited keys; without a main point and with a point it fails reading offset 0 |
| Closest.ExtremeFrom | src/Traits/Ordering.php:34-45 | once the distance loop succeeded, the call picks as the sorted index says |
| Closest.FreshDistances | src/Traits/Ordering.php:31 | with no distances stored before, only the current ones are sorted |
| Closest.ClosestSpec | src/Traits/Ordering.php:29-46 | `getClosest` returns `{i => points[i]}` and puts it under `closest`, i the earliest position of the least distance from the main point |
| Closest.FarthestSpec | src/Traits/Ordering.php:61-78 | `getFarthest` does the same with the greatest distance, under `farthest` |
| Closest.NothingToPick | src/Traits/Ordering.php:36-41 | with no points and no distances, there is nothing to pick and the call fails |
| Closest.StaleIndex | src/Traits/Ordering.php:31-41 | a distance left by an earlier call that sorts ahead of every new one gives an index into the earlier list, not a current point |
| Geo.Geo.PickExtreme | src/Traits/Ordering.php:34-45 | leaves the state and answer of `Closest.PickExtreme` |
| Geo.Geo.GetClosest | src/Traits/Ordering.php:29-46 | leaves the state and answer of `Closest.GetExtreme` for the least |
| Geo.Geo.GetFarthest | src/Traits/Ordering.php:61-78 | leaves the state and answer of `Closest.GetExtreme` for the greatest |
| GeoState.ClearResult | src/Classes/Geo.php:48-58 | store, points, result and longitudes emptied, sin and cos `''`; main point, options, units, diameter and visited keys unchanged |
| GeoState.ClearResultIdempotent | src/Classes/Geo.php:48-58 | clearing twice is clearing once |
| Geo.Geo.ClearResult | src/Classes/Geo.php:48-58 | leaves exactly `GeoState.ClearResult` of the old state |
| Features.Gathered | src/Classes/Geo.php:80-83 | exactly the keys `distance` then `center` |
| Features.CenteredKeeps | src/Traits/Areas.php:20-75 | the centre computation keeps every store key not its own |
| Features.CenterKeepsDistance | src/Classes/Geo.php:75-80 | the stored distance result survives the centre |
| Features.GatherSpec | src/Classes/Geo.php:77-85 | with the distance stored, the rest gathers it with the centre of the points |
| Features.AllFeatures | src/Classes/Geo.php:73-86 | keeps the configuration (points, main point, options, units, diameter, visited keys); a success returns the result it leaves |
| Features.MergeGathered | src/Classes/Geo.php:80-85 | merged into an empty result the two entries stay in order |
| Features.AllFeaturesSpec | src/Classes/Geo.php:73-86 | succeeds exactly when `getDistance` does; returns and leaves exactly `distance` (the distance result) and `center` (the centre a fresh calculator with the same points computes) |
| Geo.Geo.AllFeatures | src/Classes/Geo.php:73-86 | leaves the state and answer of `Features.AllFeatures` |

## Left out

- Trigonometry: `sin`, `cos`, `acos`, `atan2` and `sqrt` are uninterpreted functions on reals. No property depends on their values: not symmetry, not zero distance, not the numbers the package's tests expect. Floating-point rounding is not modelled.
- The configuration: the unit table and key prefix are inputs (`Distances.ResolveUnits`, `Env`), read at construction.
- Callbacks: every `$callback` parameter, `resolveCallbackResult` and `getResult($callback)` are left out. The model uses only the projections the code itself passes: the first entry's value in a unit.
- Laravel collections as return values: results that PHP returns as collections are modelled as arrays.
- `cleanDistanceResult`: its filter keeps every entry, so the model returns the result as it is.
- `Looper::through` and `Debugger`: `through` is an in-order loop and is written as a loop in its callers; `Debugger` only dumps.
- The install command, service provider, facade, interface and trait container: plumbing with no logic to model.
- Loose comparison: `==`, `where` and `whereNotIn` are modelled as exact equality on integer keys. `<` and `>` between a stored value that is not a number and a number are reported as an uninterpreted comparison error.
- Sorting mixed values: sorting a list that holds non-numbers, or the whole store, is reported as an uninterpreted comparison error.
- Integer keys in `array_merge`: `array_merge` is modelled for string keys. The integer-keyed merges in `getOrderByNearestNeighbor` are modelled by what they produce: the main point first, then the points.
- DataStorage.Append: appending to a stored point, picked point, associative array or `false` is reported as the non-array error, and so is Geo.Geo.AppendToStorage. PHP appends to an array and to `false` (with a deprecation notice); only a string, `true`, an int or a float makes it throw. Those successful appends are not modelled.
- Geo.Geo.SetOptions: options are modelled as string keys holding lists of strings. `units` given as a single string, non-string units, option values of other kinds, and integer option keys are not modelled.
- Non-list points: a store value under `points` that is not a list is modelled as an error.
- Geo.Geo.GetClosest: an unset main point is the empty array (`src/Traits/PointsStorage.php:27`). With a point, PHP sets `[[], point]` as the points and throws when `getDistance` reads offset 0 of `[]` (`src/Traits/Distances.php:84`). The model fails there with the undefined-offset error, but its point list cannot hold `[]`, so the state it leaves does not record that `setPoints`. The same holds for Geo.Geo.GetFarthest, Geo.Geo.ResolveEachDistanceToMainPoint and Geo.Geo.EachDistanceStep, and for the functions Closest.GetExtreme, Distances.ResolveEachDistanceToMainPoint and Distances.EachFrom they leave. For Geo.Geo.IsInArea and Areas.IsInArea the failing state has the points cleared instead of `[[], point]`.
- Geo.Geo.NearestNeighborAlgorithm: modelled only with the defaults `getOrderByNearestNeighbor` uses: no tour yet, size 0, key `'key'`, and a non-empty point list. PHP's `collect($points)->first()` of an empty list is not modelled.
- Ordering.TourSucceeds: the round in which no candidate is below 129600 fails in the model (the read of `keys()[0]`). Completeness is proved only when every distance is below 129600.
- Ordering.OrderComplete: stated only for a calculator that has not visited the keys 1 to n, such as one that has never ordered. The visited keys are never reset, and an ordering after an earlier one is cut short; that case is in "## Findings" (`Ordering.RepeatOrderTruncated`), not in this lemma.
- Ordering.NearestNeighborComplete: stated only when no key but the first was visited before, for the same reason as Ordering.OrderComplete.
- DistanceEach.ResolveEachSpec: stated only when (1) the result is empty or its first key is the label of pair 0; (2) every requested unit is in the table and is none of `""`, the scratch keys `position`, `distance_key`, `distance`, `rad2deg`, `correctDistanceValue`, or the loop's keys `unit`, `points`, `distancesEachPointToMainPoint`; (3) nothing non-null is stored under `""`; (4) the table's first unit is requested; (5) a stored `distancesEachPointToMainPoint` is a list. Outside these the functions still compute PHP's outcome, but it is not characterised: a unit named `distance` is removed with the scratch keys, a value under `""` is what a null key reads instead of the whole store, a first result entry other than pair 0's label is what `first()` reads, and a unit named `points` overwrites the stored points.
- Closest.ClosestSpec: the same conditions as DistanceEach.ResolveEachSpec, and nothing stored yet under `distancesEachPointToMainPoint`.
- Closest.FarthestSpec: the same conditions as Closest.ClosestSpec.
- Closest.ExtremeSpec: the same conditions as DistanceEach.ResolveEachSpec, with the stored distance list holding only numbers.
- Areas.IsInAreaAnswer: stated only with `km` in the table, nothing under `""` and a fresh result.
- DistanceLoop.GetDistanceSpec: stated only when every requested unit is in the table and is neither `""` nor a scratch key (`position`, `distance_key`, `distance`, `rad2deg`, `correctDistanceValue`), and nothing non-null is stored under `""`. A unit named like a scratch key is removed from each snapshot with the scratch keys, and a value under `""` is what a null key reads; those outcomes are computed but not characterised. The unknown-unit case is in DistanceErrors.
- Geo.Geo.SetSin: requires a value other than "unassigned", which PHP cannot pass; the same for Geo.Geo.SetCos.

## Findings

| source | as written | input that shows it | evidently intended | confidence | as-written member | corrected member |
|---|---|---|---|---|---|---|
| src/Traits/Ordering.php:183-189 | `pointsAppendedBefore` only grows: `nearestNeighborAlgorithm` appends to it, and neither `getOrderByNearestNeighbor` nor `clearResult` (src/Classes/Geo.php:48-58) resets it, so `whereNotIn` drops the points of a later ordering whose keys an earlier one visited | order n ≥ 2 near points, call `clearResult()`, set the same n points again and order them: the tour has the main point and its nearest point only | the visited keys start empty in each ordering, so that every call orders all its points | not executed | Ordering.SecondOrderTruncated | Ordering.OrderByNearestNeighborReset |
| src/Traits/Distances.php:130-133 | every pair is measured with `longs[0] - longs[1]`, and `setLongitude` (src/Traits/AngleStorage.php:93) only appends, so every pair after the first, and every later `getDistance`, reuses the first pair's longitude difference | `getDistance` of the points (0, 0), (0, 1), (0, 3): the second pair is measured with a longitude difference of -1 degree instead of -2 | each pair measured with its own longitude difference, as the nearest-neighbour ordering gets by clearing before each measurement | not executed | DistanceLaws.StaleDelta | DistanceLaws.OwnMiles |
| src/Traits/Distances.php:27 | `'cm' => 1.609344 * 100` gives 160.9344 units per mile, which is hectometres | `getDistance` in `cm` of two points a mile apart: 160.9344 instead of 160934.4 | `1.609344 * 100000`, a hundred times the metres | not executed | Distances.CentimetresAsWritten | Distances.MetricUnits |

The as-written chain is `Ordering.OrderVisits` (a first ordering visits the keys 0 to n), then `Ordering.RepeatOrderTruncated` (an ordering after that ends after one round). `Ordering.ResetOrderSucceeds` proves that the corrected ordering succeeds on such a calculator and orders every point. For the longitude difference, `DistanceLaws.OwnMilesAlone` ties the corrected measure to a lone pair on a calculator with no longitudes on record. For the unit table, `Distances.MetricUnits` keeps every factor but `cm`. The class `Geo.Geo` and the specification functions (`Ordering.OrderByNearestNeighbor`, `Distances.GetDistance`, `Distances.DefaultUnits`) follow the code as written.
