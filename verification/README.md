# Cuepoint tracker and array helpers

A Dafny model of two browser utility modules.

**The cuepoint reader** (`CuepointsReader.js`) keeps a list of named, timed
cuepoints `{position, name, data}` sorted by position. It also keeps a
tolerance (0.2 by default), a current position (0), a last position (-1,
meaning "no update yet") and an optional handler. Each `update(p)` looks at
the move from the last position to `p`. It hands the handler at most one
cuepoint: the first in list order whose position lies in `(last, p]` and at
most `tolerance` behind `p`. It then makes `p` the last position.

Module `Cuepoints` models the reader as the class
`CuepointsReader<H, D>`. The JavaScript closure variables become the fields
`list`, `currentPosition`, `lastPosition`, `tolerance` and `handler`. The
handler is an opaque value of type `H`, wrapped in `Option`; `None` stands
for a cleared or never-set handler. The ghost field `calls` logs every
handler call, as a (handler, cuepoint) pair. `Update` and `Check` also
return the cuepoint they dispatch, so "at most one, and which one" is
stated directly. `Valid()` is the sortedness invariant of the list.

The class methods are tied to pure specification functions:

- `Insert` / `InsertionPoint`: where `add` puts the new entry.
- `InRange`: the qualifying test.
- `FirstInRange` / `Dispatched`: the cuepoint one update fires.
- `Run`: what a sequence of updates fires. `UpdateEach` calls `Update`
  once per position and is proved to dispatch exactly `Run` and to log
  exactly the matching handler calls (`CallsOf`), so the lemmas about `Run`
  are about the tracker itself.

The lemmas about these functions carry the properties. The methods
`EarliestMatchScenario`, `ToleranceScenario`, `NoRefireScenario` and
`ResetScenario` drive a tracker through concrete playback sequences.
They check that the contracts decide each outcome: earliest match wins, the
tolerance boundary at 0.2, no re-dispatch, reset re-enabling early
cuepoints, handler removal and `removeAll`. These outcomes are the model's,
in exact arithmetic. At the tolerance boundary the program's double
arithmetic can differ (see "## Left out").

**The array helpers** (`array.js`) are modelled in module `ArrayUtils`:
`clone`, the in-place `sortNumeric` and `nearest`. Numbers are exact reals.
The built-in sort behind `sortNumeric` is stood in for by an in-place
insertion sort (`SinkInto`, `Swap`). A sorted permutation of a list of
numbers is unique, so the result is the same whatever algorithm the engine
uses.

## Model

| member | source | states |
|---|---|---|
| `Cuepoints.CuepointsReader.constructor` | CuepointsReader.js:3-9 | a new tracker has an empty (hence sorted) list, current position 0, last position -1, tolerance 0.2 and no handler |
| `Cuepoints.InsertionPoint` | CuepointsReader.js:18-20 | the stable sort puts a pushed entry after every leading entry at or before its position and before the first entry after it |
| `Cuepoints.InsertKeepsSorted` | CuepointsReader.js:11-20 | inserting into a list sorted by position leaves it sorted |
| `Cuepoints.InsertPermutes` | CuepointsReader.js:11-20 | after insertion the list is the old list plus the new record, as a multiset |
| `Cuepoints.InsertionPointUnique` | CuepointsReader.js:18-20 | on a sorted list exactly one index splits the entries into those at or before a position and those after it |
| `Cuepoints.CuepointsReader.Add` | CuepointsReader.js:11-23 | after `add` the list is sorted, equals the old list with the new `{position, name, data}` placed after all entries at or before its position (old entries keep their order), and is the old list plus the record as a multiset; nothing else changes |
| `Cuepoints.CuepointsReader.OnCuepoint` | CuepointsReader.js:25-32 | the handler becomes the given one, or none when none is given; nothing else changes |
| `Cuepoints.CuepointsReader.RemoveAll` | CuepointsReader.js:34-37 | the list becomes empty and the positions become 0 and -1; tolerance and handler are unchanged |
| `Cuepoints.CuepointsReader.Reset` | CuepointsReader.js:39-43 | current position becomes 0 and last position -1; the list, tolerance and handler are unchanged |
| `Cuepoints.CuepointsReader.SetTolerance` | CuepointsReader.js:45-48 | only the tolerance changes, to any given value |
| `Cuepoints.CuepointsReader.Update` | CuepointsReader.js:50-55 | dispatches exactly what `Dispatched` gives for the move from the old last position to `p`; the handler is called at most once, with that cuepoint; afterwards current and last position are both `p`; list, tolerance and handler are unchanged |
| `Cuepoints.CuepointsReader.Check` | CuepointsReader.js:57-71 | the in-order scan with early exit hands the handler exactly the cuepoint `Dispatched` selects, and makes no other call |
| `Cuepoints.InRange` | CuepointsReader.js:73-86 | a cuepoint qualifies exactly when `lastPos < position <= currentPos` and `currentPos - position <= tolerance` (the absolute distance, since the position is not ahead) |
| `Cuepoints.FirstInRange` | CuepointsReader.js:65-70 | the result is the index of a qualifying entry with no qualifying entry before it, or none when no entry qualifies |
| `Cuepoints.Dispatched` | CuepointsReader.js:57-70 | nothing fires when the position does not advance or no handler is installed; what fires is a list entry that qualifies with no qualifying entry before it; nothing fires on an advancing move with a handler only when no entry qualifies |
| `Cuepoints.DispatchIsEarliest` | CuepointsReader.js:65-70 | on the sorted list and with a handler installed, whenever some entry qualifies a cuepoint fires, and its position is at or before every qualifying entry's |
| `Cuepoints.RunFiresWithinStep` | CuepointsReader.js:50-60 | over a sequence of updates, what the i-th update fires lies after the position before it and at or before the position it reports |
| `Cuepoints.CuepointsReader.UpdateEach` | CuepointsReader.js:50-55 | a sequence of `update` calls on the tracker dispatches exactly what `Run` gives from the tracker's last position; the handler receives exactly one call per dispatching update, with that cuepoint and in order (none without a handler); both positions end at the last position reported |
| `Cuepoints.RunNeverRefires` | CuepointsReader.js:50-60 | over non-decreasing updates the fired cuepoints' positions strictly increase, so no cuepoint fires twice |
| `ArrayUtils.Clone` | array.js:4-6 | returns a new array with the same contents; the input is not modified |
| `ArrayUtils.Nearest` | array.js:13-23 | as written: -1 for an empty array, `value` itself for any non-empty array |
| `ArrayUtils.NearestIndex` | array.js:13-23 | as evidently intended: -1 when no element is closer than the largest double, otherwise the first index of an element closest to `value` |
| `ArrayUtils.SortNumeric` | array.js:24-28 | sorts the array in place into non-decreasing order, as a permutation of its old contents, and returns the same array |

## Left out

- `fn.bind(thisArg)` (CuepointsReader.js:27): the handler is an opaque value, so its receiver plays no part in dispatch.
- A truthy `fn` that is not a function: with a falsy `thisArg` the source stores it and then never dispatches; with a truthy `thisArg`, `fn.bind` throws a TypeError (CuepointsReader.js:27). The model's handler type only admits a handler or none, so neither case arises.
- Cuepoints.CuepointsReader.Update: a handler call is logged, not run. The model assumes the handler returns normally, does not call back into the tracker and does not change the record it is given. In the source the handler runs inside `check` (CuepointsReader.js:67), before line 53 reads `currentPosition`. A handler that calls `reset()` leaves the last position at 0 rather than `p`. A handler that throws skips line 53, so the last position keeps its old value and the same cuepoint can fire again. A handler that changes the live record's `position` can break the list's sortedness. None of these is captured.
- The chaining returns and `Object.freeze` (CuepointsReader.js:88-95): the methods return nothing, or the dispatched cuepoint in the case of `Update` and `Check`.
- Cuepoints.CuepointsReader.Add: the source re-sorts the whole list with the built-in sort. That sort is stable in engines that follow ECMAScript 2019 or later; the model assumes this. Older engines could reorder cuepoints at equal positions, and that order decides which of them fires. On a list that is already sorted, which `Valid()` guarantees, a stable sort gives exactly one result. The model computes it with one backward insertion pass.
- Floating-point rounding and NaN: positions, tolerance and array elements are exact reals. `Number.MAX_VALUE` is kept as the exact value of the largest double. The program rounds the difference `cuepointPos - currentPos` in the tolerance test (CuepointsReader.js:81). So a cuepoint exactly at the tolerance may not fire in the program although it fires in the model. For example, with a cuepoint at 5.0 and tolerance 0.2, `5.0 - 5.2` is about -0.20000000000000018 in doubles, so `update(5.2)` does not fire it; `ToleranceScenario` shows the model's behaviour, not the program's.
- Graphics.js: a pass-through to the browser canvas and DOM with no logic of its own.
- `getRandom`, `sortRandom` (array.js:7-9, 29-33): they depend on `Math.random`.
- `isArray` (array.js:10-12): a run-time type test that Dafny's types make moot.
- test/ready.spec.js: it tests a module that is not part of this model.
- The tolerance is not required to be non-negative. The code accepts any value, and a negative one simply means nothing ever qualifies.

## Findings

| source | as written | input that shows it | evidently intended | confidence | as-written member | corrected member |
|---|---|---|---|---|---|---|
| array.js:21 | the `reduce` callback returns `value`, so the tracked index is discarded; the result is `value` for any non-empty array | `nearest(5, [1, 5])` answers 5, which is not an index of the array; the closest element is at index 1 | return `index`, giving the index of the element closest to `value` | high; not executed | `ArrayUtils.Nearest` (counterexample in `ArrayUtils.NearestCounterexample`) | `ArrayUtils.NearestIndex` |
