# Ground control station: show loading, battery indicator and UAV counts

This project models, in Dafny, three pieces of decision logic in the web front-end of a
ground control station for drone swarms, and proves properties about them.

- **Show loading** (`show_processing.dfy`, `show_scenarios.dfy`, `json_values.dfy`). A
  drone show arrives as a ZIP archive. The JSON Reference resolver dereferences the root
  reference `zip:show.json` using a ZIP reader. The reader accepts only the `zip:` protocol
  and reads the archive entry named by the URL pathname. The validator then checks the
  dereferenced tree, failing fast in this order:
  1. the version must be 1;
  2. `swarm.drones` must be an array;
  3. each drone's `settings.trajectory` must be an object;
  4. that trajectory's version must be 1.

  On success the load returns the tree unchanged. JSON trees are a `Json` datatype. A
  JavaScript `undefined` is `None`. The JavaScript tests are modelled exactly: truthiness,
  `typeof x === 'object'` (true for null and arrays), `Array.isArray` and strict `=== 1`.
  A property read on `null` is the separate failure `NullPropertyRead(key)`, which is a
  TypeError in JavaScript.
- **Battery indicator** (`battery_indicator.dfy`). This covers:
  - the voltage of one cell;
  - the percentage estimated from per-cell voltage thresholds;
  - the status level (Full, NearFull, Ok, Warning, Error, Unknown), taken from a nonzero
    percentage or else from the voltage;
  - the icon chosen from the two 12-entry icon tables;
  - the label, chosen by the `displayStyle` preference.

  Numeric props are `Undefined`, `Null` or a real `Number`. `Math.round` rounds halves up.
- **Count monitor** (`count_monitor.dfy`). The UAVs are split by the age of their last
  update, using a 5 s away timeout and a 60 s lost timeout. The errored count is the
  constant 1. The normal count is whatever remains, so it can be -1. A badge is shown
  exactly when its count is positive.

In three places the code behaves in a way a reader might not expect, and the model follows the code:
- An empty drone list is accepted. Only `Array.isArray` is tested (`ShowScenarios.AcceptsEmptyDroneList`).
- A reference to an entry missing from the archive does not produce an archive-read
  error. `zip.file(p)` is then null, and reading `.async` from it throws a TypeError
  (`NullPropertyRead("async")`).
- A `null` trajectory passes the `typeof` check and then throws a TypeError on reading its
  version. It does not get the "missing trajectory" message.

## Model

| member | source | states |
|---|---|---|
| `ShowProcessing.Message` | src/features/show/processing.js:20-58 | the four validation errors carry the fixed texts "Only version 1 files are supported", "Show specification contains no drones", "Found drone without trajectory in show specification" and "Only version 1 trajectories are supported", and a refused protocol gives `unsupported protocol: <protocol>` |
| `ShowProcessing.MessageIdentifiesError` | src/features/show/processing.js:20-58 | two errors with the same message are the same error, so each message tells which check failed (and which protocol or property was involved) |
| `ShowProcessing.Prop` | src/features/show/processing.js:29-36 | a property read fails exactly on null, and otherwise gives the object's field or undefined |
| `ShowProcessing.CheckDrone` | src/features/show/processing.js:28-38 | a drone passes iff its settings hold a trajectory object of version 1; a null drone fails reading `settings`; a drone without a trajectory of type object gets the missing-trajectory error; a null trajectory fails reading `version`; any other non-version-1 trajectory (arrays included) gets the unsupported-trajectory-version error |
| `ShowProcessing.CheckDrones` | src/features/show/processing.js:27-39 | the loop passes iff every drone is accepted; a failure is the error of a drone all of whose predecessors were accepted, that is, the first rejected drone |
| `ShowProcessing.Validate` | src/features/show/processing.js:18-40 | validation succeeds iff the tree is a version 1 show whose `swarm.drones` is an array of accepted drones, and on success it returns the very tree it was given |
| `ShowProcessing.ValidateFailures` | src/features/show/processing.js:19-39 | a null spec fails reading `version`; any other spec whose version is not exactly 1 gets the version error before anything else is checked; a version 1 spec without a drone array gets the no-drones error; otherwise the error is the first rejected drone's |
| `ShowProcessing.ReadEntry` | src/features/show/processing.js:55-64 | a protocol other than `zip:` fails with `unsupported protocol: <protocol>`; otherwise the result is the archive entry named by the pathname, and a missing entry fails reading `async` |
| `ShowProcessing.RootReferenceReadsShowJson` | src/features/show/processing.js:53-78 | the root reference is `zip:show.json`, a locator the ZIP reader's `/^zip:/` accepts; reading it gives the archive's `show.json` entry, and fails reading `async` when the archive has none |
| `ShowProcessing.LoadShow` | src/features/show/processing.js:73-95 | a failure of dereferencing the root reference is the load's failure; otherwise the load's result is exactly the validator's result on the dereferenced tree, so a validation error passes through unchanged; the load succeeds iff that tree is a valid show, and then returns exactly that tree |
| `ShowScenarios.AcceptsMinimalShow` | src/features/show/processing.js:18-40 | a version 1 show with one drone whose trajectory has version 1 is accepted and returned unchanged |
| `ShowScenarios.RefusesOtherVersions` | src/features/show/processing.js:19-21 | version 2, and the string "1", fail with "Only version 1 files are supported", even with a null drone behind them |
| `ShowScenarios.RefusesMissingDrones` | src/features/show/processing.js:23-25 | an empty swarm, a missing swarm and a drones object that is not an array fail with "Show specification contains no drones" |
| `ShowScenarios.AcceptsEmptyDroneList` | src/features/show/processing.js:23-27 | an empty drone array is accepted |
| `ShowScenarios.RefusesOtherTrajectoryVersions` | src/features/show/processing.js:36-38 | a trajectory of version 2, and an array trajectory, fail with "Only version 1 trajectories are supported" |
| `ShowScenarios.NullEntriesFailOnRead` | src/features/show/processing.js:28-36 | a null trajectory fails when its version is read; a null drone fails when its settings are read |
| `ShowScenarios.FirstRejectedDroneDecides` | src/features/show/processing.js:27-39 | with an accepted drone, then one without trajectory, then one with a bad version, the error is the missing trajectory; with the same three drones in reverse order it is the bad version |
| `Battery.Round` | src/components/uavs/BatteryIndicator.jsx:177 | `Math.round` gives the integer within one half of its argument, with halves rounded up |
| `Battery.VoltagePerCell` | src/components/uavs/BatteryIndicator.jsx:151-157 | the cell count defaults to the settings' default, or to 3 without settings; the result is 0 without a voltage or with fewer than one cell, and otherwise the voltage shared equally among the cells; a nonnegative voltage gives a result between 0 and the voltage |
| `Battery.VoltagePerCellMonotone` | src/components/uavs/BatteryIndicator.jsx:156 | a higher voltage never gives a lower voltage per cell |
| `Battery.EstimatePercentage` | src/components/uavs/BatteryIndicator.jsx:162-179 | no estimate without thresholds; otherwise an integer in 0..100: 0 at or below `empty`, 100 at or above `full`, and in between within one half of the linear interpolation |
| `Battery.EstimatePercentageMonotone` | src/components/uavs/BatteryIndicator.jsx:172-178 | a higher voltage per cell never gives a lower estimate |
| `Battery.StatusOfPercentage` | src/components/uavs/BatteryIndicator.jsx:191-215 | the status is the band the percentage lies in: Full above 95, NearFull in (60,95], Ok in (20,60], Warning in (10,20], Error at or below 10 |
| `Battery.StatusOfPercentageMonotone` | src/components/uavs/BatteryIndicator.jsx:205-215 | a higher percentage never gives a worse status |
| `Battery.StatusOfVoltagePerCell` | src/components/uavs/BatteryIndicator.jsx:224-232 | the voltage path never gives Unknown; it gives Full iff the voltage per cell is strictly above `nearFull`, and Error only below `critical` |
| `Battery.VoltageBands` | src/components/uavs/BatteryIndicator.jsx:224-232 | with ordered thresholds: NearFull on [ok, nearFull], Ok on [warning, ok), Warning on [critical, warning), and Error below `critical` |
| `Battery.StatusOfVoltagePerCellMonotone` | src/components/uavs/BatteryIndicator.jsx:224-232 | a higher voltage per cell never gives a worse status, whatever the thresholds |
| `Battery.BatteryStatus` | src/components/uavs/BatteryIndicator.jsx:204-233 | Unknown iff there is no truthy percentage and no voltage thresholds; a truthy (nonzero) percentage decides by percentage; otherwise the voltage per cell decides against the thresholds |
| `Battery.BatteryStatusMonotoneInPercentage` | src/components/uavs/BatteryIndicator.jsx:205-215 | between two nonzero percentages, the higher never gives a worse status |
| `Battery.BatteryStatusMonotoneInVoltage` | src/components/uavs/BatteryIndicator.jsx:217-232 | without a percentage but with thresholds, a higher voltage never gives a worse status |
| `Battery.IconIndexOfStatus` | src/components/uavs/BatteryIndicator.jsx:142-149 | every status index lies within both 12-entry icon tables, and only Unknown selects the blank icon |
| `Battery.Clamp` | src/components/uavs/BatteryIndicator.jsx:185 | the percentage clamped into [0,100]: unchanged inside, 0 below, 100 above |
| `Battery.IconIndex` | src/components/uavs/BatteryIndicator.jsx:182-185 | the index always lies within the 12-entry tables; with an undefined percentage it is the status's index, and otherwise it lies in 0..10, within one half of the clamped percentage divided by 10 (null counting as 0) |
| `Battery.IconIndexMonotone` | src/components/uavs/BatteryIndicator.jsx:185 | a higher percentage never shows a lower icon index |
| `Battery.BatteryIcon` | src/components/uavs/BatteryIndicator.jsx:181-188 | the icon is blank iff the percentage is undefined and the status is Unknown; a charging battery shows a charging icon, and one that is not charging never does |
| `Battery.EstimateFromVoltage` | src/components/uavs/BatteryIndicator.jsx:248-252 | an estimate from the voltage exists iff the settings have voltage thresholds, and it lies in 0..100 |
| `Battery.BatteryLabel` | src/components/uavs/BatteryIndicator.jsx:240-271 | "???" iff percentage and voltage are both nil; a voltage label shows the given voltage, and a percentage label shows the given percentage or an estimate in [0,100]. Without a percentage, the estimate is shown iff the style is `forcedPercentage` and thresholds exist. With both values, the voltage is shown iff the style is `voltage` (the default). With a percentage but no voltage, the percentage is shown. A percentage label shown without a percentage carries exactly the estimate from the voltage per cell |
| `Battery.Indicator` | src/components/uavs/BatteryIndicator.jsx:276-295 | the indicator's icon is blank iff the percentage is undefined and the settings have no voltage thresholds; with thresholds and no percentage, the status is known and an icon is shown |
| `CountMonitor.CountOlderThan` | src/components/CountMonitor.jsx:48-51 | the count of UAVs past a timeout is at most the number of UAVs; it is 0 iff none is past it, and it is all of them iff all are |
| `CountMonitor.CountOlderThanAntitone` | src/components/CountMonitor.jsx:48-51 | a longer timeout never counts more UAVs |
| `CountMonitor.CountOlderThanDifference` | src/components/CountMonitor.jsx:48-51 | the count past the shorter timeout minus the count past the longer is the number of UAVs whose age lies between the two |
| `CountMonitor.Tally` | src/components/CountMonitor.jsx:42-55 | the selected count is the number of selected ids; the errored count is 1; the lost count lies within 0 and the number of UAVs, and is 0 iff no UAV is past 60000 ms; normal + away + errored + lost is the number of UAVs |
| `CountMonitor.AwayCountIsAgedBand` | src/components/CountMonitor.jsx:49-51 | the away count is the number of UAVs whose age lies in (5000, 60000] ms, so it is never negative |
| `CountMonitor.NormalCountIsFreshMinusOne` | src/components/CountMonitor.jsx:53-55 | the normal count is the number of UAVs updated within 5000 ms, minus one; it is -1 iff every UAV is older than that, including when there are none |
| `CountMonitor.ShownBadges` | src/components/CountMonitor.jsx:42-99 | the away, errored and lost badges are shown iff their counts are positive; so the errored badge is always shown, the lost badge iff some UAV is past 60000 ms, and the away badge iff some UAV's age lies in (5000, 60000] ms |
| `CountMonitor.AgedBetweenPositive` | src/components/CountMonitor.jsx:49-51 | the count of UAVs aged within a band is positive iff some UAV is aged within it |

## Left out

- The JSON Reference resolver (`RefParser.dereference`) is a foreign library. `LoadShow` takes it as a parameter and assumes nothing about its output. Transitive resolution and reference cycles are not modelled.
- Opening the ZIP archive (`JSZip.loadAsync`) and decoding entries are not modelled. An opened archive is a map from entry names to text, and a failure to open it is not modelled.
- URL parsing (`new URL(...)`) is not modelled. The reader receives the parsed protocol and pathname.
- The resolver's registration by scheme and its priority (`order: 1`) are not modelled. Only the `^zip:` pattern (`CanRead`) is.
- The ZIP reader returns text; the asynchronous promise machinery is not modelled.
- `ShowProcessing.Prop`: built-in properties of strings and arrays (such as `length`) are not modelled. None of the keys the loader reads is such a property.
- The text of `NullPropertyRead` messages is engine-dependent. The model uses V8's wording.
- String-valued `percentage` and `voltage` props are not modelled, although the prop types allow them. Numbers are reals, and NaN is not modelled.
- `Battery.VoltagePerCell`: assumes the settings carry a numeric `defaultCellCount`. Without one, JavaScript divides by undefined and gets NaN.
- Settings that are `null` rather than undefined are treated as absent. That matches the source for status and cell count. The defaults `settings = {}` of the label (BatteryIndicator.jsx:240-241) and `= {}` of the estimate (BatteryIndicator.jsx:164) apply only to undefined, so JavaScript throws on destructuring `null` in both. The estimate's only caller is the label, which has already thrown by then.
- Formatting numbers into label text (`${voltage}V`, `${percentage}%`) is not modelled. The label is a datatype carrying the number and its unit.
- Icons are a datatype, not JSX elements. The CSS class chosen from the status (`battery${status}`) and all styling are not modelled.
- `Date.now()` is the parameter `now`. A UAV without a `lastUpdated` time would give NaN and always count as normal; this is not modelled. The UAV collection is a sequence of update times.
- The `knownUAVIds` field of the count monitor is never read and is not modelled. Colours and markup are not modelled either.
- The server connection manager, the map rotation box, the form field bindings, the light-control and preflight-check buttons, and the reducer/view index files are UI or network glue and are not part of this model.
