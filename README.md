# SAIM calibration plugin: acquisition sweep, refractive-index tables, calibration keys

This project models the computational core of the SAIM (scanning angle interference
microscopy) plugin for Micro-Manager, in Dafny, and proves properties of it.
The core has three parts:

- **SAIMCommon** (`saim_common.dfy`). This is the calibration cubic that maps an
  incidence angle to an integer TIRF motor position. It also holds `runAcquisition`:
  the two checks on the start angle and step size, the frame count the acquisition
  is opened with, and the sweep loop. The loop walks from the start angle to its
  mirror image and images 0 degrees twice when "double zero" is set.
- **RI** (`ri.dfy`). This reads a refractive-index table resource one token at a
  time. The columns are wavelength, n and k. The lookup interpolates linearly
  between the first row at or above the requested wavelength and the row before
  it. A cache keeps one map per compound. A wavelength whose lookup returned a
  value is read from the table only once. A lookup that throws is not cached, so
  it reads the table again on every call.
- **PrefUtils** (`pref_utils.dfy`). This builds the per-channel calibration key
  `CALIBRATIONS-<group>-<config>` and records the channel configuration in the
  preference store. It also parses one coefficient out of a stored calibration
  string such as `[t0, t1, t2, t3]`.

`wrappers.dfy` holds the `Option` type shared by the modules.

Modelling choices:

- Java doubles are modelled as reals.
- `Math.round((float) x)` is `floor(x + 0.5)`.
- Java's floating-point `%` is the truncating remainder. A zero divisor yields NaN, which is never equal to 0.
- The host, the device and the image calls of the sweep are represented by the list of `Frame`s the loop would produce, one per image.
- A table resource is a token sequence (`Num` or `Word`) and the plugin's jar is a map from resource path to tokens.
- The host's channel query is an `Option<Channel>`: `None` stands for the query throwing.
- `java.util.prefs.Preferences` is a class over a `map<string, string>` whose `Put` fails on a key longer than 80 or a value longer than 8192 characters.

Where the code and the usual description of these routines differ, the model follows the code:

- `interpolate` divides by `x2 - x1`. With equal x values the result is not a finite number, so the endpoint properties need `x1 != x2`.
- A negative step size passes both checks of `runAcquisition` whenever the start angle is a whole multiple of it; -4 with step -2 passes, -5 with step -2 is rejected by the divisibility check. When it passes, the sweep loop never ends: the model returns `Endless`, and `NegativeStepNeverEnds` proves that the loop condition holds after every number of passes. The panel's step-size spinner has minimum 0 (src/org/micromanager/saim/AcquisitionPanel.java:104-105), so a negative step can only come from a stored preference value.
- The scan never uses row 0 as the upper bracket, because the bracket test also requires `counter > 0`. A target at or below the second wavelength is therefore interpolated, or extrapolated, from the first two rows.
- A target above every wavelength gives `0.0`, and that value is then cached.
- When a row without an n value comes first, the list of indices is shorter than the list of wavelengths. `ris.get` then throws `IndexOutOfBoundsException`, which the model returns as `Thrown`.

## Model

| member | source | states |
|---|---|---|
| SAIMCommon.JavaRound | src/org/micromanager/saim/SAIMCommon.java:28 | The result is the integer r with r - 1/2 <= x < r + 1/2: x rounded to the nearest integer, halves upward. |
| SAIMCommon.JavaRoundUnique | src/org/micromanager/saim/SAIMCommon.java:28 | Any integer in that half-open window around x is the rounded value, so the rounding is determined by the window. |
| SAIMCommon.TirfPosFromAngle | src/org/micromanager/saim/SAIMCommon.java:20-30 | The motor position lies within half a step of c3·a³ + c2·a² + c1·a + c0 for the stored coefficients. |
| SAIMCommon.HalfwayRoundsUp | src/org/micromanager/saim/SAIMCommon.java:28 | A cubic value exactly halfway between positions n and n + 1 gives n + 1. |
| SAIMCommon.RemainderIsZero | src/org/micromanager/saim/SAIMCommon.java:55 | Java's `startAngle % angleStepSize == 0`; it never holds for a zero step, whose remainder is NaN. |
| SAIMCommon.RemainderZeroIffMultiple | src/org/micromanager/saim/SAIMCommon.java:55-57 | The divisibility check passes iff the step is non-zero and the start angle is a whole multiple of it (both directions). |
| SAIMCommon.StepsToZero | src/org/micromanager/saim/SAIMCommon.java:55-57 | For an accepted start angle and positive step, k steps lead from the start angle exactly to 0. |
| SAIMCommon.NrFrames | src/org/micromanager/saim/SAIMCommon.java:64-73 | The frame count minus 1 (minus 2 with double zero) is 2·\|start\|/step rounded to the nearest integer. |
| SAIMCommon.FrameCountMatchesSweep | src/org/micromanager/saim/SAIMCommon.java:64-73 | The frame count the acquisition is opened with, round(2·\|start\|/step) + 1 (+ 2 with double zero), equals the number of frames the loop adds. |
| SAIMCommon.SweepEndpoints | src/org/micromanager/saim/SAIMCommon.java:79 | The first frame is at the start angle and the last at minus the start angle. |
| SAIMCommon.SweepIncreasing | src/org/micromanager/saim/SAIMCommon.java:79-93 | Frame angles never decrease. Two frames share an angle iff double zero is set and they are the two 0-degree frames. |
| SAIMCommon.SweepZeroFrames | src/org/micromanager/saim/SAIMCommon.java:90-93 | 0 degrees is imaged exactly at frame k, and also at frame k + 1 iff double zero is set. |
| SAIMCommon.Advance | src/org/micromanager/saim/SAIMCommon.java:79-93 | One pass of the loop update: at the first 0 degrees with double zero the angle stays at 0 and the flag is set; otherwise the angle grows by one step and the flag is kept. |
| SAIMCommon.Iterate | src/org/micromanager/saim/SAIMCommon.java:79-93 | The loop state after n passes; 0 is repeated only with double zero. |
| SAIMCommon.IterateState | src/org/micromanager/saim/SAIMCommon.java:77-93 | For an accepted sweep, after n passes the angle is StepIndex(n) steps from 0, and the flag is set iff double zero is on and frame k is passed. |
| SAIMCommon.LoopFollowsSweep | src/org/micromanager/saim/SAIMCommon.java:79-93 | The loop's passes visit exactly the sweep's angles within the bound angle <= -start, and the pass after the last frame is past the bound, so the loop stops there. |
| SAIMCommon.NegativeStepNeverEnds | src/org/micromanager/saim/SAIMCommon.java:79-93 | With start <= 0 and a negative step, the loop condition angle <= -start holds after every number of passes. |
| SAIMCommon.Sweep | src/org/micromanager/saim/SAIMCommon.java:77-94 | The loop, with its return to 0 for double zero, produces exactly the frames of the sweep specification: frame i at the i-th sweep angle and the rounded cubic of that angle. |
| SAIMCommon.RunAcquisition | src/org/micromanager/saim/SAIMCommon.java:44-97 | Start > 0 is rejected with its message. Otherwise a failed divisibility check is rejected with its message. Otherwise a negative step loops forever. Otherwise the acquisition completes: frame i is numbered i, its position is the calibrated position of its angle, and the count it was opened with equals the number of frames. |
| RI.Interpolate | src/org/micromanager/saim/data/RI.java:167-170 | The result is finite iff x1 != x2, and then (x2 - x1)·(r - y1) = (y2 - y1)·(xVal - x1): the point lies on the line through both points. |
| RI.InterpolateAtEnds | src/org/micromanager/saim/data/RI.java:167-170 | At x1 the result is y1, and at x2 it is y2. |
| RI.InterpolateBetween | src/org/micromanager/saim/data/RI.java:167-170 | For x1 < xVal < x2 (ends included) the result lies between y1 and y2. |
| RI.RowSpan | src/org/micromanager/saim/data/RI.java:129-137 | A row takes between one and three tokens of what is left, and every token of a number row after the first is a number. |
| RI.Rows | src/org/micromanager/saim/data/RI.java:128-150 | The rows a scan reads from a token stream; there are never more rows than tokens. |
| RI.RowsFrom | src/org/micromanager/saim/data/RI.java:128-149 | Helper: unfolds the definition of `Rows` at an offset into the stream (a word is read away; a number starts a row). |
| RI.RisOf | src/org/micromanager/saim/data/RI.java:131-133 | The index list is never longer than the rows read, and it is as long iff every row has an n. |
| RI.FirstBracket | src/org/micromanager/saim/data/RI.java:138 | The bracket row is the first row from index 1 whose wavelength is at or above the target; every earlier row is below it. |
| RI.LookupRows | src/org/micromanager/saim/data/RI.java:138-154 | With no bracket row the lookup gives 0.0; it throws only IndexOutOfBoundsException, and only when a row at or before the bracket has no n. |
| RI.RIFromJar | src/org/micromanager/saim/data/RI.java:120-124 | The lookup on the compound's resource throws NullPointerException iff the resource is missing. |
| RI.ReadRow | src/org/micromanager/saim/data/RI.java:129-137 | Reading a row gives its wavelength, its n when a number follows, and the position after the optional third column. |
| RI.ScanTable | src/org/micromanager/saim/data/RI.java:124-154 | The scan loop returns the lookup on the table's rows: the interpolation at the first bracket, the exception when the index list is too short, or 0.0 when no row brackets the target. |
| RI.GetRIFromFile | src/org/micromanager/saim/data/RI.java:120-155 | It behaves as the table lookup on the compound's resource, and a missing resource gives NullPointerException. |
| RI.HeaderSkipped | src/org/micromanager/saim/data/RI.java:146-149 | Words before the table, such as the header line, do not change the rows read. |
| RI.ThreeColumnRows | src/org/micromanager/saim/data/RI.java:129-137 | In a three-column table each line is one row of wavelength and n; the k column never becomes a wavelength. |
| RI.TableRis | src/org/micromanager/saim/data/RI.java:131-133 | For a three-column table the index list is exactly the n column. |
| RI.TableFileRows | src/org/micromanager/saim/data/RI.java:128-150 | The rows of a header plus a three-column table are the table's lines. |
| RI.TableLookupBracketed | src/org/micromanager/saim/data/RI.java:138-143 | If line k >= 1 is the first at or above the target, the lookup interpolates n between lines k - 1 and k. |
| RI.TableLookupLow | src/org/micromanager/saim/data/RI.java:138 | A target at or below the second wavelength is interpolated from the first two lines. |
| RI.TableLookupAbove | src/org/micromanager/saim/data/RI.java:152-154 | If no line after the first reaches the target, the lookup returns 0.0. |
| RI.TableLookupInRange | src/org/micromanager/saim/data/RI.java:138-143 | For a table sorted by wavelength and a target inside line k's interval, the result is finite and lies between the n of lines k - 1 and k. |
| RI.RICache.constructor | src/org/micromanager/saim/data/RI.java:53-61 | Every compound's cache map starts empty. |
| RI.RICache.GetMap | src/org/micromanager/saim/data/RI.java:70-84 | Each compound has its own cache map: silicon, silicon oxide, acrylic and water each get their own field. |
| RI.RICache.GetRI | src/org/micromanager/saim/data/RI.java:95-103 | A cached wavelength returns the cached value. Otherwise the table lookup is returned and its value stored, and only that compound's map changes. A cache that agrees with the tables keeps agreeing and always returns the table lookup. |
| RI.LookupTwice | src/org/micromanager/saim/data/RI.java:96-98 | A second lookup of the same compound and wavelength returns the first result, whatever the table holds by then. |
| PrefUtils.CalibrationKey | src/org/micromanager/saim/PrefUtils.java:55 | The key starts with CALIBRATIONS- and has the length of prefix, group, dash and configuration. |
| PrefUtils.CalibrationKeyInjective | src/org/micromanager/saim/PrefUtils.java:55 | Channels whose group has no dash get different keys. |
| PrefUtils.Preferences.Get | src/org/micromanager/saim/PrefUtils.java:72 | Helper for the store: the stored value if there is one, otherwise the default. |
| PrefUtils.Preferences.Put | src/org/micromanager/saim/PrefUtils.java:56 | It stores the value, or fails and changes nothing when the key or value is over the store's limits. |
| PrefUtils.ChannelCoeffKey | src/org/micromanager/saim/PrefUtils.java:48-62 | With a readable channel, the result is CALIBRATIONS-group-config and the config is stored under "channel". A failing host query or a failing store gives CALIBRATIONS- and, for the query, no write. |
| PrefUtils.JoinFieldsOfFields | src/org/micromanager/saim/PrefUtils.java:73 | Splitting on single spaces (empty fields kept) and joining with spaces gives the string back. |
| PrefUtils.FieldsOfJoinFields | src/org/micromanager/saim/PrefUtils.java:73 | Joining space-free fields and splitting gives the fields back. |
| PrefUtils.DropTrailingEmpty | src/org/micromanager/saim/PrefUtils.java:73 | The result is the longest prefix whose last element is non-empty; everything after it is empty. |
| PrefUtils.JavaSplit | src/org/micromanager/saim/PrefUtils.java:73 | String.split(" "): the whole string when it has no space, otherwise its fields without the trailing empty ones. |
| PrefUtils.JavaSplitOfJoin | src/org/micromanager/saim/PrefUtils.java:73 | Splitting a joined list of space-free fields, the last non-empty, gives the list. |
| PrefUtils.StripBrackets | src/org/micromanager/saim/PrefUtils.java:74 | The result has no '[', ',' or ']'. |
| PrefUtils.StripAppend | src/org/micromanager/saim/PrefUtils.java:74 | The removal works piece by piece over a concatenation. |
| PrefUtils.StripPlain | src/org/micromanager/saim/PrefUtils.java:74 | A string without those characters is unchanged. |
| PrefUtils.ParseCalString | src/org/micromanager/saim/PrefUtils.java:73-78 | The result has no bracket or comma, and it is "" when the index is outside the split fields. |
| PrefUtils.ParseCal | src/org/micromanager/saim/PrefUtils.java:64-80 | The result has no bracket or comma, and a failing host query gives "". |
| PrefUtils.ParseCalUnset | src/org/micromanager/saim/PrefUtils.java:72-78 | With nothing stored under the channel's key, every index gives "". |
| PrefUtils.PiecesJoin | src/org/micromanager/saim/PrefUtils.java:73 | The comma list of the coefficients, closed by "]", consists of the space-separated pieces "ti," and a final "tn]". |
| PrefUtils.SplitCalibration | src/org/micromanager/saim/PrefUtils.java:73 | A calibration string "[t0, …, tn]" splits into "[t0,", "t1,", …, "tn]". |
| PrefUtils.StripCalibrationField | src/org/micromanager/saim/PrefUtils.java:74 | Each of those fields, stripped, is its coefficient. |
| PrefUtils.ParseCalFormatted | src/org/micromanager/saim/PrefUtils.java:73-78 | For coefficients without spaces, brackets or commas, index i of "[t0, …, tn]" gives ti, and an index outside gives "". |
| PrefUtils.StoreCalibration | src/org/micromanager/saim/PrefUtils.java:48-80 | Storing succeeds iff the configuration, the key and the calibration string are within the store's limits. The new store holds the channel configuration and the calibration string under the key. After a successful store, parseCal reads each coefficient back. |

## Left out

- GUI and host glue are not part of this model: Swing panels, listeners, plugin registration, the `ScriptInterface`/`CMMCore` objects and the worker thread that runs the acquisition.
- The device calls of the sweep are not modelled. `setProperty`, `waitForDevice`, `snapImage`, `getTaggedImage`, `addImageToAcquisition` and `openAcquisition` are represented only by the frames, and by the count the acquisition is opened with.
- RunAcquisition: every host and device call is taken to return normally. In Java a throwing `setProperty`, `waitForDevice`, `snapImage`, `getTaggedImage` or `addImageToAcquisition` (src/org/micromanager/saim/SAIMCommon.java:82-88) ends `runAcquisition` with an exception after only some of the frames; the model has no such partial outcome.
- Acquisition name: `getUniqueAcquisitionName` is a host call, so the name is a parameter of `RunAcquisition`.
- Messages: the `gui.message` log line and the SEVERE log entries in `PrefUtils` are output only and are not modelled.
- Preference parsing of the settings is not modelled. `RunAcquisition` and `TirfPosFromAngle` take already-parsed values. The `Double.parseDouble` of a missing coefficient, which throws `NumberFormatException`, and `Boolean.parseBoolean` are outside the model.
- TirfPosFromAngle: the cubic and the rounding are exact over reals. The `(float)` cast before `Math.round`, the int saturation of `Math.round` and floating-point rounding in `Math.pow` are not modelled.
- Sweep: the angles are exact multiples of the step. Accumulated floating-point error in `angle += angleStepSize`, which in Java can make the last angle or the 0-degree test miss, is not modelled.
- RemainderIsZero: a NaN or infinite start angle or step is not modelled.
- Interpolate: a division by zero is modelled as a single `NonFinite` value; the sign of an infinity and NaN propagation are not distinguished.
- RI.RICache.GetRI: the cache map is keyed by exact reals. Java's `Double` key equality for NaN and -0.0 is not modelled.
- `Compound.getMap`'s `return null` is not reachable, because every compound is matched, so `RICache.GetMap` has no null case.
- Resource access: `getResourceAsStream` is the jar map. Scanner tokenisation of the raw file (locale-dependent number syntax, whitespace rules) is represented by the `Token` sequence and is not modelled.
- PrefUtils.Preferences.Put: the key and value limits count characters, not UTF-16 code units. The check on the NUL character that newer Java versions add, the backing store and its flushing are not modelled.
- PrefUtils.ChannelCoeffKey: the host's two `getCurrentConfigFromCache` calls are taken to return the same configuration.
- The writer of the calibration string is not part of this model. `CalibrationString` is the `Arrays.toString` layout that `parseCal` expects.
