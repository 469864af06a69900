# gaitalytics core in Dafny

This project models the core of gaitalytics, a Python library for gait
analysis, and proves properties of that model.

A **trial** holds one data array per data category (markers, analogs,
analysis) and an optional table of gait events. Each event has a time, a
label ("Foot Strike" or "Foot Off") and a context ("Left" or "Right").

The model covers the whole pipeline:

- **Events.** The sequence checker looks for repeated labels and for
  context windows in the event table.
- **Segmentation.** Gait event segmentation cuts a trial into cycles,
  grouped by context and then by cycle id. It slices each category array
  by time, stamps the frame range, cycle id and context on each slice, and
  keeps the events strictly inside the cycle.
- **Features.** The feature driver walks every cycle of every context. It
  computes either the time-series family (min, max, mean, median, std of
  the analysis category) or the temporal family (support times, foot-off
  ratios, stride and step time, cadence).
- **Normalisation.** Linear time normalisation rebuilds the tree of trials
  with every array resampled.
- **HDF5 persistence.** The `to_hdf5` guards and the save plan, and
  loading a trial or a folder of cycle files back.

## Modules

Each Python file maps to one Dafny module. The shared pieces come first.

- **`Outcomes`** (`outcomes.dfy`): Python exceptions as `Result` values.
  Each exception keeps its kind and its message.
- **`Dict`** (`dict.dfy`): insertion-ordered Python dicts, as sequences of
  pairs.
- **`Paths`** (`paths.dfy`): the `pathlib` operations the core uses, and
  `str` of a cycle id.
- **`Model`** (`model.dfy`): the shared model.
  - the data categories and category arrays;
  - `concat` along time;
  - the two classes, `Trial` and `SegmentedTrial`;
  - the value `Node` that their contents form: a `Leaf` trial, or a
    `Branch` of keyed children.
- **`Hdf5Plan`** (`plan.dfy`): the save plan that `_to_hdf5` builds, as
  written and as intended, and what each plan targets.
- **`Hdf5`** (`hdf5.dfy`): the guards of `to_hdf5`, the writes into a
  store of files and folders, and loading.
- **`Hdf5Folder`** (`folder.dfy`): what loading a folder of cycle files
  builds, stated as a lookup `tc[context][cycle_id]`.
- **`Hdf5FolderSave`** (`folder_save.dfy`): which groups saving a
  container writes into each cycle file, and the folder round trip.
- **`Events`**, **`Segmentation`**, **`Features`** and **`Normalisation`**:
  the four files of the same names.

## How the model is built

- **Methods against specification functions.** The imperative loops of
  the source are methods whose `ensures` ties the result to a
  specification function: the checker, the segmentation loops, the
  feature driver, the normaliser and the segmented loader. The lemmas
  then state what those functions promise.
- **Library calls as parameters.** Calls into xarray and numpy that the
  model cannot see are parameters:
  - resampling is a `Resampler`;
  - the square root is `sqrt`;
  - the order in which the folder glob yields files is `listing`.

## Model

| member | source | states |
|---|---|---|
| Dict.Put | gaitalytics/model.py:189 | `d[k] = v`: `k` now maps to `v` and every other key is unchanged. An existing key keeps its place, a new key is appended, and the keys stay distinct. |
| Dict.PutTwice | gaitalytics/model.py:298-302 | Storing under a key twice is the same as storing the second value once. This is the "add an empty context, then replace it" pattern of the segmented loader. |
| Paths.LastIndexOfSpec | gaitalytics/model.py:252 | The last-occurrence search finds the rightmost occurrence of the character, and finds nothing exactly when the character is absent. |
| Paths.NameSpec | gaitalytics/model.py:252 | `Path.name` is the final component of the path: it contains no "/" and it ends the path. |
| Paths.SuffixSpec | gaitalytics/model.py:60-62 | `Path.suffix` is either empty, or a dot followed by at least one character, and it is shorter than the name. |
| Paths.CycleFile | gaitalytics/model.py:258 | `(folder / key).with_suffix(".h5")` of a plain cycle key appends ".h5". The result's name is `key.h5` and its suffix is ".h5". |
| Paths.NatToStringInjective | gaitalytics/segmentation.py:66-67 | Distinct cycle ids give distinct keys `str(cycle_id)`. |
| Paths.RemoveH5 | gaitalytics/model.py:296 | `name.replace(".h5", "")` of `key.h5` gives back the cycle key. |
| Model.AllCategoriesListed | gaitalytics/model.py:323 | Iterating over `DataCategory` visits every category exactly once. |
| Model.Union | gaitalytics/model.py:108 | The channels after a concat along time are those of either array, without repeats. |
| Model.ConcatTimeWellFormed | gaitalytics/model.py:108 | `xr.concat([old, new], dim="time")` of two well-formed arrays is well formed. Its times are the old times followed by the new ones. Each series is the old values followed by the new ones, with a channel one side lacks filled with missing values. |
| Model.ConcatDisjointChannelCount | tests/test_model.py:12-26 | Concatenating arrays with disjoint channels gives as many channels as both together. That is the 191 + 191 = 382 of the test. |
| Model.AddCategory | gaitalytics/model.py:107-110 | A new category is appended with its array. An existing category is concatenated along time and keeps its place. Every other category is unchanged, and the keys stay distinct. |
| Model.Trial.constructor | gaitalytics/model.py:77-80 | A new trial has no data and no events. |
| Model.Trial.SetEvents | gaitalytics/model.py:91-98 | The setter replaces the events and leaves the data alone. |
| Model.Trial.AddData | gaitalytics/model.py:100-110 | The data becomes `AddCategory` of the old data, and the events are unchanged. |
| Model.Trial.GetData | gaitalytics/model.py:112-121 | Succeeds exactly when the category is present, and returns its array. A missing category is a `KeyError`. |
| Model.SegmentedTrial.constructor | gaitalytics/model.py:178-180 | A new segmented trial has no segments. |
| Model.SegmentedTrial.AddSegment | gaitalytics/model.py:182-189 | The segments become the old segments with `key` stored under it. |
| Model.SegmentedTrial.GetSegment | gaitalytics/model.py:191-200 | Succeeds exactly when the key is present, and returns its segment. A missing key is a `KeyError`. |
| Model.AllCycles | gaitalytics/features.py:36-39 | `get_all_cycles()` lists every context in order, and under each context every cycle with its trial. |
| Model.CyclesPerContext | tests/test_segementation.py:69-75 | `get_cycles_per_context` succeeds exactly for a known context, and returns that context's cycles. |
| Events.LabelViolationsExactly | gaitalytics/events.py:91-101 | A window (previous time, time) is reported exactly when an event repeats the previous event's label. |
| Events.NoLabelViolations | gaitalytics/events.py:76-101 | No label window is reported exactly when the labels alternate throughout. |
| Events.CheckLabels | gaitalytics/events.py:91-101 | The loop returns exactly the label violations, in order. |
| Events.MaxCountOfThree | gaitalytics/events.py:121-126 | A window of three contexts has a most frequent context occurring more than twice exactly when all three are the same. |
| Events.ContextViolationsExactly | gaitalytics/events.py:118-134 | The window (time i, time i+3) is reported exactly when events i, i+1 and i+2 share one context. Only i < len - 3 is visited. |
| Events.NoContextViolations | gaitalytics/events.py:118-134 | No context window is reported exactly when no visited window of three events shares one context. |
| Events.ShortTableNoContextViolation | gaitalytics/events.py:120 | A table of at most three events yields no context window, because the range is empty. |
| Events.CheckContexts | gaitalytics/events.py:118-134 | The loop returns exactly the context violations, in order. |
| Events.Collected | gaitalytics/events.py:64-72 | The error list holds the label list (if non-empty) and then the context list (if non-empty), and nothing else. |
| Events.CheckEvents | gaitalytics/events.py:43-74 | Missing events raise "Trial does not have events.". Otherwise the result is valid exactly when there are no violations of either kind, and the errors are None exactly when it is valid. |
| Events.CheckEventsMethod | gaitalytics/events.py:43-74 | The method returns the same verdict as `CheckEvents`. |
| Events.PatternContextsVary | gaitalytics/events.py:46-50 | In the documented gait pattern, no three consecutive events share a context. |
| Events.PatternLabelsAlternate | gaitalytics/events.py:46-50 | In the documented gait pattern, the labels alternate. |
| Events.PatternIsValid | gaitalytics/events.py:46-50 | An event table that follows the documented pattern is reported valid with no errors (tests/test_events.py:17-27). |
| Segmentation.UniqueContextsMembers | gaitalytics/segmentation.py:90 | `unique()` lists exactly the contexts that occur, each once. |
| Segmentation.BoundaryTimesMembers | gaitalytics/segmentation.py:87-95 | A time is a boundary of a context exactly when some event with the segmentation label and that context has that time. |
| Segmentation.TimesOfEvents | gaitalytics/segmentation.py:74-96 | The splits have one entry per unique context, in order of appearance, with distinct keys. |
| Segmentation.GetTimesOfEvents | gaitalytics/segmentation.py:86-96 | The loop builds exactly the splits `TimesOfEvents` describes. |
| Segmentation.KeptIndices | gaitalytics/segmentation.py:121 | `sel(time=slice(start, end))` keeps exactly the samples with start <= time <= end, in increasing position. |
| Segmentation.SliceTimes | gaitalytics/segmentation.py:121 | A slice holds exactly the times within [start, end], in their original order. |
| Segmentation.SliceWellFormed | gaitalytics/segmentation.py:121 | Slicing a well-formed array gives a well-formed array. |
| Segmentation.RoundHalfEven | gaitalytics/segmentation.py:159-164 | `round` gives an integer within 0.5 of its argument, and an even one on a tie. |
| Segmentation.Stamp | gaitalytics/segmentation.py:150-169 | An empty slice raises `IndexError`, and a zero rate raises `ZeroDivisionError`. Otherwise the attrs gain the start and end frames of the first and last times, the cycle id and the context, and nothing else changes. |
| Segmentation.BetweenMembers | gaitalytics/segmentation.py:145-148 | The cycle's events are exactly those strictly between start and end. |
| Segmentation.SegmentEvents | gaitalytics/segmentation.py:128-148 | Missing events are an error ("Events are not set."). Otherwise the result is the events strictly inside the window. |
| Segmentation.GetSegmentMethod | gaitalytics/segmentation.py:98-126 | The loop over the categories builds exactly `GetSegment`. |
| Segmentation.CycleCategories | gaitalytics/segmentation.py:118-126 | A cycle succeeds exactly when the trial has events and every category can be cut. It then has the same categories, each the cut array stamped with this cycle id and context, and the events inside the window. |
| Segmentation.Segment | gaitalytics/segmentation.py:54-56 | A trial without events raises "Trial does not have events.". A result is always a segmented trial. |
| Segmentation.SegmentMethod | gaitalytics/segmentation.py:42-72 | The two nested loops build exactly `Segment`. |
| Segmentation.SegmentShape | gaitalytics/segmentation.py:58-72 | A segmentation is context -> cycle -> trial, with one context per unique event context. Each context has one cycle fewer than its boundary times, keyed "0", "1", ..., each the cut between consecutive boundaries (tests/test_segementation.py:61-95). |
| Segmentation.AdjacentCutsMeet | gaitalytics/segmentation.py:159-167 | On a regular frame grid, the start frame of the next cycle is the end frame of the current cycle or the frame after it. |
| Segmentation.SegmentFramesMeet | tests/test_segementation.py:154-178 | For every category on a regular frame grid, consecutive cycles of every context meet within one frame. |
| Segmentation.BetweenEvents | gaitalytics/segmentation.py:145-148 | In a strictly increasing table, the events between boundaries p and q are exactly those at positions p+1 to q-1. |
| Segmentation.PatternBoundaryTimes | gaitalytics/segmentation.py:87-95 | In the documented pattern, the k-th "Foot Strike" of a context sits at position 4k + offset. |
| Segmentation.PatternContexts | gaitalytics/events.py:46-50 | A table following the pattern has only its two contexts. |
| Segmentation.PatternWindow | gaitalytics/events.py:46-50 | After each strike of a context, the pattern continues with the other foot's off, the other foot's strike, then this foot's off. |
| Segmentation.PatternCyclesHoldThreeEvents | tests/test_segementation.py:101-122 | Segmenting a strictly increasing table that follows the pattern gives every cycle exactly three events, in gait order: opposite foot off, opposite foot strike, own foot off. |
| Features.Calculate | gaitalytics/features.py:21-51 | The nested loops return exactly `FeatureTable`. |
| Features.CyclesFromSpec | gaitalytics/features.py:39-42 | The cycle loop succeeds exactly when every cycle computes. It then appends one feature per cycle under its cycle id, in order. A failure is the first failing cycle's error. |
| Features.ContextsFromSpec | gaitalytics/features.py:36-50 | The context loop succeeds exactly when every cycle computes and the result is not empty. It then keeps every context and every cycle id in order, with each cycle's feature. |
| Features.FeatureTableSpec | gaitalytics/features.py:21-51 | `calculate` succeeds exactly when there is a context and every cycle computes. The result is keyed by the contexts, then by the cycle ids, and holds each cycle's own feature. |
| Features.PresentComplete | gaitalytics/features.py:94-98 | Skipping missing values leaves a series without missing values unchanged. |
| Features.MinMaxBound | gaitalytics/features.py:94-95 | `min` and `max` are samples, and bound every sample. |
| Features.MeanBounds | gaitalytics/features.py:96 | The mean lies between the minimum and the maximum. |
| Features.Sort | gaitalytics/features.py:97 | The sort used by the median is a permutation of its input. |
| Features.SortSorted | gaitalytics/features.py:97 | The sort used by the median gives a sorted sequence. |
| Features.MedianBounds | gaitalytics/features.py:97 | The median lies between the minimum and the maximum. |
| Features.VarianceNonNegative | gaitalytics/features.py:98 | The population variance under `std` is never negative. |
| Features.TimeSeriesCalculate | gaitalytics/features.py:93-102 | Succeeds exactly when the trial has the analysis category (`KeyError` otherwise). The feature axis is min, max, mean, median, std. |
| Features.TimeSeriesOrdering | tests/test_features.py:58-67 | For every channel with a sample: min <= max, min <= mean <= max and min <= median <= max. |
| Features.CompleteSeriesHasFeatures | gaitalytics/features.py:94-98 | A channel with no missing samples has all five features. |
| Features.TimeSeriesTable | gaitalytics/features.py:21-51 | Every cycle of a successful time-series table carries the five feature names. |
| Features.FilterPartition | gaitalytics/features.py:171-176 | Every event goes to exactly one of the ipsilateral and contralateral tables. |
| Features.CheckEventsValidity | gaitalytics/features.py:160-170 | Missing events raise "Trial does not have events.". Fewer than three events raise "Missing events in segment ...". A result carries the cycle's end time. |
| Features.TooManyEvents | gaitalytics/features.py:171-180 | More than three events always raise "Error events sequence ...". |
| Features.CheckEventsValiditySpec | gaitalytics/features.py:144-193 | The check passes exactly when the three events are one own-context event, one other-context foot strike and one other-context foot off. It then returns (opposite foot off, opposite foot strike, own foot off, end time). |
| Features.RolesPass | gaitalytics/features.py:171-193 | Events in those roles pass, with those times. |
| Features.PassHasRoles | gaitalytics/features.py:171-193 | Three events that pass are in those roles. |
| Features.TemporalCalculate | gaitalytics/features.py:122-124 | A cycle that fails the event check raises that check's error. |
| Features.TemporalSpec | gaitalytics/features.py:107-214 | Succeeds exactly when the events are in those roles and the end time is not zero. The features are then `TemporalFeaturesOf` the own foot off, the other foot's strike and off, and the end time: the eight named ones, single support equal to the opposite contact ratio less the opposite foot-off ratio, double plus single support equal to the foot-off ratio (so each support value is fixed), each ratio the event time over the stride time, the step time the stride time less the opposite contact, and cadence times stride time equal to 120. |
| Features.GaitCyclePasses | gaitalytics/features.py:171-193 | A cycle holding opposite foot off, opposite foot strike and own foot off passes the check with those times. |
| Features.PatternCyclesPass | gaitalytics/features.py:144-193 | Every cycle cut from a strictly increasing table that follows the pattern passes the temporal event check for its own context. |
| Normalisation.NormaliseShape | gaitalytics/normalisation.py:42-73 | The normalised container has the input's shape: the same keys at every level, the same categories in every trial, and no events. Distinct keys are kept. |
| Normalisation.NormaliseTrialCycles | gaitalytics/normalisation.py:66-73 | Normalising cycles gives cycles: context -> cycle id -> trial. |
| Normalisation.LinearTimeNormaliser.Default | gaitalytics/normalisation.py:34-40 | The default normaliser resamples to 100 frames. |
| Normalisation.LinearTimeNormaliser.constructor | gaitalytics/normalisation.py:34-40 | The normaliser keeps the requested number of frames. |
| Normalisation.LinearTimeNormaliser.NormaliseTrial | gaitalytics/normalisation.py:57-64 | Returns a fresh trial holding every category resampled, in order, and no events. |
| Normalisation.LinearTimeNormaliser.NormaliseSegmentedTrial | gaitalytics/normalisation.py:66-73 | Returns a fresh segmented trial with every child normalised under its key. |
| Normalisation.LinearTimeNormaliser.Normalise | gaitalytics/normalisation.py:42-55 | Returns the normalised container, dispatching on its kind. |
| Hdf5Plan.TrialPlanShape | gaitalytics/model.py:150-172 | A trial plans one entry per category, in order, at `<base><category>` in its own file, then `<base>events` when it has events. |
| Hdf5Plan.TrialToHdf5 | gaitalytics/model.py:131-172 | The method returns exactly the trial plan (paths, data, groups). |
| Hdf5Plan.PlanAsWritten | gaitalytics/model.py:210-269 | The plan `_to_hdf5` returns as the code stands, with the unpacking of line 262 in its order; its three lists have the same length. What it plans is stated by `Hdf5Plan.PlanAsWrittenParity` against the corrected `Hdf5Plan.Plan`. |
| Hdf5Plan.PlanAsWrittenParity | gaitalytics/model.py:262-269 | Because of the swap on unpacking, a tree of uniform depth plans the intended lists at even depth and the intended lists with paths and groups exchanged at odd depth. |
| Hdf5Plan.TrialCyclesPlanAsIntended | gaitalytics/model.py:210-269 | For context -> cycle -> trial, the two swaps cancel and the plan is the intended one. |
| Hdf5Plan.DepthOneSwapsLists | gaitalytics/model.py:262-267 | For a segmented trial of trials, the paths hold "markers" and the groups hold "out/0.h5", the reverse of the intended plan. |
| Hdf5Plan.PlanTargetsFiles | gaitalytics/model.py:255-260 | In the intended plan of a container with plain keys, every path is an ".h5" file: `<folder>/<key>.h5` for a trial child, or the given file for a trial. Every group name is free of dots. |
| Hdf5Plan.DepthOneTargetsGroupName | gaitalytics/model.py:262-267 | The depth-one container breaks that property as written: its path list names "markers". |
| Hdf5Plan.NodeToHdf5 | gaitalytics/model.py:210-269 | The recursive method returns exactly the plan as written. |
| Hdf5.Save | gaitalytics/model.py:43-69 | The guards apply in order. An existing path raises `FileExistsError`. A segmented trial with a suffix, or a trial without one, raises `ValueError`. Otherwise the plan exactly as `_to_hdf5` builds it is written; an empty plan raises "No data to save.". The save succeeds exactly when no guard fires and the plan is non-empty. A raised error leaves the files unchanged. After a successful save the folder exists when `_to_hdf5` makes it, every file outside the plan's path list is unchanged, and each planned group holds the payload of the last entry that writes it. |
| Hdf5.SaveDepthOneWritesGroupName | gaitalytics/model.py:65-67 | Saving a segmented trial `{"0": trial with markers}` to the new folder "out" asks the write to put group "out/0.h5" into a file named "markers". In the model's store, which takes any string as a group name, the save then succeeds and leaves a file "markers" holding that group, and no file "out/0.h5". |
| Hdf5.WriteAllEffect | gaitalytics/model.py:67 | Writing the three lists in append mode leaves the folders as they were and every file outside the path list as it was. In each listed file, the group of each last write to it holds that write's payload. |
| Hdf5Plan.Plan | gaitalytics/model.py:172 | The three lists of every plan have the same length. |
| Hdf5.RootKeys | gaitalytics/model.py:297 | `f.keys()` lists exactly the file's top-level groups, each once: every listed key is a group of the file, and every group of the file is listed. |
| Hdf5.LoadTrialEvents | gaitalytics/model.py:331-334 | Events are loaded exactly when the group has an events group. |
| Hdf5.LoadTrial | gaitalytics/model.py:321-339 | A group with no category and no events raises "does not have the correct format". A loaded trial has events exactly when the group has them. |
| Hdf5.LoadPath | gaitalytics/model.py:272-288 | A missing path raises `FileNotFoundError`. The result is a trial exactly when the path has a suffix. |
| Hdf5.LoadSegmentedTrialFile | gaitalytics/model.py:291-303 | The nested loops over files and contexts build exactly the cycles `LoadFiles` describes, each file's contexts under the file's cycle id. |
| Hdf5Folder.LoadFolder | gaitalytics/model.py:280-303 | On an existing folder, loading succeeds exactly when every context of every listed file loads. The result is context -> cycle -> trial, with distinct keys at both levels. It holds `tc[k][id]` exactly when some listed file named `id.h5` has the top-level group `k`. That trial is what `_load_trial` reads from group `k` of the last such file. |
| Hdf5Folder.LoadFilesLookup | gaitalytics/model.py:293-302 | The loop over the listed files succeeds exactly when every context of every file loads. Then `tc[k][id]` is the trial of the last listed file that has group `k` and is named `id.h5`; with no such file it is what the loop started with. |
| Hdf5Folder.LoadContextsLookup | gaitalytics/model.py:297-302 | The loop over one file's contexts succeeds exactly when each context's trial loads. Then it sets `tc[k][id]` for every context `k` of the file, and keeps every other lookup. |
| Hdf5Folder.AddCycleLookup | gaitalytics/model.py:298-302 | Adding a cycle sets `tc[k][id]`, creating the context if needed. Every other lookup is kept, and keys stay distinct at both levels. |
| Hdf5Folder.LastFileOfSpec | gaitalytics/model.py:293-302 | The file whose trial ends up under `tc[k][id]` is a listed file that holds `k` and is named `id.h5`, and no later listed file matches. There is none exactly when no listed file matches. |
| Hdf5FolderSave.FolderWrites | gaitalytics/model.py:216-233 | Saving a context -> cycle -> trial container writes into `<folder>/<id>.h5` exactly the groups of the trials stored under cycle `id`, each below its context's group `<context>/`. |
| Hdf5FolderSave.WriteAllEntries | gaitalytics/model.py:67 | Writing the entries one at a time into a new file leaves in it exactly the groups written to it, each once, each holding a dataset written to that group. |
| Hdf5FolderSave.SavedRootKeys | gaitalytics/model.py:297 | The top-level groups of a saved cycle file are exactly the contexts that hold that cycle. |
| Hdf5FolderSave.LoadSavedCycle | gaitalytics/model.py:321-339 | `_load_trial` on group `<context>/` of a saved cycle file gives back that context's trial, with its categories in enum order. |
| Hdf5FolderSave.SaveLoadFolder | gaitalytics/model.py:291-303 | Saving a context -> cycle -> trial container into a new folder and loading the folder back both succeed. The loaded lookup `tc[context][cycle_id]` is the saved one: each saved trial, with its categories in enum order, and nothing else. |
| Hdf5.AddCycle | gaitalytics/model.py:298-302 | The cycle is added under its context, creating the context if needed, and every other context is unchanged. |
| Hdf5.WriteNewFile | gaitalytics/model.py:67 | Writing a plan that targets one new file creates it with exactly the planned groups, in order. |
| Hdf5.EnumOrderGet | gaitalytics/model.py:323-330 | Reloading reorders the categories into enum order, and keeps each array. |
| Hdf5.LoadHeldTrial | gaitalytics/model.py:321-339 | Loading the root of a file written from a trial gives that trial, with its categories in enum order. |
| Hdf5.SaveLoadTrial | gaitalytics/model.py:43-69 | Saving a non-empty trial to a new ".h5" path succeeds, and loading that path gives back the same trial, with its categories in enum order. |

## Left out

- **The enum.** `DataCategory` in `gaitalytics/model.py:22-23` defines only
  markers and analogs. The feature code and its tests use
  `DataCategory.ANALYSIS`, so the model adds a third category, "analysis".
- **TrialCycles.** `TrialCycles`, `get_all_cycles` and
  `get_cycles_per_context` are used by the features and the tests, but are
  not in `gaitalytics/model.py`. They are modelled on the shape that
  segmentation produces: a segmented trial of contexts, whose children are
  segmented trials of cycles.
- **Event labels.** `gaitalytics/features.py:183-186` uses
  `events.FOOT_STRIKE` and `events.FOOT_OFF`, which `gaitalytics/events.py`
  does not define. The model uses the labels "Foot Strike" and "Foot Off".
- **Cycle attributes.** The attributes of a cycle's event table (end time,
  context, cycle id) are an input (`CycleAttrs`), because no code in the
  core sets them.
  - The test at `tests/test_segementation.py:133-136` compares the integer
    `cycle_id` attribute with the string key. The model stamps the integer,
    as the code does.
- **Saving an empty trial.** The test at `tests/test_model.py:44-46`
  expects it to succeed. The code raises "No data to save.", and the model
  follows the code.
- **Library calls.** `time_normalize`, the square root and the glob order
  of `*.h5` files are parameters. What they compute is not modelled.
- **h5py key order.** h5py lists group keys in name order. The model lists
  them in the order they were first written. The model also does not
  model the `//name` form of a root group path, or `mkdir`'s `parents`.
- **Floating point.** Times, rates and samples are exact reals. The
  model does not capture rounding, NaN propagation or numpy's `inf` on
  division by zero: a zero rate or a zero end time is Python's
  `ZeroDivisionError`.
- **Median and std.** Both are computed exactly over the present samples.
  `std` is the square root (a parameter) of the population variance.
- **Feature alignment.** `xr.concat` pads cycles and contexts to a common
  shape (an outer join, filled with NaN). The model keeps the stacked
  result ragged (context -> cycle -> feature).
- **Channel order.** The order of the channel union after a concat (pandas
  may sort it) is not promised. The model only states which channels there
  are, and that none repeats.
- **Slicing.** `sel(time=slice(...))` is modelled as a filter on the time
  values. That is its meaning on a sorted time index.
- Segmentation.SegmentFramesMeet: proved only for a category whose samples
  lie on a regular frame grid of its rate. The test at
  `tests/test_segementation.py:154-178` relies on real recordings.
- Segmentation.PatternCyclesHoldThreeEvents: proved for event tables that
  follow the documented pattern and are strictly increasing in time. Other
  tables are what the sequence checker reports.
- Hdf5FolderSave.SaveLoadFolder: proved when every key is plain (no "/"
  and no "."), every cycle's trial has data or events, the folder's name
  does not end in "h5", no cycle file is already stored, and the listing
  names exactly the cycle files, as the recursive glob of a new folder
  does. The glob's order does not matter for that container, because each
  cycle id has exactly one file.
- Hdf5.SaveDepthOneWritesGroupName: `xr.save_mfdataset` is modelled as a store that takes any string as a group name. At an odd depth the swapped group list holds the `pathlib.Path` values built at gaitalytics/model.py:258, and the library may reject a group that is not a string, raising instead of writing. The lemma states what the model's store does; the plan-level fact, that the write is asked to put group "out/0.h5" into file "markers", is `Hdf5Plan.DepthOneSwapsLists`.
- **Python objects.** Children of a segmented trial are held as values.
  Sharing one child object between two parents (aliasing), and later
  mutation through either parent, is not modelled. Requirements that keys
  are distinct (`DistinctKeys`, `WellKeyed`) reflect that Python dict keys
  are unique.
- **Paths.** `with_suffix` on an empty name raises in Python; the model
  does not model that case. A hidden file name such as ".h5" has no suffix,
  as in `pathlib`.
- **Other files.** `io.py`, `input.py`, `api.py`, `mapping.py` and
  `storage.py` are not part of this model. They read C3D files, map marker
  names and offer the public API.

## Findings

| source | as written | input that shows it | evidently intended | confidence | as-written member | corrected member |
|---|---|---|---|---|---|---|
| gaitalytics/model.py:262-269 | A child's `_to_hdf5` returns `(paths, data, groups)`, but it is unpacked as `seg_groups, seg_data, seg_path`. Paths and group names are exchanged at every segmented level. | A segmented trial with one cycle "0" holding only markers, saved to "out": paths ["markers"], groups ["out/0.h5"] | paths ["out/0.h5"], groups ["markers"]: unpack in the order returned, so that every path is an ".h5" file. Two segmented levels (context -> cycle -> trial) swap twice and come out right | not executed | Hdf5Plan.DepthOneSwapsLists | Hdf5Plan.PlanTargetsFiles |

`Hdf5Plan.DepthOneSwapsLists` states the as-written half at the level of
the plan: the write is asked to put group "out/0.h5" into file "markers".
What the storage library then does with a `pathlib.Path` as a group name is
outside this model (see `Hdf5.SaveDepthOneWritesGroupName` under
"## Left out").

`Hdf5.Save` writes the plan as the code builds it (`PlanAsWritten`). The
corrected plan (`Plan`) is what the lemmas about targets state. The two
agree on the context -> cycle -> trial containers that segmentation
produces (`Hdf5Plan.TrialCyclesPlanAsIntended`), so the saving and loading
lemmas about those containers hold for the code as written.
