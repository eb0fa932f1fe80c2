# Experiment automation controller, modelled in Dafny

This project models the experiment controller of the Palladio experiment automation
application, together with the loop-iteration variation strategy it uses.

The controller runs a batch of experiments. Each experiment runs once with each of its
tool configurations, experiments in the outer loop. One such run reads the clock to name
its experiment folder. It then enumerates the full-factorial design depth-first. The first
variation (factor) takes each of its admissible levels in turn. Each level is pushed onto
two buffers (variants and factor levels) while the remaining factors are enumerated, and
popped again afterwards. The admissible levels come from probing the factor's value
provider at positions 0, 1, 2, … as long as the previous value did not exceed
`maxValue` and fewer than `maxVariations` positions were probed. A probe that returns
-1 ends the probing. A value outside [`minValue`, `maxValue`] is skipped.

Once no factor is left, the buffers form one combination, the leaf of the enumeration.
For each combination the controller:

- builds the folder name fragment `name=level, name=level, …`;
- copies the experiment's initial model into that folder and loads the copy;
- binds a variation strategy to each varied element and applies the level;
- saves the varied model;
- runs the analysis tool `repetitions` times.

Any exception ends the whole batch.

The loop-iteration strategy accepts only a usage-model Loop as its varied object. It
replaces the loop's iteration variable with one whose specification is the decimal text of
the level, converted to a 32-bit int. It returns a description that carries the original
64-bit level.

Modules:

- `Results`: outcomes and the errors that end a batch.
- `Decimal`: Java's decimal rendering of integers and its inverse.
- `JavaInt`: the long-to-int conversion of the variation strategy.
- `PcmModel`: the loaded model. Its `Loop` and other elements are objects, and
  `ResourceSet` is the loaded copy.
- `LoopIterationVariations`: the strategy class `LoopIterationVariation`.
- `Experiments`: variations and experiments, and the admissible levels of one factor.
- `Enumeration`: the level combinations as a cross product in nested-loop order.
- `Fragments`: the folder-name fragment of a combination.
- `Pipeline`: the functional specification. What a batch, an experiment run, one
  combination and its tool runs do, written as a log of events together with the
  outcome.
- `Controller`: the imperative controller class `ExperimentController` and the
  `ArrayList` buffers. Each method is proved to append exactly its specification's
  events to the controller's `log` and to return its outcome.

Collaborators the controller cannot see are parameters, bundled in
`Pipeline.Environment`:

| parameter | what it stands for |
|---|---|
| `loadSucceeds(folder)` | whether copying the model files into the folder and loading the copy succeed |
| `saveSucceeds(folder)` | whether saving the resources succeeds |
| `runSucceeds(label, folder, i)` | whether the analysis tool's i-th run succeeds |
| `render(id, specification)` | the text the model helper gives for a varied loop |
| `clock(k)` | `currentTimeMillis` at the k-th experiment run |

Exceptions are modelled as `Fail` outcomes that stop everything after them. The
events are:

- `Applied(description)`: a variation was applied;
- `Save(folder, contents)`: the varied model was saved;
- `ToolRun(label, folder, i)`: the analysis tool ran.

The recursion with its two buffers is proved equal to a
nested loop over the cross product of the admissible levels
(`Pipeline.EnumerateRunsVisits`). The admissible levels of a factor are proved to be the
accepted values among the probed positions. The leaf count of a completed run is proved to
be the product of the admissible counts. Distinct level sequences get distinct variation
folders. A value provider that returns the same admissible value twice makes the
controller vary, save and simulate the same folder twice; the model keeps that behaviour
(`Pipeline.RepeatedLevelRevisits`).

## Model

| member | source | states |
|---|---|---|
| Controller.ExperimentController.constructor | de.uka.ipd.sdq.experimentautomation.application/src/de/uka/ipd/sdq/experimentautomation/application/controller/ExperimentController.java:95-103 | the controller keeps the experiments and the repetitions; nothing has happened yet |
| Controller.ExperimentController.RunExperiments | de.uka.ipd.sdq.experimentautomation.application/src/de/uka/ipd/sdq/experimentautomation/application/controller/ExperimentController.java:108-114 | the log grows by the runs of all (experiment, tool configuration) pairs, experiments outside and tools inside, one clock reading each, up to and including the first failure; its outcome is the batch's |
| Controller.ExperimentController.RunExperimentAt | de.uka.ipd.sdq.experimentautomation.application/src/de/uka/ipd/sdq/experimentautomation/application/controller/ExperimentController.java:109-113 | one pass of the outer loop appends the runs of that experiment's tool configurations to the runs of the experiments before it |
| Controller.ExperimentController.RunToolConfigurations | de.uka.ipd.sdq.experimentautomation.application/src/de/uka/ipd/sdq/experimentautomation/application/controller/ExperimentController.java:110-112 | the inner loop runs one experiment with each of its tool configurations in order, stopping at the first failure, one clock reading per run |
| Controller.ExperimentController.RunToolConfiguration | de.uka.ipd.sdq.experimentautomation.application/src/de/uka/ipd/sdq/experimentautomation/application/controller/ExperimentController.java:111 | the j-th pass of the inner loop appends exactly the run of the j-th pair to the log |
| Controller.ExperimentController.RunPair | de.uka.ipd.sdq.experimentautomation.application/src/de/uka/ipd/sdq/experimentautomation/application/controller/ExperimentController.java:111 | runExperiment called with the controller's repetitions performs the pair's run |
| Controller.ExperimentController.RunExperiment | de.uka.ipd.sdq.experimentautomation.application/src/de/uka/ipd/sdq/experimentautomation/application/controller/ExperimentController.java:116-137 | reads the clock once, names the experiment and its folder, and performs the enumeration of the experiment's variations from empty buffers |
| Controller.ExperimentController.RunVariations | de.uka.ipd.sdq.experimentautomation.application/src/de/uka/ipd/sdq/experimentautomation/application/controller/ExperimentController.java:139-174 | the log grows by exactly the recursive enumeration from the current buffers (the leaf when no factor is left); when it succeeds both buffers are restored, and when it fails the old buffers are still a prefix of the new ones: nothing of them was popped |
| Controller.ExperimentController.RunFactorLevels | de.uka.ipd.sdq.experimentautomation.application/src/de/uka/ipd/sdq/experimentautomation/application/controller/ExperimentController.java:141-170 | the levels loop tries the first factor's admissible levels in probe order, each followed by the enumeration of the remaining factors, stopping at the first failure; buffers restored on success, and on failure the old buffers remain a prefix |
| Controller.ExperimentController.RunLevel | de.uka.ipd.sdq.experimentautomation.application/src/de/uka/ipd/sdq/experimentautomation/application/controller/ExperimentController.java:159-167 | pushing one level with its factor, recursing on the copy without that factor and popping both: on success the buffers are as before and the level's enumeration was appended; on failure the buffers still begin with the pushed combination, so the failing level and its factor were not popped |
| Controller.ExperimentController.InitialiseVariations | de.uka.ipd.sdq.experimentautomation.application/src/de/uka/ipd/sdq/experimentautomation/application/controller/ExperimentController.java:237-242 | a fresh strategy is bound to the element with the variation's id; binding succeeds exactly when that element is a loop; a missing element and a non-loop element fail differently |
| Controller.ExperimentController.VariateModelAndSimulate | de.uka.ipd.sdq.experimentautomation.application/src/de/uka/ipd/sdq/experimentautomation/application/controller/ExperimentController.java:176-235 | the log grows by exactly the leaf of the buffered combination: descriptions, save into the combination's folder, tool runs |
| Controller.ExperimentController.LoadAndVary | de.uka.ipd.sdq.experimentautomation.application/src/de/uka/ipd/sdq/experimentautomation/application/controller/ExperimentController.java:191-214 | when copying and loading into the combination's folder fail, the combination ends with that failure and nothing is logged; otherwise a fresh copy of the initial model gets every variation applied in order, and on success what saving writes is the varied model |
| Controller.ExperimentController.ApplyVariations | de.uka.ipd.sdq.experimentautomation.application/src/de/uka/ipd/sdq/experimentautomation/application/controller/ExperimentController.java:207-214 | the loop applies the variations in buffer order, one description each, and stops at the first that cannot be bound; on success the loaded copy holds the varied model |
| Controller.ExperimentController.ApplyVariation | de.uka.ipd.sdq.experimentautomation.application/src/de/uka/ipd/sdq/experimentautomation/application/controller/ExperimentController.java:208-213 | one pass of that loop appends exactly one description, or fails and leaves the log unchanged |
| Controller.ExperimentController.VaryOne | de.uka.ipd.sdq.experimentautomation.application/src/de/uka/ipd/sdq/experimentautomation/application/controller/ExperimentController.java:209-212 | binding fails exactly when the id does not name a loop of the loaded model, and then the loaded model is unchanged; otherwise only that loop's iteration specification changes and the description is returned |
| Controller.ExperimentController.SaveAndSimulate | de.uka.ipd.sdq.experimentautomation.application/src/de/uka/ipd/sdq/experimentautomation/application/controller/ExperimentController.java:216-234 | the save happens before any tool run; a failed save ends the leaf; then the tool runs follow |
| Controller.ExperimentController.SimulateRepetitions | de.uka.ipd.sdq.experimentautomation.application/src/de/uka/ipd/sdq/experimentautomation/application/controller/ExperimentController.java:224-234 | tool runs numbered 1 to repetitions, in order, ending with the first that fails |
| Controller.ArrayList.Add | de.uka.ipd.sdq.experimentautomation.application/src/de/uka/ipd/sdq/experimentautomation/application/controller/ExperimentController.java:160-161 | appends one element at the end of a buffer |
| Controller.ArrayList.RemoveAt | de.uka.ipd.sdq.experimentautomation.application/src/de/uka/ipd/sdq/experimentautomation/application/controller/ExperimentController.java:165-166 | removes exactly the element at the index |
| Pipeline.PairsOrder | de.uka.ipd.sdq.experimentautomation.application/src/de/uka/ipd/sdq/experimentautomation/application/controller/ExperimentController.java:109-113 | the j-th tool configuration of the i-th experiment runs right after all pairs of the experiments before it |
| Pipeline.RunAllFailFast | de.uka.ipd.sdq.experimentautomation.application/src/de/uka/ipd/sdq/experimentautomation/application/controller/ExperimentController.java:108-113 | once a run fails, no later pair runs |
| Pipeline.ExperimentFails | de.uka.ipd.sdq.experimentautomation.application/src/de/uka/ipd/sdq/experimentautomation/application/controller/ExperimentController.java:108-113 | a failure within the first i experiments is the outcome and the log of the whole batch |
| Pipeline.RunPairsPass | de.uka.ipd.sdq.experimentautomation.application/src/de/uka/ipd/sdq/experimentautomation/application/controller/ExperimentController.java:108-113 | a successful batch ran every pair exactly once |
| Pipeline.EnumerateRunsVisits | de.uka.ipd.sdq.experimentautomation.application/src/de/uka/ipd/sdq/experimentautomation/application/controller/ExperimentController.java:139-174 | the recursion on two buffers performs the leaf of each combination in nested-loop order, first factor slowest, up to the first failure |
| Pipeline.VisitsEmpty | de.uka.ipd.sdq.experimentautomation.application/src/de/uka/ipd/sdq/experimentautomation/application/controller/ExperimentController.java:171-172 | with no factor left the leaf runs exactly once, on the current buffers |
| Pipeline.LeafCount | de.uka.ipd.sdq.experimentautomation.application/src/de/uka/ipd/sdq/experimentautomation/application/controller/ExperimentController.java:139-174 | a completed enumeration reaches the leaf once per combination: the product of the admissible-level counts, and once when the experiment has no variation |
| Pipeline.VisitedCombinations | de.uka.ipd.sdq.experimentautomation.application/src/de/uka/ipd/sdq/experimentautomation/application/controller/ExperimentController.java:134-172 | from empty buffers the leaf sees exactly the combinations that pair the experiment's own, unmodified variation list with one admissible level per variation |
| Pipeline.LevelFails | de.uka.ipd.sdq.experimentautomation.application/src/de/uka/ipd/sdq/experimentautomation/application/controller/ExperimentController.java:160-166 | a failure under one level is the whole enumeration's outcome: no later level is tried |
| Pipeline.EnumerationFails | de.uka.ipd.sdq.experimentautomation.application/src/de/uka/ipd/sdq/experimentautomation/application/controller/ExperimentController.java:153-170 | once the levels tried so far failed, the levels loop contributes nothing more |
| Pipeline.RepetitionsAllSucceed | de.uka.ipd.sdq.experimentautomation.application/src/de/uka/ipd/sdq/experimentautomation/application/controller/ExperimentController.java:224-234 | when every tool run succeeds, exactly the runs 1 to repetitions happen, in order (none for repetitions below 1) |
| Pipeline.RepetitionsAfterSuccesses | de.uka.ipd.sdq.experimentautomation.application/src/de/uka/ipd/sdq/experimentautomation/application/controller/ExperimentController.java:224-234 | after runs 1 to i-1 succeeded, the remaining runs start at i |
| Pipeline.LeafAllSucceed | de.uka.ipd.sdq.experimentautomation.application/src/de/uka/ipd/sdq/experimentautomation/application/controller/ExperimentController.java:206-234 | a combination where nothing fails logs the description of each variation with its level, in order, then the save of the varied model into the combination's folder, then exactly repetitions tool runs |
| Pipeline.LeafSaveFails | de.uka.ipd.sdq.experimentautomation.application/src/de/uka/ipd/sdq/experimentautomation/application/controller/ExperimentController.java:216-221 | a failed save ends the combination with that failure, after the save and before any tool run |
| Pipeline.LeafLoadFails | de.uka.ipd.sdq.experimentautomation.application/src/de/uka/ipd/sdq/experimentautomation/application/controller/ExperimentController.java:191-204 | a failed copy or load ends the combination with that failure before any variation, save or tool run |
| Pipeline.ApplyAllClosedForm | de.uka.ipd.sdq.experimentautomation.application/src/de/uka/ipd/sdq/experimentautomation/application/controller/ExperimentController.java:207-214 | the variation loop succeeds exactly when every variation's id names a loop of the initial model, and then it logs one description per variation, in order |
| Pipeline.LeafApplyFails | de.uka.ipd.sdq.experimentautomation.application/src/de/uka/ipd/sdq/experimentautomation/application/controller/ExperimentController.java:208-214 | a variation that cannot be bound ends the combination before anything is saved |
| Pipeline.VariedKinds | de.uka.ipd.sdq.experimentautomation.application/src/de/uka/ipd/sdq/experimentautomation/application/controller/ExperimentController.java:208-214 | applying variations never changes which ids are loops, so later bindings see the same kinds |
| Pipeline.ApplyAllFailureStays | de.uka.ipd.sdq.experimentautomation.application/src/de/uka/ipd/sdq/experimentautomation/application/controller/ExperimentController.java:208-214 | once a variation fails to bind, later variations are not applied |
| Experiments.AdmissibleAreAcceptedProbes | de.uka.ipd.sdq.experimentautomation.application/src/de/uka/ipd/sdq/experimentautomation/application/controller/ExperimentController.java:151-170 | the admissible levels are exactly the in-range, non-sentinel values at the probed positions, in position order |
| Experiments.ProbingStops | de.uka.ipd.sdq.experimentautomation.application/src/de/uka/ipd/sdq/experimentautomation/application/controller/ExperimentController.java:151-157 | positions are probed in increasing order, at most maxVariations of them, none when maxValue is negative; every probe but the last lets probing continue; short of the cap, the last probe returned -1 or a value above maxValue |
| Experiments.AdmissibleInRange | de.uka.ipd.sdq.experimentautomation.application/src/de/uka/ipd/sdq/experimentautomation/application/controller/ExperimentController.java:159-161 | every admissible level lies in [minValue, maxValue] and is not the sentinel |
| Experiments.AdmissibleBounded | de.uka.ipd.sdq.experimentautomation.application/src/de/uka/ipd/sdq/experimentautomation/application/controller/ExperimentController.java:151-169 | there are never more admissible levels than probes, hence than maxVariations |
| Enumeration.CrossProductSize | de.uka.ipd.sdq.experimentautomation.application/src/de/uka/ipd/sdq/experimentautomation/application/controller/ExperimentController.java:153-172 | the number of combinations is the product of the admissible-level counts, 1 with no factor |
| Enumeration.CrossProductMembership | de.uka.ipd.sdq.experimentautomation.application/src/de/uka/ipd/sdq/experimentautomation/application/controller/ExperimentController.java:153-172 | a level sequence is visited iff it has one admissible level per factor |
| Enumeration.NestedLoopOrder | de.uka.ipd.sdq.experimentautomation.application/src/de/uka/ipd/sdq/experimentautomation/application/controller/ExperimentController.java:153-170 | combination i*M+j is the first factor's i-th level followed by the j-th combination of the rest |
| Enumeration.CombinationsInRange | de.uka.ipd.sdq.experimentautomation.application/src/de/uka/ipd/sdq/experimentautomation/application/controller/ExperimentController.java:159-163 | every visited combination has one level per factor, within that factor's range |
| Fragments.BuildFragment | de.uka.ipd.sdq.experimentautomation.application/src/de/uka/ipd/sdq/experimentautomation/application/controller/ExperimentController.java:181-187 | the loop builds the join of the name=level entries with ", " |
| Fragments.EntryInjective | de.uka.ipd.sdq.experimentautomation.application/src/de/uka/ipd/sdq/experimentautomation/application/controller/ExperimentController.java:183 | one factor's `name=level` entry determines the level |
| Fragments.FragmentInjective | de.uka.ipd.sdq.experimentautomation.application/src/de/uka/ipd/sdq/experimentautomation/application/controller/ExperimentController.java:181-189 | for the same factors, distinct level sequences give distinct folder fragments |
| Pipeline.SubFolderInjective | de.uka.ipd.sdq.experimentautomation.application/src/de/uka/ipd/sdq/experimentautomation/application/controller/ExperimentController.java:188-189 | below one parent folder, the variation folder determines the fragment |
| Pipeline.VariationFolderInjective | de.uka.ipd.sdq.experimentautomation.application/src/de/uka/ipd/sdq/experimentautomation/application/controller/ExperimentController.java:181-189 | within one experiment folder, combinations of the same factors with distinct level sequences get distinct folders |
| Pipeline.RepeatedLevelRevisits | de.uka.ipd.sdq.experimentautomation.application/src/de/uka/ipd/sdq/experimentautomation/application/controller/ExperimentController.java:151-172 | the enumeration keeps repeated provider values: an admissible level returned twice makes the leaf see the same combination, and so the same folder, twice |
| Fragments.FragmentFront | de.uka.ipd.sdq.experimentautomation.application/src/de/uka/ipd/sdq/experimentautomation/application/controller/ExperimentController.java:182-186 | the fragment starts with the first factor's entry, then one separator and the fragment of the rest |
| Fragments.FragmentEnds | de.uka.ipd.sdq.experimentautomation.application/src/de/uka/ipd/sdq/experimentautomation/application/controller/ExperimentController.java:184-186 | the fragment is empty exactly for no factor, and otherwise ends with a digit: no trailing separator |
| PcmModel.ResourceSet.Load | de.uka.ipd.sdq.experimentautomation.application/src/de/uka/ipd/sdq/experimentautomation/application/controller/ExperimentController.java:191-204 | loading yields new loop objects whose contents are exactly the initial model |
| PcmModel.ResourceSet.FindById | de.uka.ipd.sdq.experimentautomation.application/src/de/uka/ipd/sdq/experimentautomation/application/controller/ExperimentController.java:238 | the element with the id, a loop or another element, or null when none has it |
| PcmModel.ResourceSet.Contents | de.uka.ipd.sdq.experimentautomation.application/src/de/uka/ipd/sdq/experimentautomation/application/controller/ExperimentController.java:244-252 | saving writes one entry per element of the loaded copy |
| LoopIterationVariations.LoopIterationVariation.SetVariedObject | de.uka.ipd.sdq.experimentautomation.application/src/de/uka/ipd/sdq/experimentautomation/application/variation/LoopIterationVariation.java:18-23 | binding succeeds iff the object is a Loop, which is then the varied loop; otherwise the strategy is unchanged and null and non-loop objects are distinct errors |
| LoopIterationVariations.LoopIterationVariation.Vary | de.uka.ipd.sdq.experimentautomation.application/src/de/uka/ipd/sdq/experimentautomation/application/variation/LoopIterationVariation.java:26-38 | only the loop's iteration variable changes, to the decimal text of the converted level; the description is the label, the original level and the rendered loop |
| LoopIterationVariations.IterationSpecificationReadsBack | de.uka.ipd.sdq.experimentautomation.application/src/de/uka/ipd/sdq/experimentautomation/application/variation/LoopIterationVariation.java:32-34 | the stored specification reads back as the level exactly when the level fits an int, and as INT_MAX above that range |
| LoopIterationVariations.VaryDescriptionCarriesLongValue | de.uka.ipd.sdq.experimentautomation.application/src/de/uka/ipd/sdq/experimentautomation/application/variation/LoopIterationVariation.java:37 | the description is the label, then the original long level (which reads back), then ": " and the rendered loop |
| LoopIterationVariations.AsWrittenWrapsAround | de.uka.ipd.sdq.experimentautomation.application/src/de/uka/ipd/sdq/experimentautomation/application/variation/LoopIterationVariation.java:28-34 | as written, INT_MAX + 1 is stored as INT_MIN; with the clamp it is stored as INT_MAX |
| JavaInt.LongIntValue | de.uka.ipd.sdq.experimentautomation.application/src/de/uka/ipd/sdq/experimentautomation/application/variation/LoopIterationVariation.java:32 | the conversion keeps the value modulo 2^32 in int range, and values already in range unchanged |
| JavaInt.LongIntValueUnique | de.uka.ipd.sdq.experimentautomation.application/src/de/uka/ipd/sdq/experimentautomation/application/variation/LoopIterationVariation.java:32 | those two properties determine the conversion |
| JavaInt.ClampOverwritten | de.uka.ipd.sdq.experimentautomation.application/src/de/uka/ipd/sdq/experimentautomation/application/variation/LoopIterationVariation.java:28-32 | as written, a value just above INT_MAX wraps to INT_MIN instead of being clamped |
| JavaInt.ClampedIntValue | de.uka.ipd.sdq.experimentautomation.application/src/de/uka/ipd/sdq/experimentautomation/application/variation/LoopIterationVariation.java:28-31 | values above INT_MAX become INT_MAX, values in range are kept |
| Decimal.DecimalRoundTrip | de.uka.ipd.sdq.experimentautomation.application/src/de/uka/ipd/sdq/experimentautomation/application/variation/LoopIterationVariation.java:34 | parsing the decimal rendering of an integer gives it back |
| Decimal.DecimalStringInjective | de.uka.ipd.sdq.experimentautomation.application/src/de/uka/ipd/sdq/experimentautomation/application/controller/ExperimentController.java:183 | distinct integers render as distinct decimal texts |

## Left out

- Experiment metadata: the start and end dates, the command-line arguments and the factor
  names array (lines 121-130 and 136). The model never reads them.
- Logging (the save messages and the MAXINT warning): no observable effect on the model.
- The value-provider, variation-strategy and tool-adapter factories. Each factor carries
  its value provider as a function `valueAt`. Every variation uses the loop-iteration
  strategy. The tool adapter is the `runSucceeds` oracle. Other strategy kinds are not
  part of this model.
- Copying the model files (`copyAuxModelFiles`, locations, URIs of the copied files),
  EMF proxy resolution and URI normalisation. Whether copying and loading succeed is the
  `loadSucceeds` oracle; a successful load is a fresh object copy of the experiment's
  initial model, keyed by element id. Saving writes every element's contents.
- The stop conditions passed to the tool adapter: they do not influence the controller.
- The variation description list: the source collects it and never reads it. The model
  records each description as an `Applied` event.
- Exceptions thrown inside the analysis tool, the file system or EMF. They are
  `loadSucceeds`, `saveSucceeds` and `runSucceeds` failures ending the batch.
- `java.io.File`'s normalisation beyond dropping the trailing separator.
- 64-bit overflow of the long levels and of the int loop counters: levels and counters are
  unbounded integers.
- Controller.ExperimentController.RunExperiment: its contract speaks of a pair's run for
  any `repetitions`. The source passes only the controller's own, and
  `RunPair` fixes that.
- Pipeline.LeafOf: it runs the leaf only on buffers of equal length. Those are the only
  ones the enumeration builds. For other buffers it does nothing, which cannot happen in
  the source.
- The caller's list of variations is an immutable sequence in the model, so the
  defensive copy at lines 143-145 cannot be told apart from the original.
  `Pipeline.VisitedCombinations` states the consequence: every leaf sees the
  experiment's unmodified list.
- Members whose contracts use `old`, `fresh` or `modifies` (the controller's methods,
  the constructors, `ResourceSet.Load`) are proved against their specification
  functions. The lemmas above state the properties of those functions.

## Findings

| source | as written | input that shows it | evidently intended | confidence | as-written member | corrected member |
|---|---|---|---|---|---|---|
| de.uka.ipd.sdq.experimentautomation.application/src/de/uka/ipd/sdq/experimentautomation/application/variation/LoopIterationVariation.java:28-32 | the clamp to Integer.MAX_VALUE is assigned and then overwritten by `new Long(value).intValue()`, so a level above MAXINT wraps around | level 2147483648 is stored as the iteration count -2147483648 | levels above MAXINT are clamped to MAXINT, as the warning on line 29 says | not executed | JavaInt.ClampOverwritten | JavaInt.ClampedIntValue |

`LoopIterationVariations.AsWrittenWrapsAround` shows the effect on the stored
specification. `LoopIterationVariation.Vary` and `IterationSpecification` use the
corrected conversion. Levels below INT_MIN are still truncated, as in the source, which
checks only the upper bound.
