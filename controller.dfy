/** The experiment controller: runs every experiment with every tool configuration,
    enumerating the combinations of factor levels depth-first and, for each one, varying a
    fresh copy of the model, saving it and running the analysis tool. */
module Controller {
  import opened Results
  import opened PcmModel
  import opened Experiments
  import opened Enumeration
  import opened Fragments
  import opened LoopIterationVariations
  import opened Pipeline

  /** The java.util.ArrayList operations the enumeration uses. */
  class ArrayList<T> {
    var elems: seq<T>

    constructor ()
      ensures elems == []
    {
      elems := [];
    }

    function Size(): nat
      reads this
    {
      |elems|
    }

    method Add(x: T)
      modifies this
      ensures elems == old(elems) + [x]
    {
      elems := elems + [x];
    }

    method RemoveAt(index: nat)
      requires index < |elems|
      modifies this
      ensures elems == old(elems)[..index] + old(elems)[index + 1..]
    {
      elems := elems[..index] + elems[index + 1..];
    }
  }

  /** A log that grew by `first` and then by `second` grew by `both`. A proof device with
      no counterpart in the Java code: it keeps the verifier's sequence reasoning small. */
  lemma LogGrows<T>(log: seq<T>, before: seq<T>, base: seq<T>, first: seq<T>, second: seq<T>, both: seq<T>)
    requires before == base + first && log == before + second && both == first + second
    ensures log == base + both
  {
  }

  class ExperimentController {
    const experiments: seq<Experiment>
    const repetitions: int
    /** The collaborators: model saving, the tool adapter, loop rendering, the clock. */
    const env: Environment
    /** What the batch has done to the outside world so far. */
    var log: seq<Event>
    /** How often the clock has been read: once per experiment run. */
    var clockReadings: nat
    /** runExperiment as a function of the pair and of how often the clock was read before;
        the constructor fixes it to `PairRunner(env, repetitions)`. Like `RunsPairs`, a proof
        device with no counterpart in the Java code: it keeps the verifier's work small. */
    ghost const runner: ((Experiment, ToolConfiguration), nat) -> Run

    /** `runner` agrees with the run of every pair. */
    ghost predicate RunsPairs() {
      forall pair, n {:trigger PairRun(env, pair, repetitions, n)} ::
        runner(pair, n) == PairRun(env, pair, repetitions, n)
    }

    constructor (experiments: seq<Experiment>, repetitions: int, env: Environment)
      ensures this.experiments == experiments && this.repetitions == repetitions && this.env == env
      ensures log == [] && clockReadings == 0
      ensures runner == PairRunner(env, repetitions) && RunsPairs()
    {
      this.experiments := experiments;
      this.repetitions := repetitions;
      this.env := env;
      runner := PairRunner(env, repetitions);
      log := [];
      clockReadings := 0;
    }

    /** Runs every experiment with each of its tool configurations, experiments in the
        outer loop; the first failure ends the batch. */
    method RunExperiments() returns (outcome: Outcome)
      requires RunsPairs()
      modifies this`log, this`clockReadings
      ensures var r := RunAll(runner, Pairs(experiments), old(clockReadings));
              log == old(log) + r.events && outcome == r.outcome
      ensures outcome.Pass? ==> clockReadings == old(clockReadings) + |Pairs(experiments)|
    {
      ghost var k := clockReadings;
      outcome := Pass;
      var i := 0;
      while i < |experiments|
        invariant 0 <= i <= |experiments|
        invariant RunAll(runner, Pairs(experiments[..i]), k).outcome == Pass && outcome == Pass
        invariant log == old(log) + RunAll(runner, Pairs(experiments[..i]), k).events
        invariant clockReadings == k + |Pairs(experiments[..i])|
      {
        outcome := RunExperimentAt(i, k, old(log));
        if outcome.Fail? {
          ExperimentFails(runner, experiments, i + 1, k);
          return;
        }
        i := i + 1;
      }
      assert experiments[..i] == experiments;
    }

    /** One pass of the outer loop: the i-th experiment with all its tool configurations.
        The ghost `k` and `base` (clock readings and log before the loop) only keep the
        verifier's work small, as do the other loop passes split into methods below. */
    method RunExperimentAt(i: nat, ghost k: nat, ghost base: seq<Event>) returns (outcome: Outcome)
      requires i < |experiments| && clockReadings == k + |Pairs(experiments[..i])|
      requires var done := RunAll(runner, Pairs(experiments[..i]), k);
               done.outcome == Pass && log == base + done.events
      requires RunsPairs()
      modifies this`log, this`clockReadings
      ensures var r := RunAll(runner, Pairs(experiments[..i + 1]), k);
              log == base + r.events && outcome == r.outcome
      ensures outcome.Pass? ==> clockReadings == k + |Pairs(experiments[..i + 1])|
    {
      var exp := experiments[i];
      ExperimentStep(runner, experiments, i, exp, k);
      ghost var done := RunAll(runner, Pairs(experiments[..i]), k);
      ghost var inner := RunAll(runner, ToolPairs(exp), clockReadings);
      ghost var next := RunAll(runner, Pairs(experiments[..i + 1]), k);
      ghost var before := log;
      outcome := RunToolConfigurations(exp);
      LogGrows(log, before, base, done.events, inner.events, next.events);
    }

    /** The inner loop of runExperiments: one experiment with each of its tool
        configurations in turn, until one fails. */
    method RunToolConfigurations(exp: Experiment) returns (outcome: Outcome)
      requires RunsPairs()
      modifies this`log, this`clockReadings
      ensures var r := RunAll(runner, ToolPairs(exp), old(clockReadings));
              log == old(log) + r.events && outcome == r.outcome
      ensures outcome.Pass? ==> clockReadings == old(clockReadings) + |exp.toolConfigurations|
    {
      ghost var k := clockReadings;
      ghost var pairs := ToolPairs(exp);
      outcome := Pass;
      var j := 0;
      while j < |exp.toolConfigurations|
        invariant 0 <= j <= |exp.toolConfigurations|
        invariant RunAll(runner, pairs[..j], k).outcome == Pass && outcome == Pass
        invariant log == old(log) + RunAll(runner, pairs[..j], k).events
        invariant clockReadings == k + j
      {
        outcome := RunToolConfiguration(exp, j, k, old(log));
        if outcome.Fail? {
          RunAllFailFast(runner, pairs[..j + 1], pairs, k);
          return;
        }
        j := j + 1;
      }
      assert pairs[..j] == pairs;
    }

    /** One pass of that inner loop: runExperiment with the j-th tool configuration. */
    method RunToolConfiguration(exp: Experiment, j: nat, ghost k: nat, ghost base: seq<Event>)
      returns (outcome: Outcome)
      requires j < |exp.toolConfigurations| && clockReadings == k + j
      requires var done := RunAll(runner, ToolPairs(exp)[..j], k);
               done.outcome == Pass && log == base + done.events
      requires RunsPairs()
      modifies this`log, this`clockReadings
      ensures var r := RunAll(runner, ToolPairs(exp)[..j + 1], k);
              log == base + r.events && outcome == r.outcome
      ensures clockReadings == k + j + 1
    {
      ghost var done := RunAll(runner, ToolPairs(exp)[..j], k);
      ghost var next := RunAll(runner, ToolPairs(exp)[..j + 1], k);
      var tool := exp.toolConfigurations[j];
      RunAllStep(runner, ToolPairs(exp), j, (exp, tool), k);
      ghost var before := log;
      ghost var r;
      outcome, r := RunPair(exp, tool, k + j);
      LogGrows(log, before, base, done.events, r.events, next.events);
    }

    /** runExperiment with this controller's repetitions, seen through `runner`. */
    method RunPair(exp: Experiment, tool: ToolConfiguration, ghost reading: nat)
      returns (outcome: Outcome, ghost run: Run)
      requires clockReadings == reading && RunsPairs()
      modifies this`log, this`clockReadings
      ensures run == runner((exp, tool), reading)
      ensures log == old(log) + run.events && outcome == run.outcome
      ensures clockReadings == reading + 1
    {
      outcome, run := RunExperiment(exp, tool, repetitions, reading);
    }

    /** runExperiment: reads the clock for the experiment folder's name and enumerates the
        experiment's variations from empty buffers. */
    method RunExperiment(exp: Experiment, toolConfig: ToolConfiguration, repetitions: int, ghost reading: nat)
      returns (outcome: Outcome, ghost run: Run)
      requires clockReadings == reading
      modifies this`log, this`clockReadings
      ensures run == PairRun(env, (exp, toolConfig), repetitions, reading)
      ensures log == old(log) + run.events && outcome == run.outcome
      ensures clockReadings == reading + 1
    {
      var experimentName := ExperimentName(exp, toolConfig);
      var millis := env.clock(clockReadings);
      clockReadings := clockReadings + 1;
      var experimentFolder := ExperimentFolder(experimentName, millis);
      var settings := ExperimentContext(experimentName, experimentFolder, toolConfig, repetitions, exp);
      var variants := new ArrayList<Variation>();
      var currentFactorLevels := new ArrayList<int>();
      outcome := RunVariations(exp.variations, settings, variants, currentFactorLevels, LeafOf(env, settings));
      run := PairRun(env, (exp, toolConfig), repetitions, reading);
    }

    /** `leaf` is variateModelAndSimulate in the context `settings`. The ghost `leaf` is a
        proof device with no counterpart in the Java code: it keeps the verifier's work small. */
    ghost predicate LeafRuns(settings: ExperimentContext, leaf: LeafAction) {
      forall c {:trigger Leaf(env, settings, c)} :: WellFormed(c) ==> leaf(c) == Leaf(env, settings, c)
    }

    /** The depth-first enumeration: the first factor of `list` takes each of its
        admissible levels in turn, pushed onto the buffers while the remaining factors are
        enumerated; with no factor left, the buffers are one combination for the leaf. */
    method RunVariations(list: seq<Variation>, settings: ExperimentContext,
                         variants: ArrayList<Variation>, currentFactorLevels: ArrayList<int>,
                         ghost leaf: LeafAction)
      returns (outcome: Outcome)
      requires LeafRuns(settings, leaf)
      requires |variants.elems| == |currentFactorLevels.elems|
      modifies this`log, variants, currentFactorLevels
      ensures var r := Enumerate(leaf, Combination(old(variants.elems), old(currentFactorLevels.elems)), list);
              log == old(log) + r.events && outcome == r.outcome
      ensures outcome.Pass? ==>
                variants.elems == old(variants.elems) && currentFactorLevels.elems == old(currentFactorLevels.elems)
      ensures old(variants.elems) <= variants.elems && old(currentFactorLevels.elems) <= currentFactorLevels.elems
      decreases |list|, 2
    {
      if list == [] {
        outcome := VariateModelAndSimulate(settings, variants, currentFactorLevels);
      } else {
        outcome := RunFactorLevels(list, settings, variants, currentFactorLevels, leaf);
      }
    }

    /** The levels loop for the first factor of a non-empty `list`: probe the value
        provider position by position, and enumerate the remaining factors under each
        admissible level. */
    method RunFactorLevels(list: seq<Variation>, settings: ExperimentContext,
                           variants: ArrayList<Variation>, currentFactorLevels: ArrayList<int>,
                           ghost leaf: LeafAction)
      returns (outcome: Outcome)
      requires LeafRuns(settings, leaf)
      requires list != [] && |variants.elems| == |currentFactorLevels.elems|
      modifies this`log, variants, currentFactorLevels
      ensures var r := EnumerateLevels(leaf, Combination(old(variants.elems), old(currentFactorLevels.elems)),
                                       list, Admissible(list[0]));
              log == old(log) + r.events && outcome == r.outcome
      ensures outcome.Pass? ==>
                variants.elems == old(variants.elems) && currentFactorLevels.elems == old(currentFactorLevels.elems)
      ensures old(variants.elems) <= variants.elems && old(currentFactorLevels.elems) <= currentFactorLevels.elems
      decreases |list|, 1
    {
      ghost var prefix := Combination(variants.elems, currentFactorLevels.elems);
      // the first factor, and the factors that remain below it
      var copy := list;
      var variation := copy[0];
      copy := copy[1..];

      var factorLevel := 0;
      var iteration := 0;
      ghost var accepted: seq<int> := [];
      while factorLevel <= variation.maxValue && iteration < variation.maxVariations
        invariant Admissible(variation) == accepted + LevelsFrom(variation, factorLevel, iteration)
        invariant variants.elems == prefix.variations && currentFactorLevels.elems == prefix.levels
        invariant EnumerateLevels(leaf, prefix, list, accepted).outcome == Pass
        invariant log == old(log) + EnumerateLevels(leaf, prefix, list, accepted).events
        decreases variation.maxVariations - iteration
      {
        ghost var last := factorLevel;
        factorLevel := variation.valueAt(iteration);
        if factorLevel == EXHAUSTED {
          assert LevelsFrom(variation, last, iteration) == [];
          break;
        }
        if variation.minValue <= factorLevel <= variation.maxValue {
          ghost var rest := LevelsFrom(variation, factorLevel, iteration + 1);
          assert LevelsFrom(variation, last, iteration) == [factorLevel] + rest;
          outcome := RunLevel(list, copy, settings, variants, currentFactorLevels,
                              prefix, accepted, rest, factorLevel, old(log), leaf);
          if outcome.Fail? {
            return;
          }
          accepted := accepted + [factorLevel];
        }
        iteration := iteration + 1;
      }
      assert accepted == Admissible(variation);
      outcome := Pass;
    }

    /** One admissible level `factorLevel` of the first factor, after the levels `accepted`
        and before the levels `rest`: push it with its factor, enumerate the remaining
        factors `copy`, and pop both again once that enumeration has succeeded. A failure
        below it ends the enumeration of `list`. */
    method RunLevel(list: seq<Variation>, copy: seq<Variation>, settings: ExperimentContext,
                    variants: ArrayList<Variation>, currentFactorLevels: ArrayList<int>,
                    ghost prefix: Combination, ghost accepted: seq<int>, ghost rest: seq<int>,
                    factorLevel: int, ghost base: seq<Event>, ghost leaf: LeafAction)
      returns (outcome: Outcome)
      requires LeafRuns(settings, leaf)
      requires list != [] && copy == list[1..] && WellFormed(prefix)
      requires variants.elems == prefix.variations && currentFactorLevels.elems == prefix.levels
      requires Admissible(list[0]) == accepted + ([factorLevel] + rest)
      requires var done := EnumerateLevels(leaf, prefix, list, accepted);
               done.outcome == Pass && log == base + done.events
      modifies this`log, variants, currentFactorLevels
      ensures var next := EnumerateLevels(leaf, prefix, list, accepted + [factorLevel]);
              outcome.Pass? ==> log == base + next.events && next.outcome == Pass
      ensures var whole := Enumerate(leaf, prefix, list);
              outcome.Fail? ==> log == base + whole.events && outcome == whole.outcome
      ensures outcome.Pass? ==>
                variants.elems == prefix.variations && currentFactorLevels.elems == prefix.levels
      ensures prefix.variations <= variants.elems && prefix.levels <= currentFactorLevels.elems
      ensures var pushed := Pushed(prefix, list, factorLevel);
              outcome.Fail? ==>
                pushed.variations <= variants.elems && pushed.levels <= currentFactorLevels.elems
      decreases |list|, 0
    {
      ghost var done := EnumerateLevels(leaf, prefix, list, accepted);
      ghost var inner := Enumerate(leaf, Pushed(prefix, list, factorLevel), copy);
      LevelsStep(leaf, prefix, list, accepted, factorLevel);
      if inner.outcome.Fail? {
        LevelFails(leaf, prefix, list, accepted, factorLevel, rest, inner);
      }
      variants.Add(list[0]);
      currentFactorLevels.Add(factorLevel);
      assert Combination(variants.elems, currentFactorLevels.elems) == Pushed(prefix, list, factorLevel);
      ghost var before := log;
      outcome := RunVariations(copy, settings, variants, currentFactorLevels, leaf);
      LogGrows(log, before, base, done.events, inner.events, Then(done, inner).events);
      if outcome.Pass? {
        variants.RemoveAt(variants.Size() - 1);
        currentFactorLevels.RemoveAt(currentFactorLevels.Size() - 1);
      }
    }

    /** Wraps an element of the resolved model in the loop-iteration strategy. */
    method InitialiseVariations(v: Variation, rs: ResourceSet)
      returns (strategy: LoopIterationVariation, outcome: Outcome)
      ensures fresh(strategy)
      ensures outcome.Pass? <==> v.variedObjectId in rs.loops
      ensures outcome.Pass? ==> strategy.loop == rs.loops[v.variedObjectId]
      ensures v.variedObjectId !in rs.loops && v.variedObjectId !in rs.others ==>
                outcome == Fail(ElementNotFound)
      ensures v.variedObjectId !in rs.loops && v.variedObjectId in rs.others ==>
                outcome == Fail(NotALoop)
    {
      var variedObject := rs.FindById(v.variedObjectId);
      strategy := new LoopIterationVariation();
      outcome := strategy.SetVariedObject(variedObject);
    }

    /** The leaf of the enumeration for the combination in the two buffers: a fresh copy of
        the initial model is varied, saved, and simulated `repetitions` times. */
    method VariateModelAndSimulate(settings: ExperimentContext, variations: ArrayList<Variation>,
                                   factorLevels: ArrayList<int>) returns (outcome: Outcome)
      requires |variations.elems| == |factorLevels.elems|
      modifies this`log
      ensures var r := Leaf(env, settings, Combination(variations.elems, factorLevels.elems));
              log == old(log) + r.events && outcome == r.outcome
    {
      var vs, ls := variations.elems, factorLevels.elems;
      var exp := settings.experiment;

      // the combination's folder below the experiment folder
      var factorLevelsString := BuildFragment(vs, ls);
      var variationFolder := SubFolder(settings.experimentFolder, factorLevelsString);

      assert variationFolder == VariationFolder(settings, Combination(vs, ls));

      // a fresh copy of the initial model in that folder, varied level by level
      var varied;
      varied, outcome := LoadAndVary(variationFolder, exp.initialModel, vs, ls);
      if outcome.Fail? {
        return;
      }

      // write the varied copy back, then run the analysis tool once per repetition
      ghost var applied := LoadAndApply(env, variationFolder, exp.initialModel, vs, ls);
      ghost var saved := SaveAndRun(env, variationFolder, varied, RunLabel(settings), settings.repetitions);
      ghost var before := log;
      outcome := SaveAndSimulate(variationFolder, varied, RunLabel(settings), settings.repetitions);
      LogGrows(log, before, old(log), applied.events, saved.events,
               Leaf(env, settings, Combination(vs, ls)).events);
    }

    /** The rest of variateModelAndSimulate: save the varied model, then run the analysis
        tool once per repetition, numbered from 1, stopping at the first failure. */
    method SaveAndSimulate(folder: string, varied: map<string, StoredElement>, runLabel: string,
                           repetitions: int)
      returns (outcome: Outcome)
      modifies this`log
      ensures var r := SaveAndRun(env, folder, varied, runLabel, repetitions);
              log == old(log) + r.events && outcome == r.outcome
    {
      log := log + [Save(folder, varied)];
      if !env.saveSucceeds(folder) {
        return Fail(SaveFailed(folder));
      }
      outcome := SimulateRepetitions(runLabel, folder, repetitions);
    }

    /** Copies `model` into `folder` and loads a fresh copy, then applies the variations to
        it; `varied` is what saving the copy writes. A failed copy or load ends here. */
    method LoadAndVary(folder: string, model: map<string, StoredElement>,
                       variations: seq<Variation>, factorLevels: seq<int>)
      returns (varied: map<string, StoredElement>, outcome: Outcome)
      requires |variations| == |factorLevels|
      modifies this`log
      ensures var r := LoadAndApply(env, folder, model, variations, factorLevels);
              log == old(log) + r.events && outcome == r.outcome
      ensures outcome.Pass? ==> varied == Varied(model, variations, factorLevels)
    {
      if !env.loadSucceeds(folder) {
        return map[], Fail(LoadFailed(folder));
      }
      var resourceSet := new ResourceSet.Load(model);
      outcome := ApplyVariations(resourceSet, variations, factorLevels, model);
      varied := resourceSet.Contents();
    }

    /** The loop of variateModelAndSimulate that varies the loaded model, one variation
        after the other, collecting their descriptions. */
    method ApplyVariations(resourceSet: ResourceSet, variations: seq<Variation>, factorLevels: seq<int>,
                           ghost model: map<string, StoredElement>)
      returns (outcome: Outcome)
      requires |variations| == |factorLevels|
      requires resourceSet.Valid() && resourceSet.Contents() == model
      modifies this`log, resourceSet.loops.Values
      ensures var r := ApplyAll(env, model, variations, factorLevels);
              log == old(log) + r.events && outcome == r.outcome
      ensures outcome.Pass? ==> resourceSet.Contents() == Varied(model, variations, factorLevels)
    {
      assert variations[..0] == [] && factorLevels[..0] == [];
      assert Varied(model, variations[..0], factorLevels[..0]) == model;
      assert ApplyAll(env, model, variations[..0], factorLevels[..0]) == Run([], Pass, 0);
      var i := 0;
      while i < |variations|
        invariant 0 <= i <= |variations|
        invariant resourceSet.Valid()
        invariant resourceSet.Contents() == Varied(model, variations[..i], factorLevels[..i])
        invariant ApplyAll(env, model, variations[..i], factorLevels[..i]).outcome == Pass
        invariant log == old(log) + ApplyAll(env, model, variations[..i], factorLevels[..i]).events
      {
        outcome := ApplyVariation(resourceSet, variations, factorLevels, i, model, old(log));
        if outcome.Fail? {
          ApplyAllFailureStays(env, model, variations, factorLevels, i + 1);
          return;
        }
        i := i + 1;
      }
      assert variations[..i] == variations && factorLevels[..i] == factorLevels;
      outcome := Pass;
    }

    /** The body of that loop for the `i`-th variation. */
    method ApplyVariation(resourceSet: ResourceSet, variations: seq<Variation>, factorLevels: seq<int>,
                          i: nat, ghost model: map<string, StoredElement>, ghost base: seq<Event>)
      returns (outcome: Outcome)
      requires |variations| == |factorLevels| && i < |variations|
      requires resourceSet.Valid()
      requires resourceSet.Contents() == Varied(model, variations[..i], factorLevels[..i])
      requires ApplyAll(env, model, variations[..i], factorLevels[..i]).outcome == Pass
      requires log == base + ApplyAll(env, model, variations[..i], factorLevels[..i]).events
      modifies this`log, resourceSet.loops.Values
      ensures var r := ApplyAll(env, model, variations[..i + 1], factorLevels[..i + 1]);
              log == base + r.events && outcome == r.outcome
      ensures outcome.Pass? ==>
                resourceSet.Contents() == Varied(model, variations[..i + 1], factorLevels[..i + 1])
    {
      var v := variations[i];
      var currentValue := factorLevels[i];
      ghost var done := ApplyAll(env, model, variations[..i], factorLevels[..i]);
      ghost var next := ApplyAll(env, model, variations[..i + 1], factorLevels[..i + 1]);
      ApplyAllStep(env, model, variations, factorLevels, i);
      VariedStep(model, variations, factorLevels, i);
      VariedKinds(env, model, variations[..i], factorLevels[..i], v.variedObjectId);
      ghost var contents := resourceSet.Contents();
      var desc;
      desc, outcome := VaryOne(resourceSet, v, currentValue);
      if outcome.Pass? {
        assert resourceSet.Contents()
            == contents[v.variedObjectId := StoredLoop(IterationSpecification(currentValue))];
        ghost var before := log;
        log := log + [Applied(desc)];
        LogGrows(log, before, base, done.events, [Applied(desc)], next.events);
      }
    }

    /** One pass of that loop: bind a fresh strategy to the varied element and vary it. */
    method VaryOne(resourceSet: ResourceSet, v: Variation, level: int)
      returns (desc: string, outcome: Outcome)
      requires resourceSet.Valid()
      modifies resourceSet.loops.Values
      ensures outcome == Resolve(old(resourceSet.Contents()), v.variedObjectId)
      ensures outcome.Fail? ==> resourceSet.Contents() == old(resourceSet.Contents())
      ensures outcome.Pass? ==> desc == Description(env, v, level)
      ensures outcome.Pass? ==>
                resourceSet.Contents()
                == old(resourceSet.Contents())[v.variedObjectId := StoredLoop(IterationSpecification(level))]
    {
      ghost var before := resourceSet.Contents();
      var variationStrategy;
      variationStrategy, outcome := InitialiseVariations(v, resourceSet);
      assert resourceSet.Contents() == before;
      if outcome.Fail? {
        return "", outcome;
      }
      desc := variationStrategy.Vary(level, env.render(v.variedObjectId, IterationSpecification(level)));
      ghost var id := v.variedObjectId;
      forall k | k in before
        ensures resourceSet.Contents()[k] == before[id := StoredLoop(IterationSpecification(level))][k]
      {
        if k in resourceSet.loops && k != id {
          assert resourceSet.loops[k] != resourceSet.loops[id];
        }
      }
    }

    /** The loop of variateModelAndSimulate that runs the analysis tool once per
        repetition, numbered from 1, stopping at the first failure. */
    method SimulateRepetitions(runLabel: string, folder: string, repetitions: int)
      returns (outcome: Outcome)
      modifies this`log
      ensures var r := Repetitions(env, runLabel, folder, 1, repetitions);
              log == old(log) + r.events && outcome == r.outcome
    {
      var i := 1;
      while i <= repetitions
        invariant 1 <= i && (i == 1 || i <= repetitions + 1)
        invariant AllRunsSucceed(env, runLabel, folder, 1, i)
        invariant log == old(log) + ToolRuns(runLabel, folder, 1, i)
        decreases repetitions - i
      {
        ToolRunsSnoc(runLabel, folder, 1, i);
        log := log + [ToolRun(runLabel, folder, i)];
        if !env.runSucceeds(runLabel, folder, i) {
          RepetitionsAfterSuccesses(env, runLabel, folder, i, repetitions);
          return Fail(SimulationFailed(runLabel, i));
        }
        i := i + 1;
      }
      RepetitionsAfterSuccesses(env, runLabel, folder, i, repetitions);
      outcome := Pass;
    }
  }
}
