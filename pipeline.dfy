/** What one experiment batch does, as a log of the effects it has on the outside world:
    the variation descriptions it collects, the model saves and the tool runs, together with
    the failure that stops it. The imperative controller is proved to produce exactly these
    logs. */
module Pipeline {
  import opened Results
  import opened Decimal
  import opened PcmModel
  import opened Experiments
  import opened Enumeration
  import opened Fragments
  import opened LoopIterationVariations

  /** The collaborators the controller cannot see, as deterministic oracles. */
  datatype Environment = Environment(
    loadSucceeds: string -> bool,               // copying and loading the model for a folder
    saveSucceeds: string -> bool,               // saveResources for a combination folder
    runSucceeds: (string, string, int) -> bool, // tool run: label, folder, repetition
    render: (string, string) -> string,         // text of a varied loop: id, new specification
    clock: nat -> int)                          // currentTimeMillis at the k-th experiment run

  datatype Event =
    | Applied(description: string)
    | Save(folder: string, contents: map<string, StoredElement>)
    | ToolRun(runLabel: string, folder: string, repetition: int)

  datatype ExperimentContext = ExperimentContext(
    experimentName: string,
    experimentFolder: string,
    toolConfiguration: ToolConfiguration,
    repetitions: int,
    experiment: Experiment)

  /** The factors and levels handed to the leaf of the enumeration. */
  datatype Combination = Combination(variations: seq<Variation>, levels: seq<int>)

  predicate WellFormed(c: Combination) {
    |c.variations| == |c.levels|
  }

  ghost predicate AllWellFormed(cs: seq<Combination>) {
    forall k :: 0 <= k < |cs| ==> WellFormed(cs[k])
  }

  /** Events and outcome of one step; `attempted` counts the sub-steps that ran. */
  datatype Run = Run(events: seq<Event>, outcome: Outcome, attempted: nat)

  /** `first`, then `second` unless `first` failed. */
  function Then(first: Run, second: Run): Run {
    if first.outcome.Fail? then first
    else Run(first.events + second.events, second.outcome, first.attempted + second.attempted)
  }

  // ----- names and folders of one experiment run -----

  function ExperimentName(exp: Experiment, tool: ToolConfiguration): string {
    "(" + exp.id + ", " + tool.name + ") " + exp.name
  }

  /** java.io.File drops the trailing separator the source appends. */
  function ExperimentFolder(experimentName: string, millis: int): string {
    "/" + experimentName + " (" + DecimalString(millis) + ")"
  }

  function MakeContext(exp: Experiment, tool: ToolConfiguration, repetitions: int, millis: int)
    : ExperimentContext
  {
    var name := ExperimentName(exp, tool);
    ExperimentContext(name, ExperimentFolder(name, millis), tool, repetitions, exp)
  }

  /** The folder URI of one combination below the experiment folder. */
  function SubFolder(parent: string, fragment: string): string {
    parent + "/" + fragment + "/"
  }

  function VariationFolder(ctx: ExperimentContext, c: Combination): string
    requires WellFormed(c)
  {
    SubFolder(ctx.experimentFolder, Fragment(c.variations, c.levels))
  }

  /** Below one parent, the sub-folder determines the fragment. */
  lemma SubFolderInjective(parent: string, f1: string, f2: string)
    requires SubFolder(parent, f1) == SubFolder(parent, f2)
    ensures f1 == f2
  {
    var s1, s2 := SubFolder(parent, f1), SubFolder(parent, f2);
    var n := |parent| + 1;
    assert s1[n..|s1| - 1] == f1;
    assert s2[n..|s2| - 1] == f2;
  }

  /** Within one experiment folder, combinations of the same factors with distinct level
      sequences are given distinct folders. */
  lemma VariationFolderInjective(ctx: ExperimentContext, c1: Combination, c2: Combination)
    requires WellFormed(c1) && WellFormed(c2) && c1.variations == c2.variations
    requires VariationFolder(ctx, c1) == VariationFolder(ctx, c2)
    ensures c1 == c2
  {
    SubFolderInjective(ctx.experimentFolder, Fragment(c1.variations, c1.levels),
                       Fragment(c2.variations, c2.levels));
    FragmentInjective(c1.variations, c1.levels, c2.levels);
  }

  function RunLabel(ctx: ExperimentContext): string {
    ctx.experimentName + " " + ctx.toolConfiguration.name
  }

  // ----- the leaf: apply, save, repeat -----

  /** Binding the strategy to the element a variation names. */
  function Resolve(model: map<string, StoredElement>, id: string): Outcome {
    if id !in model then Fail(ElementNotFound)
    else if model[id].StoredLoop? then Pass
    else Fail(NotALoop)
  }

  function Description(env: Environment, v: Variation, level: int): string {
    VaryDescription(level, env.render(v.variedObjectId, IterationSpecification(level)))
  }

  /** Applying the variations in order, collecting one description each. */
  function ApplyAll(env: Environment, model: map<string, StoredElement>,
                    vs: seq<Variation>, levels: seq<int>): Run
    requires |vs| == |levels|
  {
    if vs == [] then Run([], Pass, 0)
    else
      var n := |vs| - 1;
      var before := ApplyAll(env, model, vs[..n], levels[..n]);
      if before.outcome.Fail? then before
      else if Resolve(model, vs[n].variedObjectId).Fail? then
        Run(before.events, Resolve(model, vs[n].variedObjectId), before.attempted)
      else Run(before.events + [Applied(Description(env, vs[n], levels[n]))], Pass, n + 1)
  }

  /** Every variation names a loop of the model. */
  ghost predicate AllBind(model: map<string, StoredElement>, vs: seq<Variation>) {
    forall i :: 0 <= i < |vs| ==> Resolve(model, vs[i].variedObjectId) == Pass
  }

  /** `f` of each variation and its level, in combination order. */
  function PairMap<T>(f: (Variation, int) -> T, vs: seq<Variation>, levels: seq<int>): (r: seq<T>)
    requires |vs| == |levels|
    ensures |r| == |vs|
    ensures forall i :: 0 <= i < |r| ==> r[i] == f(vs[i], levels[i])
  {
    seq(|vs|, i requires 0 <= i < |vs| => f(vs[i], levels[i]))
  }

  /** One description per variation, in combination order. */
  function Descriptions(env: Environment, vs: seq<Variation>, levels: seq<int>): (r: seq<Event>)
    requires |vs| == |levels|
    ensures |r| == |vs|
    ensures forall i :: 0 <= i < |r| ==> r[i] == Applied(Description(env, vs[i], levels[i]))
  {
    PairMap((v: Variation, level: int) => Applied(Description(env, v, level)), vs, levels)
  }

  /** The stored model after the variations are applied in order. */
  function Varied(model: map<string, StoredElement>, vs: seq<Variation>, levels: seq<int>)
    : map<string, StoredElement>
    requires |vs| == |levels|
  {
    if vs == [] then model
    else
      var n := |vs| - 1;
      Varied(model, vs[..n], levels[..n])[vs[n].variedObjectId := StoredLoop(IterationSpecification(levels[n]))]
  }

  /** Tool runs `i` .. `count`, stopping at the first that fails. */
  function Repetitions(env: Environment, runLabel: string, folder: string, i: int, count: int): Run
    decreases count - i
  {
    if i > count then Run([], Pass, 0)
    else if !env.runSucceeds(runLabel, folder, i) then
      Run([ToolRun(runLabel, folder, i)], Fail(SimulationFailed(runLabel, i)), 1)
    else Then(Run([ToolRun(runLabel, folder, i)], Pass, 1), Repetitions(env, runLabel, folder, i + 1, count))
  }

  /** The tool runs numbered `lo` .. `hi - 1`, in that order. */
  function ToolRuns(runLabel: string, folder: string, lo: int, hi: int): (r: seq<Event>)
    ensures |r| == if lo <= hi then hi - lo else 0
    ensures forall k :: 0 <= k < |r| ==> r[k] == ToolRun(runLabel, folder, lo + k)
  {
    seq(if lo <= hi then hi - lo else 0, k => ToolRun(runLabel, folder, lo + k))
  }

  ghost predicate AllRunsSucceed(env: Environment, runLabel: string, folder: string, lo: int, hi: int) {
    forall j :: lo <= j < hi ==> env.runSucceeds(runLabel, folder, j)
  }

  lemma ToolRunsSnoc(runLabel: string, folder: string, lo: int, hi: int)
    requires lo <= hi
    ensures ToolRuns(runLabel, folder, lo, hi + 1) == ToolRuns(runLabel, folder, lo, hi) + [ToolRun(runLabel, folder, hi)]
  {
  }

  /** Saving the varied model to `folder`, then the tool runs unless saving failed. */
  function SaveAndRun(env: Environment, folder: string, contents: map<string, StoredElement>,
                      runLabel: string, count: int): Run
  {
    var saved := if env.saveSucceeds(folder) then Pass else Fail(SaveFailed(folder));
    Then(Run([Save(folder, contents)], saved, 0), Repetitions(env, runLabel, folder, 1, count))
  }

  /** Copying the initial model into `folder` and loading the copy, then applying the
      variations to it; a failed copy or load ends the combination before any variation. */
  function LoadAndApply(env: Environment, folder: string, model: map<string, StoredElement>,
                        vs: seq<Variation>, levels: seq<int>): Run
    requires |vs| == |levels|
  {
    if env.loadSucceeds(folder) then ApplyAll(env, model, vs, levels)
    else Run([], Fail(LoadFailed(folder)), 0)
  }

  /** variateModelAndSimulate for one combination. */
  function Leaf(env: Environment, ctx: ExperimentContext, c: Combination): Run
    requires WellFormed(c)
  {
    var model := ctx.experiment.initialModel;
    Then(LoadAndApply(env, VariationFolder(ctx, c), model, c.variations, c.levels),
         SaveAndRun(env, VariationFolder(ctx, c), Varied(model, c.variations, c.levels),
                    RunLabel(ctx), ctx.repetitions))
  }

  /** What the enumeration does with the buffers once no factor is left. */
  type LeafAction = Combination -> Run

  /** variateModelAndSimulate in the context of one experiment run, for buffers holding as
      many levels as factors (the only ones the enumeration builds). */
  function LeafOf(env: Environment, ctx: ExperimentContext): LeafAction {
    c => if WellFormed(c) then Leaf(env, ctx, c) else Run([], Pass, 0)
  }

  // ----- the enumeration: every combination, stopping at the first failure -----

  /** The combinations an enumeration call with buffers `prefix` and factors `list` hands to
      the leaf: the buffers, extended by each level combination of `list`. */
  function Extend(prefix: Combination, list: seq<Variation>, tails: seq<seq<int>>)
    : (r: seq<Combination>)
    ensures |r| == |tails|
    ensures forall k :: 0 <= k < |r| ==>
              r[k] == Combination(prefix.variations + list, prefix.levels + tails[k])
  {
    seq(|tails|, k requires 0 <= k < |tails| =>
      Combination(prefix.variations + list, prefix.levels + tails[k]))
  }

  function Visits(prefix: Combination, list: seq<Variation>): (r: seq<Combination>)
    ensures WellFormed(prefix) ==> AllWellFormed(r)
  {
    CrossProductLengths(list);
    Extend(prefix, list, CrossProduct(list))
  }

  /** The leaves for `cs` in order, stopping at the first that fails; `attempted` counts
      the leaves reached. */
  function RunCombinations(leaf: LeafAction, cs: seq<Combination>): (r: Run)
    ensures r.attempted <= |cs|
  {
    if cs == [] then Run([], Pass, 0)
    else
      var first := leaf(cs[0]);
      Then(Run(first.events, first.outcome, 1), RunCombinations(leaf, cs[1..]))
  }

  /** The buffers after the first factor's level `x` is pushed. */
  function Pushed(prefix: Combination, list: seq<Variation>, x: int): (r: Combination)
    requires list != []
    ensures WellFormed(prefix) ==> WellFormed(r)
  {
    Combination(prefix.variations + [list[0]], prefix.levels + [x])
  }

  /** The recursive runExperiments on the factors `list` with buffers `prefix`: the leaf
      when no factor is left, otherwise the first factor's admissible levels in turn. */
  function Enumerate(leaf: LeafAction, prefix: Combination,
                     list: seq<Variation>): Run
    decreases |list|, 1
  {
    if list == [] then
      var r := leaf(prefix);
      Run(r.events, r.outcome, 1)
    else EnumerateLevels(leaf, prefix, list, Admissible(list[0]))
  }

  /** The levels loop of runExperiments after it has tried the first factor's levels `xs`,
      each pushed onto the buffers while the remaining factors are enumerated. */
  function EnumerateLevels(leaf: LeafAction, prefix: Combination,
                           list: seq<Variation>, xs: seq<int>): Run
    requires list != []
    decreases |list|, 0, |xs|
  {
    if xs == [] then Run([], Pass, 0)
    else
      var n := |xs| - 1;
      Then(EnumerateLevels(leaf, prefix, list, xs[..n]),
           Enumerate(leaf, Pushed(prefix, list, xs[n]), list[1..]))
  }

  /** runExperiment for one experiment and tool: the enumeration from empty buffers. */
  function ExperimentRun(env: Environment, exp: Experiment, tool: ToolConfiguration,
                         repetitions: int, millis: int): Run
  {
    var ctx := MakeContext(exp, tool, repetitions, millis);
    Enumerate(LeafOf(env, ctx), Combination([], []), exp.variations)
  }

  // ----- the driver: experiments outside, tool configurations inside -----

  function ToolPairs(exp: Experiment): (r: seq<(Experiment, ToolConfiguration)>)
    ensures |r| == |exp.toolConfigurations|
    ensures forall t :: 0 <= t < |r| ==> r[t] == (exp, exp.toolConfigurations[t])
  {
    seq(|exp.toolConfigurations|, t requires 0 <= t < |exp.toolConfigurations| =>
      (exp, exp.toolConfigurations[t]))
  }

  /** The (experiment, tool configuration) pairs in the order runExperiments visits them:
      experiments in the outer loop, each one's tool configurations in the inner loop. */
  function Pairs(exps: seq<Experiment>): seq<(Experiment, ToolConfiguration)> {
    if exps == [] then [] else Pairs(exps[..|exps| - 1]) + ToolPairs(exps[|exps| - 1])
  }

  /** runExperiment for one pair, reading the clock for the k-th time. */
  function PairRun(env: Environment, pair: (Experiment, ToolConfiguration), repetitions: int, k: nat): Run {
    var r := ExperimentRun(env, pair.0, pair.1, repetitions, env.clock(k));
    Run(r.events, r.outcome, 1)
  }

  /** Runs performed one after the other until one fails. */
  function Sequence(runs: seq<Run>): Run {
    if runs == [] then Run([], Pass, 0)
    else Then(Sequence(runs[..|runs| - 1]), runs[|runs| - 1])
  }

  /** How many runs the runs attempted between them. */
  function Attempts(runs: seq<Run>): nat {
    if runs == [] then 0 else Attempts(runs[..|runs| - 1]) + runs[|runs| - 1].attempted
  }

  /** The runs of `items`, the i-th reading the clock for the (k + i)-th time. */
  function Runs<P>(run: (P, nat) -> Run, items: seq<P>, k: nat): (r: seq<Run>)
    ensures |r| == |items|
    ensures forall i :: 0 <= i < |items| ==> r[i] == run(items[i], k + i)
  {
    seq(|items|, i requires 0 <= i < |items| => run(items[i], k + i))
  }

  /** The runs of `items` one after the other until one fails. */
  function RunAll<P>(run: (P, nat) -> Run, items: seq<P>, k: nat): Run {
    Sequence(Runs(run, items, k))
  }

  /** runExperiment as a function of the pair and of how often the clock was read before. */
  function PairRunner(env: Environment, repetitions: int): ((Experiment, ToolConfiguration), nat) -> Run {
    (pair: (Experiment, ToolConfiguration), k: nat) => PairRun(env, pair, repetitions, k)
  }

  /** The experiment runs for `pairs` one after the other, the first reading the clock for
      the k-th time, until one fails: an exception ends runExperiments. */
  function RunPairs(env: Environment, pairs: seq<(Experiment, ToolConfiguration)>,
                    repetitions: int, k: nat): Run
  {
    RunAll(PairRunner(env, repetitions), pairs, k)
  }

  /** The pairs of the first i experiments come first among the pairs of all of them. */
  lemma {:induction false} PairsPrefix(exps: seq<Experiment>, i: nat)
    requires i <= |exps|
    ensures Pairs(exps[..i]) <= Pairs(exps)
    decreases |exps|
  {
    if i < |exps| {
      var n := |exps| - 1;
      assert exps[..n][..i] == exps[..i];
      PairsPrefix(exps[..n], i);
    } else {
      assert exps[..i] == exps;
    }
  }

  /** The pairs of one more experiment are its tool configurations, in their order. */
  lemma PairsSnoc(exps: seq<Experiment>, i: nat)
    requires i < |exps|
    ensures Pairs(exps[..i + 1]) == Pairs(exps[..i]) + ToolPairs(exps[i])
  {
    assert exps[..i + 1][..i] == exps[..i];
  }

  /** Experiments outer, tools inner: the j-th tool configuration of the i-th experiment is
      run right after the pairs of the experiments before it. */
  lemma PairsOrder(exps: seq<Experiment>, i: nat, j: nat)
    requires i < |exps| && j < |exps[i].toolConfigurations|
    ensures var offset := |Pairs(exps[..i])|;
            offset + j < |Pairs(exps)| && Pairs(exps)[offset + j] == (exps[i], exps[i].toolConfigurations[j])
  {
    PairsSnoc(exps, i);
    PairsPrefix(exps, i + 1);
  }

  lemma {:induction false} SequenceAppend(runs: seq<Run>, more: seq<Run>)
    ensures Sequence(runs + more) == Then(Sequence(runs), Sequence(more))
    decreases |more|
  {
    if more == [] {
      assert runs + more == runs;
    } else {
      var n := |more| - 1;
      assert (runs + more)[..|runs| + n] == runs + more[..n];
      SequenceAppend(runs, more[..n]);
      ThenAssociative(Sequence(runs), Sequence(more[..n]), more[n]);
    }
  }

  /** A run that fails ends the sequence: nothing after it runs. */
  lemma SequenceFailFast(runs: seq<Run>, longer: seq<Run>)
    requires runs <= longer && Sequence(runs).outcome.Fail?
    ensures Sequence(longer) == Sequence(runs)
  {
    assert longer == runs + longer[|runs|..];
    SequenceAppend(runs, longer[|runs|..]);
  }

  /** When the sequence passes, every run in it was attempted. */
  lemma {:induction false} SequencePass(runs: seq<Run>)
    requires Sequence(runs).outcome.Pass?
    ensures Sequence(runs).attempted == Attempts(runs)
    decreases |runs|
  {
    if runs != [] {
      SequencePass(runs[..|runs| - 1]);
    }
  }

  lemma RunsAppend<P>(run: (P, nat) -> Run, items: seq<P>, more: seq<P>, k: nat)
    ensures Runs(run, items + more, k) == Runs(run, items, k) + Runs(run, more, k + |items|)
  {
    var all := Runs(run, items + more, k);
    var split := Runs(run, items, k) + Runs(run, more, k + |items|);
    forall i | 0 <= i < |all|
      ensures all[i] == split[i]
    {
      if i >= |items| {
        assert (items + more)[i] == more[i - |items|];
      }
    }
  }

  /** The runs of two lists one after the other, the clock readings continuing. */
  lemma RunAllAppend<P>(run: (P, nat) -> Run, items: seq<P>, more: seq<P>, k: nat)
    ensures RunAll(run, items + more, k) == Then(RunAll(run, items, k), RunAll(run, more, k + |items|))
  {
    RunsAppend(run, items, more, k);
    SequenceAppend(Runs(run, items, k), Runs(run, more, k + |items|));
  }

  /** A failing run ends the batch: nothing after it runs. */
  lemma RunAllFailFast<P>(run: (P, nat) -> Run, items: seq<P>, longer: seq<P>, k: nat)
    requires items <= longer
    requires RunAll(run, items, k).outcome.Fail?
    ensures RunAll(run, longer, k) == RunAll(run, items, k)
  {
    assert longer == items + longer[|items|..];
    RunsAppend(run, items, longer[|items|..], k);
    SequenceFailFast(Runs(run, items, k), Runs(run, longer, k));
  }

  lemma {:induction false} AttemptsOfRuns<P>(run: (P, nat) -> Run, items: seq<P>, k: nat)
    requires forall x, n :: run(x, n).attempted == 1
    ensures Attempts(Runs(run, items, k)) == |items|
    decreases |items|
  {
    if items != [] {
      var n := |items| - 1;
      var runs := Runs(run, items, k);
      assert items[..n] + [items[n]] == items;
      RunsAppend(run, items[..n], [items[n]], k);
      assert runs[..n] == Runs(run, items[..n], k);
      AttemptsOfRuns(run, items[..n], k);
    }
  }

  /** When the batch passes, every pair ran once, each reading the clock once. */
  lemma RunPairsPass(env: Environment, pairs: seq<(Experiment, ToolConfiguration)>,
                     repetitions: int, k: nat)
    requires RunPairs(env, pairs, repetitions, k).outcome.Pass?
    ensures RunPairs(env, pairs, repetitions, k).attempted == |pairs|
  {
    var run := PairRunner(env, repetitions);
    SequencePass(Runs(run, pairs, k));
    AttemptsOfRuns(run, pairs, k);
  }

  /** After the first j items succeeded, running the next one appends its events and
      decides the outcome. */
  lemma RunAllStep<P>(run: (P, nat) -> Run, items: seq<P>, j: nat, item: P, k: nat)
    requires j < |items| && item == items[j]
    requires RunAll(run, items[..j], k).outcome == Pass
    ensures var done := RunAll(run, items[..j], k);
            var r := run(item, k + j);
            var next := RunAll(run, items[..j + 1], k);
            next.events == done.events + r.events && next.outcome == r.outcome
  {
    assert items[..j] + [items[j]] == items[..j + 1];
    RunsAppend(run, items[..j], [items[j]], k);
    var runs := Runs(run, items[..j + 1], k);
    assert runs[..j] == Runs(run, items[..j], k);
  }

  /** One more experiment of the outer loop: its tool configurations run after those of
      the experiments before it, with the clock readings following on. */
  lemma ExperimentStep(run: ((Experiment, ToolConfiguration), nat) -> Run, exps: seq<Experiment>,
                       i: nat, exp: Experiment, k: nat)
    requires i < |exps| && exp == exps[i]
    ensures RunAll(run, Pairs(exps[..i + 1]), k)
         == Then(RunAll(run, Pairs(exps[..i]), k), RunAll(run, ToolPairs(exp), k + |Pairs(exps[..i])|))
    ensures |Pairs(exps[..i + 1])| == |Pairs(exps[..i])| + |exp.toolConfigurations|
  {
    PairsSnoc(exps, i);
    RunAllAppend(run, Pairs(exps[..i]), ToolPairs(exp), k);
  }

  /** A failure within the first i experiments is the outcome of the whole batch. */
  lemma ExperimentFails(run: ((Experiment, ToolConfiguration), nat) -> Run, exps: seq<Experiment>,
                        i: nat, k: nat)
    requires i <= |exps|
    requires RunAll(run, Pairs(exps[..i]), k).outcome.Fail?
    ensures RunAll(run, Pairs(exps), k) == RunAll(run, Pairs(exps[..i]), k)
  {
    PairsPrefix(exps, i);
    RunAllFailFast(run, Pairs(exps[..i]), Pairs(exps), k);
  }

  // ----- lemmas the controller's proof uses -----

  lemma ThenAssociative(x: Run, y: Run, z: Run)
    ensures Then(Then(x, y), z) == Then(x, Then(y, z))
  {
    if x.outcome.Pass? && y.outcome.Pass? {
      assert x.events + y.events + z.events == x.events + (y.events + z.events);
    }
  }

  lemma {:induction false} RunCombinationsAppend(leaf: LeafAction, a: seq<Combination>, b: seq<Combination>)
    ensures RunCombinations(leaf, a + b) == Then(RunCombinations(leaf, a), RunCombinations(leaf, b))
  {
    if a == [] {
      assert a + b == b;
      var r := RunCombinations(leaf, b);
      assert [] + r.events == r.events;
    } else {
      assert (a + b)[1..] == a[1..] + b;
      RunCombinationsAppend(leaf, a[1..], b);
      var first := leaf(a[0]);
      ThenAssociative(Run(first.events, first.outcome, 1), RunCombinations(leaf, a[1..]),
                      RunCombinations(leaf, b));
    }
  }

  lemma {:induction false} RunCombinationsAttempted(leaf: LeafAction, cs: seq<Combination>)
    ensures RunCombinations(leaf, cs).outcome.Pass? ==> RunCombinations(leaf, cs).attempted == |cs|
    ensures RunCombinations(leaf, cs).outcome.Fail? ==> RunCombinations(leaf, cs).attempted >= 1
  {
    if cs != [] {
      RunCombinationsAttempted(leaf, cs[1..]);
    }
  }

  lemma ExtendAppend(prefix: Combination, list: seq<Variation>, a: seq<seq<int>>, b: seq<seq<int>>)
    ensures Extend(prefix, list, a + b) == Extend(prefix, list, a) + Extend(prefix, list, b)
  {
    var l := Extend(prefix, list, a + b);
    var r := Extend(prefix, list, a) + Extend(prefix, list, b);
    forall k | 0 <= k < |l| ensures l[k] == r[k] {
      if k >= |a| { assert (a + b)[k] == b[k - |a|]; }
    }
  }

  /** Pushing one factor and its level onto the buffers: the combinations reached through
      that level are those of the remaining factors under the longer buffers. */
  lemma ExtendPrepend(prefix: Combination, list: seq<Variation>, x: int, tails: seq<seq<int>>)
    requires list != []
    ensures Extend(prefix, list, Prepend(x, tails))
         == Extend(Combination(prefix.variations + [list[0]], prefix.levels + [x]), list[1..], tails)
  {
    assert prefix.variations + list == prefix.variations + [list[0]] + list[1..];
    forall k | 0 <= k < |tails|
      ensures prefix.levels + ([x] + tails[k]) == prefix.levels + [x] + tails[k]
    {
    }
  }

  /** The enumeration with no factor left visits exactly the buffers, once. */
  lemma VisitsEmpty(leaf: LeafAction, prefix: Combination)
    ensures Visits(prefix, []) == [prefix]
    ensures var r := leaf(prefix);
            RunCombinations(leaf, [prefix]) == Run(r.events, r.outcome, 1)
  {
    assert prefix.variations + [] == prefix.variations && prefix.levels + [] == prefix.levels;
    assert CrossProduct([]) == [[]];
    var r := leaf(prefix);
    assert [prefix][1..] == [];
    assert r.events + [] == r.events;
  }

  /** The combinations visited through the first factor's levels `xs`. */
  function VisitsThrough(prefix: Combination, list: seq<Variation>, xs: seq<int>): (r: seq<Combination>)
    requires list != []
    ensures WellFormed(prefix) ==> AllWellFormed(r)
  {
    CrossProductLengths(list[1..]);
    BranchesLengths(xs, CrossProduct(list[1..]), |list| - 1);
    Extend(prefix, list, Branches(xs, CrossProduct(list[1..])))
  }

  /** Trying one more level `x` of the first factor visits the combinations of the remaining
      factors under the pushed buffers, after those of the earlier levels. */
  lemma VisitsThroughSnoc(leaf: LeafAction, prefix: Combination,
                          list: seq<Variation>, xs: seq<int>, x: int)
    requires list != []
    ensures VisitsThrough(prefix, list, xs + [x])
         == VisitsThrough(prefix, list, xs) + Visits(Pushed(prefix, list, x), list[1..])
    ensures RunCombinations(leaf, VisitsThrough(prefix, list, xs + [x]))
         == Then(RunCombinations(leaf, VisitsThrough(prefix, list, xs)),
                 RunCombinations(leaf, Visits(Pushed(prefix, list, x), list[1..])))
  {
    var tails := CrossProduct(list[1..]);
    BranchesAppend(xs, [x], tails);
    assert Branches([x], tails) == Prepend(x, tails) + Branches([], tails);
    assert Branches([x], tails) == Prepend(x, tails);
    ExtendAppend(prefix, list, Branches(xs, tails), Prepend(x, tails));
    ExtendPrepend(prefix, list, x, tails);
    RunCombinationsAppend(leaf, VisitsThrough(prefix, list, xs), Visits(Pushed(prefix, list, x), list[1..]));
  }

  /** A failure among the first levels ends the levels loop: later levels are not tried. */
  lemma {:induction false} EnumerateLevelsFailFast(leaf: LeafAction,
                                                   prefix: Combination, list: seq<Variation>,
                                                   xs: seq<int>, ys: seq<int>)
    requires list != []
    requires EnumerateLevels(leaf, prefix, list, xs).outcome.Fail?
    ensures EnumerateLevels(leaf, prefix, list, xs + ys) == EnumerateLevels(leaf, prefix, list, xs)
    decreases |ys|
  {
    if ys == [] {
      assert xs + ys == xs;
    } else {
      var n := |ys| - 1;
      assert (xs + ys)[..|xs| + n] == xs + ys[..n];
      EnumerateLevelsFailFast(leaf, prefix, list, xs, ys[..n]);
    }
  }

  /** One accepted level extends the levels tried so far by the enumeration below it. */
  lemma LevelsStep(leaf: LeafAction, prefix: Combination,
                   list: seq<Variation>, accepted: seq<int>, x: int)
    requires list != []
    ensures EnumerateLevels(leaf, prefix, list, accepted + [x])
         == Then(EnumerateLevels(leaf, prefix, list, accepted),
                 Enumerate(leaf, Pushed(prefix, list, x), list[1..]))
  {
    assert (accepted + [x])[..|accepted|] == accepted;
  }

  /** When the enumeration below level `x` fails after the earlier levels all succeeded,
      the whole enumeration of `list` ends with that failure: the later levels `rest` are
      not tried. */
  lemma LevelFails(leaf: LeafAction, prefix: Combination,
                   list: seq<Variation>, accepted: seq<int>, x: int, rest: seq<int>, inner: Run)
    requires list != []
    requires Admissible(list[0]) == accepted + ([x] + rest)
    requires EnumerateLevels(leaf, prefix, list, accepted).outcome == Pass
    requires inner == Enumerate(leaf, Pushed(prefix, list, x), list[1..]) && inner.outcome.Fail?
    ensures Enumerate(leaf, prefix, list) == Then(EnumerateLevels(leaf, prefix, list, accepted), inner)
  {
    assert accepted + ([x] + rest) == (accepted + [x]) + rest;
    LevelsStep(leaf, prefix, list, accepted, x);
    EnumerationFails(leaf, prefix, list, accepted + [x], rest);
  }

  /** A failure through the first levels `xs` is the outcome of the whole enumeration. */
  lemma EnumerationFails(leaf: LeafAction, prefix: Combination,
                         list: seq<Variation>, xs: seq<int>, rest: seq<int>)
    requires list != []
    requires Admissible(list[0]) == xs + rest
    requires EnumerateLevels(leaf, prefix, list, xs).outcome.Fail?
    ensures Enumerate(leaf, prefix, list) == EnumerateLevels(leaf, prefix, list, xs)
  {
    EnumerateLevelsFailFast(leaf, prefix, list, xs, rest);
  }

  /** The recursion performs exactly the runs of the combinations in nested-loop order:
      the leaf for each combination of `Visits`, in that order, up to the first failure. */
  lemma {:induction false} EnumerateRunsVisits(leaf: LeafAction,
                                               prefix: Combination, list: seq<Variation>)
    ensures Enumerate(leaf, prefix, list) == RunCombinations(leaf, Visits(prefix, list))
    decreases |list|, 1
  {
    if list == [] {
      VisitsEmpty(leaf, prefix);
    } else {
      EnumerateLevelsRunsVisits(leaf, prefix, list, Admissible(list[0]));
    }
  }

  lemma {:induction false} EnumerateLevelsRunsVisits(leaf: LeafAction,
                                                     prefix: Combination, list: seq<Variation>, xs: seq<int>)
    requires list != []
    ensures EnumerateLevels(leaf, prefix, list, xs) == RunCombinations(leaf, VisitsThrough(prefix, list, xs))
    decreases |list|, 0, |xs|
  {
    if xs == [] {
      assert VisitsThrough(prefix, list, xs) == [];
    } else {
      var n := |xs| - 1;
      var ys, x := xs[..n], xs[n];
      var pushed := Pushed(prefix, list, x);
      assert ys + [x] == xs;
      calc {
        EnumerateLevels(leaf, prefix, list, xs);
        Then(EnumerateLevels(leaf, prefix, list, ys), Enumerate(leaf, pushed, list[1..]));
        { EnumerateLevelsRunsVisits(leaf, prefix, list, ys);
          EnumerateRunsVisits(leaf, pushed, list[1..]); }
        Then(RunCombinations(leaf, VisitsThrough(prefix, list, ys)),
             RunCombinations(leaf, Visits(pushed, list[1..])));
        { VisitsThroughSnoc(leaf, prefix, list, ys, x); }
        RunCombinations(leaf, VisitsThrough(prefix, list, xs));
      }
    }
  }

  /** One more tool run: it either fails, ending the runs, or is followed by the rest. */
  lemma RepetitionsStep(env: Environment, runLabel: string, folder: string, done: seq<Event>,
                        a: nat, i: int, count: int)
    requires i <= count
    ensures var rest := Then(Run(done, Pass, a), Repetitions(env, runLabel, folder, i, count));
            var run := ToolRun(runLabel, folder, i);
            if env.runSucceeds(runLabel, folder, i)
            then rest == Then(Run(done + [run], Pass, a + 1), Repetitions(env, runLabel, folder, i + 1, count))
            else rest == Run(done + [run], Fail(SimulationFailed(runLabel, i)), a + 1)
  {
    if env.runSucceeds(runLabel, folder, i) {
      ThenAssociative(Run(done, Pass, a), Run([ToolRun(runLabel, folder, i)], Pass, 1),
                      Repetitions(env, runLabel, folder, i + 1, count));
    }
  }

  /** After the runs `1` .. `i - 1` all succeeded, the rest of the runs start at `i`. */
  lemma {:induction false} RepetitionsAfterSuccesses(env: Environment, runLabel: string, folder: string,
                                                     i: int, count: int)
    requires 1 <= i && (i == 1 || i <= count + 1)
    requires AllRunsSucceed(env, runLabel, folder, 1, i)
    ensures Repetitions(env, runLabel, folder, 1, count)
         == Then(Run(ToolRuns(runLabel, folder, 1, i), Pass, i - 1), Repetitions(env, runLabel, folder, i, count))
  {
    if i == 1 {
      var r := Repetitions(env, runLabel, folder, 1, count);
      assert ToolRuns(runLabel, folder, 1, 1) == [];
      assert [] + r.events == r.events;
    } else {
      RepetitionsAfterSuccesses(env, runLabel, folder, i - 1, count);
      RepetitionsStep(env, runLabel, folder, ToolRuns(runLabel, folder, 1, i - 1), i - 2, i - 1, count);
      ToolRunsSnoc(runLabel, folder, 1, i - 1);
    }
  }

  /** One more variation applied: its description is appended, or it fails to resolve and
      the application stops there. */
  lemma ApplyAllStep(env: Environment, model: map<string, StoredElement>,
                     vs: seq<Variation>, levels: seq<int>, i: nat)
    requires |vs| == |levels| && i < |vs|
    requires ApplyAll(env, model, vs[..i], levels[..i]).outcome == Pass
    ensures var before := ApplyAll(env, model, vs[..i], levels[..i]);
            var r := Resolve(model, vs[i].variedObjectId);
            ApplyAll(env, model, vs[..i + 1], levels[..i + 1])
              == if r.Fail? then Run(before.events, r, before.attempted)
                 else Run(before.events + [Applied(Description(env, vs[i], levels[i]))], Pass, i + 1)
  {
    var vs', levels' := vs[..i + 1], levels[..i + 1];
    assert vs'[..i] == vs[..i] && levels'[..i] == levels[..i];
    assert vs'[i] == vs[i] && levels'[i] == levels[i];
  }

  /** One more variation applied: the model is updated at the varied id. */
  lemma VariedStep(model: map<string, StoredElement>, vs: seq<Variation>, levels: seq<int>, i: nat)
    requires |vs| == |levels| && i < |vs|
    ensures Varied(model, vs[..i + 1], levels[..i + 1])
         == Varied(model, vs[..i], levels[..i])[vs[i].variedObjectId := StoredLoop(IterationSpecification(levels[i]))]
  {
    assert vs[..i + 1][..i] == vs[..i] && levels[..i + 1][..i] == levels[..i];
  }

  /** Applying variations replaces loops by loops and keeps every id: an element keeps its
      kind in the varied model. */
  lemma {:induction false} VariedKinds(env: Environment, model: map<string, StoredElement>,
                                       vs: seq<Variation>, levels: seq<int>, id: string)
    requires |vs| == |levels|
    requires ApplyAll(env, model, vs, levels).outcome == Pass
    ensures Resolve(Varied(model, vs, levels), id) == Resolve(model, id)
  {
    if vs != [] {
      var n := |vs| - 1;
      VariedKinds(env, model, vs[..n], levels[..n], id);
    }
  }

  /** Once a variation fails to resolve, the later ones are not applied. */
  lemma {:induction false} ApplyAllFailureStays(env: Environment, model: map<string, StoredElement>,
                                                vs: seq<Variation>, levels: seq<int>, j: nat)
    requires |vs| == |levels| && j <= |vs|
    requires ApplyAll(env, model, vs[..j], levels[..j]).outcome.Fail?
    ensures ApplyAll(env, model, vs, levels) == ApplyAll(env, model, vs[..j], levels[..j])
    decreases |vs| - j
  {
    if j < |vs| {
      var n := |vs| - 1;
      assert vs[..n][..j] == vs[..j] && levels[..n][..j] == levels[..j];
      ApplyAllFailureStays(env, model, vs[..n], levels[..n], j);
    } else {
      assert vs[..j] == vs && levels[..j] == levels;
    }
  }

  // ----- what one experiment run promises -----

  /** A completed enumeration reached the leaf once per combination: the product of the
      factors' admissible-level counts, and exactly once when there is no factor at all. */
  lemma LeafCount(leaf: LeafAction, prefix: Combination, list: seq<Variation>)
    requires Enumerate(leaf, prefix, list).outcome.Pass?
    ensures Enumerate(leaf, prefix, list).attempted == LevelCountProduct(list)
    ensures list == [] ==> Enumerate(leaf, prefix, list).attempted == 1
  {
    EnumerateRunsVisits(leaf, prefix, list);
    RunCombinationsAttempted(leaf, Visits(prefix, list));
    CrossProductSize(list);
  }

  /** The enumeration does not remove repeated values: a factor whose provider returns an
      admissible level twice hands the leaf the same combination twice, so that
      combination's folder is varied, saved and simulated twice. */
  lemma RepeatedLevelRevisits(prefix: Combination, v: Variation, i: nat, j: nat)
    requires i < j < |Admissible(v)| && Admissible(v)[i] == Admissible(v)[j]
    ensures var cs := Visits(prefix, [v]);
            j < |cs| && cs[i] == cs[j] == Combination(prefix.variations + [v], prefix.levels + [Admissible(v)[i]])
  {
    assert [v][1..] == [] && CrossProduct([]) == [[]];
    NestedLoopOrder([v], i, 0);
    NestedLoopOrder([v], j, 0);
  }

  /** Started from empty buffers, the leaf is handed exactly the combinations that pair the
      experiment's own variation list with one admissible level per variation. */
  lemma VisitedCombinations(list: seq<Variation>, c: Combination)
    ensures c in Visits(Combination([], []), list)
        <==> c.variations == list && Fits(list, c.levels)
  {
    var tails := CrossProduct(list);
    var vs := Visits(Combination([], []), list);
    CrossProductMembership(list, c.levels);
    assert [] + list == list;
    if c in vs {
      var k :| 0 <= k < |vs| && vs[k] == c;
      assert [] + tails[k] == tails[k];
    }
    if c.variations == list && Fits(list, c.levels) {
      var k :| 0 <= k < |tails| && tails[k] == c.levels;
      assert [] + tails[k] == tails[k];
      assert vs[k] == c;
    }
  }

  /** When every tool run succeeds, the runs numbered 1 .. count happen, in order, and no
      other (none at all for a count below 1). */
  lemma RepetitionsAllSucceed(env: Environment, runLabel: string, folder: string, count: int)
    requires AllRunsSucceed(env, runLabel, folder, 1, count + 1)
    ensures Repetitions(env, runLabel, folder, 1, count).outcome == Pass
    ensures Repetitions(env, runLabel, folder, 1, count).events == ToolRuns(runLabel, folder, 1, count + 1)
  {
    if count >= 0 {
      RepetitionsAfterSuccesses(env, runLabel, folder, count + 1, count);
      var done := ToolRuns(runLabel, folder, 1, count + 1);
      assert done + [] == done;
    }
  }

  /** One combination when nothing fails: the variations' descriptions in order, then the
      save of the varied model to the combination's folder, then exactly `repetitions` tool
      runs into that folder. */
  lemma LeafAllSucceed(env: Environment, ctx: ExperimentContext, c: Combination)
    requires WellFormed(c) && env.loadSucceeds(VariationFolder(ctx, c))
    requires AllBind(ctx.experiment.initialModel, c.variations)
    requires env.saveSucceeds(VariationFolder(ctx, c))
    requires AllRunsSucceed(env, RunLabel(ctx), VariationFolder(ctx, c), 1, ctx.repetitions + 1)
    ensures Leaf(env, ctx, c).outcome == Pass
    ensures Leaf(env, ctx, c).events
         == Descriptions(env, c.variations, c.levels)
            + [Save(VariationFolder(ctx, c), Varied(ctx.experiment.initialModel, c.variations, c.levels))]
            + ToolRuns(RunLabel(ctx), VariationFolder(ctx, c), 1, ctx.repetitions + 1)
  {
    var folder := VariationFolder(ctx, c);
    var applied := ApplyAll(env, ctx.experiment.initialModel, c.variations, c.levels);
    ApplyAllClosedForm(env, ctx.experiment.initialModel, c.variations, c.levels);
    assert applied == Run(Descriptions(env, c.variations, c.levels), Pass, |c.variations|);
    RepetitionsAllSucceed(env, RunLabel(ctx), folder, ctx.repetitions);
  }

  /** A failed save stops the combination: no tool run follows it. */
  lemma LeafSaveFails(env: Environment, ctx: ExperimentContext, c: Combination)
    requires WellFormed(c) && env.loadSucceeds(VariationFolder(ctx, c))
    requires ApplyAll(env, ctx.experiment.initialModel, c.variations, c.levels).outcome == Pass
    requires !env.saveSucceeds(VariationFolder(ctx, c))
    ensures Leaf(env, ctx, c).outcome == Fail(SaveFailed(VariationFolder(ctx, c)))
    ensures Leaf(env, ctx, c).events
         == ApplyAll(env, ctx.experiment.initialModel, c.variations, c.levels).events
            + [Save(VariationFolder(ctx, c), Varied(ctx.experiment.initialModel, c.variations, c.levels))]
  {
  }

  /** A failed copy or load of the model stops the combination before any variation is
      applied and before anything is saved. */
  lemma LeafLoadFails(env: Environment, ctx: ExperimentContext, c: Combination)
    requires WellFormed(c) && !env.loadSucceeds(VariationFolder(ctx, c))
    ensures Leaf(env, ctx, c) == Run([], Fail(LoadFailed(VariationFolder(ctx, c))), 0)
  {
  }

  /** A variation that cannot be bound stops the combination before anything is saved. */
  lemma LeafApplyFails(env: Environment, ctx: ExperimentContext, c: Combination)
    requires WellFormed(c) && env.loadSucceeds(VariationFolder(ctx, c))
    requires ApplyAll(env, ctx.experiment.initialModel, c.variations, c.levels).outcome.Fail?
    ensures Leaf(env, ctx, c) == ApplyAll(env, ctx.experiment.initialModel, c.variations, c.levels)
  {
  }

  /** The apply loop succeeds exactly when every variation names a loop of the model, and
      then logs one description per variation, in combination order. */
  lemma {:induction false} ApplyAllClosedForm(env: Environment, model: map<string, StoredElement>,
                                              vs: seq<Variation>, levels: seq<int>)
    requires |vs| == |levels|
    ensures ApplyAll(env, model, vs, levels).outcome == Pass <==> AllBind(model, vs)
    ensures AllBind(model, vs) ==>
              ApplyAll(env, model, vs, levels) == Run(Descriptions(env, vs, levels), Pass, |vs|)
  {
    if vs != [] {
      var n := |vs| - 1;
      ApplyAllClosedForm(env, model, vs[..n], levels[..n]);
      AllBindSnoc(model, vs);
      DescriptionsSnoc(env, vs, levels);
    }
  }

  lemma AllBindSnoc(model: map<string, StoredElement>, vs: seq<Variation>)
    requires vs != []
    ensures var n := |vs| - 1;
            AllBind(model, vs) <==> AllBind(model, vs[..n]) && Resolve(model, vs[n].variedObjectId) == Pass
  {
    var n := |vs| - 1;
    if AllBind(model, vs[..n]) && Resolve(model, vs[n].variedObjectId) == Pass {
      forall i | 0 <= i < |vs| ensures Resolve(model, vs[i].variedObjectId) == Pass {
        if i < n {
          assert vs[..n][i] == vs[i];
        }
      }
    }
    if AllBind(model, vs) {
      forall i | 0 <= i < n ensures Resolve(model, vs[..n][i].variedObjectId) == Pass {
        assert vs[..n][i] == vs[i];
      }
    }
  }

  lemma DescriptionsSnoc(env: Environment, vs: seq<Variation>, levels: seq<int>)
    requires |vs| == |levels| && vs != []
    ensures var n := |vs| - 1;
            Descriptions(env, vs, levels)
            == Descriptions(env, vs[..n], levels[..n]) + [Applied(Description(env, vs[n], levels[n]))]
  {
    PairMapSnoc((v: Variation, level: int) => Applied(Description(env, v, level)), vs, levels);
  }

  lemma PairMapSnoc<T>(f: (Variation, int) -> T, vs: seq<Variation>, levels: seq<int>)
    requires |vs| == |levels| && vs != []
    ensures var n := |vs| - 1;
            PairMap(f, vs, levels) == PairMap(f, vs[..n], levels[..n]) + [f(vs[n], levels[n])]
  {
    var n := |vs| - 1;
    var whole := PairMap(f, vs, levels);
    var split := PairMap(f, vs[..n], levels[..n]) + [f(vs[n], levels[n])];
    forall i | 0 <= i < |whole| ensures whole[i] == split[i] {
      if i < n {
        assert vs[..n][i] == vs[i] && levels[..n][i] == levels[i];
      }
    }
  }
}
