/** Experiment definitions and the levels one variation factor contributes. */
module Experiments {
  import opened PcmModel

  /** What a value provider returns when it has no more values. */
  const EXHAUSTED: int := -1

  /** A variation factor. `valueAt` is the value provider created for it: a deterministic
      function from enumeration position to a long value. */
  datatype Variation = Variation(
    name: string,
    variedObjectId: string,
    minValue: int,
    maxValue: int,
    maxVariations: int,
    valueAt: nat -> int)

  datatype ToolConfiguration = ToolConfiguration(name: string)

  datatype Experiment = Experiment(
    id: string,
    name: string,
    initialModel: map<string, StoredElement>,
    variations: seq<Variation>,
    toolConfigurations: seq<ToolConfiguration>,
    stopConditions: seq<string>)

  /** The levels the probing loop of the enumeration accepts from position `iteration` on,
      when the value probed last (0 before the first probe) was `last`. */
  function LevelsFrom(v: Variation, last: int, iteration: nat): seq<int>
    decreases v.maxVariations - iteration
  {
    if last <= v.maxValue && iteration < v.maxVariations then
      var level := v.valueAt(iteration);
      if level == EXHAUSTED then []
      else if v.minValue <= level <= v.maxValue then [level] + LevelsFrom(v, level, iteration + 1)
      else LevelsFrom(v, level, iteration + 1)
    else []
  }

  /** How many positions the probing loop asks the provider for from `iteration` on. */
  function ProbesFrom(v: Variation, last: int, iteration: nat): nat
    decreases v.maxVariations - iteration
  {
    if last <= v.maxValue && iteration < v.maxVariations then
      var level := v.valueAt(iteration);
      if level == EXHAUSTED then 1 else 1 + ProbesFrom(v, level, iteration + 1)
    else 0
  }

  /** The levels of `v` that enter combinations, in the order they are tried. */
  function Admissible(v: Variation): seq<int> {
    LevelsFrom(v, 0, 0)
  }

  /** The number of positions probed for `v`: 0, 1, ..., ProbeCount(v) - 1. */
  function ProbeCount(v: Variation): nat {
    ProbesFrom(v, 0, 0)
  }

  /** A probed value enters the combination: not the sentinel, and within range. */
  predicate Accepted(v: Variation, level: int) {
    level != EXHAUSTED && v.minValue <= level <= v.maxValue
  }

  /** The accepted values among positions `from` .. `to` - 1, in position order. */
  function AcceptedBetween(v: Variation, from: nat, to: nat): seq<int>
    decreases to - from
  {
    if from >= to then []
    else (if Accepted(v, v.valueAt(from)) then [v.valueAt(from)] else [])
         + AcceptedBetween(v, from + 1, to)
  }

  lemma {:induction false} LevelsAreAcceptedProbes(v: Variation, last: int, iteration: nat)
    ensures LevelsFrom(v, last, iteration)
         == AcceptedBetween(v, iteration, iteration + ProbesFrom(v, last, iteration))
    decreases v.maxVariations - iteration
  {
    if last <= v.maxValue && iteration < v.maxVariations {
      var level := v.valueAt(iteration);
      if level != EXHAUSTED {
        LevelsAreAcceptedProbes(v, level, iteration + 1);
      }
    }
  }

  /** The admissible levels are exactly the accepted values at the probed positions. */
  lemma AdmissibleAreAcceptedProbes(v: Variation)
    ensures Admissible(v) == AcceptedBetween(v, 0, ProbeCount(v))
  {
    LevelsAreAcceptedProbes(v, 0, 0);
  }

  lemma {:induction false} ProbingStopsFrom(v: Variation, last: int, iteration: nat)
    ensures var n := ProbesFrom(v, last, iteration);
            && (n > 0 ==> iteration + n <= v.maxVariations)
            && (n == 0 <==> last > v.maxValue || iteration >= v.maxVariations)
            && (forall j :: iteration <= j < iteration + n - 1 ==>
                  v.valueAt(j) != EXHAUSTED && v.valueAt(j) <= v.maxValue)
            && (0 < n && iteration + n < v.maxVariations ==>
                  v.valueAt(iteration + n - 1) == EXHAUSTED
                  || v.valueAt(iteration + n - 1) > v.maxValue)
    decreases v.maxVariations - iteration
  {
    if last <= v.maxValue && iteration < v.maxVariations {
      var level := v.valueAt(iteration);
      if level != EXHAUSTED {
        ProbingStopsFrom(v, level, iteration + 1);
      }
    }
  }

  /** Why probing a factor stops. Positions 0 .. n-1 are probed, n = ProbeCount(v):
      never more than maxVariations; none at all when maxValue < 0 (the first check sees
      the initial level 0); every probe but the last returned a value that lets probing go
      on; and unless the cap was reached, the last probe returned the sentinel or a value
      above maxValue. */
  lemma ProbingStops(v: Variation)
    ensures ProbeCount(v) > 0 ==> ProbeCount(v) <= v.maxVariations
    ensures ProbeCount(v) == 0 <==> v.maxValue < 0 || v.maxVariations <= 0
    ensures forall j :: 0 <= j < ProbeCount(v) - 1 ==>
              v.valueAt(j) != EXHAUSTED && v.valueAt(j) <= v.maxValue
    ensures 0 < ProbeCount(v) < v.maxVariations ==>
              v.valueAt(ProbeCount(v) - 1) == EXHAUSTED
              || v.valueAt(ProbeCount(v) - 1) > v.maxValue
  {
    ProbingStopsFrom(v, 0, 0);
  }

  lemma {:induction false} LevelsFromInRange(v: Variation, last: int, iteration: nat)
    ensures forall k :: 0 <= k < |LevelsFrom(v, last, iteration)| ==>
              Accepted(v, LevelsFrom(v, last, iteration)[k])
    decreases v.maxVariations - iteration
  {
    if last <= v.maxValue && iteration < v.maxVariations {
      var level := v.valueAt(iteration);
      if level != EXHAUSTED {
        LevelsFromInRange(v, level, iteration + 1);
      }
    }
  }

  /** Every admissible level lies in [minValue, maxValue] and is not the sentinel. */
  lemma AdmissibleInRange(v: Variation)
    ensures forall k :: 0 <= k < |Admissible(v)| ==> Accepted(v, Admissible(v)[k])
  {
    LevelsFromInRange(v, 0, 0);
  }

  /** There are never more admissible levels than probes, hence than maxVariations. */
  lemma {:induction false} LevelsFromBounded(v: Variation, last: int, iteration: nat)
    ensures |LevelsFrom(v, last, iteration)| <= ProbesFrom(v, last, iteration)
    decreases v.maxVariations - iteration
  {
    if last <= v.maxValue && iteration < v.maxVariations {
      var level := v.valueAt(iteration);
      if level != EXHAUSTED {
        LevelsFromBounded(v, level, iteration + 1);
      }
    }
  }

  lemma AdmissibleBounded(v: Variation)
    ensures |Admissible(v)| <= ProbeCount(v)
    ensures |Admissible(v)| <= if v.maxVariations < 0 then 0 else v.maxVariations
  {
    LevelsFromBounded(v, 0, 0);
    ProbingStops(v);
  }
}
