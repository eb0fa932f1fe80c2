/** The variation strategy that sets the iteration count of a usage-model Loop. */
module LoopIterationVariations {
  import opened Results
  import opened Decimal
  import opened JavaInt
  import opened PcmModel

  const DESCRIPTION_PREFIX: string := "Loop Iteration Count = "

  /** The iteration specification `vary(value)` stores: the decimal form of the value after
      the long-to-int conversion, with values above INT_MAX clamped to INT_MAX as the
      warning says. */
  function IterationSpecification(value: int): string {
    DecimalString(ClampedIntValue(value))
  }

  /** The specification the conversion as written stores: the clamp is overwritten, so
      every value is truncated to its low 32 bits. */
  function AsWrittenIterationSpecification(value: int): string {
    DecimalString(LongIntValue(value))
  }

  /** Just above INT_MAX, the conversion as written stores a negative iteration count
      (INT_MIN), where the clamped one stores INT_MAX. */
  lemma AsWrittenWrapsAround()
    ensures ParseDecimal(AsWrittenIterationSpecification(INT_MAX + 1)) == Some(INT_MIN)
    ensures ParseDecimal(IterationSpecification(INT_MAX + 1)) == Some(INT_MAX)
  {
    ClampOverwritten();
    DecimalRoundTrip(INT_MIN);
    DecimalRoundTrip(INT_MAX);
  }

  /** The description `vary(value)` returns; `rendered` is the text of the varied loop. */
  function VaryDescription(value: int, rendered: string): string {
    DESCRIPTION_PREFIX + DecimalString(value) + ": " + rendered
  }

  /** A level within int range is stored as itself: the specification reads back as the
      level. Above that range it reads back as INT_MAX, below it as the wrapped int. */
  lemma IterationSpecificationReadsBack(value: int)
    ensures ParseDecimal(IterationSpecification(value)) == Some(ClampedIntValue(value))
    ensures InIntRange(value) <==> ParseDecimal(IterationSpecification(value)) == Some(value)
    ensures value > INT_MAX ==> ParseDecimal(IterationSpecification(value)) == Some(INT_MAX)
  {
    DecimalRoundTrip(ClampedIntValue(value));
  }

  /** The description starts with the label and carries the original long value, not the
      converted int, followed by ": " and the rendered loop. */
  lemma VaryDescriptionCarriesLongValue(value: int, rendered: string)
    ensures var d := VaryDescription(value, rendered);
            var n := |DESCRIPTION_PREFIX|;
            var m := |DecimalString(value)|;
            && n + m + 2 + |rendered| == |d|
            && d[..n] == DESCRIPTION_PREFIX
            && ParseDecimal(d[n..n + m]) == Some(value)
            && d[n + m..n + m + 2] == ": "
            && d[n + m + 2..] == rendered
  {
    var d := VaryDescription(value, rendered);
    var n := |DESCRIPTION_PREFIX|;
    var m := |DecimalString(value)|;
    assert d[n..n + m] == DecimalString(value);
    DecimalRoundTrip(value);
  }

  class LoopIterationVariation {
    var loop: Loop?

    constructor ()
      ensures loop == null
    {
      loop := null;
    }

    /** Binds the strategy to the element to vary, which must be a Loop. */
    method SetVariedObject(o: object?) returns (outcome: Outcome)
      modifies this
      ensures outcome.Pass? <==> o is Loop
      ensures outcome.Pass? ==> loop == o
      ensures outcome.Fail? ==> loop == old(loop)
      ensures o == null ==> outcome == Fail(ElementNotFound)
      ensures o != null && !(o is Loop) ==> outcome == Fail(NotALoop)
    {
      if o == null {
        // Loop.class.isInstance(null) is false and o.getClass() then throws
        return Fail(ElementNotFound);
      }
      if !(o is Loop) {
        return Fail(NotALoop);
      }
      loop := o as Loop;
      outcome := Pass;
    }

    /** Replaces the loop's iteration variable with a new one whose specification is the
        converted value (clamped to INT_MAX above that bound), and describes the change.
        `rendered` is the text the model helper gives for the varied loop. */
    method Vary(value: int, rendered: string) returns (description: string)
      requires loop != null
      modifies loop
      ensures loop.loopIteration == RandomVariable(IterationSpecification(value))
      ensures description == VaryDescription(value, rendered)
    {
      var intValue: int;
      if value > INT_MAX {
        intValue := INT_MAX;
      } else {
        intValue := LongIntValue(value);
      }
      loop.loopIteration := RandomVariable(DecimalString(intValue));
      description := DESCRIPTION_PREFIX + DecimalString(value) + ": " + rendered;
    }
  }
}
