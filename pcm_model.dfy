/** The slice of the Palladio component model the loop-iteration variation touches: a
    usage-model Loop whose iteration count is a PCMRandomVariable, other elements that are
    not loops, and a loaded resource set that finds elements by id. */
module PcmModel {

  /** An element as it is stored in the model files. */
  datatype StoredElement =
    | StoredLoop(iterationSpecification: string)
    | StoredOther(typeName: string)

  /** A PCMRandomVariable. Nothing changes one after it is created, so it is a value. */
  datatype RandomVariable = RandomVariable(specification: string)

  class Loop {
    var loopIteration: RandomVariable

    constructor (specification: string)
      ensures loopIteration == RandomVariable(specification)
    {
      loopIteration := RandomVariable(specification);
    }
  }

  /** Any model element that is not a Loop. */
  class OtherElement {
    const typeName: string

    constructor (typeName: string)
      ensures this.typeName == typeName
    {
      this.typeName := typeName;
    }
  }

  /** A model loaded from a combination's copy of the model files: its loops and its other
      elements, by id. */
  class ResourceSet {
    const loops: map<string, Loop>
    const others: map<string, OtherElement>

    ghost predicate Valid()
    {
      && loops.Keys !! others.Keys
      && forall a, b :: a in loops && b in loops && a != b ==> loops[a] != loops[b]
    }

    /** What saving this resource set writes back. */
    function Contents(): (m: map<string, StoredElement>)
      reads loops.Values
      ensures m.Keys == loops.Keys + others.Keys
    {
      map k | k in loops.Keys + others.Keys ::
        if k in loops then StoredLoop(loops[k].loopIteration.specification)
        else StoredOther(others[k].typeName)
    }

    /** Loads a pristine copy of `model`: every element is a new object. */
    constructor Load(model: map<string, StoredElement>)
      ensures Valid()
      ensures Contents() == model
      ensures forall k :: k in loops ==> fresh(loops[k])
    {
      var ls: map<string, Loop> := map[];
      var os: map<string, OtherElement> := map[];
      var todo := model.Keys;
      while todo != {}
        invariant todo <= model.Keys
        invariant ls.Keys + os.Keys == model.Keys - todo
        invariant ls.Keys !! os.Keys
        invariant forall a, b :: a in ls && b in ls && a != b ==> ls[a] != ls[b]
        invariant forall k :: k in ls ==> fresh(ls[k])
        invariant forall k :: k in ls ==> model[k] == StoredLoop(ls[k].loopIteration.specification)
        invariant forall k :: k in os ==> model[k] == StoredOther(os[k].typeName)
        decreases todo
      {
        var k :| k in todo;
        match model[k] {
          case StoredLoop(spec) =>
            var l := new Loop(spec);
            ls := ls[k := l];
          case StoredOther(t) =>
            var o := new OtherElement(t);
            os := os[k := o];
        }
        todo := todo - {k};
      }
      loops := ls;
      others := os;
    }

    /** PCMModelHelper.findModelElementById: null when nothing has that id. */
    function FindById(id: string): (o: object?)
      ensures id in loops ==> o == loops[id]
      ensures id !in loops && id in others ==> o == others[id]
      ensures o == null <==> id !in loops && id !in others
    {
      if id in loops then loops[id] else if id in others then others[id] else null
    }
  }
}
