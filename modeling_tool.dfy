/**
 * The unified modelling tool: a store of models keyed by id, fed by the two theory engines and
 * the optimiser.
 */
module ModelingTool {
  import opened Wrappers
  import opened ModelingTypes
  import PetriNetEngine
  import StateMachineEngine
  import AIEnhancement

  /** The theories with an engine. */
  predicate Supported(t: TheoryType) {
    t == PetriNetTheory || t == StateMachineTheory
  }

  /** The model the engine for `theory` creates, before optimisation. */
  function EngineModel(theory: TheoryType, spec: Specification, nameHash: string): Model
    requires Supported(theory)
  {
    if theory == PetriNetTheory then PetriNetEngine.CreateModel(spec, nameHash)
    else StateMachineEngine.CreateModel(spec, nameHash)
  }

  /** The tool's store of models; `order` is the insertion order of the dictionary's keys. */
  class UnifiedModelingTool {
    var models: map<string, Model>
    var order: seq<string>

    ghost predicate Valid()
      reads this
    {
      && (forall i, j :: 0 <= i < j < |order| ==> order[i] != order[j])
      && (forall id :: id in models <==> id in order)
      && (forall id :: id in models ==> Supported(models[id].theory))
    }

    constructor()
      ensures Valid() && models == map[] && order == []
    {
      models := map[];
      order := [];
    }

    /** `self.models[m.id] = m`: a new id goes to the end, a known one keeps its place. */
    method Store(m: Model)
      requires Valid() && Supported(m.theory)
      modifies this
      ensures Valid()
      ensures models == old(models)[m.id := m]
      ensures order == if m.id in old(models) then old(order) else old(order) + [m.id]
    {
      if m.id !in models {
        order := order + [m.id];
      }
      models := models[m.id := m];
    }

    /**
     * create_model: an unsupported theory raises; otherwise the engine's model is optimised and
     * stored under the optimised id.
     */
    method CreateModel(theory: TheoryType, spec: Specification, nameHash: string) returns (r: Result<Model, Error>)
      requires Valid()
      modifies this
      ensures Valid()
      ensures !Supported(theory) ==>
        r == Err(UnsupportedTheory(theory)) && models == old(models) && order == old(order)
      ensures Supported(theory) ==>
        && r.Ok?
        && AIEnhancement.IsOptimizationOf(r.value, EngineModel(theory, spec, nameHash))
        && models == old(models)[r.value.id := r.value]
        && order == if r.value.id in old(models) then old(order) else old(order) + [r.value.id]
    {
      if !Supported(theory) {
        return Err(UnsupportedTheory(theory));
      }
      var model := EngineModel(theory, spec, nameHash);
      var optimized := AIEnhancement.OptimizeModel(model);
      Store(optimized);
      r := Ok(optimized);
    }

    /**
     * convert_model: an unsupported target raises; otherwise the target engine converts the model
     * (raising as that engine does), and the optimised result is stored under its id.
     */
    method ConvertModel(source: Model, target: TheoryType) returns (r: Result<Model, Error>)
      requires Valid()
      modifies this
      ensures Valid()
      ensures !Supported(target) ==> r == Err(UnsupportedTheory(target))
      ensures target == PetriNetTheory ==>
        exists c :: PetriNetEngine.IsNetConversion(c, source) && Continues(c, r)
      ensures target == StateMachineTheory ==>
        exists c :: StateMachineEngine.IsMachineConversion(c, source) && Continues(c, r)
      ensures r.Err? ==> models == old(models) && order == old(order)
      ensures r.Ok? ==> models == old(models)[r.value.id := r.value]
      ensures r.Ok? ==> order == if r.value.id in old(models) then old(order) else old(order) + [r.value.id]
    {
      if !Supported(target) {
        return Err(UnsupportedTheory(target));
      }
      var converted: Result<Model, Error>;
      if target == PetriNetTheory {
        converted := PetriNetEngine.ConvertFrom(source);
      } else {
        converted := StateMachineEngine.ConvertFrom(source);
      }
      if converted.Err? {
        return converted;
      }
      assert Supported(converted.value.theory);
      var optimized := AIEnhancement.OptimizeModel(converted.value);
      Store(optimized);
      r := Ok(optimized);
    }

    /** A conversion outcome `c` followed by optimisation gives `r`. */
    static ghost predicate Continues(c: Result<Model, Error>, r: Result<Model, Error>) {
      && (c.Err? ==> r == c)
      && (c.Ok? ==> r.Ok? && AIEnhancement.IsOptimizationOf(r.value, c.value))
    }

    /**
     * validate_model: an unknown id raises; otherwise the engine of the model's theory validates
     * it and the stored model records the status.
     */
    method ValidateModel(id: string) returns (r: Result<ValidationResult, Error>)
      requires Valid()
      modifies this
      ensures Valid() && order == old(order)
      ensures id !in old(models) ==> r == Err(UnknownModel(id)) && models == old(models)
      ensures id in old(models) ==>
        && r.Ok?
        && (old(models)[id].theory == PetriNetTheory ==> PetriNetEngine.IsNetValidation(r.value, old(models)[id]))
        && (old(models)[id].theory == StateMachineTheory ==> StateMachineEngine.IsMachineValidation(r.value, old(models)[id]))
        && models == old(models)[id := old(models)[id].(validationStatus := StatusOf(r.value.valid))]
    {
      if id !in models {
        return Err(UnknownModel(id));
      }
      var model := models[id];
      var result, updated;
      if model.theory == PetriNetTheory {
        result, updated := PetriNetEngine.ValidateModel(model);
      } else {
        result, updated := StateMachineEngine.ValidateModel(model);
      }
      models := models[id := updated];
      r := Ok(result);
    }

    /** get_model: the stored model, or None for an unknown id. */
    function GetModel(id: string): (r: Option<Model>)
      reads this
      ensures r.Some? <==> id in models
      ensures r.Some? ==> r.value == models[id]
    {
      if id in models then Some(models[id]) else None
    }

    /** list_models: every stored model once, in insertion order of their ids. */
    function ListModels(): (r: seq<Model>)
      reads this
      requires Valid()
      ensures |r| == |order| == |models|
      ensures forall i :: 0 <= i < |order| ==> r[i] == models[order[i]]
      ensures forall id :: id in models ==> models[id] in r
    {
      DistinctKeysCount(order, models.Keys);
      var o, ms := order, models;
      assert forall id :: id in ms ==> id in o;
      seq(|o|, i requires 0 <= i < |o| => assert o[i] in o; ms[o[i]])
    }

    /** A sequence without repetitions listing exactly the keys has as many elements as there are keys. */
    static lemma DistinctKeysCount(order: seq<string>, keys: set<string>)
      requires forall i, j :: 0 <= i < j < |order| ==> order[i] != order[j]
      requires forall id :: id in keys <==> id in order
      ensures |order| == |keys|
      decreases |order|
    {
      if order != [] {
        var last := order[|order| - 1];
        var init := order[..|order| - 1];
        assert forall id :: id in keys - {last} <==> id in init by {
          forall id | id in init ensures id != last {
            var k :| 0 <= k < |init| && init[k] == id;
          }
          assert order == init + [last];
        }
        DistinctKeysCount(init, keys - {last});
      } else {
        assert keys == {};
      }
    }
  }
}
