/**
 * The Petri-net engine of the unified modelling tool: building a net from a specification,
 * validating it, and converting a state machine into a net.
 */
module PetriNetEngine {
  import opened Wrappers
  import opened ModelingTypes

  /** The model `create_model` builds; `nameHash` stands for the text of Python's `hash(name)`. */
  function CreateModel(spec: Specification, nameHash: string): (m: Model)
    ensures m.theory == PetriNetTheory && m.content.Net?
    ensures m.id == "petri_" + spec.name + "_" + nameHash
    ensures m.content.net.places == NetOf(spec.parameters).places
    ensures m.content.net.transitions == NetOf(spec.parameters).transitions
    ensures m.content.net.arcs == NetOf(spec.parameters).arcs
    ensures m.content.net.initialMarking == NetOf(spec.parameters).initialMarking
    ensures m.content.net.constraints == spec.constraints && m.content.net.sourceModel == None
    ensures m.specification == spec
    ensures m.validationStatus == "pending" && m.optimizationStatus == "pending"
  {
    var p := NetOf(spec.parameters);
    NewModel("petri_" + spec.name + "_" + nameHash, PetriNetTheory, spec,
      Net(PetriNet(p.places, p.transitions, p.arcs, p.initialMarking, spec.constraints, None)))
  }

  /** The ids an arc may name: those of the places and of the transitions. */
  function NodeIds(n: PetriNet): set<string> {
    (set p | p in n.places :: p.id) + (set t | t in n.transitions :: t.id)
  }

  /** The warnings one arc earns: its source, then its target, when not a known node. */
  function ArcFindings(a: Arc, known: set<string>): seq<Finding> {
    (if a.source !in known then [UndefinedArcSource(a.source)] else [])
    + (if a.target !in known then [UndefinedArcTarget(a.target)] else [])
  }

  /** The arc warnings of the validator, arc by arc in arc order. */
  function ArcWarnings(arcs: seq<Arc>, known: set<string>): seq<Finding>
  {
    if arcs == [] then [] else ArcWarnings(arcs[..|arcs| - 1], known) + ArcFindings(arcs[|arcs| - 1], known)
  }

  /** Arc problems never make a net invalid; they can only produce these two kinds of warning. */
  lemma {:induction false} ArcWarningsNameUnknownNodes(arcs: seq<Arc>, known: set<string>)
    ensures forall w :: w in ArcWarnings(arcs, known) ==>
      (w.UndefinedArcSource? || w.UndefinedArcTarget?) && w.node !in known
  {
    if arcs != [] {
      ArcWarningsNameUnknownNodes(arcs[..|arcs| - 1], known);
    }
  }

  /** There are no arc warnings exactly when every arc's two ends are known nodes. */
  lemma {:induction false} ArcWarningsEmptyIff(arcs: seq<Arc>, known: set<string>)
    ensures ArcWarnings(arcs, known) == [] <==> forall a :: a in arcs ==> a.source in known && a.target in known
  {
    if arcs != [] {
      var init := arcs[..|arcs| - 1];
      ArcWarningsEmptyIff(init, known);
      assert arcs == init + [arcs[|arcs| - 1]];
    }
  }

  /** One warning per undefined source plus one per undefined target. */
  lemma {:induction false} ArcWarningsCount(arcs: seq<Arc>, known: set<string>)
    ensures |ArcWarnings(arcs, known)| == CountUndefinedEnds(arcs, known)
  {
    if arcs != [] {
      ArcWarningsCount(arcs[..|arcs| - 1], known);
    }
  }

  /** The number of arc ends (sources and targets) outside `known`, counted from the front. */
  function CountUndefinedEnds(arcs: seq<Arc>, known: set<string>): nat {
    if arcs == [] then 0
    else
      var a := arcs[|arcs| - 1];
      CountUndefinedEnds(arcs[..|arcs| - 1], known) + (if a.source !in known then 1 else 0)
      + (if a.target !in known then 1 else 0)
  }

  /**
   * What validate_model reports: a net is valid exactly when it has places and transitions; an
   * error for each of the two that is missing; arc problems only as warnings.
   */
  ghost predicate IsNetValidation(r: ValidationResult, m: Model) {
    var n := NetOf(m.content);
    && (r.valid <==> n.places != [] && n.transitions != [])
    && r.errors == (if n.places == [] then [MissingPlaces] else [])
                   + (if n.transitions == [] then [MissingNetTransitions] else [])
    && r.warnings == ArcWarnings(n.arcs, NodeIds(n))
  }

  /** validate_model; the returned model is the input with its validation status recorded. */
  method ValidateModel(m: Model) returns (r: ValidationResult, updated: Model)
    ensures IsNetValidation(r, m)
    ensures updated == m.(validationStatus := StatusOf(r.valid))
  {
    var n := NetOf(m.content);
    var valid := true;
    var errors: seq<Finding> := [];
    if n.places == [] {
      valid := false;
      errors := errors + [MissingPlaces];
    }
    if n.transitions == [] {
      valid := false;
      errors := errors + [MissingNetTransitions];
    }
    var places := set p | p in n.places :: p.id;
    var transitions := set t | t in n.transitions :: t.id;
    var warnings: seq<Finding> := [];
    var i := 0;
    while i < |n.arcs|
      invariant 0 <= i <= |n.arcs|
      invariant warnings == ArcWarnings(n.arcs[..i], NodeIds(n))
    {
      var arc := n.arcs[i];
      if arc.source !in places && arc.source !in transitions {
        warnings := warnings + [UndefinedArcSource(arc.source)];
      }
      if arc.target !in places && arc.target !in transitions {
        warnings := warnings + [UndefinedArcTarget(arc.target)];
      }
      assert n.arcs[..i + 1][..i] == n.arcs[..i];
      i := i + 1;
    }
    assert n.arcs[..|n.arcs|] == n.arcs;
    r := ValidationResult(valid, errors, warnings);
    updated := m.(validationStatus := StatusOf(valid));
  }

  function PlaceOfState(s: State): Place {
    Place("p_" + s.id, s.name, Some("state"))
  }

  function InArc(t: MachineTransition): Arc {
    Arc("arc_" + t.id + "_in", "p_" + t.fromState, "t_" + t.id, 1)
  }

  function OutArc(t: MachineTransition): Arc {
    Arc("arc_" + t.id + "_out", "t_" + t.id, "p_" + t.toState, 1)
  }

  /**
   * The net a state machine converts to: one place "p_<id>" per state, one transition "t_<id>"
   * per machine transition (guard defaulting to "true"), and for each machine transition an arc
   * from its source place into it and one from it to its target place, both of weight 1; one
   * token on "p_<initial>" when the machine names an initial state.
   */
  ghost predicate IsNetOfMachine(n: PetriNet, sm: StateMachine) {
    && |n.places| == |sm.states|
    && (forall i :: 0 <= i < |sm.states| ==> n.places[i] == PlaceOfState(sm.states[i]))
    && |n.transitions| == |sm.transitions|
    && (forall i :: 0 <= i < |sm.transitions| ==>
          sm.transitions[i].name.Some? &&
          n.transitions[i] == NetTransition("t_" + sm.transitions[i].id, sm.transitions[i].name.value,
                                            Some(sm.transitions[i].guard.GetOr("true"))))
    && |n.arcs| == 2 * |sm.transitions|
    && (forall i :: 0 <= i < |sm.transitions| ==>
          n.arcs[2 * i] == InArc(sm.transitions[i]) && n.arcs[2 * i + 1] == OutArc(sm.transitions[i]))
    && n.initialMarking == (if sm.initialState != "" then [("p_" + sm.initialState, 1)] else [])
    && n.constraints == []
  }

  /** What `_convert_from_state_machine` produces: the converted model, or KeyError('name'). */
  ghost predicate IsConversionOfMachine(r: Result<Model, Error>, source: Model) {
    var sm := MachineOf(source.content);
    && (r.Err? <==> exists t :: t in sm.transitions && t.name.None?)
    && (r.Err? ==> r.error == MissingKey("name"))
    && (r.Ok? ==>
          && r.value.id == "petri_converted_" + source.id
          && r.value.theory == PetriNetTheory
          && r.value.content.Net?
          && IsNetOfMachine(r.value.content.net, sm)
          && r.value.content.net.sourceModel == Some(source.id)
          && r.value.specification == Specification(
               PetriNetTheory, source.specification.name + "_converted",
               "从状态机转换的Petri网模型: " + source.specification.description,
               Net(r.value.content.net.(sourceModel := None)), [])
          && r.value.validationStatus == "pending" && r.value.optimizationStatus == "pending")
  }

  /** _convert_from_state_machine. */
  method ConvertFromStateMachine(source: Model) returns (r: Result<Model, Error>)
    ensures IsConversionOfMachine(r, source)
  {
    var sm := MachineOf(source.content);
    var places: seq<Place> := [];
    var i := 0;
    while i < |sm.states|
      invariant 0 <= i <= |sm.states| && |places| == i
      invariant forall j :: 0 <= j < i ==> places[j] == PlaceOfState(sm.states[j])
    {
      var state := sm.states[i];
      places := places + [Place("p_" + state.id, state.name, Some("state"))];
      i := i + 1;
    }
    var transitions: seq<NetTransition> := [];
    i := 0;
    while i < |sm.transitions|
      invariant 0 <= i <= |sm.transitions| && |transitions| == i
      invariant forall j :: 0 <= j < i ==>
        sm.transitions[j].name.Some? &&
        transitions[j] == NetTransition("t_" + sm.transitions[j].id, sm.transitions[j].name.value,
                                        Some(sm.transitions[j].guard.GetOr("true")))
    {
      var t := sm.transitions[i];
      if t.name.None? {
        return Err(MissingKey("name"));
      }
      transitions := transitions + [NetTransition("t_" + t.id, t.name.value, Some(t.guard.GetOr("true")))];
      i := i + 1;
    }
    var arcs: seq<Arc> := [];
    i := 0;
    while i < |sm.transitions|
      invariant 0 <= i <= |sm.transitions| && |arcs| == 2 * i
      invariant forall j :: 0 <= j < i ==>
        arcs[2 * j] == InArc(sm.transitions[j]) && arcs[2 * j + 1] == OutArc(sm.transitions[j])
    {
      var t := sm.transitions[i];
      arcs := arcs + [Arc("arc_" + t.id + "_in", "p_" + t.fromState, "t_" + t.id, 1)];
      arcs := arcs + [Arc("arc_" + t.id + "_out", "t_" + t.id, "p_" + t.toState, 1)];
      i := i + 1;
    }
    var initialMarking: seq<(string, int)> := [];
    if sm.initialState != "" {
      initialMarking := [("p_" + sm.initialState, 1)];
    }
    var parameters := PetriNet(places, transitions, arcs, initialMarking, [], None);
    var spec := Specification(PetriNetTheory, source.specification.name + "_converted",
      "从状态机转换的Petri网模型: " + source.specification.description, Net(parameters), []);
    r := Ok(NewModel("petri_converted_" + source.id, PetriNetTheory, spec,
      Net(parameters.(sourceModel := Some(source.id)))));
  }

  /** What convert_from produces: only state machines convert; the workflow converter it calls does not exist. */
  ghost predicate IsNetConversion(r: Result<Model, Error>, source: Model) {
    && (source.theory == StateMachineTheory ==> IsConversionOfMachine(r, source))
    && (source.theory == Workflow ==> r == Err(MissingConverter("_convert_from_workflow")))
    && (source.theory != StateMachineTheory && source.theory != Workflow ==>
          r == Err(UnsupportedConversion(source.theory)))
  }

  /** convert_from. */
  method ConvertFrom(source: Model) returns (r: Result<Model, Error>)
    ensures IsNetConversion(r, source)
  {
    if source.theory == StateMachineTheory {
      r := ConvertFromStateMachine(source);
    } else if source.theory == Workflow {
      r := Err(MissingConverter("_convert_from_workflow"));
    } else {
      r := Err(UnsupportedConversion(source.theory));
    }
  }

  /** A declared state's place is a node of the converted net. */
  lemma PlaceOfDeclaredState(n: PetriNet, sm: StateMachine, x: string)
    requires IsNetOfMachine(n, sm) && x in StateIds(sm)
    ensures "p_" + x in NodeIds(n)
  {
    var s :| s in sm.states && s.id == x;
    var j :| 0 <= j < |sm.states| && sm.states[j] == s;
    assert n.places[j] in n.places;
  }

  /** Both ends of the k-th arc of a converted net are nodes of the net. */
  lemma ConvertedArcEndsKnown(n: PetriNet, sm: StateMachine, k: nat)
    requires IsNetOfMachine(n, sm) && k < |n.arcs|
    requires forall t :: t in sm.transitions ==> t.fromState in StateIds(sm) && t.toState in StateIds(sm)
    ensures n.arcs[k].source in NodeIds(n) && n.arcs[k].target in NodeIds(n)
  {
    var i := k / 2;
    var t := sm.transitions[i];
    assert t in sm.transitions;
    assert n.transitions[i] in n.transitions;
    assert "t_" + t.id in NodeIds(n);
    PlaceOfDeclaredState(n, sm, t.fromState);
    PlaceOfDeclaredState(n, sm, t.toState);
    if k % 2 == 0 {
      assert k == 2 * i;
    } else {
      assert k == 2 * i + 1;
    }
  }

  /**
   * A converted net validates without arc warnings whenever every transition of the machine joins
   * two declared states, and it is valid exactly when the machine has states and transitions.
   */
  lemma ConvertedNetValidation(n: PetriNet, sm: StateMachine)
    requires IsNetOfMachine(n, sm)
    requires forall t :: t in sm.transitions ==> t.fromState in StateIds(sm) && t.toState in StateIds(sm)
    ensures ArcWarnings(n.arcs, NodeIds(n)) == []
    ensures (n.places != [] && n.transitions != []) <==> (sm.states != [] && sm.transitions != [])
  {
    forall a | a in n.arcs
      ensures a.source in NodeIds(n) && a.target in NodeIds(n)
    {
      var k :| 0 <= k < |n.arcs| && n.arcs[k] == a;
      ConvertedArcEndsKnown(n, sm, k);
    }
    ArcWarningsEmptyIff(n.arcs, NodeIds(n));
  }
}
