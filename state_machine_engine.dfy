/**
 * The state-machine engine of the unified modelling tool: building a machine from a
 * specification, validating it, and converting a Petri net into a machine.
 */
module StateMachineEngine {
  import opened Wrappers
  import opened ModelingTypes
  import PetriNetEngine

  /** The model `create_model` builds; `nameHash` stands for the text of Python's `hash(name)`. */
  function CreateModel(spec: Specification, nameHash: string): (m: Model)
    ensures m.theory == StateMachineTheory && m.content.Machine?
    ensures m.id == "sm_" + spec.name + "_" + nameHash
    ensures m.content.machine.states == MachineOf(spec.parameters).states
    ensures m.content.machine.transitions == MachineOf(spec.parameters).transitions
    ensures m.content.machine.initialState == MachineOf(spec.parameters).initialState
    ensures m.content.machine.finalStates == MachineOf(spec.parameters).finalStates
    ensures m.content.machine.constraints == spec.constraints && m.content.machine.sourceModel == None
    ensures m.specification == spec
    ensures m.validationStatus == "pending" && m.optimizationStatus == "pending"
  {
    var p := MachineOf(spec.parameters);
    NewModel("sm_" + spec.name + "_" + nameHash, StateMachineTheory, spec,
      Machine(StateMachine(p.states, p.transitions, p.initialState, p.finalStates, spec.constraints, None)))
  }

  /** The warnings one transition earns: its source, then its target, when not a declared state. */
  function TransitionFindings(t: MachineTransition, known: set<string>): seq<Finding> {
    (if t.fromState !in known then [UndefinedFromState(t.fromState)] else [])
    + (if t.toState !in known then [UndefinedToState(t.toState)] else [])
  }

  /** The endpoint warnings of the validator, transition by transition in order. */
  function TransitionWarnings(ts: seq<MachineTransition>, known: set<string>): seq<Finding>
  {
    if ts == [] then [] else TransitionWarnings(ts[..|ts| - 1], known) + TransitionFindings(ts[|ts| - 1], known)
  }

  /** There are no endpoint warnings exactly when every transition joins two declared states. */
  lemma {:induction false} TransitionWarningsEmptyIff(ts: seq<MachineTransition>, known: set<string>)
    ensures TransitionWarnings(ts, known) == [] <==>
      forall t :: t in ts ==> t.fromState in known && t.toState in known
  {
    if ts != [] {
      var init := ts[..|ts| - 1];
      TransitionWarningsEmptyIff(init, known);
      assert ts == init + [ts[|ts| - 1]];
    }
  }

  /**
   * What validate_model reports: only a machine without states is invalid. An undeclared initial state is an
   * error that leaves the machine valid; a missing transition list and undeclared endpoints are
   * warnings.
   */
  ghost predicate IsMachineValidation(r: ValidationResult, m: Model) {
    var sm := MachineOf(m.content);
    && (r.valid <==> sm.states != [])
    && r.errors == (if sm.states == [] then [MissingStates] else [])
                   + (if sm.initialState != "" && sm.initialState !in StateIds(sm) then [UndefinedInitialState] else [])
    && r.warnings == (if sm.transitions == [] then [MissingMachineTransitions] else [])
                     + TransitionWarnings(sm.transitions, StateIds(sm))
  }

  /** validate_model; the returned model is the input with its validation status recorded. */
  method ValidateModel(m: Model) returns (r: ValidationResult, updated: Model)
    ensures IsMachineValidation(r, m)
    ensures updated == m.(validationStatus := StatusOf(r.valid))
  {
    var sm := MachineOf(m.content);
    var valid := true;
    var errors: seq<Finding> := [];
    var warnings: seq<Finding> := [];
    if sm.states == [] {
      valid := false;
      errors := errors + [MissingStates];
    }
    if sm.transitions == [] {
      warnings := warnings + [MissingMachineTransitions];
    }
    var states := set s | s in sm.states :: s.id;
    if sm.initialState != "" && sm.initialState !in states {
      errors := errors + [UndefinedInitialState];
    }
    ghost var before := warnings;
    var i := 0;
    while i < |sm.transitions|
      invariant 0 <= i <= |sm.transitions|
      invariant warnings == before + TransitionWarnings(sm.transitions[..i], states)
    {
      var t := sm.transitions[i];
      if t.fromState !in states {
        warnings := warnings + [UndefinedFromState(t.fromState)];
      }
      if t.toState !in states {
        warnings := warnings + [UndefinedToState(t.toState)];
      }
      assert sm.transitions[..i + 1][..i] == sm.transitions[..i];
      i := i + 1;
    }
    assert sm.transitions[..|sm.transitions|] == sm.transitions;
    r := ValidationResult(valid, errors, warnings);
    updated := m.(validationStatus := StatusOf(valid));
  }

  function StateOfPlace(p: Place): State {
    State("s_" + p.id, p.name, Some(p.kind.GetOr("state")))
  }

  /** The sources of the arcs that end at node `id`, in arc order. */
  function Inputs(arcs: seq<Arc>, id: string): seq<string> {
    if arcs == [] then []
    else
      var a := arcs[|arcs| - 1];
      Inputs(arcs[..|arcs| - 1], id) + (if a.target == id then [a.source] else [])
  }

  /**
   * The targets of the arcs that leave node `id`, in arc order. An arc that also ends at `id`
   * is taken as an input only (the source tests `target` first, then `source` in an `elif`).
   */
  function Outputs(arcs: seq<Arc>, id: string): seq<string> {
    if arcs == [] then []
    else
      var a := arcs[|arcs| - 1];
      Outputs(arcs[..|arcs| - 1], id) + (if a.target != id && a.source == id then [a.target] else [])
  }

  /** The machine transition for one input-output pair of Petri-net transition `t`. */
  function PairTransition(t: NetTransition, input: string, output: string): MachineTransition {
    MachineTransition("t_" + t.id + "_" + input + "_" + output, None, "s_" + input, "s_" + output,
                      Some(t.name), Some(t.guard.GetOr("true")))
  }

  /** The transitions for one input paired with each output in turn. */
  function RowTransitions(t: NetTransition, input: string, outs: seq<string>): seq<MachineTransition> {
    if outs == [] then [] else RowTransitions(t, input, outs[..|outs| - 1]) + [PairTransition(t, input, outs[|outs| - 1])]
  }

  /** The transitions for every input-output pair, inputs outermost. */
  function PairTransitions(t: NetTransition, ins: seq<string>, outs: seq<string>): seq<MachineTransition> {
    if ins == [] then [] else PairTransitions(t, ins[..|ins| - 1], outs) + RowTransitions(t, ins[|ins| - 1], outs)
  }

  /** The machine transitions derived from the net transitions `ts`, in order. */
  function DerivedTransitions(ts: seq<NetTransition>, arcs: seq<Arc>): seq<MachineTransition> {
    if ts == [] then []
    else
      var t := ts[|ts| - 1];
      DerivedTransitions(ts[..|ts| - 1], arcs) + PairTransitions(t, Inputs(arcs, t.id), Outputs(arcs, t.id))
  }

  /**
   * The initial state of the converted machine: "s_" + the first marking key with a positive
   * token count; failing that, "s_" + the first state's id (which already carries the "s_" prefix,
   * so the place id ends up with two); failing that, the empty string.
   */
  ghost predicate IsInitialStateFor(initial: string, marking: seq<(string, int)>, places: seq<Place>) {
    && (forall k :: 0 <= k < |marking| && marking[k].1 > 0 && (forall j :: 0 <= j < k ==> marking[j].1 <= 0) ==>
          initial == "s_" + marking[k].0)
    && ((forall k :: 0 <= k < |marking| ==> marking[k].1 <= 0) ==>
          initial == (if places != [] then "s_s_" + places[0].id else ""))
  }

  /** The machine a Petri net converts to. */
  ghost predicate IsMachineOfNet(sm: StateMachine, n: PetriNet) {
    && |sm.states| == |n.places|
    && (forall i :: 0 <= i < |n.places| ==> sm.states[i] == StateOfPlace(n.places[i]))
    && sm.transitions == DerivedTransitions(n.transitions, n.arcs)
    && IsInitialStateFor(sm.initialState, n.initialMarking, n.places)
    && sm.finalStates == [] && sm.constraints == []
  }

  /** What `_convert_from_petri_net` produces. */
  ghost predicate IsConversionOfNet(m: Model, source: Model) {
    && m.id == "sm_converted_" + source.id
    && m.theory == StateMachineTheory
    && m.content.Machine?
    && IsMachineOfNet(m.content.machine, NetOf(source.content))
    && m.content.machine.sourceModel == Some(source.id)
    && m.specification == Specification(
         StateMachineTheory, source.specification.name + "_converted",
         "从Petri网转换的状态机模型: " + source.specification.description,
         Machine(m.content.machine.(sourceModel := None)), [])
    && m.validationStatus == "pending" && m.optimizationStatus == "pending"
  }

  /** The two arc scans of one Petri-net transition. */
  method ArcEnds(arcs: seq<Arc>, id: string) returns (inputs: seq<string>, outputs: seq<string>)
    ensures inputs == Inputs(arcs, id) && outputs == Outputs(arcs, id)
  {
    inputs, outputs := [], [];
    var k := 0;
    while k < |arcs|
      invariant 0 <= k <= |arcs|
      invariant inputs == Inputs(arcs[..k], id) && outputs == Outputs(arcs[..k], id)
    {
      var arc := arcs[k];
      if arc.target == id {
        inputs := inputs + [arc.source];
      } else if arc.source == id {
        outputs := outputs + [arc.target];
      }
      assert arcs[..k + 1][..k] == arcs[..k];
      k := k + 1;
    }
    assert arcs[..|arcs|] == arcs;
  }

  /** The nested loops over input and output places of one Petri-net transition. */
  method PairsOf(t: NetTransition, inputs: seq<string>, outputs: seq<string>) returns (ts: seq<MachineTransition>)
    ensures ts == PairTransitions(t, inputs, outputs)
  {
    ts := [];
    var a := 0;
    while a < |inputs|
      invariant 0 <= a <= |inputs|
      invariant ts == PairTransitions(t, inputs[..a], outputs)
    {
      var b := 0;
      while b < |outputs|
        invariant 0 <= b <= |outputs|
        invariant ts == PairTransitions(t, inputs[..a], outputs) + RowTransitions(t, inputs[a], outputs[..b])
      {
        ts := ts + [MachineTransition("t_" + t.id + "_" + inputs[a] + "_" + outputs[b], None,
                                      "s_" + inputs[a], "s_" + outputs[b], Some(t.name), Some(t.guard.GetOr("true")))];
        assert outputs[..b + 1][..b] == outputs[..b];
        b := b + 1;
      }
      assert outputs[..|outputs|] == outputs;
      assert inputs[..a + 1][..a] == inputs[..a];
      a := a + 1;
    }
    assert inputs[..|inputs|] == inputs;
  }

  /** The loop that picks the initial state. */
  method InitialStateOf(marking: seq<(string, int)>, places: seq<Place>, states: seq<State>) returns (initial: string)
    requires |states| == |places| && forall i :: 0 <= i < |places| ==> states[i] == StateOfPlace(places[i])
    ensures IsInitialStateFor(initial, marking, places)
  {
    initial := "";
    var k := 0;
    while k < |marking|
      invariant 0 <= k <= |marking| && initial == ""
      invariant forall j :: 0 <= j < k ==> marking[j].1 <= 0
    {
      if marking[k].1 > 0 {
        initial := "s_" + marking[k].0;
        break;
      }
      k := k + 1;
    }
    if initial == "" && states != [] {
      initial := "s_" + states[0].id;
    }
  }

  /** _convert_from_petri_net. */
  method ConvertFromPetriNet(source: Model) returns (m: Model)
    ensures IsConversionOfNet(m, source)
  {
    var n := NetOf(source.content);
    var states: seq<State> := [];
    var i := 0;
    while i < |n.places|
      invariant 0 <= i <= |n.places| && |states| == i
      invariant forall j :: 0 <= j < i ==> states[j] == StateOfPlace(n.places[j])
    {
      var place := n.places[i];
      states := states + [State("s_" + place.id, place.name, Some(place.kind.GetOr("state")))];
      i := i + 1;
    }
    var transitions: seq<MachineTransition> := [];
    i := 0;
    while i < |n.transitions|
      invariant 0 <= i <= |n.transitions|
      invariant transitions == DerivedTransitions(n.transitions[..i], n.arcs)
    {
      var t := n.transitions[i];
      var inputs, outputs := ArcEnds(n.arcs, t.id);
      var pairs := PairsOf(t, inputs, outputs);
      transitions := transitions + pairs;
      assert n.transitions[..i + 1][..i] == n.transitions[..i];
      i := i + 1;
    }
    assert n.transitions[..|n.transitions|] == n.transitions;
    var initial := InitialStateOf(n.initialMarking, n.places, states);
    var machine := StateMachine(states, transitions, initial, [], [], None);
    var spec := Specification(StateMachineTheory, source.specification.name + "_converted",
      "从Petri网转换的状态机模型: " + source.specification.description, Machine(machine), []);
    m := NewModel("sm_converted_" + source.id, StateMachineTheory, spec,
      Machine(machine.(sourceModel := Some(source.id))));
  }

  /** What convert_from produces: only Petri nets convert to state machines. */
  ghost predicate IsMachineConversion(r: Result<Model, Error>, source: Model) {
    && (source.theory == PetriNetTheory ==> r.Ok? && IsConversionOfNet(r.value, source))
    && (source.theory != PetriNetTheory ==> r == Err(UnsupportedConversion(source.theory)))
  }

  /** convert_from. */
  method ConvertFrom(source: Model) returns (r: Result<Model, Error>)
    ensures IsMachineConversion(r, source)
  {
    if source.theory == PetriNetTheory {
      var m := ConvertFromPetriNet(source);
      r := Ok(m);
    } else {
      r := Err(UnsupportedConversion(source.theory));
    }
  }

  /** Each Petri-net transition yields |inputs|·|outputs| machine transitions. */
  lemma {:induction false} PairTransitionsCount(t: NetTransition, ins: seq<string>, outs: seq<string>)
    ensures |PairTransitions(t, ins, outs)| == |ins| * |outs|
  {
    if ins != [] {
      PairTransitionsCount(t, ins[..|ins| - 1], outs);
      RowTransitionsCount(t, ins[|ins| - 1], outs);
      assert |ins| * |outs| == (|ins| - 1) * |outs| + |outs|;
    }
  }

  lemma {:induction false} RowTransitionsCount(t: NetTransition, input: string, outs: seq<string>)
    ensures |RowTransitions(t, input, outs)| == |outs|
  {
    if outs != [] {
      RowTransitionsCount(t, input, outs[..|outs| - 1]);
    }
  }

  /** A derived transition exists for exactly the input-output pairs. */
  lemma {:induction false} PairTransitionsMembers(t: NetTransition, ins: seq<string>, outs: seq<string>, x: MachineTransition)
    ensures x in PairTransitions(t, ins, outs) <==>
      exists i, o :: i in ins && o in outs && x == PairTransition(t, i, o)
  {
    if ins != [] {
      var init := ins[..|ins| - 1];
      var last := ins[|ins| - 1];
      PairTransitionsMembers(t, init, outs, x);
      RowTransitionsMembers(t, last, outs, x);
      assert ins == init + [last];
      if x in PairTransitions(t, init, outs) {
        var i, o :| i in init && o in outs && x == PairTransition(t, i, o);
        assert i in ins;
      }
      if exists i, o :: i in ins && o in outs && x == PairTransition(t, i, o) {
        var i, o :| i in ins && o in outs && x == PairTransition(t, i, o);
        if i != last {
          assert i in init;
        }
      }
    }
  }

  lemma {:induction false} RowTransitionsMembers(t: NetTransition, input: string, outs: seq<string>, x: MachineTransition)
    ensures x in RowTransitions(t, input, outs) <==> exists o :: o in outs && x == PairTransition(t, input, o)
  {
    if outs != [] {
      var init := outs[..|outs| - 1];
      RowTransitionsMembers(t, input, init, x);
      assert outs == init + [outs[|outs| - 1]];
    }
  }

  /**
   * A transition is never among its own outputs, while an arc from a transition to itself makes
   * it one of its inputs.
   */
  lemma {:induction false} SelfLoopIsInputOnly(arcs: seq<Arc>, id: string)
    ensures id !in Outputs(arcs, id)
    ensures (exists a :: a in arcs && a.source == id && a.target == id) ==> id in Inputs(arcs, id)
  {
    if arcs != [] {
      var init := arcs[..|arcs| - 1];
      SelfLoopIsInputOnly(init, id);
      assert arcs == init + [arcs[|arcs| - 1]];
    }
  }

  /** The inputs are the sources of the arcs ending at `id`; the outputs the targets of the others leaving it. */
  lemma {:induction false} ArcEndsMembers(arcs: seq<Arc>, id: string)
    ensures forall x :: x in Inputs(arcs, id) <==> exists a :: a in arcs && a.target == id && a.source == x
    ensures forall x :: x in Outputs(arcs, id) <==> exists a :: a in arcs && a.target != id && a.source == id && a.target == x
  {
    if arcs != [] {
      var init := arcs[..|arcs| - 1];
      ArcEndsMembers(init, id);
      assert arcs == init + [arcs[|arcs| - 1]];
    }
  }

  /** Derived transitions never carry a 'name' key. */
  lemma {:induction false} DerivedTransitionsAreNameless(ts: seq<NetTransition>, arcs: seq<Arc>)
    ensures forall x :: x in DerivedTransitions(ts, arcs) ==> x.name.None?
  {
    if ts != [] {
      var t := ts[|ts| - 1];
      DerivedTransitionsAreNameless(ts[..|ts| - 1], arcs);
      forall x | x in PairTransitions(t, Inputs(arcs, t.id), Outputs(arcs, t.id))
        ensures x.name.None?
      {
        PairTransitionsMembers(t, Inputs(arcs, t.id), Outputs(arcs, t.id), x);
      }
    }
  }

  /**
   * Converting a Petri net to a state machine and back fails with KeyError('name') as soon as the
   * machine has a transition: the derived transitions have a trigger but no name.
   */
  lemma NetMachineNetRoundTripFails(net: Model, machine: Model, back: Result<Model, Error>)
    requires IsConversionOfNet(machine, net)
    requires machine.content.machine.transitions != []
    requires PetriNetEngine.IsConversionOfMachine(back, machine)
    ensures back == Err(MissingKey("name"))
  {
    var sm := machine.content.machine;
    DerivedTransitionsAreNameless(NetOf(net.content).transitions, NetOf(net.content).arcs);
    assert sm.transitions[0] in sm.transitions;
  }

  /** In a machine converted from a net, "s_s_" + the first place id is never a declared state. */
  lemma DoublePrefixUndeclared(sm: StateMachine, n: PetriNet)
    requires |sm.states| == |n.places| && n.places != []
    requires forall i :: 0 <= i < |n.places| ==> sm.states[i] == StateOfPlace(n.places[i])
    requires forall p :: p in n.places ==> p.id != "s_" + n.places[0].id
    ensures "s_s_" + n.places[0].id !in StateIds(sm)
  {
    var bad := "s_s_" + n.places[0].id;
    forall x | x in StateIds(sm) ensures x != bad {
      var st :| st in sm.states && st.id == x;
      var i :| 0 <= i < |sm.states| && sm.states[i] == st;
      assert n.places[i] in n.places;
      assert x[2..] == n.places[i].id && bad[2..] == "s_" + n.places[0].id;
    }
  }

  /**
   * A net whose marking holds no token converts to a machine that names the first state's id once
   * more prefixed with "s_" as its initial state, which no state declares: validating it reports
   * UndefinedInitialState while still calling the machine valid.
   */
  lemma UnmarkedNetInitialStateUndeclared(net: Model, machine: Model, r: ValidationResult)
    requires IsConversionOfNet(machine, net)
    requires NetOf(net.content).places != []
    requires forall k :: 0 <= k < |NetOf(net.content).initialMarking| ==> NetOf(net.content).initialMarking[k].1 <= 0
    requires forall p :: p in NetOf(net.content).places ==> p.id != "s_" + NetOf(net.content).places[0].id
    requires IsMachineValidation(r, machine)
    ensures r.valid && UndefinedInitialState in r.errors
  {
    var n := NetOf(net.content);
    var sm := machine.content.machine;
    assert IsMachineOfNet(sm, n);
    assert sm.initialState == "s_s_" + n.places[0].id;
    DoublePrefixUndeclared(sm, n);
  }
}
