/**
 * The records the unified modelling tool passes around. A Python model keeps its content in a
 * dictionary whose keys depend on the theory; here that content is one of three shapes, and the
 * accessors `NetOf`/`MachineOf` read a content of the other shape as the empty record, as
 * `content.get('places', [])` reads a missing key as an empty list.
 */
module ModelingTypes {
  import opened Wrappers

  datatype TheoryType = PetriNetTheory | StateMachineTheory | TemporalLogic | TypeSystem | Workflow | Microservice

  /** The enum's string value, the key of the optimisation strategy table. */
  function TheoryValue(t: TheoryType): string {
    match t
    case PetriNetTheory => "petri_net"
    case StateMachineTheory => "state_machine"
    case TemporalLogic => "temporal_logic"
    case TypeSystem => "type_system"
    case Workflow => "workflow"
    case Microservice => "microservice"
  }

  /** A place; `kind` is the optional 'type' key. */
  datatype Place = Place(id: string, name: string, kind: Option<string>)
  /** A Petri-net transition; `guard` is the optional 'guard' key. */
  datatype NetTransition = NetTransition(id: string, name: string, guard: Option<string>)
  datatype Arc = Arc(id: string, source: string, target: string, weight: int)

  /** Petri-net content. The initial marking keeps the dictionary's insertion order. */
  datatype PetriNet = PetriNet(
    places: seq<Place>,
    transitions: seq<NetTransition>,
    arcs: seq<Arc>,
    initialMarking: seq<(string, int)>,
    constraints: seq<string>,
    sourceModel: Option<string>)

  datatype State = State(id: string, name: string, kind: Option<string>)
  /**
   * A state-machine transition. `name`, `trigger` and `guard` are optional keys: transitions the
   * tool derives from a Petri net carry a trigger and a guard but no name.
   */
  datatype MachineTransition = MachineTransition(
    id: string,
    name: Option<string>,
    fromState: string,
    toState: string,
    trigger: Option<string>,
    guard: Option<string>)

  /** State-machine content; an absent initial state is the empty string. */
  datatype StateMachine = StateMachine(
    states: seq<State>,
    transitions: seq<MachineTransition>,
    initialState: string,
    finalStates: seq<string>,
    constraints: seq<string>,
    sourceModel: Option<string>)

  /** The ids of a machine's states. */
  function StateIds(sm: StateMachine): set<string> {
    set s | s in sm.states :: s.id
  }

  datatype Content = Net(net: PetriNet) | Machine(machine: StateMachine) | Opaque

  const EmptyNet := PetriNet([], [], [], [], [], None)
  const EmptyMachine := StateMachine([], [], "", [], [], None)

  function NetOf(c: Content): PetriNet {
    if c.Net? then c.net else EmptyNet
  }

  function MachineOf(c: Content): StateMachine {
    if c.Machine? then c.machine else EmptyMachine
  }

  datatype Specification = Specification(
    theory: TheoryType,
    name: string,
    description: string,
    parameters: Content,
    constraints: seq<string>)

  datatype Model = Model(
    id: string,
    theory: TheoryType,
    specification: Specification,
    content: Content,
    validationStatus: string,
    optimizationStatus: string)

  /** A model as the dataclass constructor builds it: both statuses "pending". */
  function NewModel(id: string, theory: TheoryType, spec: Specification, content: Content): Model {
    Model(id, theory, spec, content, "pending", "pending")
  }

  /** The findings of the two validators; each stands for one message string of the source. */
  datatype Finding =
    | MissingPlaces
    | MissingNetTransitions
    | UndefinedArcSource(node: string)
    | UndefinedArcTarget(node: string)
    | MissingStates
    | MissingMachineTransitions
    | UndefinedInitialState
    | UndefinedFromState(state: string)
    | UndefinedToState(state: string)

  datatype ValidationResult = ValidationResult(valid: bool, errors: seq<Finding>, warnings: seq<Finding>)

  /** The exceptions the engines and the tool raise. */
  datatype Error =
    | UnsupportedTheory(theory: TheoryType)
    | UnsupportedConversion(source: TheoryType)
    | MissingKey(key: string)
    | MissingConverter(name: string)
    | UnknownModel(id: string)

  /** The status string `validate_model` records. */
  function StatusOf(valid: bool): string {
    if valid then "valid" else "invalid"
  }
}
