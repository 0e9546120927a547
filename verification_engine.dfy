/**
 * The verification task pipeline: a FIFO task scheduler, a rule manager, a mock knowledge graph
 * and an engine that applies each task's rules through algorithm plug-ins.
 */
module VerificationEngine {
  import opened Wrappers

  /** The JSON-like values that rule parameters and plug-in results are made of. */
  datatype Value =
    | Null
    | Bool(b: bool)
    | Num(n: int)
    | Str(s: string)
    | List(items: seq<Value>)
    | Object(fields: map<string, Value>)

  /** `d.get(key, default)` on a dictionary. */
  function GetOr(d: map<string, Value>, key: string, default: Value): (r: Value)
    ensures key in d ==> r == d[key]
    ensures key !in d ==> r == default
  {
    if key in d then d[key] else default
  }

  datatype Status = Pending | Running | Completed | Failed

  datatype Task = Task(taskId: string, targetModelId: string, ruleIds: seq<string>, status: Status,
                       result: Option<map<string, Value>>)

  /** A new task starts pending, without a result. */
  function NewTask(taskId: string, targetModelId: string, ruleIds: seq<string>): (t: Task)
    ensures t.taskId == taskId && t.targetModelId == targetModelId && t.ruleIds == ruleIds
    ensures t.status == Pending && t.result == None
  {
    Task(taskId, targetModelId, ruleIds, Pending, None)
  }

  datatype Rule = Rule(ruleId: string, name: string, description: string, algorithm: string,
                       parameters: map<string, Value>)

  /** What a plug-in's execute does: return a result dictionary or raise with a message. */
  datatype Outcome = Returned(value: Value) | Raised(message: string)

  /**
   * An algorithm plug-in: the runtime-verification plug-in is modelled; any other plug-in is a
   * function of the model id and the rule parameters.
   */
  datatype Plugin = RuntimeVerification | External(run: (string, map<string, Value>) -> Outcome)

  // ---------------------------------------------------------------------------------------------
  // Runtime verification plug-in

  datatype Operation = Operation(op: string, args: seq<int>)

  /** The operations the plug-in pretends to observe while the model runs. */
  const OPERATIONS: seq<Operation> :=
    [Operation("add", [5, 10]), Operation("divide", [20, 0]), Operation("subtract", [10, 5])]

  predicate IsZeroDivision(o: Operation) {
    o.op == "divide" && |o.args| > 1 && o.args[1] == 0
  }

  /** The index of the first division by zero, if any. */
  function FirstZeroDivision(ops: seq<Operation>): (r: Option<nat>)
    ensures r.Some? ==> r.value < |ops| && IsZeroDivision(ops[r.value])
    ensures r.Some? ==> forall k :: 0 <= k < r.value ==> !IsZeroDivision(ops[k])
    ensures r.None? ==> forall k :: 0 <= k < |ops| ==> !IsZeroDivision(ops[k])
  {
    if ops == [] then None
    else if IsZeroDivision(ops[0]) then Some(0)
    else match FirstZeroDivision(ops[1..]) {
      case None => None
      case Some(k) => Some(k + 1)
    }
  }

  function ContractName(params: map<string, Value>): Value {
    GetOr(params, "contract_name", Str("UnknownContract"))
  }

  function OperationValue(o: Operation): Value {
    Object(map["op" := Str(o.op), "args" := List(seq(|o.args|, i requires 0 <= i < |o.args| => Num(o.args[i])))])
  }

  function Violation(name: Value, o: Operation): Value {
    Object(map[
      "contract_violated" := Bool(true),
      "contract_name" := name,
      "details" := Str("Division by zero occurred during execution."),
      "violating_operation" := OperationValue(o)])
  }

  function NoViolation(name: Value): Value {
    Object(map["contract_violated" := Bool(false), "contract_name" := name])
  }

  /**
   * The runtime-verification report: a violation exactly for the contract "NoZeroDivisor" on
   * model "UMS-Module-C", naming the first division by zero; otherwise no violation.
   */
  function RuntimeReport(modelId: string, params: map<string, Value>): (r: Value)
    ensures r.Object? && "contract_violated" in r.fields && "contract_name" in r.fields
    ensures r.fields["contract_name"] == ContractName(params)
    ensures r.fields["contract_violated"] == Bool(true) <==>
      modelId == "UMS-Module-C" && ContractName(params) == Str("NoZeroDivisor")
    ensures r.fields["contract_violated"] == Bool(true) ==>
      "violating_operation" in r.fields && r.fields["violating_operation"] == OperationValue(OPERATIONS[1])
    ensures r.fields["contract_violated"] == Bool(true) ==>
      r.fields.Keys == {"contract_violated", "contract_name", "details", "violating_operation"}
      && r.fields["details"] == Str("Division by zero occurred during execution.")
    ensures !(modelId == "UMS-Module-C" && ContractName(params) == Str("NoZeroDivisor")) ==>
      r.fields == map["contract_violated" := Bool(false), "contract_name" := ContractName(params)]
  {
    var name := ContractName(params);
    if modelId == "UMS-Module-C" && name == Str("NoZeroDivisor") && FirstZeroDivision(OPERATIONS).Some? then
      Violation(name, OPERATIONS[FirstZeroDivision(OPERATIONS).value])
    else
      NoViolation(name)
  }

  /** RuntimeVerificationPlugin.execute: scans the operations and stops at the first division by zero. */
  method RuntimeExecute(modelId: string, params: map<string, Value>) returns (r: Value)
    ensures r == RuntimeReport(modelId, params)
  {
    var name := ContractName(params);
    if modelId == "UMS-Module-C" && name == Str("NoZeroDivisor") {
      var i := 0;
      while i < |OPERATIONS|
        invariant 0 <= i <= |OPERATIONS|
        invariant forall k :: 0 <= k < i ==> !IsZeroDivision(OPERATIONS[k])
      {
        if IsZeroDivision(OPERATIONS[i]) {
          return Violation(name, OPERATIONS[i]);
        }
        i := i + 1;
      }
    }
    return NoViolation(name);
  }

  // ---------------------------------------------------------------------------------------------
  // Rule manager, scheduler and knowledge graph

  /** The rule manager over the rules its file defined. */
  class RuleManager {
    const rules: map<string, Rule>

    constructor(rules: map<string, Rule>)
      ensures this.rules == rules
    {
      this.rules := rules;
    }

    /** get_rule: None for an unknown id. */
    function GetRule(ruleId: string): (r: Option<Rule>)
      ensures r.Some? <==> ruleId in rules
      ensures r.Some? ==> r.value == rules[ruleId]
    {
      if ruleId in rules then Some(rules[ruleId]) else None
    }
  }

  /** The task scheduler: a FIFO queue and the history of completed tasks by id. */
  class TaskScheduler {
    var queue: seq<Task>
    var history: map<string, Task>

    constructor()
      ensures queue == [] && history == map[]
    {
      queue := [];
      history := map[];
    }

    /** submit_task: the task joins the back of the queue. */
    method SubmitTask(t: Task)
      modifies this
      ensures queue == old(queue) + [t] && history == old(history)
    {
      queue := queue + [t];
    }

    /** get_next_task: None on an empty queue; otherwise the front task, now running. */
    method GetNextTask() returns (r: Option<Task>)
      modifies this
      ensures history == old(history)
      ensures old(queue) == [] ==> r == None && queue == old(queue)
      ensures old(queue) != [] ==> r == Some(old(queue)[0].(status := Running)) && queue == old(queue)[1..]
    {
      if queue == [] {
        return None;
      }
      var t := queue[0];
      queue := queue[1..];
      r := Some(t.(status := Running));
    }

    /** complete_task: the task is completed with `result` and recorded under its id. */
    method CompleteTask(t: Task, result: map<string, Value>) returns (done: Task)
      modifies this
      ensures done == t.(status := Completed, result := Some(result))
      ensures history == old(history)[t.taskId := done] && queue == old(queue)
    {
      done := t.(status := Completed, result := Some(result));
      history := history[t.taskId := done];
    }
  }

  /** `{"status": "COMPLETED", "result": r}` */
  datatype StatusEntry = StatusEntry(status: string, result: Value)

  datatype Entry = Entry(contracts: map<string, Value>, verificationStatus: map<string, StatusEntry>)

  /** The mock graph database the service starts with. */
  const INITIAL_DB: map<string, Entry> := map[
    "UMS-Module-B" := Entry(
      map["increase_post_condition" := Object(map[
        "pre" := Str("y > 0"),
        "post" := Str("return > x"),
        "body_z3" := Str("z3.ForAll([x, y], z3.Implies(y > 0, x + y > x))"),
        "negation_z3" := Str("z3.And(y > 0, x + y <= x)")])],
      map[]),
    "CounterModel" := Entry(map[], map[])]

  /**
   * update_verification_status on a database: a known model records the result as completed
   * under the rule id; an unknown model leaves the database as it is.
   */
  function UpdateStatus(db: map<string, Entry>, modelId: string, ruleId: string, result: Value): (r: map<string, Entry>)
    ensures r.Keys == db.Keys
    ensures modelId !in db ==> r == db
    ensures forall m :: m in db && m != modelId ==> r[m] == db[m]
    ensures modelId in db ==>
      && r[modelId].contracts == db[modelId].contracts
      && r[modelId].verificationStatus == db[modelId].verificationStatus[ruleId := StatusEntry("COMPLETED", result)]
  {
    if modelId in db then
      db[modelId := db[modelId].(verificationStatus :=
        db[modelId].verificationStatus[ruleId := StatusEntry("COMPLETED", result)])]
    else db
  }

  /** The mock knowledge graph service. */
  class KnowledgeGraphService {
    var db: map<string, Entry>

    constructor()
      ensures db == INITIAL_DB
    {
      db := INITIAL_DB;
    }

    /** get_model_contracts: None for an unknown model. */
    function GetModelContracts(modelId: string): (r: Option<map<string, Value>>)
      reads this
      ensures r.Some? <==> modelId in db
      ensures r.Some? ==> r.value == db[modelId].contracts
    {
      if modelId in db then Some(db[modelId].contracts) else None
    }

    method UpdateVerificationStatus(modelId: string, ruleId: string, result: Value)
      modifies this
      ensures db == UpdateStatus(old(db), modelId, ruleId, result)
    {
      if modelId in db {
        var entry := db[modelId];
        db := db[modelId := entry.(verificationStatus := entry.verificationStatus[ruleId := StatusEntry("COMPLETED", result)])];
      }
    }
  }

  // ---------------------------------------------------------------------------------------------
  // Applying the rules of one task

  function Execute(p: Plugin, modelId: string, params: map<string, Value>): Outcome {
    match p
    case RuntimeVerification => Returned(RuntimeReport(modelId, params))
    case External(run) => run(modelId, params)
  }

  /** The plug-in outcome of a rule, or None when no plug-in serves its algorithm. */
  function Applied(rule: Rule, modelId: string, plugins: map<string, Plugin>): Option<Outcome> {
    if rule.algorithm in plugins then Some(Execute(plugins[rule.algorithm], modelId, rule.parameters)) else None
  }

  predicate Returns(rule: Rule, modelId: string, plugins: map<string, Plugin>) {
    Applied(rule, modelId, plugins).Some? && Applied(rule, modelId, plugins).value.Returned?
  }

  function Skipped(algorithm: string): Value {
    Object(map["status" := Str("SKIPPED"), "reason" := Str("Plugin for " + algorithm + " not found.")])
  }

  function FailedEntry(message: string): Value {
    Object(map["status" := Str("FAILED"), "error" := Str(message)])
  }

  /** The entry a rule leaves in the task results. */
  function EntryFor(rule: Rule, modelId: string, plugins: map<string, Plugin>): Value {
    match Applied(rule, modelId, plugins)
    case None => Skipped(rule.algorithm)
    case Some(Returned(v)) => v
    case Some(Raised(e)) => FailedEntry(e)
  }

  /** The task results and the knowledge-graph database while the rules are applied. */
  datatype Run = Run(results: map<string, Value>, db: map<string, Entry>)

  /** One rule: unknown ids are skipped silently; only a returned result reaches the knowledge graph. */
  function Step(run: Run, ruleId: string, modelId: string, rules: map<string, Rule>, plugins: map<string, Plugin>): Run {
    if ruleId !in rules then run
    else
      var rule := rules[ruleId];
      var results := run.results[ruleId := EntryFor(rule, modelId, plugins)];
      if Returns(rule, modelId, plugins) then
        Run(results, UpdateStatus(run.db, modelId, ruleId, Applied(rule, modelId, plugins).value.value))
      else Run(results, run.db)
  }

  /** The rules of a task applied in order, starting from empty results and the database `db`. */
  function RunRules(ruleIds: seq<string>, modelId: string, rules: map<string, Rule>, plugins: map<string, Plugin>,
                    db: map<string, Entry>): Run
    decreases |ruleIds|
  {
    if ruleIds == [] then Run(map[], db)
    else
      Step(RunRules(ruleIds[..|ruleIds| - 1], modelId, rules, plugins, db), ruleIds[|ruleIds| - 1], modelId, rules, plugins)
  }

  /** A rule whose result the knowledge graph records. */
  predicate Recorded(ruleId: string, ruleIds: seq<string>, modelId: string, rules: map<string, Rule>, plugins: map<string, Plugin>) {
    ruleId in ruleIds && ruleId in rules && Returns(rules[ruleId], modelId, plugins)
  }

  /** Membership in a non-empty sequence splits into its prefix and its last element. */
  lemma LastSplit(ids: seq<string>)
    requires ids != []
    ensures forall r :: r in ids <==> r in ids[..|ids| - 1] || r == ids[|ids| - 1]
  {
    assert ids == ids[..|ids| - 1] + [ids[|ids| - 1]];
  }

  /** The results hold an entry exactly for the known rule ids of the task, each the rule's own entry. */
  lemma {:induction false} RunRulesResults(ruleIds: seq<string>, modelId: string, rules: map<string, Rule>,
                                           plugins: map<string, Plugin>, db: map<string, Entry>)
    ensures forall id :: id in RunRules(ruleIds, modelId, rules, plugins, db).results <==> id in ruleIds && id in rules
    ensures forall id :: id in RunRules(ruleIds, modelId, rules, plugins, db).results ==>
      RunRules(ruleIds, modelId, rules, plugins, db).results[id] == EntryFor(rules[id], modelId, plugins)
    decreases |ruleIds|
  {
    if ruleIds != [] {
      var init := ruleIds[..|ruleIds| - 1];
      RunRulesResults(init, modelId, rules, plugins, db);
      LastSplit(ruleIds);
    }
  }

  /**
   * The knowledge graph after a task: only the task's model changes, and only when it is known;
   * its contracts stay, and its status records exactly the rules whose plug-in returned, each
   * with the returned result.
   */
  lemma {:induction false} RunRulesGraph(ruleIds: seq<string>, modelId: string, rules: map<string, Rule>,
                                         plugins: map<string, Plugin>, db: map<string, Entry>)
    ensures RunRules(ruleIds, modelId, rules, plugins, db).db.Keys == db.Keys
    ensures modelId !in db ==> RunRules(ruleIds, modelId, rules, plugins, db).db == db
    ensures forall m :: m in db && m != modelId ==> RunRules(ruleIds, modelId, rules, plugins, db).db[m] == db[m]
    ensures modelId in db ==>
      var after := RunRules(ruleIds, modelId, rules, plugins, db).db[modelId];
      && after.contracts == db[modelId].contracts
      && (forall r :: r in after.verificationStatus <==>
            r in db[modelId].verificationStatus || Recorded(r, ruleIds, modelId, rules, plugins))
      && (forall r :: Recorded(r, ruleIds, modelId, rules, plugins) ==>
            after.verificationStatus[r] == StatusEntry("COMPLETED", Applied(rules[r], modelId, plugins).value.value))
      && (forall r :: r in db[modelId].verificationStatus && !Recorded(r, ruleIds, modelId, rules, plugins) ==>
            after.verificationStatus[r] == db[modelId].verificationStatus[r])
  {
    RunRulesOtherModels(ruleIds, modelId, rules, plugins, db);
    if modelId in db {
      RunRulesModelEntry(ruleIds, modelId, rules, plugins, db);
    }
  }

  /** Applying the rules keeps the set of models and every model other than the task's own. */
  lemma {:induction false} RunRulesOtherModels(ruleIds: seq<string>, modelId: string, rules: map<string, Rule>,
                                               plugins: map<string, Plugin>, db: map<string, Entry>)
    ensures RunRules(ruleIds, modelId, rules, plugins, db).db.Keys == db.Keys
    ensures modelId !in db ==> RunRules(ruleIds, modelId, rules, plugins, db).db == db
    ensures forall m :: m in db && m != modelId ==> RunRules(ruleIds, modelId, rules, plugins, db).db[m] == db[m]
    decreases |ruleIds|
  {
    if ruleIds != [] {
      RunRulesOtherModels(ruleIds[..|ruleIds| - 1], modelId, rules, plugins, db);
    }
  }

  /** The task's own model keeps its contracts and records exactly the rules whose plug-in returned. */
  lemma {:induction false} RunRulesModelEntry(ruleIds: seq<string>, modelId: string, rules: map<string, Rule>,
                                              plugins: map<string, Plugin>, db: map<string, Entry>)
    requires modelId in db
    ensures modelId in RunRules(ruleIds, modelId, rules, plugins, db).db
    ensures var after := RunRules(ruleIds, modelId, rules, plugins, db).db[modelId];
      && after.contracts == db[modelId].contracts
      && (forall r :: r in after.verificationStatus <==>
            r in db[modelId].verificationStatus || Recorded(r, ruleIds, modelId, rules, plugins))
      && (forall r :: Recorded(r, ruleIds, modelId, rules, plugins) ==>
            after.verificationStatus[r] == StatusEntry("COMPLETED", Applied(rules[r], modelId, plugins).value.value))
      && (forall r :: r in db[modelId].verificationStatus && !Recorded(r, ruleIds, modelId, rules, plugins) ==>
            after.verificationStatus[r] == db[modelId].verificationStatus[r])
    decreases |ruleIds|
  {
    if ruleIds != [] {
      var init := ruleIds[..|ruleIds| - 1];
      var last := ruleIds[|ruleIds| - 1];
      RunRulesModelEntry(init, modelId, rules, plugins, db);
      LastSplit(ruleIds);
    }
  }

  /** A rule without a plug-in is reported as skipped and never reaches the knowledge graph. */
  lemma MissingPluginIsSkipped(ruleIds: seq<string>, modelId: string, rules: map<string, Rule>,
                               plugins: map<string, Plugin>, db: map<string, Entry>, ruleId: string)
    requires ruleId in ruleIds && ruleId in rules && rules[ruleId].algorithm !in plugins
    ensures var run := RunRules(ruleIds, modelId, rules, plugins, db);
      ruleId in run.results && run.results[ruleId] == Skipped(rules[ruleId].algorithm)
    ensures var run := RunRules(ruleIds, modelId, rules, plugins, db);
      modelId in db ==>
        && modelId in run.db
        && (ruleId in run.db[modelId].verificationStatus <==> ruleId in db[modelId].verificationStatus)
  {
    RunRulesResults(ruleIds, modelId, rules, plugins, db);
    RunRulesGraph(ruleIds, modelId, rules, plugins, db);
  }

  /** The history and the knowledge-graph database while the queue is worked through. */
  datatype Batch = Batch(history: map<string, Task>, db: map<string, Entry>)

  /** The ids of a sequence of tasks. */
  function TaskIds(tasks: seq<Task>): set<string> {
    set t | t in tasks :: t.taskId
  }

  /**
   * The queued tasks run front to back: each one's rules are applied to the database the tasks
   * before it left, and it is recorded as completed with its results under its id.
   */
  function RunTasks(tasks: seq<Task>, history: map<string, Task>, db: map<string, Entry>,
                    rules: map<string, Rule>, plugins: map<string, Plugin>): Batch
    decreases |tasks|
  {
    if tasks == [] then Batch(history, db)
    else
      var t := tasks[0];
      var run := RunRules(t.ruleIds, t.targetModelId, rules, plugins, db);
      RunTasks(tasks[1..], history[t.taskId := t.(status := Completed, result := Some(run.results))], run.db, rules, plugins)
  }

  /**
   * After the queue: the history holds its old ids and every queued id, an id that was not queued
   * keeps its old entry, and every queued task is completed with a result.
   */
  lemma {:induction false} RunTasksHistory(tasks: seq<Task>, history: map<string, Task>, db: map<string, Entry>,
                                           rules: map<string, Rule>, plugins: map<string, Plugin>)
    ensures var h := RunTasks(tasks, history, db, rules, plugins).history;
      && (forall id :: id in h <==> id in history || id in TaskIds(tasks))
      && (forall id :: id in history && id !in TaskIds(tasks) ==> h[id] == history[id])
      && (forall t :: t in tasks ==> h[t.taskId].status == Completed && h[t.taskId].result.Some?)
    decreases |tasks|
  {
    if tasks != [] {
      var t := tasks[0];
      var run := RunRules(t.ruleIds, t.targetModelId, rules, plugins, db);
      RunTasksHistory(tasks[1..], history[t.taskId := t.(status := Completed, result := Some(run.results))], run.db, rules, plugins);
      assert TaskIds(tasks) == {t.taskId} + TaskIds(tasks[1..]) by {
        assert tasks == [t] + tasks[1..];
      }
    }
  }

  /** The last queued task of an id is the one the history keeps, with the results its rules gave. */
  lemma {:induction false} RunTasksLastWins(tasks: seq<Task>, history: map<string, Task>, db: map<string, Entry>,
                                            rules: map<string, Rule>, plugins: map<string, Plugin>)
    requires tasks != []
    ensures var b := RunTasks(tasks[..|tasks| - 1], history, db, rules, plugins);
      var t := tasks[|tasks| - 1];
      && t.taskId in RunTasks(tasks, history, db, rules, plugins).history
      && RunTasks(tasks, history, db, rules, plugins).history[t.taskId]
        == t.(status := Completed, result := Some(RunRules(t.ruleIds, t.targetModelId, rules, plugins, b.db).results))
    decreases |tasks|
  {
    if |tasks| > 1 {
      var t := tasks[0];
      var run := RunRules(t.ruleIds, t.targetModelId, rules, plugins, db);
      var h1 := history[t.taskId := t.(status := Completed, result := Some(run.results))];
      RunTasksLastWins(tasks[1..], h1, run.db, rules, plugins);
      assert tasks[1..][..|tasks[1..]| - 1] == tasks[..|tasks| - 1][1..];
    }
  }

  /** Working through the queue keeps the set of models, and a model no task targets keeps its entry. */
  lemma {:induction false} RunTasksGraph(tasks: seq<Task>, history: map<string, Task>, db: map<string, Entry>,
                                         rules: map<string, Rule>, plugins: map<string, Plugin>)
    ensures RunTasks(tasks, history, db, rules, plugins).db.Keys == db.Keys
    ensures forall m :: m in db && (forall t :: t in tasks ==> t.targetModelId != m) ==>
      RunTasks(tasks, history, db, rules, plugins).db[m] == db[m]
    decreases |tasks|
  {
    if tasks != [] {
      var t := tasks[0];
      var run := RunRules(t.ruleIds, t.targetModelId, rules, plugins, db);
      RunRulesOtherModels(t.ruleIds, t.targetModelId, rules, plugins, db);
      RunTasksGraph(tasks[1..], history[t.taskId := t.(status := Completed, result := Some(run.results))], run.db, rules, plugins);
      forall m | m in db && (forall u :: u in tasks ==> u.targetModelId != m)
        ensures forall u :: u in tasks[1..] ==> u.targetModelId != m
      {
        assert t in tasks;
      }
    }
  }

  // ---------------------------------------------------------------------------------------------
  // The engine

  class Engine {
    const scheduler: TaskScheduler
    const ruleManager: RuleManager
    const kg: KnowledgeGraphService
    var plugins: map<string, Plugin>

    /** The engine registers the four default plug-ins; all but runtime verification are opaque here. */
    constructor(scheduler: TaskScheduler, ruleManager: RuleManager, kg: KnowledgeGraphService,
                staticAnalysis: Plugin, deductive: Plugin, modelChecking: Plugin)
      ensures this.scheduler == scheduler && this.ruleManager == ruleManager && this.kg == kg
      ensures plugins == map[
        "StaticAnalysis" := staticAnalysis,
        "RuntimeVerification" := RuntimeVerification,
        "DeductiveVerification" := deductive,
        "ModelChecking" := modelChecking]
    {
      this.scheduler := scheduler;
      this.ruleManager := ruleManager;
      this.kg := kg;
      plugins := map[];
      new;
      RegisterPlugin("StaticAnalysis", staticAnalysis);
      RegisterPlugin("RuntimeVerification", RuntimeVerification);
      RegisterPlugin("DeductiveVerification", deductive);
      RegisterPlugin("ModelChecking", modelChecking);
    }

    /** register_plugin: a plug-in for an algorithm already served replaces the old one. */
    method RegisterPlugin(algorithm: string, plugin: Plugin)
      modifies this
      ensures plugins == old(plugins)[algorithm := plugin]
    {
      plugins := plugins[algorithm := plugin];
    }

    /**
     * run_single_task: nothing happens on an empty queue; otherwise the front task's rules are
     * applied in order and the task is completed with the results.
     */
    method RunSingleTask()
      modifies scheduler, kg
      ensures old(scheduler.queue) == [] ==>
        scheduler.queue == [] && scheduler.history == old(scheduler.history) && kg.db == old(kg.db)
      ensures old(scheduler.queue) != [] ==>
        var t := old(scheduler.queue)[0];
        var run := RunRules(t.ruleIds, t.targetModelId, ruleManager.rules, plugins, old(kg.db));
        && scheduler.queue == old(scheduler.queue)[1..]
        && scheduler.history == old(scheduler.history)[t.taskId := t.(status := Completed, result := Some(run.results))]
        && kg.db == run.db
    {
      var next := scheduler.GetNextTask();
      if next.None? {
        return;
      }
      var task := next.value;
      ghost var db0 := kg.db;
      var results: map<string, Value> := map[];
      var i := 0;
      while i < |task.ruleIds|
        invariant 0 <= i <= |task.ruleIds|
        invariant Run(results, kg.db) == RunRules(task.ruleIds[..i], task.targetModelId, ruleManager.rules, plugins, db0)
        invariant scheduler.queue == old(scheduler.queue)[1..] && scheduler.history == old(scheduler.history)
      {
        var ruleId := task.ruleIds[i];
        assert task.ruleIds[..i + 1][..i] == task.ruleIds[..i];
        var rule := ruleManager.GetRule(ruleId);
        if rule.Some? {
          var algorithm := rule.value.algorithm;
          if algorithm !in plugins {
            results := results[ruleId := Skipped(algorithm)];
          } else {
            var outcome: Outcome;
            match plugins[algorithm] {
              case RuntimeVerification =>
                var report := RuntimeExecute(task.targetModelId, rule.value.parameters);
                outcome := Returned(report);
              case External(run) =>
                outcome := run(task.targetModelId, rule.value.parameters);
            }
            match outcome {
              case Returned(v) =>
                results := results[ruleId := v];
                kg.UpdateVerificationStatus(task.targetModelId, ruleId, v);
              case Raised(e) =>
                results := results[ruleId := FailedEntry(e)];
            }
          }
        }
        i := i + 1;
      }
      assert task.ruleIds[..|task.ruleIds|] == task.ruleIds;
      var _ := scheduler.CompleteTask(task, results);
    }

    /**
     * run_all_tasks: runs tasks until the queue is empty; the history and the knowledge graph end
     * as the queued tasks, run front to back, leave them.
     */
    method RunAllTasks()
      modifies scheduler, kg
      ensures scheduler.queue == []
      ensures Batch(scheduler.history, kg.db)
        == RunTasks(old(scheduler.queue), old(scheduler.history), old(kg.db), ruleManager.rules, plugins)
      ensures forall id :: id in old(scheduler.history) ==> id in scheduler.history
      ensures forall t :: t in old(scheduler.queue) ==>
        t.taskId in scheduler.history && scheduler.history[t.taskId].status == Completed
    {
      while scheduler.queue != []
        invariant RunTasks(scheduler.queue, scheduler.history, kg.db, ruleManager.rules, plugins)
          == RunTasks(old(scheduler.queue), old(scheduler.history), old(kg.db), ruleManager.rules, plugins)
        decreases |scheduler.queue|
      {
        RunSingleTask();
      }
      RunTasksHistory(old(scheduler.queue), old(scheduler.history), old(kg.db), ruleManager.rules, plugins);
    }
  }
}
