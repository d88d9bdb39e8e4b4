/**
 Operator commands on dispatched tasks (internal/wmstask/command.go and service.go): START,
 SCAN, COMPLETE and FAIL against the projection that ingestion keeps, with a replay table and
 an outbox of facts. A command is two steps, because its replay lookup locks nothing when the
 row is absent: the lookup, and the apply-and-commit that the projection row lock serialises
 per task. Quantities are reals.
 */
module TaskExecution {
  import opened Results
  import opened Text
  import opened TaskFeed

  const TOLERANCE := 0.000001

  datatype State = Dispatched | Started | Completed | Failed

  datatype Actor = Actor(operator: string, device: string)

  datatype Order = Start | Scan(scanType: string, value: string) | Complete(quantity: real) | Fail(reason: string)

  datatype Command = Command(id: string, task: string, expected: int, actor: Actor, order: Order)

  datatype Error =
    | OperatorRequired | ScanTypeInvalid | ReasonRequired | CommandConflict | TaskNotFound | VersionConflict
    | AlreadyFinished | NotStarted | ScanMismatch | QuantityInvalid | ScansIncomplete(scan: string)

  /** A row of pda_task_execution. */
  datatype Execution = Execution(state: State, version: int, actor: Actor, confirmed: real, reason: string)

  /** The unique key of pda_task_scan; the scan hash is a function of type and value. */
  datatype ScanKey = ScanKey(task: string, scanType: string, value: string)

  datatype ScanRow = ScanRow(accepted: bool, actor: Actor)

  datatype Outcome = TaskStarted | TaskCompleted(quantity: real, requested: real, left: real) | TaskFailed(reason: string)

  /** A fact in the outbox: the projection columns it copies, what happened, and the scans recorded by then. */
  datatype Fact = Fact(
    task: string, version: int, taskType: string, warehouse: string, actor: Actor, outcome: Outcome,
    evidence: map<ScanKey, ScanRow>)

  /** What `requestHash` digests. */
  datatype Digest = Digest(
    task: string, commandType: string, expected: int, operator: string, quantity: real, extra: string)

  datatype TaskView = TaskView(projection: Projection, execution: Option<Execution>, completedScans: set<string>)

  datatype Done = Done(digest: Digest, result: TaskView)

  datatype Desk = Desk(
    executions: map<string, Execution>, scans: map<ScanKey, ScanRow>, commands: map<string, Done>, facts: seq<Fact>)

  // ---- What a command asks ------------------------------------------------------------------

  /** The checks and clean-up before the transaction. A nil command id has been replaced by a fresh one. */
  function Normalized(c: Command): Result<Command, Error> {
    match c.order
    case Start => if c.actor.operator == "" || c.actor.device == "" then Err(OperatorRequired) else Ok(c)
    case Scan(scanType, value) =>
      if ToUpper(Trim(scanType)) == "" || Trim(value) == "" then Err(ScanTypeInvalid)
      else Ok(c.(order := Scan(ToUpper(Trim(scanType)), Trim(value))))
    case Complete(_) => Ok(c)
    case Fail(reason) =>
      if ToUpper(Trim(reason)) == "" then Err(ReasonRequired) else Ok(c.(order := Fail(ToUpper(Trim(reason)))))
  }

  function DigestOf(c: Command): Digest {
    match c.order
    case Start => Digest(c.task, "START", c.expected, c.actor.operator, 0.0, "")
    case Scan(scanType, value) => Digest(c.task, "SCAN", c.expected, c.actor.operator, 0.0, scanType + "|" + value)
    case Complete(quantity) => Digest(c.task, "COMPLETE", c.expected, c.actor.operator, quantity, "")
    case Fail(reason) => Digest(c.task, "FAIL", c.expected, c.actor.operator, 0.0, reason)
  }

  // ---- Reading the tables -------------------------------------------------------------------

  function ExpectedValue(p: Projection, scanType: string): Option<string> {
    if scanType == "SOURCE" then Some(p.source)
    else if scanType == "DESTINATION" then Some(p.destination)
    else if scanType == "ITEM" then Some(p.revision)
    else if scanType == "LOT" then Some(p.lot)
    else None
  }

  function StateOf(desk: Desk, task: string): State {
    if task in desk.executions then desk.executions[task].state else Dispatched
  }

  predicate Finished(s: State) {
    s == Completed || s == Failed
  }

  predicate Contains(values: seq<string>, needle: string) {
    exists v <- values :: EqualFold(v, needle)
  }

  function AcceptedTypes(scans: map<ScanKey, ScanRow>, task: string): set<string> {
    set k | k in scans && k.task == task && scans[k].accepted :: k.scanType
  }

  predicate ContainsType(types: set<string>, needle: string) {
    exists v <- types :: EqualFold(v, needle)
  }

  function FirstMissing(required: seq<string>, types: set<string>): Option<string> {
    if required == [] then None
    else if FirstMissing(required[..|required| - 1], types).Some? then FirstMissing(required[..|required| - 1], types)
    else if ContainsType(types, required[|required| - 1]) then None
    else Some(required[|required| - 1])
  }

  function Evidence(scans: map<ScanKey, ScanRow>, task: string): map<ScanKey, ScanRow> {
    map k | k in scans && k.task == task :: scans[k]
  }

  function ViewOf(p: Projection, desk: Desk, task: string): TaskView {
    TaskView(p, if task in desk.executions then Some(desk.executions[task]) else None, AcceptedTypes(desk.scans, task))
  }

  // ---- The effect of a command ----------------------------------------------------------------

  function FactOf(p: Projection, desk: Desk, c: Command, outcome: Outcome): Fact {
    Fact(c.task, p.version, p.taskType, p.warehouse, c.actor, outcome,
         if outcome.TaskStarted? then map[] else Evidence(desk.scans, c.task))
  }

  function StartedRow(p: Projection, desk: Desk, c: Command): Execution {
    if c.task in desk.executions
    then desk.executions[c.task].(state := Started, version := p.version, actor := c.actor)
    else Execution(Started, p.version, c.actor, 0.0, "")
  }

  function FailedRow(p: Projection, desk: Desk, c: Command, reason: string): Execution {
    if c.task in desk.executions
    then desk.executions[c.task].(state := Failed, reason := reason, actor := c.actor)
    else Execution(Failed, p.version, c.actor, 0.0, reason)
  }

  /** INSERT INTO pda_task_scan ... ON CONFLICT DO NOTHING. */
  function Recorded(desk: Desk, c: Command, accepted: bool): Desk
    requires c.order.Scan?
  {
    var k := ScanKey(c.task, c.order.scanType, c.order.value);
    if k in desk.scans then desk else desk.(scans := desk.scans[k := ScanRow(accepted, c.actor)])
  }

  function Effect(p: Projection, desk: Desk, c: Command): Result<Desk, Error> {
    var state := StateOf(desk, c.task);
    if p.version != c.expected then Err(VersionConflict)
    else
      match c.order
      case Start =>
        if Finished(state) then Err(AlreadyFinished)
        else Ok(desk.(executions := desk.executions[c.task := StartedRow(p, desk, c)],
                      facts := desk.facts + [FactOf(p, desk, c, TaskStarted)]))
      case Scan(scanType, value) =>
        if state != Started then Err(NotStarted)
        else if !Contains(p.scans, scanType) then Err(ScanTypeInvalid)
        else if ExpectedValue(p, scanType) != Some(value) || value == "" then Err(ScanMismatch)
        else Ok(Recorded(desk, c, true))
      case Complete(quantity) =>
        if state != Started then Err(NotStarted)
        else if quantity <= 0.0 || p.remaining + TOLERANCE < quantity then Err(QuantityInvalid)
        else
          var missing := FirstMissing(p.scans, AcceptedTypes(desk.scans, c.task));
          if missing.Some? then Err(ScansIncomplete(missing.value))
          else
            Ok(desk.(executions := desk.executions[c.task := desk.executions[c.task].(state := Completed, confirmed := quantity)],
                     facts := desk.facts
                              + [FactOf(p, desk, c, TaskCompleted(quantity, p.requested, p.remaining - quantity))]))
      case Fail(reason) =>
        if Finished(state) then Err(AlreadyFinished)
        else Ok(desk.(executions := desk.executions[c.task := FailedRow(p, desk, c, reason)],
                      facts := desk.facts + [FactOf(p, desk, c, TaskFailed(reason))]))
  }

  /** The second half of `command`: load, apply, read back, and keep the result unless the id has one already. */
  function Committed(feed: Feed, desk: Desk, c: Command): Result<(Desk, TaskView), Error> {
    if c.task !in feed.projections then Err(TaskNotFound)
    else
      var p := feed.projections[c.task];
      var next :- Effect(p, desk, c);
      var result := ViewOf(p, next, c.task);
      Ok((if c.id in next.commands then next else next.(commands := next.commands[c.id := Done(DigestOf(c), result)]),
          result))
  }

  /** The first half: a stored id answers, or refuses another request under the same id; None goes on. */
  function Lookup(desk: Desk, c: Command): Option<Result<TaskView, Error>> {
    if c.id !in desk.commands then None
    else if desk.commands[c.id].digest != DigestOf(c) then Some(Err(CommandConflict))
    else Some(Ok(desk.commands[c.id].result))
  }

  /** One request served without interruption: clean-up, lookup, commit, and the rejected-scan row after a mismatch. */
  function Served(feed: Feed, desk: Desk, command: Command): (Desk, Result<TaskView, Error>) {
    if Normalized(command).Err? then (desk, Err(Normalized(command).error))
    else
      var c := Normalized(command).value;
      if Lookup(desk, c).Some? then (desk, Lookup(desk, c).value)
      else
        var committed := Committed(feed, desk, c);
        if committed.Ok? then (committed.value.0, Ok(committed.value.1))
        else if committed.error == ScanMismatch && c.order.Scan? then (Recorded(desk, c, false), Err(ScanMismatch))
        else (desk, Err(committed.error))
  }

  // ---- Runs -------------------------------------------------------------------------------------

  /** Where a request stands between its statements. */
  datatype Stage = Pending(command: Command) | Rejecting(command: Command)

  datatype World = World(feed: Feed, desk: Desk, threads: map<nat, Stage>)

  const START: World := World(EMPTY, Desk(map[], map[], map[], []), map[])

  /** A delivery, one of a request's three statements, or a request that stops where it is. */
  datatype Step =
    | Deliver(message: Message) | Begin(thread: nat, command: Command) | Commit(thread: nat)
    | Note(thread: nat) | Drop(thread: nat)

  function Do(w: World, s: Step): World {
    match s
    case Deliver(m) => w.(feed := Process(w.feed, m))
    case Begin(t, c) =>
      if t in w.threads || Normalized(c).Err? || Lookup(w.desk, Normalized(c).value).Some? then w
      else w.(threads := w.threads[t := Pending(Normalized(c).value)])
    case Commit(t) =>
      if !Waits(w, t) then w
      else
        var c := w.threads[t].command;
        var committed := Committed(w.feed, w.desk, c);
        if committed.Ok? then World(w.feed, committed.value.0, w.threads - {t})
        else if committed.error == ScanMismatch then w.(threads := w.threads[t := Rejecting(c)])
        else w.(threads := w.threads - {t})
    case Note(t) =>
      if t !in w.threads || !w.threads[t].Rejecting? || !w.threads[t].command.order.Scan? then w
      else World(w.feed, Recorded(w.desk, w.threads[t].command, false), w.threads - {t})
    case Drop(t) => w.(threads := w.threads - {t})
  }

  predicate Waits(w: World, t: nat) {
    t in w.threads && w.threads[t].Pending?
  }

  function Run(w: World, steps: seq<Step>): World {
    if steps == [] then w else Do(Run(w, steps[..|steps| - 1]), steps[|steps| - 1])
  }

  /** The step commits the command that thread `t` holds. */
  predicate Commits(w: World, s: Step) {
    s.Commit? && Waits(w, s.thread) && Committed(w.feed, w.desk, w.threads[s.thread].command).Ok?
  }

  function CommandOf(w: World, s: Step): Command
    requires Commits(w, s)
  {
    w.threads[s.thread].command
  }
}
