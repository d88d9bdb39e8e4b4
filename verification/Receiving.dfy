/**
 Receiving tasks and their command envelope (internal/execution/receiving/domain/receiving.go,
 application/service.go and adapters/postgres/store.go). The condition policy of a line is
 not persisted, so a loaded task accepts every condition and the model has none.
 */
module Receiving {
  import opened Results
  import opened Text
  import opened Envelopes

  datatype Error =
    | TaskNotFound | WarehouseDenied | VersionConflict | AlreadyCompleted | NotAssigned | WrongContext
    | QuantityExceeded | RemarkRequired | Incomplete | EnvelopeInvalid | ConstraintViolated

  datatype Status = New | InProgress | PartiallyCompleted | Completed

  datatype Line = Line(id: string, item: string, barcode: string, expected: int, received: int)

  /** A row of receiving_task. */
  datatype Header = Header(
    status: Status, warehouse: string, operator: Option<string>, version: int, overReceipt: bool, remarkOnVariance: bool)

  datatype Task = Task(id: string, header: Header, lines: seq<Line>)

  /** A row of receiving_line. */
  datatype Row = Row(task: string, line: Line)

  datatype Action =
    | Claim | Start | Complete
    | Confirm(line: string, barcode: string, quantity: int, remark: Option<string>)

  datatype Command = Command(id: string, key: string, task: string, base: int, actor: Actor, action: Action)

  datatype Stocked = Stocked(warehouse: string, item: string)

  datatype AuditRow = Succeeded(action: string, aggregate: string, actor: Actor)
                    | Denied(action: string, aggregate: string, actor: Actor, error: Error)

  datatype Saved = Saved(id: string, result: Task)

  /** The tables of the service; `rows` is in line_id order, as every load reads it. */
  datatype Tables = Tables(
    headers: map<string, Header>, rows: seq<Row>, balances: map<Stocked, int>,
    outbox: seq<Event>, audit: seq<AuditRow>, commands: map<string, Saved>)

  // ---- The task's transitions ---------------------------------------------------------------

  predicate AssignedTo(h: Header, operator: string) {
    h.operator == Some(operator)
  }

  function Started(t: Task, operator: string, base: int): Result<Task, Error> {
    if t.header.version != base then Err(VersionConflict)
    else if t.header.status == Completed then Err(AlreadyCompleted)
    else if !AssignedTo(t.header, operator) then Err(NotAssigned)
    else Ok(t.(header := t.header.(status := InProgress, version := t.header.version + 1)))
  }

  function Claimed(t: Task, operator: string, base: int): Result<Task, Error> {
    if t.header.version != base then Err(VersionConflict)
    else if t.header.status == Completed then Err(AlreadyCompleted)
    else if t.header.operator.Some? && !AssignedTo(t.header, operator) then Err(NotAssigned)
    else Ok(t.(header := t.header.(operator := Some(operator), status := InProgress, version := t.header.version + 1)))
  }

  /** The first line with the id, or the number of lines. */
  function IndexOf(lines: seq<Line>, id: string): (k: nat)
    ensures k <= |lines|
    ensures k < |lines| ==> lines[k].id == id
    ensures forall j :: 0 <= j < k ==> lines[j].id != id
  {
    if lines == [] then 0
    else
      var k := IndexOf(lines[..|lines| - 1], id);
      if k < |lines| - 1 then k else if lines[k].id == id then k else |lines|
  }

  function LineChecked(h: Header, l: Line, barcode: string, quantity: int, remark: Option<string>): Option<Error> {
    if l.barcode != barcode then Some(WrongContext)
    else if quantity <= 0 || (l.expected - l.received < quantity && !h.overReceipt) then Some(QuantityExceeded)
    else if h.remarkOnVariance && quantity != l.expected - l.received && (remark.None? || Blank(remark.value))
    then Some(RemarkRequired)
    else None
  }

  function Confirmed(
      t: Task, operator: string, line: string, barcode: string, quantity: int, remark: Option<string>, base: int)
    : Result<Task, Error>
  {
    if t.header.version != base then Err(VersionConflict)
    else if t.header.status == Completed then Err(AlreadyCompleted)
    else if !AssignedTo(t.header, operator) then Err(NotAssigned)
    else
      var k := IndexOf(t.lines, line);
      if k == |t.lines| then Err(WrongContext)
      else
        var l := t.lines[k];
        var e := LineChecked(t.header, l, barcode, quantity, remark);
        if e.Some? then Err(e.value)
        else Ok(t.(header := t.header.(status := PartiallyCompleted, version := t.header.version + 1),
                   lines := t.lines[k := l.(received := l.received + quantity)]))
  }

  predicate Full(lines: seq<Line>) {
    forall l <- lines :: l.expected <= l.received
  }

  /** `Complete` does not look at the status, so a completed task can be completed again. */
  function CompletedOnce(t: Task, operator: string, base: int): Result<Task, Error> {
    if t.header.version != base then Err(VersionConflict)
    else if !AssignedTo(t.header, operator) then Err(NotAssigned)
    else if !Full(t.lines) then Err(Incomplete)
    else Ok(t.(header := t.header.(status := Completed, version := t.header.version + 1)))
  }

  function Transition(t: Task, action: Action, operator: string, base: int): Result<Task, Error> {
    match action
    case Claim => Claimed(t, operator, base)
    case Start => Started(t, operator, base)
    case Complete => CompletedOnce(t, operator, base)
    case Confirm(line, barcode, quantity, remark) => Confirmed(t, operator, line, barcode, quantity, remark, base)
  }

  // ---- Statements -----------------------------------------------------------------------------

  /** SELECT ... FROM receiving_line WHERE task_id = id ORDER BY line_id. */
  function LinesOf(rows: seq<Row>, id: string): seq<Line> {
    if rows == [] then []
    else
      var last := rows[|rows| - 1];
      LinesOf(rows[..|rows| - 1], id) + if last.task == id then [last.line] else []
  }

  function Load(db: Tables, id: string): Task
    requires id in db.headers
  {
    Task(id, db.headers[id], LinesOf(db.rows, id))
  }

  function Updated(r: Row, l: Line): Row {
    if r.line.id == l.id then r.(line := r.line.(received := l.received)) else r
  }

  /** UPDATE receiving_line SET received_quantity = ... WHERE line_id = ... */
  function UpdateLine(rows: seq<Row>, l: Line): seq<Row> {
    seq(|rows|, p requires 0 <= p < |rows| => Updated(rows[p], l))
  }

  function UpdateLines(rows: seq<Row>, lines: seq<Line>): seq<Row> {
    if lines == [] then rows else UpdateLine(UpdateLines(rows, lines[..|lines| - 1]), lines[|lines| - 1])
  }

  function Save(db: Tables, t: Task): Tables {
    db.(headers := db.headers[t.id := t.header], rows := UpdateLines(db.rows, t.lines))
  }

  function Balance(balances: map<Stocked, int>, s: Stocked): int {
    if s in balances then balances[s] else 0
  }

  // ---- The envelope ---------------------------------------------------------------------------

  function EventType(a: Action): string {
    match a
    case Claim => "ReceivingTaskClaimed"
    case Start => "ReceivingTaskStarted"
    case Confirm(_, _, _, _) => "ReceivingQuantityConfirmed"
    case Complete => "ReceivingTaskCompleted"
  }

  /** The goods a confirmed line adds to the balance of its item. */
  function Receive(balances: map<Stocked, int>, t: Task, a: Action): map<Stocked, int> {
    if !a.Confirm? || IndexOf(t.lines, a.line) == |t.lines| then balances
    else
      var s := Stocked(t.header.warehouse, t.lines[IndexOf(t.lines, a.line)].item);
      balances[s := Balance(balances, s) + a.quantity]
  }

  /**
   The tables after a command: its task and lines, its stock effect, and one row each in the outbox, the audit
   log and the command table.
   */
  function Stored(db: Tables, c: Command, t: Task): Tables {
    Save(db, t).(
      balances := Receive(db.balances, t, c.action),
      outbox := db.outbox + [Event(EventType(c.action), t.id, t.header.version, c.id, c.actor)],
      audit := db.audit + [Succeeded(EventType(c.action), t.id, c.actor)],
      commands := db.commands[c.key := Saved(c.id, t)])
  }

  function Executed(db: Tables, c: Command): Result<(Tables, Task), Error> {
    if c.task !in db.headers then Err(TaskNotFound)
    else if db.headers[c.task].warehouse != c.actor.warehouse then Err(WarehouseDenied)
    else
      var t :- Transition(Load(db, c.task), c.action, c.actor.operator, c.base);
      if !EnvelopeValid(c.id, t.id, t.header.version, c.actor) then Err(EnvelopeInvalid)
      else if exists k <- db.commands :: db.commands[k].id == c.id then Err(ConstraintViolated)
      else
        Ok((Stored(db, c, t), t))
  }

  /**
   One command. A known key answers whatever was stored, without looking at who asks; an error leaves one audit
   row.
   */
  function Mutate(db: Tables, c: Command): (Tables, Result<Task, Error>) {
    if c.key in db.commands then (db, Ok(db.commands[c.key].result))
    else
      match Executed(db, c)
      case Ok((next, t)) => (next, Ok(t))
      case Err(e) => (db.(audit := db.audit + [Denied(EventType(c.action), c.task, c.actor, e)]), Err(e))
  }

  function Run(db: Tables, commands: seq<Command>): Tables {
    if commands == [] then db else Mutate(Run(db, commands[..|commands| - 1]), commands[|commands| - 1]).0
  }

  predicate Commits(db: Tables, c: Command) {
    c.key !in db.commands && Mutate(db, c).1.Ok?
  }
}
