/**
 Movement tasks and the idempotent command envelope around them
 (internal/execution/movement/domain/movement.go, application/services.go and
 adapters/postgres/store.go), with stock transfers (internal/inventory/application/service.go)
 over the same tables. A task has the persisted columns only: lot, LPN and bin fields load empty.
 */
module MovementTasks {
  import opened Results
  import opened Envelopes
  import opened QueueRows
  import opened Text
  import opened StockSnapshots
  import opened StockTables

  datatype Status = New | Assigned | InProgress | PartiallyCompleted | Completed

  datatype Task = Task(
    id: string, workflow: Workflow, status: Status, warehouse: string, operator: Option<string>, version: int,
    source: string, destination: string, item: string, barcode: string, required: int, completed: int,
    sourceValidated: bool, destinationValidated: bool, itemValidated: bool)

  datatype Action =
    | Claim | Start
    | ValidateSource(value: string) | ValidateLpn(value: string) | ValidateDestination(value: string)
    | ValidateItem(barcode: string) | ValidateLot(lot: string)
    | Confirm(quantity: int) | ConfirmGroup | Complete

  datatype Command = Command(
    id: string, key: string, workflow: Workflow, task: string, base: int, actor: Actor, action: Action)

  datatype TransferCommand = TransferCommand(
    id: string, key: string, actor: Actor, source: string, destination: string, item: string, quantity: int)

  datatype AuditRow = AuditRow(action: string, aggregate: string, actor: Actor)

  /** A row of movement_command_status: the context the key belongs to and the task as first returned. */
  datatype Saved = Saved(id: string, workflow: Workflow, warehouse: string, operator: string, result: Task)

  /** The answer to a transfer: its ledger row, and the balances shown for its two places before and after. */
  datatype Receipt = Receipt(
    row: Movement, beforeSource: Option<Shown>, beforeDestination: Option<Shown>,
    afterSource: Option<Shown>, afterDestination: Option<Shown>)

  datatype SavedTransfer = SavedTransfer(id: string, warehouse: string, operator: string, result: Receipt)

  datatype Tables = Tables(
    tasks: map<string, Task>, queue: map<string, Queued>, stock: Stock, outbox: seq<Event>, audit: seq<AuditRow>,
    commands: map<string, Saved>, transfers: map<string, SavedTransfer>)

  datatype Request = Mutation(command: Command) | Transfers(transfer: TransferCommand)

  datatype Reply = TaskReply(task: Task) | TransferReply(receipt: Receipt)

  // ---- The task's transitions ---------------------------------------------------------------

  function Remaining(t: Task): int {
    t.required - t.completed
  }

  /** `guard`: the version, the operator, and a started task. */
  function Guard(t: Task, operator: string, base: int): Result<Task, Error> {
    if t.version != base then Err(VersionConflict)
    else if t.operator != Some(operator) then Err(NotAssigned)
    else if t.status != InProgress && t.status != PartiallyCompleted then Err(NotInProgress)
    else Ok(t)
  }

  predicate Matches(value: string, candidate: string) {
    candidate != "" && EqualFold(Trim(value), Trim(candidate))
  }

  function Claimed(t: Task, operator: string, base: int): Result<Task, Error> {
    if t.version != base then Err(VersionConflict)
    else if t.operator.Some? && t.operator.value != operator then Err(NotAssigned)
    else if t.operator.Some? && t.status == Assigned then Ok(t)
    else Ok(t.(operator := Some(operator), status := Assigned, version := t.version + 1))
  }

  function Started(t: Task, operator: string, base: int): Result<Task, Error> {
    if t.version != base then Err(VersionConflict)
    else if t.operator != Some(operator) then Err(NotAssigned)
    else if t.status == InProgress then Ok(t)
    else if t.status != Assigned then Err(NotStartable)
    else Ok(t.(status := InProgress, version := t.version + 1))
  }

  function SourceChecked(t: Task, operator: string, value: string, base: int): Result<Task, Error> {
    var g :- Guard(t, operator, base);
    if !Matches(value, g.source) then Err(SourceInvalid)
    else Ok(g.(sourceValidated := true, version := g.version + 1))
  }

  function DestinationChecked(t: Task, operator: string, value: string, base: int): Result<Task, Error> {
    var g :- Guard(t, operator, base);
    if !g.sourceValidated then Err(SequenceInvalid)
    else if !Matches(value, g.destination) then Err(DestinationInvalid)
    else Ok(g.(destinationValidated := true, version := g.version + 1))
  }

  function ItemChecked(t: Task, operator: string, barcode: string, base: int): Result<Task, Error> {
    var g :- Guard(t, operator, base);
    if !g.sourceValidated || (g.workflow == Replenishment && !g.destinationValidated) then Err(SequenceInvalid)
    else if barcode != g.barcode then Err(ItemInvalid)
    else Ok(g.(itemValidated := true, version := g.version + 1))
  }

  /** The loaded task has no lot, so any lot is accepted. */
  function LotChecked(t: Task, operator: string, base: int): Result<Task, Error> {
    var g :- Guard(t, operator, base);
    if !g.sourceValidated || !g.itemValidated then Err(SequenceInvalid)
    else Ok(g.(status := InProgress, version := g.version + 1))
  }

  function Moved(t: Task, operator: string, quantity: int, base: int): Result<Task, Error> {
    var g :- Guard(t, operator, base);
    if !g.sourceValidated || !g.destinationValidated || (g.workflow != Picking && !g.itemValidated) then Err(SequenceInvalid)
    else if quantity <= 0 || Remaining(g) < quantity then Err(QuantityExceeded)
    else Ok(g.(completed := g.completed + quantity, version := g.version + 1,
               status := if Remaining(g) == quantity then Completed else PartiallyCompleted))
  }

  /** `ConfirmGroup` checks the status and nothing else. */
  function GroupConfirmed(t: Task): Result<Task, Error> {
    if t.status != PartiallyCompleted then Err(Incomplete)
    else Ok(t.(status := Completed, version := t.version + 1))
  }

  function PickCompleted(t: Task, operator: string, base: int): Result<Task, Error> {
    if Remaining(t) != 0 then Err(Incomplete)
    else
      var g :- Guard(t, operator, base);
      Ok(g.(status := Completed, version := g.version + 1))
  }

  function Transition(t: Task, action: Action, operator: string, base: int): Result<Task, Error> {
    match action
    case Claim => Claimed(t, operator, base)
    case Start => Started(t, operator, base)
    case ValidateSource(value) => SourceChecked(t, operator, value, base)
    case ValidateLpn(value) => SourceChecked(t, operator, value, base)
    case ValidateDestination(value) => DestinationChecked(t, operator, value, base)
    case ValidateItem(barcode) => ItemChecked(t, operator, barcode, base)
    case ValidateLot(_) => LotChecked(t, operator, base)
    case Confirm(quantity) => Moved(t, operator, quantity, base)
    case ConfirmGroup => GroupConfirmed(t)
    case Complete => PickCompleted(t, operator, base)
  }

  // ---- The envelope ---------------------------------------------------------------------------

  /** The event of each command the three services offer; None for a command that a service does not have. */
  function EventType(w: Workflow, a: Action): Option<string> {
    match w
    case Putaway => (
      match a
      case Claim => Some("PutawayTaskClaimed")
      case Start => Some("PutawayTaskStarted")
      case ValidateSource(_) => Some("PutawayTaskStarted")
      case ValidateLpn(_) => Some("PutawayLPNValidated")
      case ValidateItem(_) => Some("PutawayItemValidated")
      case ValidateLot(_) => Some("PutawayLotValidated")
      case ValidateDestination(_) => Some("PutawayDestinationValidated")
      case Confirm(_) => Some("InventoryMoved")
      case ConfirmGroup => Some("PutawayGroupCompleted")
      case Complete => None)
    case Picking => (
      match a
      case Claim => Some("PickingTaskClaimed")
      case Start => Some("PickingTaskStarted")
      case ValidateSource(_) => Some("PickingTaskStarted")
      case ValidateItem(_) => Some("PickingBarcodeResolved")
      case ValidateLot(_) => Some("PickingLotValidated")
      case ValidateDestination(_) => Some("PickingDestinationValidated")
      case Confirm(_) => Some("PickConfirmed")
      case Complete => Some("PickingTaskCompleted")
      case ValidateLpn(_) => None
      case ConfirmGroup => None)
    case Replenishment => (
      match a
      case ValidateSource(_) => Some("ReplenishmentSourceValidated")
      case ValidateDestination(_) => Some("ReplenishmentDestinationValidated")
      case ValidateItem(_) => Some("ReplenishmentItemValidated")
      case Confirm(_) => Some("InventoryMoved")
      case _ => None)
  }

  function QuantityOf(a: Action): int {
    if a.Confirm? then a.quantity else 0
  }

  /** The ledger row of a task that has just moved `quantity`. */
  function RowOf(t: Task, quantity: int): Movement {
    Movement(None, t.id, MovedBy(t.workflow), t.warehouse, t.item, t.source, t.destination, quantity, t.version)
  }

  /** A key that is already in the command table: the stored result, if the context is the same. */
  function Replayed(saved: Saved, c: Command): Result<Task, Error> {
    if saved.workflow != c.workflow || saved.warehouse != c.actor.warehouse || saved.operator != c.actor.operator
       || saved.result.id != c.task
    then Err(KeyReused)
    else Ok(saved.result)
  }

  /** The stock effect of a command: check, then apply. */
  function MoveStock(st: Stock, t: Task, quantity: int): Result<Stock, Error> {
    if quantity <= 0 then Ok(st)
    else
      var checked :- CheckMove(st, RowOf(t, quantity));
      ApplyMove(checked, RowOf(t, quantity))
  }

  function StatusName(s: Status): string {
    match s
    case New => "NEW"
    case Assigned => "ASSIGNED"
    case InProgress => "IN_PROGRESS"
    case PartiallyCompleted => "PARTIALLY_COMPLETED"
    case Completed => "COMPLETED"
  }

  /** The queue row of a task follows the task. */
  function Mirrored(queue: map<string, Queued>, id: string, t: Task): map<string, Queued> {
    Updated(queue, id, StatusName(t.status), t.operator, t.version)
  }

  /**
   The tables after a command: its task, its queue row, its stock effect, and one row each in the outbox, the
   audit log and the command table.
   */
  function Stored(db: Tables, c: Command, eventType: string, t: Task, stock: Stock): Tables {
    db.(tasks := db.tasks[c.task := t], queue := Mirrored(db.queue, c.task, t), stock := stock,
        outbox := db.outbox + [Event(eventType, t.id, t.version, c.id, c.actor)],
        audit := db.audit + [AuditRow(eventType, t.id, c.actor)],
        commands := db.commands[c.key := Saved(c.id, c.workflow, c.actor.warehouse, c.actor.operator, t)])
  }

  /** The rest of the transaction once the task has changed to `t`: the stock, the envelope, and the rows. */
  function Settled(db: Tables, c: Command, eventType: string, t: Task): Result<(Tables, Task), Error> {
    var stock :- MoveStock(db.stock, t, QuantityOf(c.action));
    if !EnvelopeValid(c.id, t.id, t.version, c.actor) then Err(EnvelopeInvalid)
    else if exists k <- db.commands :: db.commands[k].id == c.id then Err(ConstraintViolated)
    else Ok((Stored(db, c, eventType, t, stock), t))
  }

  /** The transaction of a key that is not in the command table. */
  function Executed(db: Tables, c: Command): Result<(Tables, Task), Error> {
    var eventType := EventType(c.workflow, c.action);
    if eventType.None? then Err(NotOffered)
    else if c.task !in db.tasks || db.tasks[c.task].workflow != c.workflow then Err(TaskNotFound)
    else if db.tasks[c.task].warehouse != c.actor.warehouse then Err(WarehouseDenied)
    else
      var t :- Transition(db.tasks[c.task], c.action, c.actor.operator, c.base);
      Settled(db, c, eventType.value, t)
  }

  function Mutate(db: Tables, c: Command): (Tables, Result<Task, Error>) {
    if c.key in db.commands then (db, Replayed(db.commands[c.key], c))
    else
      match Executed(db, c)
      case Ok((next, t)) => (next, Ok(t))
      case Err(e) => (db, Err(e))
  }

  function TransferRow(x: TransferCommand): Movement {
    Movement(Some(x.id), x.id, Transferred, x.actor.warehouse, x.item, x.source, x.destination, x.quantity, 1)
  }

  function ReceiptOf(m: Movement, before: map<Slot, int>, after: map<Slot, int>): Receipt {
    Receipt(m, Snapshot(before, m.From()), Snapshot(before, m.To()), Snapshot(after, m.From()), Snapshot(after, m.To()))
  }

  function ExecutedTransfer(db: Tables, x: TransferCommand): Result<(Tables, Receipt), Error> {
    var m := TransferRow(x);
    var checked :- ValidateLocations(db.stock, m);
    var stock :- Transfer(checked, m);
    var receipt := ReceiptOf(m, db.stock.balances, stock.balances);
    if !EnvelopeValid(x.id, x.id, 1, x.actor) then Err(EnvelopeInvalid)
    else if exists k <- db.transfers :: db.transfers[k].id == x.id then Err(ConstraintViolated)
    else
      Ok((db.(
            stock := stock,
            outbox := db.outbox + [Event("StockTransferConfirmed", x.id, 1, x.id, x.actor)],
            audit := db.audit + [AuditRow("StockTransferConfirmed", x.id, x.actor)],
            transfers := db.transfers[x.key := SavedTransfer(x.id, x.actor.warehouse, x.actor.operator, receipt)]),
          receipt))
  }

  function ReplayedTransfer(saved: SavedTransfer, x: TransferCommand): Result<Receipt, Error> {
    if saved.warehouse != x.actor.warehouse || saved.operator != x.actor.operator then Err(KeyReused) else Ok(saved.result)
  }

  function TransferStock(db: Tables, x: TransferCommand): (Tables, Result<Receipt, Error>) {
    if x.key in db.transfers then (db, ReplayedTransfer(db.transfers[x.key], x))
    else
      match ExecutedTransfer(db, x)
      case Ok((next, receipt)) => (next, Ok(receipt))
      case Err(e) => (db, Err(e))
  }

  function Step(db: Tables, r: Request): (Tables, Result<Reply, Error>) {
    match r
    case Mutation(c) =>
      var (next, reply) := Mutate(db, c);
      (next, if reply.Ok? then Ok(TaskReply(reply.value)) else Err(reply.error))
    case Transfers(x) =>
      var (next, reply) := TransferStock(db, x);
      (next, if reply.Ok? then Ok(TransferReply(reply.value)) else Err(reply.error))
  }

  function Run(db: Tables, requests: seq<Request>): Tables {
    if requests == [] then db else Step(Run(db, requests[..|requests| - 1]), requests[|requests| - 1]).0
  }

  /** The idempotency key of the request is already committed. */
  predicate Seen(db: Tables, r: Request) {
    match r
    case Mutation(c) => c.key in db.commands
    case Transfers(x) => x.key in db.transfers
  }

  /** The request commits a new effect. */
  predicate Commits(db: Tables, r: Request) {
    !Seen(db, r) && Step(db, r).1.Ok?
  }
}
