/**
 The movement and transfer services as they run: a task object whose methods change its
 fields, and the database whose tables one transaction updates statement by statement.
 Each method is proved against the functions of MovementTasks and Stock.
 */
module MovementService {
  import opened Envelopes
  import opened QueueRows
  import opened Results
  import Spec = MovementTasks
  import opened StockSnapshots
  import opened StockTables
  import opened MovementTasks

  /** A call that follows `spec`: the row it gives and no error, or its error and an untouched row. */
  ghost predicate Did(before: Task, after: Task, spec: Result<Task, Error>, e: Option<Error>) {
    match spec
    case Ok(t) => e == None && after == t
    case Err(x) => e == Some(x) && after == before
  }

  ghost function ErrorOf(spec: Result<Stock, Error>): Option<Error> {
    if spec.Err? then Some(spec.error) else None
  }

  /** A statement that follows `spec`: its new tables, or its error (and the caller rolls back). */
  ghost predicate Follows(after: Stock, spec: Result<Stock, Error>, e: Option<Error>) {
    e == ErrorOf(spec) && (spec.Ok? ==> after == spec.value)
  }

  class MovementTask {
    const id: string
    const workflow: Workflow
    var status: Status
    const warehouse: string
    var operator: Option<string>
    var version: int
    const source: string
    const destination: string
    const item: string
    const barcode: string
    const required: int
    var completed: int
    var sourceValidated: bool
    var destinationValidated: bool
    var itemValidated: bool

    function Row(): Task
      reads this
    {
      Task(id, workflow, status, warehouse, operator, version, source, destination, item, barcode, required, completed,
           sourceValidated, destinationValidated, itemValidated)
    }

    constructor (row: Task)
      ensures Row() == row
    {
      id, workflow, status, warehouse, operator := row.id, row.workflow, row.status, row.warehouse, row.operator;
      version, source, destination, item, barcode := row.version, row.source, row.destination, row.item, row.barcode;
      required, completed := row.required, row.completed;
      sourceValidated, destinationValidated, itemValidated :=
        row.sourceValidated, row.destinationValidated, row.itemValidated;
    }

    method Guard(actor: string, base: int) returns (e: Option<Error>)
      ensures Did(Row(), Row(), Spec.Guard(Row(), actor, base), e)
    {
      if version != base {
        return Some(VersionConflict);
      }
      if operator.None? || operator.value != actor {
        return Some(NotAssigned);
      }
      if status != InProgress && status != PartiallyCompleted {
        return Some(NotInProgress);
      }
      return None;
    }

    method Claim(actor: string, base: int) returns (e: Option<Error>)
      modifies this
      ensures Did(old(Row()), Row(), Claimed(old(Row()), actor, base), e)
    {
      if version != base {
        return Some(VersionConflict);
      }
      if operator.Some? && operator.value != actor {
        return Some(NotAssigned);
      }
      if operator.Some? && status == Assigned {
        return None;
      }
      operator := Some(actor);
      status := Assigned;
      version := version + 1;
      return None;
    }

    method Start(actor: string, base: int) returns (e: Option<Error>)
      modifies this
      ensures Did(old(Row()), Row(), Started(old(Row()), actor, base), e)
    {
      if version != base {
        return Some(VersionConflict);
      }
      if operator.None? || operator.value != actor {
        return Some(NotAssigned);
      }
      if status == InProgress {
        return None;
      }
      if status != Assigned {
        return Some(NotStartable);
      }
      status := InProgress;
      version := version + 1;
      return None;
    }

    method ValidateSource(actor: string, value: string, base: int) returns (e: Option<Error>)
      modifies this
      ensures Did(old(Row()), Row(), SourceChecked(old(Row()), actor, value, base), e)
    {
      e := Guard(actor, base);
      if e.Some? {
        return;
      }
      if !Matches(value, source) {
        return Some(SourceInvalid);
      }
      sourceValidated := true;
      version := version + 1;
    }

    method ValidateDestination(actor: string, value: string, base: int) returns (e: Option<Error>)
      modifies this
      ensures Did(old(Row()), Row(), DestinationChecked(old(Row()), actor, value, base), e)
    {
      e := Guard(actor, base);
      if e.Some? {
        return;
      }
      if !sourceValidated {
        return Some(SequenceInvalid);
      }
      if !Matches(value, destination) {
        return Some(DestinationInvalid);
      }
      destinationValidated := true;
      version := version + 1;
    }

    method ValidateItem(actor: string, scanned: string, base: int) returns (e: Option<Error>)
      modifies this
      ensures Did(old(Row()), Row(), ItemChecked(old(Row()), actor, scanned, base), e)
    {
      e := Guard(actor, base);
      if e.Some? {
        return;
      }
      if !sourceValidated || (workflow == Replenishment && !destinationValidated) {
        return Some(SequenceInvalid);
      }
      if scanned != barcode {
        return Some(ItemInvalid);
      }
      itemValidated := true;
      version := version + 1;
    }

    method ValidateLot(actor: string, base: int) returns (e: Option<Error>)
      modifies this
      ensures Did(old(Row()), Row(), LotChecked(old(Row()), actor, base), e)
    {
      e := Guard(actor, base);
      if e.Some? {
        return;
      }
      if !sourceValidated || !itemValidated {
        return Some(SequenceInvalid);
      }
      status := InProgress;
      version := version + 1;
    }

    method Move(actor: string, quantity: int, base: int) returns (e: Option<Error>)
      modifies this
      ensures Did(old(Row()), Row(), Moved(old(Row()), actor, quantity, base), e)
    {
      e := Guard(actor, base);
      if e.Some? {
        return;
      }
      if !sourceValidated || !destinationValidated || (workflow != Picking && !itemValidated) {
        return Some(SequenceInvalid);
      }
      if quantity <= 0 || required - completed < quantity {
        return Some(QuantityExceeded);
      }
      completed := completed + quantity;
      version := version + 1;
      if required - completed == 0 {
        status := Completed;
      } else {
        status := PartiallyCompleted;
      }
    }

    method ConfirmGroup() returns (e: Option<Error>)
      modifies this
      ensures Did(old(Row()), Row(), GroupConfirmed(old(Row())), e)
    {
      if status != PartiallyCompleted {
        return Some(Incomplete);
      }
      status := Completed;
      version := version + 1;
      return None;
    }

    method Complete(actor: string, base: int) returns (e: Option<Error>)
      modifies this
      ensures Did(old(Row()), Row(), PickCompleted(old(Row()), actor, base), e)
    {
      if required - completed != 0 {
        return Some(Incomplete);
      }
      e := Guard(actor, base);
      if e.Some? {
        return;
      }
      status := Completed;
      version := version + 1;
    }

    method Perform(action: Action, actor: string, base: int) returns (e: Option<Error>)
      modifies this
      ensures Did(old(Row()), Row(), Transition(old(Row()), action, actor, base), e)
    {
      match action {
        case Claim => e := Claim(actor, base);
        case Start => e := Start(actor, base);
        case ValidateSource(value) => e := ValidateSource(actor, value, base);
        case ValidateLpn(value) => e := ValidateSource(actor, value, base);
        case ValidateDestination(value) => e := ValidateDestination(actor, value, base);
        case ValidateItem(scanned) => e := ValidateItem(actor, scanned, base);
        case ValidateLot(_) => e := ValidateLot(actor, base);
        case Confirm(quantity) => e := Move(actor, quantity, base);
        case ConfirmGroup => e := ConfirmGroup();
        case Complete => e := Complete(actor, base);
      }
    }
  }

  lemma {:induction false} FirstMoves(seen: set<Slot>, s: Slot, first: Option<Slot>)
    requires first.None? ==> seen == {}
    requires first.Some? ==> IsFirst(first.value, seen) && SortsBefore(s, first.value)
    ensures IsFirst(s, seen + {s})
  {
    forall x | x in seen && first.Some? && x != first.value
      ensures SortsBefore(s, x)
    {
      SortIsTransitive(s, first.value, x);
    }
  }

  class Database {
    var tasks: map<string, Task>
    var queue: map<string, Queued>
    var balances: map<Slot, int>
    var locations: map<Place, Location>
    var ledger: seq<Movement>
    var outbox: seq<Event>
    var audit: seq<AuditRow>
    var commands: map<string, Saved>
    var transfers: map<string, SavedTransfer>

    function StockView(): Stock
      reads this
    {
      Stock(balances, locations, ledger)
    }

    function View(): Tables
      reads this
    {
      Tables(tasks, queue, StockView(), outbox, audit, commands, transfers)
    }

    constructor (db: Tables)
      ensures View() == db
    {
      tasks, queue := db.tasks, db.queue;
      balances, locations, ledger := db.stock.balances, db.stock.locations, db.stock.ledger;
      outbox, audit, commands, transfers := db.outbox, db.audit, db.commands, db.transfers;
    }

    // ---- Statements -----------------------------------------------------------------------

    method CheckMove(m: Movement) returns (e: Option<Error>)
      ensures e == ErrorOf(StockTables.CheckMove(StockView(), m))
    {
      if m.From() !in balances || balances[m.From()] < m.quantity {
        return Some(InsufficientStock);
      }
      if m.ToPlace() !in locations {
        return Some(DestinationInvalid);
      }
      var place := locations[m.ToPlace()];
      if place.compatible.Some? && place.compatible.value != m.item {
        return Some(CapacityExceeded);
      }
      if place.capacity - place.used < m.quantity {
        return Some(CapacityExceeded);
      }
      return None;
    }

    method Take(slot: Slot, q: int) returns (e: Option<Error>)
      modifies this`balances
      ensures Follows(StockView(), StockTables.Take(old(StockView()), slot, q), e)
    {
      if slot !in balances || balances[slot] < q {
        return Some(InsufficientStock);
      }
      balances := balances[slot := balances[slot] - q];
      return None;
    }

    method Put(slot: Slot, q: int) returns (e: Option<Error>)
      modifies this`balances
      ensures Follows(StockView(), StockTables.Put(old(StockView()), slot, q), e)
    {
      if q < 0 {
        return Some(ConstraintViolated);
      }
      if slot in balances {
        balances := balances[slot := balances[slot] + q];
      } else {
        balances := balances[slot := q];
      }
      return None;
    }

    method Occupy(place: Place, d: int) returns (e: Option<Error>)
      modifies this`locations
      ensures Follows(StockView(), StockTables.Occupy(old(StockView()), place, d), e)
    {
      if place in locations {
        var row := locations[place];
        if row.used + d < 0 {
          return Some(ConstraintViolated);
        }
        locations := locations[place := row.(used := row.used + d)];
      }
      return None;
    }

    method Record(m: Movement) returns (e: Option<Error>)
      modifies this`ledger
      ensures Follows(StockView(), StockTables.Record(old(StockView()), m), e)
    {
      if m.quantity <= 0
         || (exists r <- ledger :: (r.task == m.task && r.version == m.version) || (m.id.Some? && r.id == m.id))
      {
        return Some(ConstraintViolated);
      }
      ledger := ledger + [m];
      return None;
    }

    /** The five statements of a move; on an error the caller rolls the transaction back. */
    method ApplyMove(m: Movement) returns (e: Option<Error>)
      modifies this`balances, this`locations, this`ledger
      ensures Follows(StockView(), StockTables.ApplyMove(old(StockView()), m), e)
    {
      e := Take(m.From(), m.quantity);
      if e.Some? { return; }
      e := Put(m.To(), m.quantity);
      if e.Some? { return; }
      e := Occupy(m.FromPlace(), -m.quantity);
      if e.Some? { return; }
      e := Occupy(m.ToPlace(), m.quantity);
      if e.Some? { return; }
      e := Record(m);
    }

    method ValidateLocations(m: Movement) returns (e: Option<Error>)
      ensures e == ErrorOf(StockTables.ValidateLocations(StockView(), m))
    {
      if m.source == m.destination {
        return Some(SameLocation);
      }
      if m.From() !in balances {
        return Some(SourceInvalid);
      }
      if balances[m.From()] < m.quantity {
        return Some(InsufficientStock);
      }
      if m.ToPlace() !in locations {
        return Some(DestinationInvalid);
      }
      return None;
    }

    method Transfer(m: Movement) returns (e: Option<Error>)
      modifies this`balances, this`ledger
      ensures Follows(StockView(), StockTables.Transfer(old(StockView()), m), e)
    {
      e := Take(m.From(), m.quantity);
      if e.Some? { return; }
      e := Put(m.To(), m.quantity);
      if e.Some? { return; }
      e := Record(m);
    }

    method Save(id: string, t: Task) returns (e: Option<Error>)
      modifies this`tasks, this`queue
      ensures id in old(tasks) ==> e == None && tasks == old(tasks)[id := t] && queue == Mirrored(old(queue), id, t)
      ensures id !in old(tasks) ==> e == Some(TaskNotFound) && tasks == old(tasks) && queue == old(queue)
    {
      if id !in tasks {
        return Some(TaskNotFound);
      }
      tasks := tasks[id := t];
      if id in queue {
        queue := queue[id := queue[id].(status := StatusName(t.status), operator := t.operator, version := t.version)];
      }
      return None;
    }

    // ---- Transactions -----------------------------------------------------------------------

    /** The writes of a command after its task has been loaded and changed. */
    method Store(c: Command, eventType: string, t: Task) returns (e: Option<Error>)
      requires c.task in tasks
      modifies this
      ensures match MoveStock(old(StockView()), t, QuantityOf(c.action))
              case Err(x) => e == Some(x)
              case Ok(stock) =>
                if !EnvelopeValid(c.id, t.id, t.version, c.actor) then e == Some(EnvelopeInvalid)
                else if exists k <- old(commands) :: old(commands)[k].id == c.id then e == Some(ConstraintViolated)
                else e == None && View() == old(View()).(
                       tasks := old(tasks)[c.task := t], queue := Mirrored(old(queue), c.task, t), stock := stock,
                       outbox := old(outbox) + [Event(eventType, t.id, t.version, c.id, c.actor)],
                       audit := old(audit) + [AuditRow(eventType, t.id, c.actor)],
                       commands := old(commands)[c.key := Saved(c.id, c.workflow, c.actor.warehouse, c.actor.operator, t)])
    {
      var quantity := QuantityOf(c.action);
      if 0 < quantity {
        e := CheckMove(RowOf(t, quantity));
        if e.Some? { return; }
      }
      e := Save(c.task, t);
      if 0 < quantity {
        e := ApplyMove(RowOf(t, quantity));
        if e.Some? { return; }
      }
      e := Log(c, eventType, t);
    }

    /** The outbox, audit and command rows of a command. */
    method Log(c: Command, eventType: string, t: Task) returns (e: Option<Error>)
      modifies this`outbox, this`audit, this`commands
      ensures e == if !EnvelopeValid(c.id, t.id, t.version, c.actor) then Some(EnvelopeInvalid)
                   else if exists k <- old(commands) :: old(commands)[k].id == c.id then Some(ConstraintViolated)
                   else None
      ensures e.None? ==>
                && outbox == old(outbox) + [Event(eventType, t.id, t.version, c.id, c.actor)]
                && audit == old(audit) + [AuditRow(eventType, t.id, c.actor)]
                && commands == old(commands)[c.key := Saved(c.id, c.workflow, c.actor.warehouse, c.actor.operator, t)]
    {
      if !EnvelopeValid(c.id, t.id, t.version, c.actor) {
        return Some(EnvelopeInvalid);
      }
      outbox := outbox + [Event(eventType, t.id, t.version, c.id, c.actor)];
      audit := audit + [AuditRow(eventType, t.id, c.actor)];
      if exists k <- commands :: commands[k].id == c.id {
        return Some(ConstraintViolated);
      }
      commands := commands[c.key := Saved(c.id, c.workflow, c.actor.warehouse, c.actor.operator, t)];
      return None;
    }

    /** The body of the transaction, from the task lookup on. */
    method Execute(c: Command) returns (r: Result<Task, Error>)
      modifies this
      ensures match Executed(old(View()), c)
              case Ok((next, t)) => r == Ok(t) && View() == next
              case Err(x) => r == Err(x)
    {
      var eventType := EventType(c.workflow, c.action);
      if eventType.None? {
        return Err(NotOffered);
      }
      if c.task !in tasks || tasks[c.task].workflow != c.workflow {
        return Err(TaskNotFound);
      }
      if tasks[c.task].warehouse != c.actor.warehouse {
        return Err(WarehouseDenied);
      }
      var task := new MovementTask(tasks[c.task]);
      var e := task.Perform(c.action, c.actor.operator, c.base);
      if e.Some? {
        return Err(e.value);
      }
      e := Store(c, eventType.value, task.Row());
      return if e.Some? then Err(e.value) else Ok(task.Row());
    }

    /** One command: a known key answers from the command table, an error leaves every table as it was. */
    method Mutate(c: Command) returns (r: Result<Task, Error>)
      modifies this
      ensures (View(), r) == Spec.Mutate(old(View()), c)
    {
      if c.key in commands {
        return Replayed(commands[c.key], c);
      }
      var begun := View();
      r := Execute(c);
      if r.Err? {
        Rollback(begun);
      }
    }

    /** `balanceSnapshot`: the first balance that the search finds. */
    method BalanceSnapshot(like: Slot) returns (shown: Option<Shown>)
      ensures shown == Snapshot(balances, like)
    {
      var first: Option<Slot> := None;
      var rest := balances.Keys;
      while rest != {}
        invariant rest <= balances.Keys
        invariant first.None? ==> forall s <- balances.Keys - rest :: !Finds(s, like)
        invariant first.Some? ==> IsFirst(first.value, set s | s in balances.Keys - rest && Finds(s, like))
        decreases |rest|
      {
        var s :| s in rest;
        ghost var seen := set x | x in balances.Keys - rest && Finds(x, like);
        rest := rest - {s};
        if Finds(s, like) {
          if first.None? || SortsBefore(s, first.value) {
            FirstMoves(seen, s, first);
            first := Some(s);
          } else {
            SortIsTotal(s, first.value);
          }
          assert (set x | x in balances.Keys - rest && Finds(x, like)) == seen + {s};
        } else {
          assert (set x | x in balances.Keys - rest && Finds(x, like)) == seen;
        }
      }
      assert (set s | s in balances.Keys - rest && Finds(s, like)) == Found(balances, like);
      if first.None? {
        return None;
      }
      SnapshotIsFirst(balances, like, first.value);
      return Some(Shown(first.value.location, first.value.item, balances[first.value]));
    }

    method ExecuteTransfer(x: TransferCommand) returns (e: Option<Error>, receipt: Receipt)
      modifies this
      ensures match ExecutedTransfer(old(View()), x)
              case Ok((next, answer)) => e == None && View() == next && receipt == answer
              case Err(error) => e == Some(error)
    {
      var m := TransferRow(x);
      receipt := Receipt(m, None, None, None, None);
      e := ValidateLocations(m);
      if e.Some? { return; }
      var beforeSource := BalanceSnapshot(m.From());
      var beforeDestination := BalanceSnapshot(m.To());
      e := Transfer(m);
      if e.Some? { return; }
      var afterSource := BalanceSnapshot(m.From());
      var afterDestination := BalanceSnapshot(m.To());
      receipt := Receipt(m, beforeSource, beforeDestination, afterSource, afterDestination);
      e := LogTransfer(x, receipt);
    }

    /** The outbox, audit and command rows of a transfer. */
    method LogTransfer(x: TransferCommand, receipt: Receipt) returns (e: Option<Error>)
      modifies this`outbox, this`audit, this`transfers
      ensures e == if !EnvelopeValid(x.id, x.id, 1, x.actor) then Some(EnvelopeInvalid)
                   else if exists k <- old(transfers) :: old(transfers)[k].id == x.id then Some(ConstraintViolated)
                   else None
      ensures e.None? ==>
                && outbox == old(outbox) + [Event("StockTransferConfirmed", x.id, 1, x.id, x.actor)]
                && audit == old(audit) + [AuditRow("StockTransferConfirmed", x.id, x.actor)]
                && transfers == old(transfers)[x.key := SavedTransfer(x.id, x.actor.warehouse, x.actor.operator, receipt)]
    {
      if !EnvelopeValid(x.id, x.id, 1, x.actor) {
        return Some(EnvelopeInvalid);
      }
      outbox := outbox + [Event("StockTransferConfirmed", x.id, 1, x.id, x.actor)];
      audit := audit + [AuditRow("StockTransferConfirmed", x.id, x.actor)];
      if exists k <- transfers :: transfers[k].id == x.id {
        return Some(ConstraintViolated);
      }
      transfers := transfers[x.key := SavedTransfer(x.id, x.actor.warehouse, x.actor.operator, receipt)];
      return None;
    }

    method TransferStock(x: TransferCommand) returns (r: Result<Receipt, Error>)
      modifies this
      ensures (View(), r) == Spec.TransferStock(old(View()), x)
    {
      if x.key in transfers {
        return ReplayedTransfer(transfers[x.key], x);
      }
      var begun := View();
      var e, receipt := ExecuteTransfer(x);
      if e.Some? {
        Rollback(begun);
        return Err(e.value);
      }
      return Ok(receipt);
    }

    method Rollback(begun: Tables)
      modifies this
      ensures View() == begun
    {
      tasks, queue := begun.tasks, begun.queue;
      balances, locations, ledger := begun.stock.balances, begun.stock.locations, begun.stock.ledger;
      outbox, audit, commands, transfers := begun.outbox, begun.audit, begun.commands, begun.transfers;
    }
  }
}
