/**
 What one movement command does, in the columns of its task and of the stock it moves: when it
 commits, what each other case answers, and what a commit leaves in every table.
 */
module MovementRules {
  import opened Envelopes
  import opened QueueRows
  import opened Results
  import opened Text
  import opened StockTables
  import opened MovementTasks
  import opened MovementLaws

  // ---- The task -----------------------------------------------------------------------------------

  /** The task is the operator's, at the version the caller saw, and under way. */
  predicate InHand(t: Task, operator: string, base: int) {
    t.version == base && t.operator == Some(operator) && (t.status == InProgress || t.status == PartiallyCompleted)
  }

  /** A scan names the place: the same letters, case and outer white space aside. */
  predicate SamePlace(scan: string, place: string) {
    place != "" && EqualFold(Trim(scan), Trim(place))
  }

  /** What each command asks of its task. */
  predicate Accepts(t: Task, a: Action, operator: string, base: int) {
    match a
    case Claim => t.version == base && (t.operator.None? || t.operator == Some(operator))
    case Start => t.version == base && t.operator == Some(operator) && (t.status == Assigned || t.status == InProgress)
    case ValidateSource(value) => InHand(t, operator, base) && SamePlace(value, t.source)
    case ValidateLpn(value) => InHand(t, operator, base) && SamePlace(value, t.source)
    case ValidateDestination(value) => InHand(t, operator, base) && t.sourceValidated && SamePlace(value, t.destination)
    case ValidateItem(barcode) =>
      && InHand(t, operator, base) && t.sourceValidated && (t.workflow == Replenishment ==> t.destinationValidated)
      && barcode == t.barcode
    case ValidateLot(_) => InHand(t, operator, base) && t.sourceValidated && t.itemValidated
    case Confirm(quantity) =>
      && InHand(t, operator, base) && t.sourceValidated && t.destinationValidated && (t.workflow == Picking || t.itemValidated)
      && 0 < quantity && t.completed + quantity <= t.required
    case ConfirmGroup => t.status == PartiallyCompleted
    case Complete => t.completed == t.required && InHand(t, operator, base)
  }

  /** The task that each command leaves; only claiming what one has and starting what is started keep the version. */
  function After(t: Task, a: Action, operator: string): Task {
    match a
    case Claim =>
      if t.operator == Some(operator) && t.status == Assigned then t
      else t.(operator := Some(operator), status := Assigned, version := t.version + 1)
    case Start => if t.status == InProgress then t else t.(status := InProgress, version := t.version + 1)
    case ValidateSource(_) => t.(sourceValidated := true, version := t.version + 1)
    case ValidateLpn(_) => t.(sourceValidated := true, version := t.version + 1)
    case ValidateDestination(_) => t.(destinationValidated := true, version := t.version + 1)
    case ValidateItem(_) => t.(itemValidated := true, version := t.version + 1)
    case ValidateLot(_) => t.(status := InProgress, version := t.version + 1)
    case Confirm(quantity) =>
      t.(completed := t.completed + quantity, version := t.version + 1,
         status := if t.completed + quantity == t.required then Completed else PartiallyCompleted)
    case ConfirmGroup => t.(status := Completed, version := t.version + 1)
    case Complete => t.(status := Completed, version := t.version + 1)
  }

  /** A command passes the task exactly when the task accepts it, and leaves what it should. */
  lemma {:induction false} TransitionExactly(t: Task, a: Action, operator: string, base: int)
    ensures Transition(t, a, operator, base).Ok? <==> Accepts(t, a, operator, base)
    ensures Accepts(t, a, operator, base) ==> Transition(t, a, operator, base) == Ok(After(t, a, operator))
  {
    hide Trim, EqualFold;
  }

  /** What the guard answers to a task that is not in hand. */
  predicate NotInHandFor(t: Task, operator: string, base: int, e: Error) {
    || (e == VersionConflict && t.version != base)
    || (e == NotAssigned && t.version == base && t.operator != Some(operator))
    || (e == NotInProgress && t.version == base && t.operator == Some(operator)
        && t.status != InProgress && t.status != PartiallyCompleted)
  }

  /** What each command is answered by a task that does not accept it. */
  predicate Declines(t: Task, a: Action, operator: string, base: int, e: Error) {
    match a
    case Claim =>
      || (e == VersionConflict && t.version != base)
      || (e == NotAssigned && t.version == base && t.operator.Some? && t.operator != Some(operator))
    case Start =>
      || (e == VersionConflict && t.version != base)
      || (e == NotAssigned && t.version == base && t.operator != Some(operator))
      || (e == NotStartable && t.version == base && t.operator == Some(operator) && t.status != Assigned && t.status != InProgress)
    case ValidateSource(value) =>
      NotInHandFor(t, operator, base, e) || (e == SourceInvalid && InHand(t, operator, base) && !SamePlace(value, t.source))
    case ValidateLpn(value) =>
      NotInHandFor(t, operator, base, e) || (e == SourceInvalid && InHand(t, operator, base) && !SamePlace(value, t.source))
    case ValidateDestination(value) =>
      || NotInHandFor(t, operator, base, e)
      || (e == SequenceInvalid && InHand(t, operator, base) && !t.sourceValidated)
      || (e == DestinationInvalid && InHand(t, operator, base) && t.sourceValidated && !SamePlace(value, t.destination))
    case ValidateItem(barcode) =>
      var early := !t.sourceValidated || (t.workflow == Replenishment && !t.destinationValidated);
      || NotInHandFor(t, operator, base, e)
      || (e == SequenceInvalid && InHand(t, operator, base) && early)
      || (e == ItemInvalid && InHand(t, operator, base) && !early && barcode != t.barcode)
    case ValidateLot(_) =>
      NotInHandFor(t, operator, base, e)
      || (e == SequenceInvalid && InHand(t, operator, base) && !(t.sourceValidated && t.itemValidated))
    case Confirm(quantity) =>
      var scanned := t.sourceValidated && t.destinationValidated && (t.workflow == Picking || t.itemValidated);
      || NotInHandFor(t, operator, base, e)
      || (e == SequenceInvalid && InHand(t, operator, base) && !scanned)
      || (e == QuantityExceeded && InHand(t, operator, base) && scanned && !(0 < quantity <= t.required - t.completed))
    case ConfirmGroup => e == Incomplete && t.status != PartiallyCompleted
    case Complete =>
      (e == Incomplete && t.completed != t.required) || (t.completed == t.required && NotInHandFor(t, operator, base, e))
  }

  lemma {:induction false} DeclinedExactly(t: Task, a: Action, operator: string, base: int, e: Error)
    ensures Transition(t, a, operator, base) == Err(e) <==> Declines(t, a, operator, base, e)
  {
    hide Trim, EqualFold;
  }

  /** The status of a task as the operator queue shows it. */
  lemma {:induction false} StatusNameExactly(s: Status, name: string)
    ensures StatusName(s) == name <==>
              || (s == New && name == "NEW") || (s == Assigned && name == "ASSIGNED") || (s == InProgress && name == "IN_PROGRESS")
              || (s == PartiallyCompleted && name == "PARTIALLY_COMPLETED") || (s == Completed && name == "COMPLETED")
  {
  }

  // ---- The event ------------------------------------------------------------------------------------

  /** The commands of the three services, and the event each publishes. */
  predicate Publishes(w: Workflow, a: Action, event: string) {
    match a
    case Claim =>
      (w == Putaway && event == "PutawayTaskClaimed") || (w == Picking && event == "PickingTaskClaimed")
    case Start =>
      (w == Putaway && event == "PutawayTaskStarted") || (w == Picking && event == "PickingTaskStarted")
    case ValidateSource(_) =>
      || (w == Putaway && event == "PutawayTaskStarted") || (w == Picking && event == "PickingTaskStarted")
      || (w == Replenishment && event == "ReplenishmentSourceValidated")
    case ValidateLpn(_) => w == Putaway && event == "PutawayLPNValidated"
    case ValidateDestination(_) =>
      || (w == Putaway && event == "PutawayDestinationValidated") || (w == Picking && event == "PickingDestinationValidated")
      || (w == Replenishment && event == "ReplenishmentDestinationValidated")
    case ValidateItem(_) =>
      || (w == Putaway && event == "PutawayItemValidated") || (w == Picking && event == "PickingBarcodeResolved")
      || (w == Replenishment && event == "ReplenishmentItemValidated")
    case ValidateLot(_) =>
      (w == Putaway && event == "PutawayLotValidated") || (w == Picking && event == "PickingLotValidated")
    case Confirm(_) => event == if w == Picking then "PickConfirmed" else "InventoryMoved"
    case ConfirmGroup => w == Putaway && event == "PutawayGroupCompleted"
    case Complete => w == Picking && event == "PickingTaskCompleted"
  }

  lemma {:induction false} EventExactly(w: Workflow, a: Action, event: string)
    ensures EventType(w, a) == Some(event) <==> Publishes(w, a, event)
  {
  }

  predicate IsPublished(w: Workflow, a: Action) {
    match a
    case Claim => w != Replenishment
    case Start => w != Replenishment
    case ValidateLpn(_) => w == Putaway
    case ValidateLot(_) => w != Replenishment
    case ConfirmGroup => w == Putaway
    case Complete => w == Picking
    case _ => true
  }

  // ---- The stock ------------------------------------------------------------------------------------

  /** The goods are at the source, and the destination takes them. */
  predicate Room(st: Stock, t: Task, quantity: int) {
    && Slot(t.warehouse, t.source, t.item) in st.balances
    && quantity <= st.balances[Slot(t.warehouse, t.source, t.item)]
    && Place(t.warehouse, t.destination) in st.locations
    && var l := st.locations[Place(t.warehouse, t.destination)];
    && (l.compatible.None? || l.compatible == Some(t.item)) && l.used + quantity <= l.capacity
    && (Place(t.warehouse, t.source) in st.locations ==> quantity <= st.locations[Place(t.warehouse, t.source)].used)
    && (t.source != t.destination ==> 0 <= l.used + quantity)
  }

  /** What a quantity of an item on its way from one place to another leaves: both balances, and nothing else. */
  ghost predicate Carried(
      before: map<Slot, int>, after: map<Slot, int>, warehouse: string, source: string, destination: string, item: string,
      quantity: int)
  {
    && after.Keys == before.Keys + {Slot(warehouse, destination, item)}
    && forall s <- after :: after[s] == (if s in before then before[s] else 0)
         - (if s == Slot(warehouse, source, item) then quantity else 0)
         + (if s == Slot(warehouse, destination, item) then quantity else 0)
  }

  /** The capacity it takes goes with it, at the places that are recorded. */
  ghost predicate CapacityCarried(
      before: map<Place, Location>, after: map<Place, Location>, warehouse: string, source: string, destination: string,
      quantity: int)
  {
    && after.Keys == before.Keys
    && forall p <- before :: after[p] == before[p].(used := before[p].used
         - (if p == Place(warehouse, source) then quantity else 0) + (if p == Place(warehouse, destination) then quantity else 0))
  }

  /** The stock a command leaves: moved by a Confirm, with one ledger row at the task's new version. */
  ghost predicate StockMoved(before: Stock, after: Stock, t: Task, a: Action) {
    if !a.Confirm? then after == before
    else
      && Carried(before.balances, after.balances, t.warehouse, t.source, t.destination, t.item, a.quantity)
      && CapacityCarried(before.locations, after.locations, t.warehouse, t.source, t.destination, a.quantity)
      && after.ledger == before.ledger + [
           Movement(id := None, task := t.id, kind := MovedBy(t.workflow), warehouse := t.warehouse, item := t.item,
                    source := t.source, destination := t.destination, quantity := a.quantity, version := t.version + 1)]
  }

  /** The ledger has no row of the task at its next version. */
  predicate LedgerIsFree(st: Stock, t: Task) {
    forall r <- st.ledger :: r.task != t.id || r.version != t.version + 1
  }

  lemma {:induction false} RoomExactly(st: Stock, t: Task, quantity: int)
    ensures var m := Movement(None, t.id, MovedBy(t.workflow), t.warehouse, t.item, t.source, t.destination, quantity, t.version + 1);
            && (HasRoom(st, m) <==> Room(st, t, quantity))
            && ((forall r <- st.ledger :: r.task != m.task || r.version != m.version) <==> LedgerIsFree(st, t))
  {
  }

  lemma {:induction false} RowOfConfirmed(t: Task, a: Action, operator: string)
    requires a.Confirm?
    ensures RowOf(After(t, a, operator), QuantityOf(a))
         == Movement(None, t.id, MovedBy(t.workflow), t.warehouse, t.item, t.source, t.destination, a.quantity, t.version + 1)
  {
  }

  lemma {:induction false} StockExactly(st: Stock, t: Task, a: Action, operator: string)
    requires a.Confirm? ==> 0 < a.quantity
    ensures MoveStock(st, After(t, a, operator), QuantityOf(a)).Ok? <==>
              (a.Confirm? ==> Room(st, t, a.quantity) && LedgerIsFree(st, t))
  {
    hide CheckMove, ApplyMove, HasRoom, Room, After, RowOf;
    if a.Confirm? {
      var m := RowOf(After(t, a, operator), a.quantity);
      RowOfConfirmed(t, a, operator);
      RoomExactly(st, t, a.quantity);
      StockMovesExactly(st, m);
      CheckKeeps(st, m);
    }
  }

  lemma {:induction false} CheckKeeps(st: Stock, m: Movement)
    ensures CheckMove(st, m).Ok? ==> CheckMove(st, m).value == st
  {
  }

  lemma {:induction false} TakenAndPut(st: Stock, m: Movement)
    requires ApplyMove(st, m).Ok?
    ensures var after := ApplyMove(st, m).value;
            && Carried(st.balances, after.balances, m.warehouse, m.source, m.destination, m.item, m.quantity)
            && after.ledger == st.ledger + [m]
  {
  }

  lemma {:induction false} CapacityFollows(st: Stock, m: Movement)
    requires ApplyMove(st, m).Ok?
    ensures CapacityCarried(st.locations, ApplyMove(st, m).value.locations, m.warehouse, m.source, m.destination, m.quantity)
  {
  }

  lemma {:induction false} StockLeaves(st: Stock, t: Task, a: Action, operator: string)
    requires MoveStock(st, After(t, a, operator), QuantityOf(a)).Ok? && (a.Confirm? ==> 0 < a.quantity)
    ensures StockMoved(st, MoveStock(st, After(t, a, operator), QuantityOf(a)).value, t, a)
  {
    if a.Confirm? {
      var m := RowOf(After(t, a, operator), a.quantity);
      TakenAndPut(st, m);
      CapacityFollows(st, m);
    }
  }

  // ---- The whole command ------------------------------------------------------------------------------

  /** The service offers the command, and the task is one of its tasks, in the actor's warehouse. */
  predicate Reaches(db: Tables, c: Command) {
    && IsPublished(c.workflow, c.action) && c.task in db.tasks
    && db.tasks[c.task].workflow == c.workflow && db.tasks[c.task].warehouse == c.actor.warehouse
  }

  predicate StockAllows(db: Tables, c: Command)
    requires c.task in db.tasks
  {
    c.action.Confirm? ==> Room(db.stock, db.tasks[c.task], c.action.quantity) && LedgerIsFree(db.stock, db.tasks[c.task])
  }

  predicate MayBeSent(db: Tables, c: Command)
    requires c.task in db.tasks
  {
    && EnvelopeValid(c.id, db.tasks[c.task].id, After(db.tasks[c.task], c.action, c.actor.operator).version, c.actor)
    && forall k <- db.commands :: db.commands[k].id != c.id
  }

  lemma {:induction false} PublishedExactly(w: Workflow, a: Action)
    ensures EventType(w, a).Some? <==> IsPublished(w, a)
  {
  }

  /** A fresh command commits exactly when it reaches its task, the task accepts it, the stock allows it and it may be sent. */
  lemma {:induction false} CommandExactly(db: Tables, c: Command)
    requires c.key !in db.commands
    ensures Commits(db, Mutation(c)) <==>
              && Reaches(db, c) && Accepts(db.tasks[c.task], c.action, c.actor.operator, c.base)
              && StockAllows(db, c) && MayBeSent(db, c)
  {
    PublishedExactly(c.workflow, c.action);
    if Reaches(db, c) {
      var t := db.tasks[c.task];
      TransitionExactly(t, c.action, c.actor.operator, c.base);
      if Accepts(t, c.action, c.actor.operator, c.base) {
        StockExactly(db.stock, t, c.action, c.actor.operator);
        ReachedExactly(db, c);
      }
    }
  }

  lemma {:induction false} ReachedExactly(db: Tables, c: Command)
    requires c.key !in db.commands && Reaches(db, c) && EventType(c.workflow, c.action).Some?
    requires Transition(db.tasks[c.task], c.action, c.actor.operator, c.base)
          == Ok(After(db.tasks[c.task], c.action, c.actor.operator))
    ensures Commits(db, Mutation(c)) <==>
              && MoveStock(db.stock, After(db.tasks[c.task], c.action, c.actor.operator), QuantityOf(c.action)).Ok?
              && MayBeSent(db, c)
  {
    hide MoveStock, Transition;
    AfterKeeps(db.tasks[c.task], c.action, c.actor.operator);
    SettlesExactly(db, c, EventType(c.workflow, c.action).value, After(db.tasks[c.task], c.action, c.actor.operator));
  }

  lemma {:induction false} AfterKeeps(t: Task, a: Action, operator: string)
    ensures After(t, a, operator).id == t.id
  {
  }

  /** What a committed command leaves: its task, queue row and stock, and one row each in outbox, audit and commands. */
  lemma {:induction false} CommandLeaves(db: Tables, c: Command)
    requires Commits(db, Mutation(c))
    ensures c.task in db.tasks
    ensures var t := db.tasks[c.task]; var after := After(t, c.action, c.actor.operator); var next := Mutate(db, c).0;
            && Mutate(db, c).1 == Ok(after)
            && next.tasks == db.tasks[c.task := after]
            && next.queue == (if c.task in db.queue
                              then db.queue[c.task := db.queue[c.task].(status := StatusName(after.status), version := after.version,
                                                                        operator := after.operator)]
                              else db.queue)
            && StockMoved(db.stock, next.stock, t, c.action)
            && (exists event :: Publishes(c.workflow, c.action, event)
                                && next.outbox == db.outbox + [Event(event, t.id, after.version, c.id, c.actor)]
                                && next.audit == db.audit + [AuditRow(event, t.id, c.actor)])
            && next.commands == db.commands[c.key := Saved(id := c.id, workflow := c.workflow, warehouse := c.actor.warehouse,
                                                           operator := c.actor.operator, result := after)]
            && next.transfers == db.transfers
  {
    CommandExactly(db, c);
    var t := db.tasks[c.task];
    TransitionExactly(t, c.action, c.actor.operator, c.base);
    AfterKeeps(t, c.action, c.actor.operator);
    var event := EventType(c.workflow, c.action).value;
    EventExactly(c.workflow, c.action, event);
    StockExactly(db.stock, t, c.action, c.actor.operator);
    StockLeaves(db.stock, t, c.action, c.actor.operator);
    CommittedTables(db, c, event);
  }

  lemma {:induction false} CommittedTables(db: Tables, c: Command, event: string)
    requires Commits(db, Mutation(c)) && EventType(c.workflow, c.action) == Some(event) && c.task in db.tasks
    requires Transition(db.tasks[c.task], c.action, c.actor.operator, c.base)
          == Ok(After(db.tasks[c.task], c.action, c.actor.operator))
    ensures var after := After(db.tasks[c.task], c.action, c.actor.operator);
            && MoveStock(db.stock, after, QuantityOf(c.action)).Ok?
            && Mutate(db, c) == (Stored(db, c, event, after, MoveStock(db.stock, after, QuantityOf(c.action)).value), Ok(after))
  {
    hide MoveStock, Transition, After;
  }

  /** Why a fresh command does not commit: the first reason that applies. */
  predicate RefusedFor(db: Tables, c: Command, e: Error) {
    if !IsPublished(c.workflow, c.action) then e == NotOffered
    else if c.task !in db.tasks || db.tasks[c.task].workflow != c.workflow then e == TaskNotFound
    else if db.tasks[c.task].warehouse != c.actor.warehouse then e == WarehouseDenied
    else
      var t := db.tasks[c.task];
      || Declines(t, c.action, c.actor.operator, c.base, e)
      || (Accepts(t, c.action, c.actor.operator, c.base)
          && ((c.action.Confirm? && StockRefuses(db.stock, t, c.action.quantity, e))
              || (StockAllows(db, c) && !MayBeSent(db, c) && e == SendingFails(db, c))))
  }

  function SendingFails(db: Tables, c: Command): Error
    requires c.task in db.tasks
  {
    if !EnvelopeValid(c.id, db.tasks[c.task].id, After(db.tasks[c.task], c.action, c.actor.operator).version, c.actor)
    then EnvelopeInvalid else ConstraintViolated
  }

  /** What a Confirm is answered by the stock. */
  predicate StockRefuses(st: Stock, t: Task, q: int, e: Error) {
    var source, target := Slot(t.warehouse, t.source, t.item), Place(t.warehouse, t.destination);
    if source !in st.balances || st.balances[source] < q then e == InsufficientStock
    else if target !in st.locations then e == DestinationInvalid
    else if (st.locations[target].compatible.Some? && st.locations[target].compatible != Some(t.item))
            || st.locations[target].capacity < st.locations[target].used + q
    then e == CapacityExceeded
    else !(Room(st, t, q) && LedgerIsFree(st, t)) && e == ConstraintViolated
  }

  /** The first of the checks of a move that fails, if one does. */
  function CheckFails(st: Stock, m: Movement): Option<Error> {
    var source, target := Slot(m.warehouse, m.source, m.item), Place(m.warehouse, m.destination);
    if source !in st.balances || st.balances[source] < m.quantity then Some(InsufficientStock)
    else if target !in st.locations then Some(DestinationInvalid)
    else if (st.locations[target].compatible.Some? && st.locations[target].compatible != Some(m.item))
            || st.locations[target].capacity < st.locations[target].used + m.quantity
    then Some(CapacityExceeded)
    else None
  }

  lemma {:induction false} CheckRefuses(st: Stock, m: Movement)
    ensures CheckMove(st, m) == if CheckFails(st, m).Some? then Err(CheckFails(st, m).value) else Ok(st)
  {
  }

  lemma {:induction false} StockRefusedExactly(st: Stock, t: Task, a: Action, operator: string, e: Error)
    requires a.Confirm? && 0 < a.quantity
    ensures MoveStock(st, After(t, a, operator), QuantityOf(a)) == Err(e) <==> StockRefuses(st, t, a.quantity, e)
  {
    hide CheckMove, ApplyMove, After, RowOf, Room, LedgerIsFree;
    var m := RowOf(After(t, a, operator), a.quantity);
    RowOfConfirmed(t, a, operator);
    CheckRefuses(st, m);
    StockExactly(st, t, a, operator);
    MoveFailsLate(st, m);
  }

  /** Once the checks have passed, only a constraint can fail a move. */
  lemma {:induction false} MoveFailsLate(st: Stock, m: Movement)
    requires 0 < m.quantity
    ensures CheckMove(st, m).Ok? && ApplyMove(st, m).Err? ==> ApplyMove(st, m).error == ConstraintViolated
  {
  }

  /** And it is refused for exactly one reason, without a trace. */
  lemma {:induction false} RefusedExactly(db: Tables, c: Command, e: Error)
    requires c.key !in db.commands
    ensures Mutate(db, c) == (db, Err(e)) <==> RefusedFor(db, c, e)
  {
    PublishedExactly(c.workflow, c.action);
    if c.task in db.tasks {
      var t := db.tasks[c.task];
      TransitionExactly(t, c.action, c.actor.operator, c.base);
      DeclinedExactly(t, c.action, c.actor.operator, c.base, e);
      if Accepts(t, c.action, c.actor.operator, c.base) {
        StockExactly(db.stock, t, c.action, c.actor.operator);
        if c.action.Confirm? {
          StockRefusedExactly(db.stock, t, c.action, c.actor.operator, e);
        }
        AfterKeeps(t, c.action, c.actor.operator);
      }
    }
    RefusalFollows(db, c, e);
  }

  lemma {:induction false} RefusalFollows(db: Tables, c: Command, e: Error)
    requires c.key !in db.commands && (EventType(c.workflow, c.action).Some? <==> IsPublished(c.workflow, c.action))
    requires c.task in db.tasks ==>
               var t := db.tasks[c.task]; var answer := Transition(t, c.action, c.actor.operator, c.base);
               var after := After(t, c.action, c.actor.operator);
               && (answer.Ok? <==> Accepts(t, c.action, c.actor.operator, c.base))
               && (answer == Err(e) <==> Declines(t, c.action, c.actor.operator, c.base, e))
               && (answer.Ok? ==>
                     && answer.value == after && after.id == t.id
                     && (MoveStock(db.stock, after, QuantityOf(c.action)).Ok? <==> StockAllows(db, c))
                     && (MoveStock(db.stock, after, QuantityOf(c.action)) == Err(e) <==>
                           c.action.Confirm? && StockRefuses(db.stock, t, c.action.quantity, e)))
    ensures Mutate(db, c) == (db, Err(e)) <==> RefusedFor(db, c, e)
  {
    hide MoveStock, Transition, After, Accepts, Declines, StockAllows, StockRefuses, EventType, IsPublished;
  }

  // ---- Runs -------------------------------------------------------------------------------------------

  /** Request `i` is the last of the run that commits a command on the task. */
  ghost predicate LastCommand(db: Tables, requests: seq<Request>, id: string, i: nat) {
    && i < |requests| && CommandAt(db, requests, id, i)
    && forall j: nat :: i < j < |requests| ==> !CommandAt(db, requests, id, j)
  }

  ghost predicate CommandAt(db: Tables, requests: seq<Request>, id: string, i: nat)
    requires i < |requests|
  {
    requests[i].Mutation? && requests[i].command.task == id && Commits(Run(db, requests[..i]), requests[i])
  }

  lemma {:induction false} OtherRequestLeavesTask(db: Tables, r: Request, id: string)
    requires id in db.tasks && !(r.Mutation? && r.command.task == id && Commits(db, r))
    ensures id in Step(db, r).0.tasks && Step(db, r).0.tasks[id] == db.tasks[id]
  {
    if r.Mutation? && Commits(db, r) {
      CommandLeaves(db, r.command);
    }
  }

  lemma {:induction false} CommandAtPrefix(db: Tables, before: seq<Request>, last: Request, id: string, i: nat)
    requires i <= |before|
    ensures i < |before| ==> (CommandAt(db, before + [last], id, i) <==> CommandAt(db, before, id, i))
    ensures (before + [last])[..i] == before[..i]
  {
    assert (before + [last])[..i] == before[..i];
    assert i < |before| ==> (before + [last])[i] == before[i];
  }

  lemma {:induction false} LastCommandBefore(db: Tables, before: seq<Request>, last: Request, id: string, i: nat)
    requires LastCommand(db, before + [last], id, i) && i < |before|
    ensures LastCommand(db, before, id, i)
    ensures !(last.Mutation? && last.command.task == id && Commits(Run(db, before), last))
  {
    hide Commits;
    CommandAtPrefix(db, before, last, id, i);
    forall j: nat | i < j < |before|
      ensures !CommandAt(db, before, id, j)
    {
      CommandAtPrefix(db, before, last, id, j);
    }
    CommandAtPrefix(db, before, last, id, |before|);
    assert before[..|before|] == before;
    assert !CommandAt(db, before + [last], id, |before|);
  }

  /** In every run a task is what the last command committed on it left, its status included. */
  lemma {:induction false} TaskIsLastLeft(db: Tables, requests: seq<Request>, id: string, i: nat)
    requires LastCommand(db, requests, id, i)
    ensures id in Run(db, requests[..i]).tasks && id in Run(db, requests).tasks
    ensures Run(db, requests).tasks[id]
         == After(Run(db, requests[..i]).tasks[id], requests[i].command.action, requests[i].command.actor.operator)
  {
    var before, last := requests[..|requests| - 1], requests[|requests| - 1];
    assert requests == before + [last];
    if i == |before| {
      assert CommandAt(db, requests, id, i);
      CommandLeaves(Run(db, before), last.command);
    } else {
      LastCommandBefore(db, before, last, id, i);
      TaskIsLastLeft(db, before, id, i);
      assert requests[..i] == before[..i];
      OtherRequestLeavesTask(Run(db, before), last, id);
    }
  }

  /** So after a Confirm a task is completed exactly when all of it is, and partially completed otherwise. */
  lemma {:induction false} ConfirmedStatusExactly(db: Tables, requests: seq<Request>, id: string, i: nat)
    requires LastCommand(db, requests, id, i) && requests[i].command.action.Confirm?
    ensures id in Run(db, requests).tasks
    ensures var t := Run(db, requests).tasks[id];
            && (t.status == Completed <==> t.completed == t.required)
            && (t.status == PartiallyCompleted <==> t.completed < t.required)
  {
    TaskIsLastLeft(db, requests, id, i);
    assert CommandAt(db, requests, id, i);
    CommandExactly(Run(db, requests[..i]), requests[i].command);
  }
}

/** What one stock transfer does, in the places of its command. */
module TransferRules {
  import opened Envelopes
  import opened Results
  import opened StockTables
  import opened StockLaws
  import opened StockSnapshots
  import opened MovementTasks
  import opened MovementRules

  /** The goods are at one place, and the other is a different one that is recorded. */
  predicate MayMove(st: Stock, x: TransferCommand) {
    && x.source != x.destination && 0 < x.quantity
    && Slot(x.actor.warehouse, x.source, x.item) in st.balances
    && x.quantity <= st.balances[Slot(x.actor.warehouse, x.source, x.item)]
    && Place(x.actor.warehouse, x.destination) in st.locations
  }

  /** The keys of the ledger, the outbox and the command table are free, and the envelope is complete. */
  predicate KeysAreFree(db: Tables, x: TransferCommand) {
    && (forall r <- db.stock.ledger :: r.id != Some(x.id) && !(r.task == x.id && r.version == 1))
    && EnvelopeValid(x.id, x.id, 1, x.actor)
    && forall k <- db.transfers :: db.transfers[k].id != x.id
  }

  lemma {:induction false} StockTransfersExactly(st: Stock, m: Movement)
    ensures ValidateLocations(st, m).Ok? && Transfer(st, m).Ok? <==>
              && m.source != m.destination && 0 < m.quantity
              && Slot(m.warehouse, m.source, m.item) in st.balances
              && m.quantity <= st.balances[Slot(m.warehouse, m.source, m.item)]
              && Place(m.warehouse, m.destination) in st.locations
              && forall r <- st.ledger :: (m.id.Some? ==> r.id != m.id) && !(r.task == m.task && r.version == m.version)
  {
  }

  lemma {:induction false} StockTransferLeaves(st: Stock, m: Movement)
    requires Transfer(st, m).Ok?
    ensures var after := Transfer(st, m).value;
            && Carried(st.balances, after.balances, m.warehouse, m.source, m.destination, m.item, m.quantity)
            && after.locations == st.locations && after.ledger == st.ledger + [m]
  {
  }

  /** A fresh transfer commits exactly when the goods may move and its keys are free. */
  lemma {:induction false} TransferExactly(db: Tables, x: TransferCommand)
    requires x.key !in db.transfers
    ensures Commits(db, Transfers(x)) <==> MayMove(db.stock, x) && KeysAreFree(db, x)
  {
    StockTransfersExactly(db.stock, TransferRow(x));
    TransferSettles(db, x);
  }

  lemma {:induction false} TransferSettles(db: Tables, x: TransferCommand)
    requires x.key !in db.transfers
    ensures Commits(db, Transfers(x)) <==>
              && ValidateLocations(db.stock, TransferRow(x)).Ok? && Transfer(db.stock, TransferRow(x)).Ok?
              && EnvelopeValid(x.id, x.id, 1, x.actor) && forall k <- db.transfers :: db.transfers[k].id != x.id
  {
    hide Transfer, TransferRow;
    CheckKeepsStock(db.stock, TransferRow(x));
  }

  lemma {:induction false} CheckKeepsStock(st: Stock, m: Movement)
    ensures ValidateLocations(st, m).Ok? ==> ValidateLocations(st, m).value == st
  {
  }

  /** The balances before and after at the two places of the command, as its answer shows them. */
  function Shows(x: TransferCommand, before: map<Slot, int>, after: map<Slot, int>): Receipt {
    var source, destination := Slot(x.actor.warehouse, x.source, x.item), Slot(x.actor.warehouse, x.destination, x.item);
    Receipt(row := Movement(id := Some(x.id), task := x.id, kind := Transferred, warehouse := x.actor.warehouse, item := x.item,
                            source := x.source, destination := x.destination, quantity := x.quantity, version := 1),
            beforeSource := Snapshot(before, source), beforeDestination := Snapshot(before, destination),
            afterSource := Snapshot(after, source), afterDestination := Snapshot(after, destination))
  }

  /**
   What a committed transfer leaves: the quantity is gone from its source and added at its destination, no other
   balance and no capacity changes, the ledger has one row more with these places, and there is one row each in
   the outbox, the audit log and the command table.
   */
  lemma {:induction false} TransferLeaves(db: Tables, x: TransferCommand)
    requires Commits(db, Transfers(x))
    ensures var next := TransferStock(db, x).0; var receipt := Shows(x, db.stock.balances, next.stock.balances);
            && TransferStock(db, x).1 == Ok(receipt)
            && Carried(db.stock.balances, next.stock.balances, x.actor.warehouse, x.source, x.destination, x.item, x.quantity)
            && next.stock.locations == db.stock.locations && next.stock.ledger == db.stock.ledger + [receipt.row]
            && next.tasks == db.tasks && next.queue == db.queue && next.commands == db.commands
            && next.outbox == db.outbox + [Event("StockTransferConfirmed", x.id, 1, x.id, x.actor)]
            && next.audit == db.audit + [AuditRow("StockTransferConfirmed", x.id, x.actor)]
            && next.transfers == db.transfers[x.key := SavedTransfer(id := x.id, warehouse := x.actor.warehouse,
                                                                     operator := x.actor.operator, result := receipt)]
  {
    TransferSettles(db, x);
    CheckKeepsStock(db.stock, TransferRow(x));
    StockTransferLeaves(db.stock, TransferRow(x));
  }

  /** In plain numbers: the two balances of a committed transfer. */
  lemma {:induction false} TransferShifts(db: Tables, x: TransferCommand)
    requires Commits(db, Transfers(x))
    ensures var before, after := db.stock.balances, TransferStock(db, x).0.stock.balances;
            var source, destination := Slot(x.actor.warehouse, x.source, x.item), Slot(x.actor.warehouse, x.destination, x.item);
            && after.Keys == before.Keys + {destination} && source in before && after[source] == before[source] - x.quantity
            && after[destination] == x.quantity + (if destination in before then before[destination] else 0)
            && forall s <- before :: s != source && s != destination ==> after[s] == before[s]
  {
    TransferExactly(db, x);
    TransferLeaves(db, x);
  }

  /** Why a fresh transfer does not commit: the first reason that applies. */
  predicate RefusedFor(db: Tables, x: TransferCommand, e: Error) {
    var source := Slot(x.actor.warehouse, x.source, x.item);
    if x.source == x.destination then e == SameLocation
    else if source !in db.stock.balances then e == SourceInvalid
    else if db.stock.balances[source] < x.quantity then e == InsufficientStock
    else if Place(x.actor.warehouse, x.destination) !in db.stock.locations then e == DestinationInvalid
    else if x.quantity <= 0 || (exists r <- db.stock.ledger :: r.id == Some(x.id) || (r.task == x.id && r.version == 1))
    then e == ConstraintViolated
    else if !EnvelopeValid(x.id, x.id, 1, x.actor) then e == EnvelopeInvalid
    else e == ConstraintViolated && exists k <- db.transfers :: db.transfers[k].id == x.id
  }

  lemma {:induction false} StockRefusedExactly(st: Stock, m: Movement)
    requires m.id.Some?
    ensures ValidateLocations(st, m).Ok? && Transfer(st, m).Err? ==> Transfer(st, m).error == ConstraintViolated
  {
  }

  /** And it is refused for exactly one reason, without a trace. */
  lemma {:induction false} RefusedExactly(db: Tables, x: TransferCommand, e: Error)
    requires x.key !in db.transfers
    ensures TransferStock(db, x) == (db, Err(e)) <==> RefusedFor(db, x, e)
  {
    hide Transfer, ValidateLocations, EnvelopeValid;
    StockTransfersExactly(db.stock, TransferRow(x));
    StockRefusedExactly(db.stock, TransferRow(x));
    CheckKeepsStock(db.stock, TransferRow(x));
    CheckRefusedExactly(db.stock, TransferRow(x));
  }

  lemma {:induction false} CheckRefusedExactly(st: Stock, m: Movement)
    ensures var answer := ValidateLocations(st, m);
            if m.source == m.destination then answer == Err(SameLocation)
            else if Slot(m.warehouse, m.source, m.item) !in st.balances then answer == Err(SourceInvalid)
            else if st.balances[Slot(m.warehouse, m.source, m.item)] < m.quantity then answer == Err(InsufficientStock)
            else if Place(m.warehouse, m.destination) !in st.locations then answer == Err(DestinationInvalid)
            else answer.Ok?
  {
  }
}
