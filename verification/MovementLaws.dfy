/** What runs of movement commands and transfers guarantee. */
module MovementLaws {
  import opened Results
  import opened Envelopes
  import opened QueueRows
  import opened Sums
  import opened StockTables
  import opened StockLaws
  import opened StockSnapshots
  import opened MovementTasks

  /** The ledger row a request adds, if any. */
  function RowAdded(db: Tables, r: Request): seq<Movement> {
    if !Commits(db, r) then []
    else
      match r
      case Transfers(x) => [TransferRow(x)]
      case Mutation(c) =>
        if c.action.Confirm? then [RowOf(Mutate(db, c).1.value, c.action.quantity)] else []
  }

  function RowsAdded(db: Tables, requests: seq<Request>): seq<Movement> {
    if requests == [] then []
    else
      var before := requests[..|requests| - 1];
      RowsAdded(db, before) + RowAdded(Run(db, before), requests[|requests| - 1])
  }

  lemma {:induction false} MutationPosts(db: Tables, c: Command)
    requires Commits(db, Mutation(c))
    ensures !c.action.Confirm? ==> Mutate(db, c).0.stock == db.stock
    ensures c.action.Confirm? ==> Posted(db.stock, Mutate(db, c).0.stock, RowOf(Mutate(db, c).1.value, c.action.quantity))
  {
    if c.action.Confirm? {
      MoveIsPosted(db.stock, RowOf(Mutate(db, c).1.value, c.action.quantity));
    }
  }

  lemma {:induction false} TransferPosts(db: Tables, x: TransferCommand)
    requires Commits(db, Transfers(x))
    ensures Posted(db.stock, TransferStock(db, x).0.stock, TransferRow(x))
  {
    TransferIsPosted(db.stock, TransferRow(x));
  }

  /** Each request posts its one ledger row, or leaves the stock tables alone. */
  lemma {:induction false} StepPosts(db: Tables, r: Request)
    ensures RowAdded(db, r) == [] ==> Step(db, r).0.stock == db.stock
    ensures RowAdded(db, r) != [] ==> |RowAdded(db, r)| == 1 && Posted(db.stock, Step(db, r).0.stock, RowAdded(db, r)[0])
  {
    if Commits(db, r) {
      match r
      case Transfers(x) => TransferPosts(db, x);
      case Mutation(c) => MutationPosts(db, c);
    }
  }

  lemma {:induction false} RunPosts(db: Tables, requests: seq<Request>)
    ensures History(db.stock, Run(db, requests).stock, RowsAdded(db, requests))
  {
    if requests != [] {
      var before, last := requests[..|requests| - 1], requests[|requests| - 1];
      RunPosts(db, before);
      StepPosts(Run(db, before), last);
      var row := RowAdded(Run(db, before), last);
      if row == [] {
        assert RowsAdded(db, before) + row == RowsAdded(db, before);
      } else {
        assert row == [row[0]];
        HistoryExtends(db.stock, Run(db, before).stock, Run(db, requests).stock, RowsAdded(db, before), row[0]);
      }
    }
  }

  /**
   Ledger refinement, for every run of movement commands and transfers: the balances are
   the initial ones with the new ledger rows replayed over them, every prefix of those rows
   replays to non-negative balances, and the total of each item in each warehouse is unchanged.
   */
  lemma {:induction false} LedgerRefinement(db: Tables, requests: seq<Request>, warehouse: string, item: string, n: nat)
    requires NonNegative(db.stock.balances) && n <= |RowsAdded(db, requests)|
    ensures var end := Run(db, requests).stock; var rows := RowsAdded(db, requests);
            && end.ledger == db.stock.ledger + rows
            && end.balances == Replay(db.stock.balances, rows)
            && NonNegative(Replay(db.stock.balances, rows[..n]))
            && Total(end.balances, warehouse, item) == Total(db.stock.balances, warehouse, item)
  {
    var rows := RowsAdded(db, requests);
    RunPosts(db, requests);
    LedgerExplainsBalances(db.stock, Run(db, requests).stock, rows);
    PrefixesStayNonNegative(db.stock, Run(db, requests).stock, rows, n);
    TotalsAreConserved(db.stock, Run(db, requests).stock, rows, warehouse, item);
  }

  // ---- Capacity -------------------------------------------------------------------------------

  /** Stock within used capacity, and used capacity within capacity, at every recorded location. */
  ghost predicate Fits(st: Stock) {
    forall p <- st.locations :: StockAt(st.balances, p) <= st.locations[p].used <= st.locations[p].capacity
  }

  ghost predicate MovementsOnly(requests: seq<Request>) {
    forall r <- requests :: r.Mutation?
  }

  ghost predicate WithinCapacity(st: Stock) {
    forall p <- st.locations :: st.locations[p].used <= st.locations[p].capacity
  }

  lemma {:induction false} MoveKeepsCapacity(st: Stock, m: Movement)
    requires WithinCapacity(st) && CheckMove(st, m).Ok? && ApplyMove(st, m).Ok?
    ensures WithinCapacity(ApplyMove(st, m).value)
  {
  }

  lemma {:induction false} MutationKeepsCapacity(db: Tables, c: Command)
    requires WithinCapacity(db.stock)
    ensures WithinCapacity(Mutate(db, c).0.stock)
  {
    if Commits(db, Mutation(c)) && c.action.Confirm? {
      MoveKeepsCapacity(db.stock, RowOf(Mutate(db, c).1.value, c.action.quantity));
    }
  }

  lemma {:induction false} NoTransfersAdded(db: Tables, requests: seq<Request>, p: Place)
    requires MovementsOnly(requests)
    ensures forall m <- RowsAdded(db, requests) :: m.kind.MovedBy?
    ensures TransferredNet(RowsAdded(db, requests), p) == 0
  {
    if requests != [] {
      var before := requests[..|requests| - 1];
      NoTransfersAdded(db, before, p);
      var rows, row := RowsAdded(db, before), RowAdded(Run(db, before), requests[|requests| - 1]);
      if row == [] {
        assert rows + row == rows;
      } else {
        assert (rows + row)[..|rows|] == rows;
      }
    }
  }

  lemma {:induction false} RunKeepsCapacity(db: Tables, requests: seq<Request>)
    requires WithinCapacity(db.stock) && MovementsOnly(requests)
    ensures WithinCapacity(Run(db, requests).stock)
  {
    if requests != [] {
      RunKeepsCapacity(db, requests[..|requests| - 1]);
      MutationKeepsCapacity(Run(db, requests[..|requests| - 1]), requests[|requests| - 1].command);
    }
  }

  lemma StockIsNonNegative(balances: map<Slot, int>, p: Place)
    requires NonNegative(balances)
    ensures 0 <= StockAt(balances, p)
  {
    SumNonNegative(map s | s in balances && s.warehouse == p.warehouse && s.location == p.location :: balances[s]);
  }

  lemma {:induction false} RunKeepsNonNegative(db: Tables, requests: seq<Request>)
    requires NonNegative(db.stock.balances)
    ensures NonNegative(Run(db, requests).stock.balances)
  {
    var rows := RowsAdded(db, requests);
    LedgerRefinement(db, requests, "", "", |rows|);
    assert rows[..|rows|] == rows;
  }

  /**
   Capacity over movement runs: used capacity minus stock is constant at each location, and 0 <= stock <= used
   <= capacity is never left.
   */
  lemma {:induction false} CapacityBound(db: Tables, requests: seq<Request>, p: Place)
    requires NonNegative(db.stock.balances) && Fits(db.stock) && MovementsOnly(requests) && p in db.stock.locations
    ensures var end := Run(db, requests).stock;
            && p in end.locations
            && end.locations[p].used - StockAt(end.balances, p) == db.stock.locations[p].used - StockAt(db.stock.balances, p)
            && 0 <= StockAt(end.balances, p) <= end.locations[p].used <= end.locations[p].capacity
  {
    var rows := RowsAdded(db, requests);
    RunPosts(db, requests);
    CapacityFollowsStock(db.stock, Run(db, requests).stock, rows, p);
    NoTransfersAdded(db, requests, p);
    RunKeepsCapacity(db, requests);
    RunKeepsNonNegative(db, requests);
    StockIsNonNegative(Run(db, requests).stock.balances, p);
  }

  /** With transfers in the run, used capacity trails the stock by exactly what transfers brought in. */
  lemma {:induction false} CapacityDrift(db: Tables, requests: seq<Request>, p: Place)
    requires p in db.stock.locations
    ensures var end := Run(db, requests).stock;
            && p in end.locations
            && end.locations[p].used - StockAt(end.balances, p)
               == db.stock.locations[p].used - StockAt(db.stock.balances, p) - TransferredNet(RowsAdded(db, requests), p)
  {
    RunPosts(db, requests);
    CapacityFollowsStock(db.stock, Run(db, requests).stock, RowsAdded(db, requests), p);
  }

  lemma TransferShifts(db: Tables, x: TransferCommand, p: Place)
    requires Commits(db, Transfers(x))
    ensures var st' := TransferStock(db, x).0.stock;
            && st'.locations == db.stock.locations && TransferRow(x).ToPlace() in db.stock.locations && 0 < x.quantity
            && StockAt(st'.balances, p) == StockAt(db.stock.balances, p) + Net(TransferRow(x), p)
  {
    TransferIsPosted(db.stock, TransferRow(x));
    PostShifts(db.stock.balances, TransferRow(x), p);
    assert TransferStock(db, x).0.stock.locations == db.stock.locations;
  }

  /** One transfer keeps stock within used capacity exactly when the destination had that much unused slack. */
  lemma TransferKeepsFitExactly(db: Tables, x: TransferCommand)
    requires Fits(db.stock) && Commits(db, Transfers(x))
    ensures var m := TransferRow(x);
            Fits(TransferStock(db, x).0.stock) <==>
              StockAt(db.stock.balances, m.ToPlace()) + x.quantity <= db.stock.locations[m.ToPlace()].used
  {
    var m := TransferRow(x);
    var st, st' := db.stock, TransferStock(db, x).0.stock;
    forall p
      ensures st'.locations == st.locations && StockAt(st'.balances, p) == StockAt(st.balances, p) + Net(m, p) && 0 < x.quantity
    {
      TransferShifts(db, x, p);
    }
    assert m.source != m.destination;
    assert Net(m, m.ToPlace()) == x.quantity;
    assert forall p :: p != m.ToPlace() ==> Net(m, p) <= 0;
  }

  lemma MoveRespectsItem(db: Tables, c: Command)
    requires RowAdded(db, Mutation(c)) != []
    ensures var m := RowAdded(db, Mutation(c))[0];
            && m.kind.MovedBy? && m.ToPlace() in db.stock.locations
            && var l := db.stock.locations[m.ToPlace()]; l.compatible.None? || l.compatible == Some(m.item)
  {
  }

  /** A recorded location with a compatible item only ever gains that item by movements, in every run. */
  lemma {:induction false} CompatibleItemOnly(db: Tables, requests: seq<Request>, i: nat, c: Command)
    requires i < |requests| && requests[i] == Mutation(c)
    requires RowAdded(Run(db, requests[..i]), requests[i]) != []
    ensures var m := RowAdded(Run(db, requests[..i]), requests[i])[0];
            m.ToPlace() in db.stock.locations ==>
              var l := db.stock.locations[m.ToPlace()]; l.compatible.None? || l.compatible == Some(m.item)
  {
    var m := RowAdded(Run(db, requests[..i]), requests[i])[0];
    if m.ToPlace() in db.stock.locations {
      MoveRespectsItem(Run(db, requests[..i]), c);
      RunPosts(db, requests[..i]);
      CapacityFollowsStock(db.stock, Run(db, requests[..i]).stock, RowsAdded(db, requests[..i]), m.ToPlace());
    }
  }

  /** The ledger row a Confirm of the task would add. */
  function NextRow(t: Task, c: Command): Movement
    requires c.action.Confirm?
  {
    Movement(None, t.id, MovedBy(t.workflow), t.warehouse, t.item, t.source, t.destination, c.action.quantity, t.version + 1)
  }

  lemma {:induction false} MovedExactly(t: Task, c: Command)
    requires c.action.Confirm?
    ensures Moved(t, c.actor.operator, c.action.quantity, c.base).Ok? && t.workflow == c.workflow && t.warehouse == c.actor.warehouse
       <==> MayMove(t, c)
    ensures MayMove(t, c) ==>
              var moved := Moved(t, c.actor.operator, c.action.quantity, c.base).value;
              moved.id == t.id && moved.version == t.version + 1 && RowOf(moved, c.action.quantity) == NextRow(t, c)
  {
  }

  lemma {:induction false} StockMovesExactly(st: Stock, m: Movement)
    requires m.id.None? && 0 < m.quantity
    ensures CheckMove(st, m).Ok? && ApplyMove(st, m).Ok?
       <==> HasRoom(st, m) && forall r <- st.ledger :: r.task != m.task || r.version != m.version
  {
  }

  lemma {:induction false} ConfirmNeedsTask(db: Tables, c: Command)
    requires c.action.Confirm? && c.key !in db.commands && Mutate(db, c).1.Ok?
    ensures c.task in db.tasks && MayMove(db.tasks[c.task], c)
  {
    MovedExactly(db.tasks[c.task], c);
  }

  lemma {:induction false} ConfirmSettles(db: Tables, c: Command, moved: Task)
    requires c.action.Confirm? && c.task in db.tasks
    requires MayMove(db.tasks[c.task], c) && Moved(db.tasks[c.task], c.actor.operator, c.action.quantity, c.base) == Ok(moved)
    ensures EventType(c.workflow, c.action).Some?
    ensures Executed(db, c) == Settled(db, c, EventType(c.workflow, c.action).value, moved)
  {
  }

  lemma {:induction false} SettlesExactly(db: Tables, c: Command, eventType: string, t: Task)
    ensures Settled(db, c, eventType, t).Ok? <==>
              && MoveStock(db.stock, t, QuantityOf(c.action)).Ok?
              && EnvelopeValid(c.id, t.id, t.version, c.actor) && forall k <- db.commands :: db.commands[k].id != c.id
  {
  }

  lemma {:induction false} ConfirmGivenTask(db: Tables, c: Command)
    requires c.action.Confirm? && c.key !in db.commands && c.task in db.tasks && db.tasks[c.task].id == c.task
    requires MayMove(db.tasks[c.task], c)
    ensures Mutate(db, c).1.Ok? <==> HasRoom(db.stock, NextRow(db.tasks[c.task], c)) && MayRecord(db, c, NextRow(db.tasks[c.task], c))
  {
    MovedExactly(db.tasks[c.task], c);
    var moved := Moved(db.tasks[c.task], c.actor.operator, c.action.quantity, c.base).value;
    ConfirmSettles(db, c, moved);
    SettlesExactly(db, c, EventType(c.workflow, c.action).value, moved);
    StockMovesExactly(db.stock, NextRow(db.tasks[c.task], c));
  }

  /** A fresh Confirm goes through exactly when the task, the scans, the stock and the room allow it. */
  lemma {:induction false} MoveSucceedsExactly(db: Tables, c: Command)
    requires c.action.Confirm? && c.key !in db.commands && c.task in db.tasks && db.tasks[c.task].id == c.task
    ensures var t := db.tasks[c.task]; var m := NextRow(t, c);
            Mutate(db, c).1.Ok? <==> MayMove(t, c) && HasRoom(db.stock, m) && MayRecord(db, c, m)
  {
    if MayMove(db.tasks[c.task], c) {
      ConfirmGivenTask(db, c);
    } else if Mutate(db, c).1.Ok? {
      ConfirmNeedsTask(db, c);
    }
  }

  /** The task is the operator's, in progress, at the version the caller saw, scanned, and has that much left. */
  predicate MayMove(t: Task, c: Command)
    requires c.action.Confirm?
  {
    && t.workflow == c.workflow && t.warehouse == c.actor.warehouse && t.version == c.base
    && t.operator == Some(c.actor.operator) && (t.status == InProgress || t.status == PartiallyCompleted)
    && t.sourceValidated && t.destinationValidated && (t.workflow == Picking || t.itemValidated)
    && 0 < c.action.quantity <= t.required - t.completed
  }

  /**
   The source holds the goods, and the destination is known, takes the item and has the capacity; a recorded
   source gives its capacity back.
   */
  predicate HasRoom(st: Stock, m: Movement) {
    && m.From() in st.balances && m.quantity <= st.balances[m.From()]
    && m.ToPlace() in st.locations
    && var l := st.locations[m.ToPlace()];
    && (l.compatible.None? || l.compatible.value == m.item) && m.quantity <= l.capacity - l.used
    && (m.FromPlace() in st.locations ==> m.quantity <= st.locations[m.FromPlace()].used)
    && (m.FromPlace() != m.ToPlace() ==> 0 <= l.used + m.quantity)
  }

  predicate MayRecord(db: Tables, c: Command, m: Movement) {
    && (forall r <- db.stock.ledger :: r.task != m.task || r.version != m.version)
    && EnvelopeValid(c.id, m.task, m.version, c.actor)
    && forall k <- db.commands :: db.commands[k].id != c.id
  }

  // ---- Retries ----------------------------------------------------------------------------------

  /** The run without the requests whose key was already committed when they came. */
  function WithoutRepeats(db: Tables, requests: seq<Request>): seq<Request> {
    if requests == [] then []
    else
      var before, last := requests[..|requests| - 1], requests[|requests| - 1];
      WithoutRepeats(db, before) + if Seen(Run(db, before), last) then [] else [last]
  }

  /** Retry equivalence: dropping every repeat of a committed key changes nothing in any table. */
  lemma {:induction false} RetriesChangeNothing(db: Tables, requests: seq<Request>)
    ensures Run(db, WithoutRepeats(db, requests)) == Run(db, requests)
  {
    if requests != [] {
      var before, last := requests[..|requests| - 1], requests[|requests| - 1];
      RetriesChangeNothing(db, before);
      var kept := WithoutRepeats(db, before);
      if Seen(Run(db, before), last) {
        assert kept + [] == kept;
      } else {
        assert (kept + [last])[..|kept|] == kept;
      }
    }
  }

  /** The rows stored for a key are never changed or removed. */
  ghost predicate Remembers(db: Tables, db': Tables, key: string) {
    && (key in db.commands ==> key in db'.commands && db'.commands[key] == db.commands[key])
    && (key in db.transfers ==> key in db'.transfers && db'.transfers[key] == db.transfers[key])
  }

  lemma {:induction false} MutationRemembers(db: Tables, c: Command, key: string)
    ensures Remembers(db, Mutate(db, c).0, key)
  {
    if c.key !in db.commands && Executed(db, c).Ok? {
      ExecutedStores(db, c);
    }
  }

  lemma {:induction false} TransferRemembers(db: Tables, x: TransferCommand, key: string)
    ensures Remembers(db, TransferStock(db, x).0, key)
  {
  }

  lemma {:induction false} StepRemembers(db: Tables, r: Request, key: string)
    ensures Remembers(db, Step(db, r).0, key)
  {
    match r
    case Mutation(c) => MutationRemembers(db, c, key);
    case Transfers(x) => TransferRemembers(db, x, key);
  }

  lemma {:induction false} RunRemembers(db: Tables, requests: seq<Request>, key: string)
    ensures Remembers(db, Run(db, requests), key)
  {
    if requests != [] {
      RunRemembers(db, requests[..|requests| - 1], key);
      StepRemembers(Run(db, requests[..|requests| - 1]), requests[|requests| - 1], key);
    }
  }

  /** Every stored task is filed under its own id. */
  ghost predicate Filed(db: Tables) {
    forall k <- db.tasks :: db.tasks[k].id == k
  }

  lemma ExecutedStores(db: Tables, c: Command)
    requires Executed(db, c).Ok?
    ensures c.task in db.tasks && Transition(db.tasks[c.task], c.action, c.actor.operator, c.base) == Ok(Executed(db, c).value.1)
    ensures exists eventType, stock :: Executed(db, c).value.0 == Stored(db, c, eventType, Executed(db, c).value.1, stock)
  {
    var t := Executed(db, c).value.1;
    assert Executed(db, c).value.0
        == Stored(db, c, EventType(c.workflow, c.action).value, t, MoveStock(db.stock, t, QuantityOf(c.action)).value);
  }

  lemma TransitionKeepsId(t: Task, a: Action, operator: string, base: int)
    requires Transition(t, a, operator, base).Ok?
    ensures Transition(t, a, operator, base).value.id == t.id
  {
  }

  lemma {:induction false} ExecutedKeepsId(db: Tables, c: Command)
    requires Executed(db, c).Ok?
    ensures c.task in db.tasks && Executed(db, c).value.1.id == db.tasks[c.task].id
    ensures Executed(db, c).value.0.tasks == db.tasks[c.task := Executed(db, c).value.1]
    ensures Executed(db, c).value.0.commands
         == db.commands[c.key := Saved(c.id, c.workflow, c.actor.warehouse, c.actor.operator, Executed(db, c).value.1)]
  {
    ExecutedStores(db, c);
    TransitionKeepsId(db.tasks[c.task], c.action, c.actor.operator, c.base);
  }

  lemma {:induction false} StepKeepsFiled(db: Tables, r: Request)
    requires Filed(db)
    ensures Filed(Step(db, r).0)
  {
    if r.Mutation? && Executed(db, r.command).Ok? {
      ExecutedKeepsId(db, r.command);
    }
  }

  lemma {:induction false} RunKeepsFiled(db: Tables, requests: seq<Request>)
    requires Filed(db)
    ensures Filed(Run(db, requests))
  {
    if requests != [] {
      RunKeepsFiled(db, requests[..|requests| - 1]);
      StepKeepsFiled(Run(db, requests[..|requests| - 1]), requests[|requests| - 1]);
    }
  }

  /**
   A retry of a committed command gets the first answer again, whatever ran in between; the key under another
   context is refused.
   */
  lemma {:induction false} RetryAnswersTheSame(db: Tables, c: Command, between: seq<Request>, retry: Command)
    requires Filed(db) && Commits(db, Mutation(c)) && retry.key == c.key
    ensures var now := Run(Step(db, Mutation(c)).0, between);
            Mutate(now, retry)
            == (now, if retry.workflow == c.workflow && retry.actor.warehouse == c.actor.warehouse
                        && retry.actor.operator == c.actor.operator && retry.task == c.task
                     then Mutate(db, c).1
                     else Err(KeyReused))
  {
    ExecutedKeepsId(db, c);
    RunRemembers(Step(db, Mutation(c)).0, between, c.key);
  }

  /** The same for transfers, whose context is the warehouse and the operator only. */
  lemma {:induction false} TransferRetryAnswersTheSame(db: Tables, x: TransferCommand, between: seq<Request>, retry: TransferCommand)
    requires Commits(db, Transfers(x)) && retry.key == x.key
    ensures var now := Run(Step(db, Transfers(x)).0, between);
            TransferStock(now, retry)
            == (now, if retry.actor.warehouse == x.actor.warehouse && retry.actor.operator == x.actor.operator
                     then TransferStock(db, x).1 else Err(KeyReused))
  {
    TransferIsStored(db, x);
    RunRemembers(Step(db, Transfers(x)).0, between, x.key);
  }

  /** No other balance hides this one from a search for it. */
  ghost predicate Foremost(balances: map<Slot, int>, s: Slot) {
    forall x <- balances :: !Hides(x, s)
  }

  predicate ShowsSlot(shown: Option<Shown>, balances: map<Slot, int>, s: Slot)
    requires s in balances
  {
    shown == Some(Shown(s.location, s.item, balances[s]))
  }

  lemma {:induction false} TransferHasSlots(db: Tables, x: TransferCommand)
    requires Commits(db, Transfers(x))
    ensures var after := TransferStock(db, x).0.stock.balances;
            && TransferRow(x).From() in after && TransferRow(x).To() in after
            && TransferStock(db, x).1.Ok?
            && TransferStock(db, x).1.value == ReceiptOf(TransferRow(x), db.stock.balances, after)
  {
  }

  /**
   The answer to a committed transfer shows the new balance of its source, or of its destination, exactly when no
   other balance that the search by part of the name finds sorts before it.
   */
  lemma {:induction false} ReceiptShowsExactly(db: Tables, x: TransferCommand)
    requires Commits(db, Transfers(x))
    ensures var after := TransferStock(db, x).0.stock.balances; var m := TransferRow(x);
            && TransferStock(db, x).1.Ok? && m.From() in after && m.To() in after
            && (ShowsSlot(TransferStock(db, x).1.value.afterSource, after, m.From()) <==> Foremost(after, m.From()))
            && (ShowsSlot(TransferStock(db, x).1.value.afterDestination, after, m.To()) <==> Foremost(after, m.To()))
  {
    TransferHasSlots(db, x);
    SnapshotShowsExactly(TransferStock(db, x).0.stock.balances, TransferRow(x).From());
    SnapshotShowsExactly(TransferStock(db, x).0.stock.balances, TransferRow(x).To());
  }

  lemma TransferIsStored(db: Tables, x: TransferCommand)
    requires Commits(db, Transfers(x))
    ensures x.key in Step(db, Transfers(x)).0.transfers
    ensures Step(db, Transfers(x)).0.transfers[x.key]
         == SavedTransfer(x.id, x.actor.warehouse, x.actor.operator, TransferStock(db, x).1.value)
  {
  }

  /** `n` more rows in the outbox, in the audit log, and in the two command tables together. */
  ghost predicate AddsRows(db: Tables, next: Tables, n: nat) {
    && |next.outbox| == |db.outbox| + n && |next.audit| == |db.audit| + n
    && |next.commands| + |next.transfers| == |db.commands| + |db.transfers| + n
  }

  lemma {:induction false} MutationAddsRows(db: Tables, c: Command)
    ensures AddsRows(db, Mutate(db, c).0, if Commits(db, Mutation(c)) then 1 else 0)
  {
    if c.key !in db.commands && Executed(db, c).Ok? {
      ExecutedStores(db, c);
    }
  }

  lemma {:induction false} TransferAddsRows(db: Tables, x: TransferCommand)
    ensures AddsRows(db, TransferStock(db, x).0, if Commits(db, Transfers(x)) then 1 else 0)
  {
  }

  lemma {:induction false} StepAddsRows(db: Tables, r: Request)
    ensures AddsRows(db, Step(db, r).0, if Commits(db, r) then 1 else 0)
  {
    match r
    case Mutation(c) => MutationAddsRows(db, c);
    case Transfers(x) => TransferAddsRows(db, x);
  }

  /** Each commit adds one outbox, one audit and one command row, so their numbers move together. */
  lemma {:induction false} RowsGrowTogether(db: Tables, requests: seq<Request>)
    ensures var end := Run(db, requests);
            && |end.outbox| - |db.outbox| == |end.audit| - |db.audit|
            && |end.outbox| - |db.outbox| == (|end.commands| + |end.transfers|) - (|db.commands| + |db.transfers|)
  {
    if requests != [] {
      RowsGrowTogether(db, requests[..|requests| - 1]);
      StepAddsRows(Run(db, requests[..|requests| - 1]), requests[|requests| - 1]);
    }
  }

  // ---- A task and its ledger rows ---------------------------------------------------------------

  /** The quantity that a stretch of the ledger moved for one task. */
  function MovedFor(rows: seq<Movement>, task: string): int {
    if rows == [] then 0
    else
      var m := rows[|rows| - 1];
      MovedFor(rows[..|rows| - 1], task) + if m.kind.MovedBy? && m.task == task then m.quantity else 0
  }

  ghost predicate RowsOf(rows: seq<Movement>, task: string, i: nat)
    requires i < |rows|
  {
    rows[i].kind.MovedBy? && rows[i].task == task
  }

  /** A task agrees with its ledger rows: its progress is their sum, and their versions climb to the task's own. */
  ghost predicate Agrees(start: Task, now: Task, rows: seq<Movement>) {
    && now.id == start.id && now.workflow == start.workflow && now.required == start.required
    && start.version <= now.version
    && now.completed == start.completed + MovedFor(rows, start.id)
    && (start.completed <= start.required ==> now.completed <= now.required)
    && (forall i :: 0 <= i < |rows| && RowsOf(rows, start.id, i) ==> start.version < rows[i].version <= now.version)
    && (forall i, j :: 0 <= i < j < |rows| && RowsOf(rows, start.id, i) && RowsOf(rows, start.id, j)
          ==> rows[i].version < rows[j].version)
  }

  lemma MovedForAppend(rows: seq<Movement>, m: Movement, task: string)
    ensures MovedFor(rows + [m], task) == MovedFor(rows, task) + if m.kind.MovedBy? && m.task == task then m.quantity else 0
  {
    assert (rows + [m])[..|rows|] == rows;
  }

  lemma TransitionFacts(t: Task, a: Action, operator: string, base: int)
    requires Transition(t, a, operator, base).Ok?
    ensures var t' := Transition(t, a, operator, base).value;
            && t'.id == t.id && t'.workflow == t.workflow && t'.required == t.required && t.version <= t'.version
            && (if a.Confirm? then t'.completed == t.completed + a.quantity && t'.completed <= t.required && t'.version == t.version + 1
                else t'.completed == t.completed)
  {
  }

  /** What one commit of a movement command does to its task and to the ledger. */
  lemma CommitFacts(db: Tables, c: Command)
    requires Filed(db) && Commits(db, Mutation(c))
    ensures c.task in db.tasks && Transition(db.tasks[c.task], c.action, c.actor.operator, c.base).Ok?
    ensures var t := Transition(db.tasks[c.task], c.action, c.actor.operator, c.base).value;
            && t.id == c.task
            && Step(db, Mutation(c)).0.tasks == db.tasks[c.task := t]
            && RowAdded(db, Mutation(c)) == if c.action.Confirm? then [RowOf(t, c.action.quantity)] else []
  {
    ExecutedKeepsId(db, c);
  }

  /** A row of another task, or no row at all, leaves the agreement as it is. */
  lemma OtherRowAgrees(start: Task, now: Task, rows: seq<Movement>, m: Movement)
    requires Agrees(start, now, rows) && !(m.kind.MovedBy? && m.task == start.id)
    ensures Agrees(start, now, rows + [m])
  {
    MovedForAppend(rows, m, start.id);
    assert forall i :: 0 <= i < |rows| ==> RowsOf(rows + [m], start.id, i) == RowsOf(rows, start.id, i);
  }

  lemma OwnRowAgrees(start: Task, now: Task, next: Task, rows: seq<Movement>, quantity: int)
    requires Agrees(start, now, rows)
    requires next.id == start.id && next.workflow == now.workflow && next.required == now.required
    requires next.version == now.version + 1 && next.completed == now.completed + quantity <= now.required
    ensures Agrees(start, next, rows + [RowOf(next, quantity)])
  {
    MovedForAppend(rows, RowOf(next, quantity), start.id);
    assert forall i :: 0 <= i < |rows| ==> RowsOf(rows + [RowOf(next, quantity)], start.id, i) == RowsOf(rows, start.id, i);
  }

  lemma {:induction false} CommitAgrees(db: Tables, c: Command, start: Task, rows: seq<Movement>)
    requires Filed(db) && start.id in db.tasks && Agrees(start, db.tasks[start.id], rows)
    requires Commits(db, Mutation(c)) && c.task == start.id
    ensures Agrees(start, Step(db, Mutation(c)).0.tasks[start.id], rows + RowAdded(db, Mutation(c)))
  {
    CommitFacts(db, c);
    var t := db.tasks[start.id];
    TransitionFacts(t, c.action, c.actor.operator, c.base);
    var t' := Transition(t, c.action, c.actor.operator, c.base).value;
    if c.action.Confirm? {
      OwnRowAgrees(start, t, t', rows, c.action.quantity);
    } else {
      assert rows + [] == rows;
    }
  }

  /** The row a request adds for another task, if it adds one. */
  lemma {:induction false} OtherRowAdded(db: Tables, r: Request, id: string)
    requires Filed(db) && !(r.Mutation? && Commits(db, r) && r.command.task == id)
    ensures |RowAdded(db, r)| <= 1
    ensures RowAdded(db, r) != [] ==> !(RowAdded(db, r)[0].kind.MovedBy? && RowAdded(db, r)[0].task == id)
  {
    if r.Mutation? && Commits(db, r) {
      CommitFacts(db, r.command);
    }
  }

  lemma {:induction false} OtherStepAgrees(db: Tables, r: Request, start: Task, rows: seq<Movement>)
    requires Filed(db) && start.id in db.tasks && Agrees(start, db.tasks[start.id], rows)
    requires !(r.Mutation? && Commits(db, r) && r.command.task == start.id)
    ensures Agrees(start, db.tasks[start.id], rows + RowAdded(db, r))
  {
    OtherRowAdded(db, r, start.id);
    var row := RowAdded(db, r);
    if row == [] {
      assert rows + row == rows;
    } else {
      assert row == [row[0]];
      OtherRowAgrees(start, db.tasks[start.id], rows, row[0]);
    }
  }

  lemma {:induction false} StepAgrees(db: Tables, r: Request, start: Task, rows: seq<Movement>)
    requires Filed(db) && start.id in db.tasks && Agrees(start, db.tasks[start.id], rows)
    ensures start.id in Step(db, r).0.tasks
    ensures Agrees(start, Step(db, r).0.tasks[start.id], rows + RowAdded(db, r))
  {
    if r.Mutation? && Commits(db, r) && r.command.task == start.id {
      CommitFacts(db, r.command);
      CommitAgrees(db, r.command, start, rows);
    } else {
      OtherRequestKeepsTask(db, r, start.id);
      OtherStepAgrees(db, r, start, rows);
    }
  }

  lemma {:induction false} RunAgrees(db: Tables, requests: seq<Request>, id: string)
    requires Filed(db) && id in db.tasks
    ensures id in Run(db, requests).tasks
    ensures Agrees(db.tasks[id], Run(db, requests).tasks[id], RowsAdded(db, requests))
  {
    if requests != [] {
      var before, last := requests[..|requests| - 1], requests[|requests| - 1];
      RunAgrees(db, before, id);
      RunKeepsFiled(db, before);
      StepAgrees(Run(db, before), last, db.tasks[id], RowsAdded(db, before));
    }
  }

  /**
   Task against ledger: in every run, completed quantity is the initial one plus the task's ledger rows, never
   above what is required.
   */
  lemma {:induction false} TaskMatchesLedger(db: Tables, requests: seq<Request>, id: string)
    requires Filed(db) && id in db.tasks && db.tasks[id].completed <= db.tasks[id].required
    ensures id in Run(db, requests).tasks
    ensures var now := Run(db, requests).tasks[id];
            now.completed == db.tasks[id].completed + MovedFor(RowsAdded(db, requests), id) <= now.required
  {
    RunAgrees(db, requests, id);
  }

  /** The ledger rows of one task carry strictly increasing versions. */
  lemma TaskRowVersionsClimb(db: Tables, requests: seq<Request>, id: string, i: nat, j: nat)
    requires Filed(db) && id in db.tasks && i < j < |RowsAdded(db, requests)|
    requires RowsOf(RowsAdded(db, requests), id, i) && RowsOf(RowsAdded(db, requests), id, j)
    ensures RowsAdded(db, requests)[i].version < RowsAdded(db, requests)[j].version
  {
    RunAgrees(db, requests, id);
  }

  // ---- Who works on a task -------------------------------------------------------------------------

  lemma TransitionActor(t: Task, a: Action, operator: string, base: int)
    requires Transition(t, a, operator, base).Ok?
    ensures var t' := Transition(t, a, operator, base).value;
            && (t.operator.Some? ==> t'.operator == t.operator)
            && (a.Claim? ==> t'.operator == Some(operator))
            && (!a.Claim? && !a.ConfirmGroup? ==> t.operator == Some(operator))
            && (!a.ConfirmGroup? ==> t.version == base)
  {
  }

  /** Assignment is stable: a task with an operator keeps it in every run. */
  lemma {:induction false} AssignmentIsStable(db: Tables, requests: seq<Request>, id: string)
    requires Filed(db) && id in db.tasks && db.tasks[id].operator.Some?
    ensures id in Run(db, requests).tasks && Run(db, requests).tasks[id].operator == db.tasks[id].operator
  {
    if requests != [] {
      var now, last := Run(db, requests[..|requests| - 1]), requests[|requests| - 1];
      AssignmentIsStable(db, requests[..|requests| - 1], id);
      RunKeepsFiled(db, requests[..|requests| - 1]);
      if last.Mutation? && Commits(now, last) && last.command.task == id {
        CommitFacts(now, last.command);
        TransitionActor(now.tasks[id], last.command.action, last.command.actor.operator, last.command.base);
      } else {
        OtherRequestKeepsTask(now, last, id);
      }
    }
  }

  /**
   Only its operator works on a task: every committed command but a Claim or a group confirmation is the
   assignee's, at the version it saw.
   */
  lemma OnlyAssigneeWorks(db: Tables, c: Command)
    requires Filed(db) && Commits(db, Mutation(c)) && !c.action.Claim? && !c.action.ConfirmGroup?
    ensures c.task in db.tasks && db.tasks[c.task].operator == Some(c.actor.operator) && db.tasks[c.task].version == c.base
  {
    CommitFacts(db, c);
    TransitionActor(db.tasks[c.task], c.action, c.actor.operator, c.base);
  }

  /** Completed is not terminal: exactly a Claim by its operator, at its version, takes a task out of it again. */
  lemma CompletedReopensExactly(t: Task, a: Action, operator: string, base: int)
    requires t.status == Completed
    ensures Transition(t, a, operator, base).Ok? <==>
              a.Claim? && t.version == base && (t.operator.None? || t.operator.value == operator)
    ensures Transition(t, a, operator, base).Ok? ==> Transition(t, a, operator, base).value.status == Assigned
  {
  }

  predicate Follows(q: Queued, t: Task) {
    q.status == StatusName(t.status) && q.operator == t.operator && q.version == t.version
  }

  /** The queue row of a task, where there is one, shows the task's status, operator and version. */
  ghost predicate Mirrors(db: Tables) {
    forall id <- db.tasks :: id in db.queue ==> Follows(db.queue[id], db.tasks[id])
  }

  lemma ExecutedKeepsMirror(db: Tables, c: Command)
    requires Mirrors(db) && Executed(db, c).Ok?
    ensures Mirrors(Executed(db, c).value.0)
  {
    ExecutedStores(db, c);
  }

  lemma {:induction false} StepKeepsMirror(db: Tables, r: Request)
    requires Mirrors(db)
    ensures Mirrors(Step(db, r).0)
  {
    if r.Mutation? && Executed(db, r.command).Ok? {
      ExecutedKeepsMirror(db, r.command);
    }
  }

  /**
   Movement commands and transfers alone keep the queue rows of movement tasks in step. The table has other
   writers: with them, SharedQueueLaws says when a row follows its task.
   */
  lemma {:induction false} QueueMirrorsTasks(db: Tables, requests: seq<Request>)
    requires Mirrors(db)
    ensures Mirrors(Run(db, requests))
  {
    if requests != [] {
      QueueMirrorsTasks(db, requests[..|requests| - 1]);
      StepKeepsMirror(Run(db, requests[..|requests| - 1]), requests[|requests| - 1]);
    }
  }

  // ---- Validation before movement -----------------------------------------------------------------

  datatype Scan = SourceScan | DestinationScan | ItemScan

  predicate IsScan(a: Action, scan: Scan) {
    match scan
    case SourceScan => a.ValidateSource? || a.ValidateLpn?
    case DestinationScan => a.ValidateDestination?
    case ItemScan => a.ValidateItem?
  }

  /** Request `i` of the run is a committed scan of the task. */
  ghost predicate ScannedAt(db: Tables, requests: seq<Request>, i: nat, id: string, scan: Scan) {
    && i < |requests| && requests[i].Mutation? && requests[i].command.task == id
    && IsScan(requests[i].command.action, scan) && Commits(Run(db, requests[..i]), requests[i])
  }

  /** The two scans happened, in this order. */
  ghost predicate ScannedInOrder(db: Tables, requests: seq<Request>, id: string, first: Scan, second: Scan) {
    exists i, j :: i < j && ScannedAt(db, requests, i, id, first) && ScannedAt(db, requests, j, id, second)
  }

  ghost predicate Scanned(db: Tables, requests: seq<Request>, id: string, scan: Scan) {
    exists i :: ScannedAt(db, requests, i, id, scan)
  }

  lemma ScansAreKept(db: Tables, requests: seq<Request>, r: Request, i: nat, id: string, scan: Scan)
    requires ScannedAt(db, requests, i, id, scan)
    ensures ScannedAt(db, requests + [r], i, id, scan)
  {
    assert (requests + [r])[..i] == requests[..i];
  }

  /** The flags of a task that started unscanned are backed by committed scans, the source scan first. */
  ghost predicate FlagsAreEarned(db: Tables, requests: seq<Request>, id: string)
    requires id in Run(db, requests).tasks
  {
    var t := Run(db, requests).tasks[id];
    && (t.sourceValidated ==> Scanned(db, requests, id, SourceScan))
    && (t.destinationValidated ==> t.sourceValidated && ScannedInOrder(db, requests, id, SourceScan, DestinationScan))
    && (t.itemValidated ==> t.sourceValidated && ScannedInOrder(db, requests, id, SourceScan, ItemScan))
  }

  lemma EarnedFlagsAreKept(db: Tables, before: seq<Request>, r: Request, id: string)
    ensures forall scan :: Scanned(db, before, id, scan) ==> Scanned(db, before + [r], id, scan)
    ensures forall first, second :: ScannedInOrder(db, before, id, first, second) ==> ScannedInOrder(db, before + [r], id, first, second)
  {
    forall i: nat, scan | ScannedAt(db, before, i, id, scan)
      ensures ScannedAt(db, before + [r], i, id, scan)
    {
      ScansAreKept(db, before, r, i, id, scan);
    }
  }

  /** A transition raises at most the flag of its own scan, and the later flags only over the source flag. */
  lemma TransitionFlags(t: Task, a: Action, operator: string, base: int)
    requires Transition(t, a, operator, base).Ok?
    ensures var t' := Transition(t, a, operator, base).value;
            && t'.sourceValidated == (t.sourceValidated || IsScan(a, SourceScan))
            && t'.destinationValidated == (t.destinationValidated || IsScan(a, DestinationScan))
            && t'.itemValidated == (t.itemValidated || IsScan(a, ItemScan))
            && (IsScan(a, DestinationScan) || IsScan(a, ItemScan) ==> t.sourceValidated)
  {
  }

  /** A scan committed now, after the source was scanned before, makes an ordered pair. */
  lemma {:induction false} NewScanIsOrdered(db: Tables, before: seq<Request>, r: Request, id: string, scan: Scan)
    requires Scanned(db, before, id, SourceScan) && ScannedAt(db, before + [r], |before|, id, scan)
    ensures ScannedInOrder(db, before + [r], id, SourceScan, scan)
  {
    var i :| ScannedAt(db, before, i, id, SourceScan);
    ScansAreKept(db, before, r, i, id, SourceScan);
  }

  lemma {:induction false} CommitEarnsFlags(db: Tables, before: seq<Request>, c: Command)
    requires c.task in Run(db, before).tasks && FlagsAreEarned(db, before, c.task)
    requires Filed(Run(db, before)) && Commits(Run(db, before), Mutation(c))
    ensures c.task in Run(db, before + [Mutation(c)]).tasks && FlagsAreEarned(db, before + [Mutation(c)], c.task)
  {
    var now, after := Run(db, before), before + [Mutation(c)];
    assert after[..|before|] == before;
    EarnedFlagsAreKept(db, before, Mutation(c), c.task);
    CommitFacts(now, c);
    TransitionFlags(now.tasks[c.task], c.action, c.actor.operator, c.base);
    forall scan | IsScan(c.action, scan)
      ensures ScannedAt(db, after, |before|, c.task, scan)
      ensures scan != SourceScan ==> ScannedInOrder(db, after, c.task, SourceScan, scan)
    {
      if scan != SourceScan {
        NewScanIsOrdered(db, before, Mutation(c), c.task, scan);
      }
    }
  }

  /** A request that commits nothing for the task leaves its row as it is. */
  lemma OtherRequestKeepsTask(db: Tables, r: Request, id: string)
    requires Filed(db) && id in db.tasks
    requires !(r.Mutation? && Commits(db, r) && r.command.task == id)
    ensures id in Step(db, r).0.tasks && Step(db, r).0.tasks[id] == db.tasks[id]
  {
    if r.Mutation? && Commits(db, r) {
      CommitFacts(db, r.command);
    }
  }

  lemma {:induction false} SameTaskKeepsFlags(db: Tables, before: seq<Request>, r: Request, id: string)
    requires id in Run(db, before).tasks && FlagsAreEarned(db, before, id)
    requires id in Run(db, before + [r]).tasks && Run(db, before + [r]).tasks[id] == Run(db, before).tasks[id]
    ensures FlagsAreEarned(db, before + [r], id)
  {
    EarnedFlagsAreKept(db, before, r, id);
  }

  lemma {:induction false} RunEarnsFlags(db: Tables, requests: seq<Request>, id: string)
    requires Filed(db) && id in db.tasks
    requires var t := db.tasks[id]; !t.sourceValidated && !t.destinationValidated && !t.itemValidated
    ensures id in Run(db, requests).tasks && FlagsAreEarned(db, requests, id)
  {
    if requests != [] {
      var before, last := requests[..|requests| - 1], requests[|requests| - 1];
      RunEarnsFlags(db, before, id);
      RunKeepsFiled(db, before);
      assert requests == before + [last];
      if last.Mutation? && Commits(Run(db, before), last) && last.command.task == id {
        CommitEarnsFlags(db, before, last.command);
      } else {
        OtherRequestKeepsTask(Run(db, before), last, id);
        SameTaskKeepsFlags(db, before, last, id);
      }
    }
  }

  /**
   Every ledger row of a task that started unscanned follows a source scan, then a destination scan, and
   (except picking) an item scan after the source.
   */
  lemma {:induction false} MovesFollowScans(db: Tables, requests: seq<Request>, i: nat)
    requires Filed(db) && i < |requests| && requests[i].Mutation?
    requires requests[i].command.task in db.tasks
    requires var t := db.tasks[requests[i].command.task]; !t.sourceValidated && !t.destinationValidated && !t.itemValidated
    requires RowAdded(Run(db, requests[..i]), requests[i]) != []
    ensures var c := requests[i].command;
            && ScannedInOrder(db, requests[..i], c.task, SourceScan, DestinationScan)
            && (c.workflow != Picking ==> ScannedInOrder(db, requests[..i], c.task, SourceScan, ItemScan))
  {
    var now := Run(db, requests[..i]);
    RunEarnsFlags(db, requests[..i], requests[i].command.task);
    RunKeepsFiled(db, requests[..i]);
    CommitFacts(now, requests[i].command);
    MoveNeedsFlags(now, requests[i].command);
  }

  lemma MoveNeedsFlags(db: Tables, c: Command)
    requires RowAdded(db, Mutation(c)) != []
    ensures c.task in db.tasks
    ensures var t := db.tasks[c.task];
            t.sourceValidated && t.destinationValidated && (c.workflow != Picking ==> t.itemValidated)
  {
  }
}
