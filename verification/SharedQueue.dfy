/**
 The operator queue as it is shared: WMS deliveries and operator commands on dispatched tasks
 (TaskExecution), movement commands and stock transfers (MovementTasks), claims and releases
 (OperatorQueue) and cycle counts all run over one warehouse_task table, in any order.
 */
module SharedQueue {
  import opened Envelopes
  import opened QueueRows
  import opened Results
  import opened TaskFeed
  import opened TaskFeedLaws
  import Execution = TaskExecution
  import Movement = MovementTasks
  import Operators = OperatorQueue

  /**
   All the tables. The queue is `world.feed.queue`, and `tables.queue` is the same one; `held` are the
   tasks that receiving_task and cycle_count_task refer to.
   */
  datatype Floor = Floor(
    world: Execution.World, tables: Movement.Tables, answers: map<string, Operators.Answer>, outbox: seq<Event>,
    held: set<string>)

  /** One transaction or statement of one of the services; a cycle count writes what it likes into its row. */
  datatype Step =
    | Device(step: Execution.Step)
    | Move(request: Movement.Request)
    | Operate(command: Operators.Command)
    | Count(task: string, status: string, operator: Option<string>, version: int)

  function BookOf(fl: Floor): Operators.Book {
    Operators.Book(fl.world.feed.queue, fl.answers, fl.outbox)
  }

  function WithQueue(w: Execution.World, queue: map<string, Queued>): Execution.World {
    w.(feed := w.feed.(queue := queue))
  }

  /** The foreign keys on warehouse_task: another table still refers to the task. */
  predicate Referenced(fl: Floor, t: string) {
    t in fl.tables.tasks || t in fl.held
  }

  /** A delivery that would delete a row which the foreign keys hold: its transaction rolls back. */
  predicate Refused(fl: Floor, m: Message) {
    && Classify(m.content).Ok?
    && var d := Classify(m.content).value;
    d.status == "" && !Ignored(fl.world.feed, d) && d.payload.task in fl.world.feed.queue && Referenced(fl, d.payload.task)
  }

  function Do(fl: Floor, s: Step): Floor {
    match s
    case Device(step) =>
      if step.Deliver? && Refused(fl, step.message) then fl
      else
        var next := Execution.Do(fl.world, step);
        fl.(world := next, tables := fl.tables.(queue := next.feed.queue))
    case Move(request) =>
      var next := Movement.Step(fl.tables, request).0;
      fl.(world := WithQueue(fl.world, next.queue), tables := next)
    case Operate(c) =>
      var next := Operators.Mutate(BookOf(fl), c).0;
      fl.(world := WithQueue(fl.world, next.queue), tables := fl.tables.(queue := next.queue),
          answers := next.answers, outbox := next.outbox)
    case Count(t, status, operator, version) =>
      var next := Updated(fl.world.feed.queue, t, status, operator, version);
      fl.(world := WithQueue(fl.world, next), tables := fl.tables.(queue := next))
  }

  function Run(fl: Floor, steps: seq<Step>): Floor {
    if steps == [] then fl else Do(Run(fl, steps[..|steps| - 1]), steps[|steps| - 1])
  }

  /** One queue, and the rows that other tables refer to are there. */
  ghost predicate Shared(fl: Floor) {
    && fl.tables.queue == fl.world.feed.queue
    && forall t :: Referenced(fl, t) ==> t in fl.world.feed.queue
  }

  /** Nothing has happened yet: no message, no command; only tasks and queue rows that were seeded. */
  ghost predicate Fresh(fl: Floor) {
    Shared(fl) && fl.world == WithQueue(Execution.START, fl.world.feed.queue)
  }
}

/** What every interleaving of the services guarantees about the queue they share. */
module SharedQueueLaws {
  import opened Envelopes
  import opened QueueRows
  import opened Results
  import opened TaskFeed
  import opened TaskFeedLaws
  import opened SharedQueue
  import Execution = TaskExecution
  import Movement = MovementTasks
  import MovementLaws
  import Operators = OperatorQueue

  // ---- Who wrote a row last -------------------------------------------------------------------

  predicate FeedWrites(fl: Floor, s: Step, t: string) {
    && s.Device? && s.step.Deliver? && Classify(s.step.message.content).Ok?
    && var d := Classify(s.step.message.content).value;
    d.payload.task == t && !Ignored(fl.world.feed, d) && !Refused(fl, s.step.message)
  }

  predicate MoveWrites(fl: Floor, s: Step, t: string) {
    && s.Move? && s.request.Mutation? && s.request.command.task == t && t in fl.world.feed.queue
    && Movement.Commits(fl.tables, s.request)
  }

  predicate CountWrites(fl: Floor, s: Step, t: string) {
    s.Count? && s.task == t && t in fl.world.feed.queue
  }

  /** The step is a claim or release that changes the row of the task. */
  predicate Operates(fl: Floor, s: Step, t: string) {
    s.Operate? && s.command.task == t && Operators.Takes(BookOf(fl), s.command)
  }

  datatype Writer = Nobody | Feeding | Moving | Counting

  /** Who last wrote a row as a whole, and the claims and releases that have changed it since. */
  datatype Origin = Origin(writer: Writer, taken: seq<Operators.Action>)

  function NextOrigin(fl: Floor, s: Step, t: string, o: Origin): Origin {
    if FeedWrites(fl, s, t) then Origin(Feeding, [])
    else if MoveWrites(fl, s, t) then Origin(Moving, [])
    else if CountWrites(fl, s, t) then Origin(Counting, [])
    else if Operates(fl, s, t) then o.(taken := o.taken + [s.command.action])
    else o
  }

  /** A row that shows its movement task at the start counts as written by it. */
  function OriginOf(fl: Floor, steps: seq<Step>, t: string): Origin {
    if steps == [] then Origin(if InStep(fl, t) then Moving else Nobody, [])
    else
      var before, last := steps[..|steps| - 1], steps[|steps| - 1];
      NextOrigin(Run(fl, before), last, t, OriginOf(fl, before, t))
  }

  /** The queue row of a task shows its movement task: status, operator and version. */
  predicate InStep(fl: Floor, t: string) {
    t in fl.tables.tasks && t in fl.world.feed.queue && MovementLaws.Follows(fl.world.feed.queue[t], fl.tables.tasks[t])
  }

  /** The status of a row after some claims and releases. */
  function StatusAfter(status: string, taken: seq<Operators.Action>): string {
    if taken == [] then status
    else if taken[|taken| - 1].Claim? then "ASSIGNED"
    else "NEW"
  }

  /** The queue row that a projection gives, after some claims and releases; a withdrawn task has none to take. */
  ghost predicate MirrorsTaken(rows: Rows, taken: seq<Operators.Action>) {
    match rows.projection
    case None => false
    case Some(p) =>
      && (rows.queued.None? <==> p.status == "CANCELLED" || p.status == "FAILED")
      && (rows.queued.None? ==> taken == [])
      && (rows.queued.Some? ==>
            var q := rows.queued.value;
            && p.status in SHOWN && q.status == StatusAfter(SHOWN[p.status], taken)
            && p.taskType in CATEGORIES && q.category == CATEGORIES[p.taskType]
            && q.priority == p.priority && q.warehouse == p.warehouse && q.version == p.version + |taken|)
  }

  /** What the origin of a row says about it. */
  ghost predicate Explains(fl: Floor, t: string, o: Origin) {
    match o.writer
    case Nobody => true
    case Counting => true
    case Moving =>
      && t in fl.tables.tasks && t in fl.world.feed.queue
      && fl.world.feed.queue[t].version == fl.tables.tasks[t].version + |o.taken|
      && fl.world.feed.queue[t].status == StatusAfter(Movement.StatusName(fl.tables.tasks[t].status), o.taken)
      && (o.taken == [] ==> InStep(fl, t))
    case Feeding => MirrorsTaken(RowsOf(fl.world.feed, t), o.taken)
  }

  // ---- One step ---------------------------------------------------------------------------------

  lemma {:induction false} MutationLeaves(db: Movement.Tables, c: Movement.Command, t: string)
    requires Movement.Executed(db, c).Ok?
    ensures var next := Movement.Executed(db, c).value.0;
            && next.queue.Keys == db.queue.Keys
            && (c.task == t && t in db.queue ==> MovementLaws.Follows(next.queue[t], next.tasks[t]))
            && (c.task != t && t in db.queue ==> next.queue[t] == db.queue[t])
            && (c.task != t && t in db.tasks ==> t in next.tasks && next.tasks[t] == db.tasks[t])
            && next.tasks.Keys == db.tasks.Keys && c.task in db.tasks
  {
    MovementLaws.ExecutedStores(db, c);
  }

  lemma {:induction false} StepKeepsShared(fl: Floor, s: Step)
    requires Shared(fl)
    ensures Shared(Do(fl, s)) && Do(fl, s).held == fl.held && Do(fl, s).tables.tasks.Keys == fl.tables.tasks.Keys
  {
    hide Movement.Step;
    match s
    case Device(step) =>
      DeviceKeepsShared(fl, step);
    case Move(request) =>
      MoveKeepsShared(fl, request);
    case Operate(c) =>
      Operators.MutateWrites(BookOf(fl), c, c.task);
    case Count(_, _, _, _) =>
  }

  lemma {:induction false} DeviceKeepsShared(fl: Floor, step: Execution.Step)
    requires Shared(fl)
    ensures Shared(Do(fl, Device(step)))
  {
    if step.Deliver? && Classify(step.message.content).Ok? && !Refused(fl, step.message) {
      var d := Classify(step.message.content).value;
      forall t | Referenced(fl, t)
        ensures t in Applied(fl.world.feed, d).queue
      {
        AppliedRows(fl.world.feed, d, t);
        assert RowsOf(fl.world.feed, t).queued.Some?;
      }
    }
  }

  lemma {:induction false} RequestKeepsKeys(db: Movement.Tables, request: Movement.Request)
    ensures Movement.Step(db, request).0.queue.Keys == db.queue.Keys
    ensures Movement.Step(db, request).0.tasks.Keys == db.tasks.Keys
  {
    hide Movement.Executed;
    if request.Mutation? && Movement.Executed(db, request.command).Ok? {
      MutationLeaves(db, request.command, request.command.task);
    }
  }

  lemma {:induction false} MoveKeepsShared(fl: Floor, request: Movement.Request)
    requires Shared(fl)
    ensures Shared(Do(fl, Move(request)))
    ensures Do(fl, Move(request)).tables.tasks.Keys == fl.tables.tasks.Keys
  {
    hide Movement.Step;
    RequestKeepsKeys(fl.tables, request);
    forall t | Referenced(Do(fl, Move(request)), t)
      ensures t in fl.world.feed.queue.Keys
    {
      assert t in fl.tables.tasks.Keys || t in fl.held;
    }
  }

  lemma {:induction false} RunKeepsShared(fl: Floor, steps: seq<Step>)
    requires Shared(fl)
    ensures Shared(Run(fl, steps)) && Run(fl, steps).held == fl.held
    ensures Run(fl, steps).tables.tasks.Keys == fl.tables.tasks.Keys
  {
    if steps != [] {
      RunKeepsShared(fl, steps[..|steps| - 1]);
      StepKeepsShared(Run(fl, steps[..|steps| - 1]), steps[|steps| - 1]);
    }
  }

  lemma {:induction false} DeliveryExplains(fl: Floor, m: Message, t: string, o: Origin)
    requires Shared(fl) && Explains(fl, t, o)
    ensures var s := Device(Execution.Deliver(m)); Explains(Do(fl, s), t, NextOrigin(fl, s, t, o))
  {
    hide Classify;
    var s := Device(Execution.Deliver(m));
    if Classify(m.content).Ok? && !Refused(fl, m) {
      var d := Classify(m.content).value;
      AppliedRows(fl.world.feed, d, t);
      if FeedWrites(fl, s, t) {
        ShownMirrors(m.content, RowsOf(Applied(fl.world.feed, d), t));
      } else {
        SameRowsExplain(fl, Do(fl, s), t, o);
      }
    } else {
      SameRowsExplain(fl, Do(fl, s), t, o);
    }
  }

  lemma {:induction false} SameRowsExplain(fl: Floor, next: Floor, t: string, o: Origin)
    requires Explains(fl, t, o) && RowsOf(next.world.feed, t) == RowsOf(fl.world.feed, t)
    requires t in fl.tables.tasks ==> t in next.tables.tasks && next.tables.tasks[t] == fl.tables.tasks[t]
    ensures Explains(next, t, o)
  {
    assert RowsOf(fl.world.feed, t).queued == if t in fl.world.feed.queue then Some(fl.world.feed.queue[t]) else None;
    assert RowsOf(next.world.feed, t).queued == if t in next.world.feed.queue then Some(next.world.feed.queue[t]) else None;
  }

  lemma {:induction false} CommitExplains(fl: Floor, c: Movement.Command, t: string, o: Origin)
    requires Shared(fl) && Explains(fl, t, o) && Movement.Commits(fl.tables, Movement.Mutation(c))
    ensures var s := Move(Movement.Mutation(c)); Explains(Do(fl, s), t, NextOrigin(fl, s, t, o))
  {
    hide Movement.Executed;
    var s := Move(Movement.Mutation(c));
    MutationLeaves(fl.tables, c, t);
    if c.task != t {
      SameRowsExplain(fl, Do(fl, s), t, o);
    }
  }

  lemma {:induction false} TransferLeaves(db: Movement.Tables, x: Movement.TransferCommand)
    ensures Movement.TransferStock(db, x).0.queue == db.queue && Movement.TransferStock(db, x).0.tasks == db.tasks
  {
  }

  lemma {:induction false} OtherRequestLeaves(fl: Floor, request: Movement.Request)
    requires Shared(fl) && !(Movement.Commits(fl.tables, request) && request.Mutation?)
    ensures Do(fl, Move(request)).world.feed == fl.world.feed && Do(fl, Move(request)).tables.tasks == fl.tables.tasks
  {
    hide Movement.Executed, Movement.TransferStock;
    if request.Transfers? {
      TransferLeaves(fl.tables, request.transfer);
    }
  }

  lemma {:induction false} MoveExplains(fl: Floor, request: Movement.Request, t: string, o: Origin)
    requires Shared(fl) && Explains(fl, t, o)
    ensures var s := Move(request); Explains(Do(fl, s), t, NextOrigin(fl, s, t, o))
  {
    hide Do;
    if Movement.Commits(fl.tables, request) && request.Mutation? {
      CommitExplains(fl, request.command, t, o);
    } else {
      OtherRequestLeaves(fl, request);
      SameRowsExplain(fl, Do(fl, Move(request)), t, o);
    }
  }

  lemma {:induction false} OperateLeaves(fl: Floor, c: Operators.Command)
    ensures var next := Do(fl, Operate(c));
            && next.world.feed == fl.world.feed.(queue := Operators.Mutate(BookOf(fl), c).0.queue)
            && next.tables.tasks == fl.tables.tasks
  {
  }

  lemma {:induction false} TakingExplains(fl: Floor, c: Operators.Command, t: string, o: Origin)
    requires Shared(fl) && Explains(fl, t, o) && Operates(fl, Operate(c), t)
    ensures Explains(Do(fl, Operate(c)), t, o.(taken := o.taken + [c.action]))
  {
    hide Do, NextOrigin;
    OperateLeaves(fl, c);
    Operators.MutateWrites(BookOf(fl), c, t);
  }

  lemma {:induction false} OperateExplains(fl: Floor, c: Operators.Command, t: string, o: Origin)
    requires Shared(fl) && Explains(fl, t, o)
    ensures var s := Operate(c); Explains(Do(fl, s), t, NextOrigin(fl, s, t, o))
  {
    if Operates(fl, Operate(c), t) {
      TakingExplains(fl, c, t, o);
    } else {
      OperateLeaves(fl, c);
      Operators.MutateWrites(BookOf(fl), c, t);
      SameRowsExplain(fl, Do(fl, Operate(c)), t, o);
    }
  }

  lemma {:induction false} StepExplains(fl: Floor, s: Step, t: string, o: Origin)
    requires Shared(fl) && Explains(fl, t, o)
    ensures Explains(Do(fl, s), t, NextOrigin(fl, s, t, o))
  {
    match s
    case Device(step) =>
      if step.Deliver? {
        DeliveryExplains(fl, step.message, t, o);
      } else {
        SameRowsExplain(fl, Do(fl, s), t, o);
      }
    case Move(request) => MoveExplains(fl, request, t, o);
    case Operate(c) => OperateExplains(fl, c, t, o);
    case Count(task, _, _, _) =>
      if task != t || t !in fl.world.feed.queue {
        SameRowsExplain(fl, Do(fl, s), t, o);
      }
  }

  // ---- Runs -----------------------------------------------------------------------------------

  /** Every run explains every row by its last writer and the claims and releases since. */
  lemma {:induction false} RunExplains(fl: Floor, steps: seq<Step>, t: string)
    requires Shared(fl)
    ensures Explains(Run(fl, steps), t, OriginOf(fl, steps, t))
  {
    if steps != [] {
      var before, last := steps[..|steps| - 1], steps[|steps| - 1];
      RunExplains(fl, before, t);
      RunKeepsShared(fl, before);
      StepExplains(Run(fl, before), last, t, OriginOf(fl, before, t));
    }
  }

  /**
   The queue and the movement tasks, in every run: a row that a movement task wrote last as a whole shows that
   task exactly when no claim or release has changed it since.
   */
  lemma {:induction false} MovementShownExactly(fl: Floor, steps: seq<Step>, t: string)
    requires Shared(fl) && OriginOf(fl, steps, t).writer == Moving
    ensures InStep(Run(fl, steps), t) <==> OriginOf(fl, steps, t).taken == []
  {
    RunExplains(fl, steps, t);
  }

  /**
   The queue and the projection, in every run: a row that a delivery wrote last as a whole agrees with the
   projection, and is gone if that withdrew the task, exactly when no claim or release has changed it since.
   */
  lemma {:induction false} ProjectionShownExactly(fl: Floor, steps: seq<Step>, t: string)
    requires Shared(fl) && OriginOf(fl, steps, t).writer == Feeding
    ensures Mirrors(RowsOf(Run(fl, steps).world.feed, t)) <==> OriginOf(fl, steps, t).taken == []
  {
    RunExplains(fl, steps, t);
  }

  // ---- What the condition says --------------------------------------------------------------------

  /** The step writes the row as a whole. */
  predicate Writes(fl: Floor, s: Step, t: string) {
    FeedWrites(fl, s, t) || MoveWrites(fl, s, t) || CountWrites(fl, s, t)
  }

  predicate WritesAt(fl: Floor, steps: seq<Step>, t: string, i: nat) {
    i < |steps| && Writes(Run(fl, steps[..i]), steps[i], t)
  }

  predicate OperatesAt(fl: Floor, steps: seq<Step>, t: string, i: nat) {
    i < |steps| && Operates(Run(fl, steps[..i]), steps[i], t)
  }

  /** Every claim and release that changed the row was followed by a write of the row as a whole. */
  ghost predicate Overwritten(fl: Floor, steps: seq<Step>, t: string) {
    forall i: nat :: OperatesAt(fl, steps, t, i) ==> exists j: nat :: i < j && WritesAt(fl, steps, t, j)
  }

  lemma {:induction false} PrefixAt(fl: Floor, steps: seq<Step>, last: Step, t: string, i: nat)
    ensures i < |steps| ==> (WritesAt(fl, steps + [last], t, i) <==> WritesAt(fl, steps, t, i))
    ensures i < |steps| ==> (OperatesAt(fl, steps + [last], t, i) <==> OperatesAt(fl, steps, t, i))
    ensures i == |steps| ==> (WritesAt(fl, steps + [last], t, i) <==> Writes(Run(fl, steps), last, t))
    ensures i == |steps| ==> (OperatesAt(fl, steps + [last], t, i) <==> Operates(Run(fl, steps), last, t))
  {
    if i <= |steps| {
      assert (steps + [last])[..i] == steps[..i];
      assert steps[..|steps|] == steps;
    }
  }

  lemma {:induction false} WriteOverwrites(fl: Floor, steps: seq<Step>, last: Step, t: string)
    requires Writes(Run(fl, steps), last, t)
    ensures Overwritten(fl, steps + [last], t)
  {
    PrefixAt(fl, steps, last, t, |steps|);
    forall i: nat | OperatesAt(fl, steps + [last], t, i)
      ensures exists j: nat :: i < j && WritesAt(fl, steps + [last], t, j)
    {
      assert i < |steps|;
      assert WritesAt(fl, steps + [last], t, |steps|);
    }
  }

  lemma {:induction false} OtherStepOverwrites(fl: Floor, steps: seq<Step>, last: Step, t: string)
    requires !Writes(Run(fl, steps), last, t)
    ensures Overwritten(fl, steps + [last], t) <==> Overwritten(fl, steps, t) && !Operates(Run(fl, steps), last, t)
  {
    PrefixAt(fl, steps, last, t, |steps|);
    if Overwritten(fl, steps, t) && !Operates(Run(fl, steps), last, t) {
      forall i: nat | OperatesAt(fl, steps + [last], t, i)
        ensures exists j: nat :: i < j && WritesAt(fl, steps + [last], t, j)
      {
        PrefixAt(fl, steps, last, t, i);
        var j: nat :| i < j && WritesAt(fl, steps, t, j);
        PrefixAt(fl, steps, last, t, j);
      }
    }
    if Overwritten(fl, steps + [last], t) {
      forall i: nat | OperatesAt(fl, steps, t, i)
        ensures exists j: nat :: i < j && WritesAt(fl, steps, t, j)
      {
        PrefixAt(fl, steps, last, t, i);
        var j: nat :| i < j && WritesAt(fl, steps + [last], t, j);
        PrefixAt(fl, steps, last, t, j);
      }
    }
  }

  /** No claim or release has changed the row since it was last written, exactly when each was overwritten. */
  lemma {:induction false} UntakenExactly(fl: Floor, steps: seq<Step>, t: string)
    ensures OriginOf(fl, steps, t).taken == [] <==> Overwritten(fl, steps, t)
  {
    if steps != [] {
      var before, last := steps[..|steps| - 1], steps[|steps| - 1];
      assert steps == before + [last];
      UntakenExactly(fl, before, t);
      if Writes(Run(fl, before), last, t) {
        WriteOverwrites(fl, before, last, t);
      } else {
        OtherStepOverwrites(fl, before, last, t);
      }
    }
  }

  // ---- Claims ---------------------------------------------------------------------------------------

  lemma {:induction false} DeliveryLeavesRow(fl: Floor, m: Message, t: string)
    requires Shared(fl) && !FeedWrites(fl, Device(Execution.Deliver(m)), t)
    ensures RowsOf(Do(fl, Device(Execution.Deliver(m))).world.feed, t) == RowsOf(fl.world.feed, t)
  {
    if Classify(m.content).Ok? && !Refused(fl, m) {
      AppliedRows(fl.world.feed, Classify(m.content).value, t);
    }
  }

  lemma {:induction false} MoveLeavesRow(fl: Floor, request: Movement.Request, t: string)
    requires Shared(fl) && !MoveWrites(fl, Move(request), t)
    ensures RowsOf(Do(fl, Move(request)).world.feed, t) == RowsOf(fl.world.feed, t)
  {
    hide Movement.Executed;
    if request.Mutation? && Movement.Commits(fl.tables, request) {
      MutationLeaves(fl.tables, request.command, t);
    }
  }

  lemma {:induction false} OperateLeavesRow(fl: Floor, c: Operators.Command, t: string)
    requires !Operates(fl, Operate(c), t)
    ensures RowsOf(Do(fl, Operate(c)).world.feed, t) == RowsOf(fl.world.feed, t)
  {
    OperateLeaves(fl, c);
    Operators.MutateWrites(BookOf(fl), c, t);
  }

  lemma {:induction false} UntouchedRow(fl: Floor, s: Step, t: string)
    requires Shared(fl) && !Writes(fl, s, t) && !Operates(fl, s, t)
    ensures RowsOf(Do(fl, s).world.feed, t) == RowsOf(fl.world.feed, t)
  {
    match s
    case Device(step) =>
      if step.Deliver? {
        DeliveryLeavesRow(fl, step.message, t);
      }
    case Move(request) => MoveLeavesRow(fl, request, t);
    case Operate(c) => OperateLeavesRow(fl, c, t);
    case Count(_, _, _, _) =>
  }

  /** Step `k` takes the row from its operator: it writes the row as a whole, or releases it. */
  predicate FreesAt(fl: Floor, steps: seq<Step>, t: string, k: nat) {
    || WritesAt(fl, steps, t, k)
    || (OperatesAt(fl, steps, t, k) && steps[k].command.action.Release?)
  }

  /** A claim of a row that has an operator is that operator's. */
  lemma {:induction false} ClaimKeepsOperator(b: Operators.Book, c: Operators.Command)
    requires Operators.Takes(b, c) && c.action.Claim? && b.queue[c.task].operator.Some?
    ensures b.queue[c.task].operator == Some(c.actor.operator)
    ensures c.task in Operators.Mutate(b, c).0.queue
    ensures Operators.Mutate(b, c).0.queue[c.task].operator == b.queue[c.task].operator
  {
    Operators.MutateWrites(b, c, c.task);
  }

  predicate HeldBy(fl: Floor, t: string, operator: string) {
    t in fl.world.feed.queue && fl.world.feed.queue[t].operator == Some(operator)
  }

  lemma {:induction false} OperatorStaysOnce(fl: Floor, s: Step, t: string, operator: string)
    requires Shared(fl) && HeldBy(fl, t, operator)
    requires !Writes(fl, s, t) && (Operates(fl, s, t) ==> s.command.action.Claim?)
    ensures HeldBy(Do(fl, s), t, operator)
  {
    if Operates(fl, s, t) {
      ClaimKeepsOperator(BookOf(fl), s.command);
    } else {
      UntouchedRow(fl, s, t);
      assert RowsOf(fl.world.feed, t).queued == Some(fl.world.feed.queue[t]);
      assert RowsOf(Do(fl, s).world.feed, t).queued == Some(fl.world.feed.queue[t]);
    }
  }

  lemma {:induction false} ClaimHolds(fl: Floor, s: Step, t: string)
    requires Operates(fl, s, t) && s.command.action.Claim?
    ensures HeldBy(Do(fl, s), t, s.command.actor.operator)
  {
    Operators.MutateWrites(BookOf(fl), s.command, t);
  }

  lemma {:induction false} RunNext(fl: Floor, steps: seq<Step>, i: nat)
    requires i < |steps|
    ensures Run(fl, steps[..i + 1]) == Do(Run(fl, steps[..i]), steps[i])
  {
    assert steps[..i + 1][..i] == steps[..i];
  }

  lemma {:induction false} OperatorStaysAt(fl: Floor, steps: seq<Step>, t: string, k: nat, operator: string)
    requires Shared(fl) && k < |steps| && HeldBy(Run(fl, steps[..k]), t, operator) && !FreesAt(fl, steps, t, k)
    ensures HeldBy(Run(fl, steps[..k + 1]), t, operator)
  {
    RunNext(fl, steps, k);
    RunKeepsShared(fl, steps[..k]);
    assert !WritesAt(fl, steps, t, k);
    assert OperatesAt(fl, steps, t, k) ==> steps[k].command.action.Claim?;
    OperatorStaysOnce(Run(fl, steps[..k]), steps[k], t, operator);
  }

  lemma {:induction false} Persists(p: nat -> bool, i: nat, j: nat)
    requires i <= j && p(i) && forall k: nat :: i <= k < j && p(k) ==> p(k + 1)
    ensures p(j)
    decreases j
  {
    if i < j {
      Persists(p, i, j - 1);
      assert p(j - 1 + 1);
    }
  }

  lemma {:induction false} OperatorStays(fl: Floor, steps: seq<Step>, t: string, i: nat, j: nat, operator: string)
    requires Shared(fl) && i <= j <= |steps| && HeldBy(Run(fl, steps[..i]), t, operator)
    requires forall k: nat :: i <= k < j ==> !FreesAt(fl, steps, t, k)
    ensures HeldBy(Run(fl, steps[..j]), t, operator)
  {
    hide Do, Run, FreesAt;
    var p := (k: nat) => k <= |steps| && HeldBy(Run(fl, steps[..k]), t, operator);
    forall k: nat | i <= k < j && p(k)
      ensures p(k + 1)
    {
      OperatorStaysAt(fl, steps, t, k, operator);
    }
    Persists(p, i, j);
  }

  /** Claims exclude each other: between two of one row by different operators the row was released or rewritten. */
  lemma {:induction false} ClaimIsExclusive(fl: Floor, steps: seq<Step>, t: string, i: nat, j: nat)
    requires Shared(fl) && i < j && OperatesAt(fl, steps, t, i) && OperatesAt(fl, steps, t, j)
    requires steps[i].command.action.Claim? && steps[j].command.action.Claim?
    requires steps[i].command.actor.operator != steps[j].command.actor.operator
    ensures exists k: nat :: i < k < j && FreesAt(fl, steps, t, k)
  {
    if forall k: nat :: i < k < j ==> !FreesAt(fl, steps, t, k) {
      RunNext(fl, steps, i);
      ClaimHolds(Run(fl, steps[..i]), steps[i], t);
      OperatorStays(fl, steps, t, i + 1, j, steps[i].command.actor.operator);
      ClaimKeepsOperator(BookOf(Run(fl, steps[..j])), steps[j].command);
    }
  }

  lemma {:induction false} AnswersStay(fl: Floor, steps: seq<Step>, key: string)
    requires key in fl.answers
    ensures key in Run(fl, steps).answers && Run(fl, steps).answers[key] == fl.answers[key]
  {
    if steps != [] {
      AnswersStay(fl, steps[..|steps| - 1], key);
      AnswerStays(Run(fl, steps[..|steps| - 1]), steps[|steps| - 1], key);
    }
  }

  lemma {:induction false} AnswerStays(fl: Floor, s: Step, key: string)
    requires key in fl.answers
    ensures key in Do(fl, s).answers && Do(fl, s).answers[key] == fl.answers[key]
  {
  }

  /** A repeated key gets the first answer and changes nothing, whatever ran in between and whoever asks for what. */
  lemma {:induction false} RetryAnswersTheSame(
      fl: Floor, c: Operators.Command, between: seq<Step>, retry: Operators.Command)
    requires Shared(fl) && Operators.Mutate(BookOf(fl), c).1.Ok? && retry.key == c.key
    ensures var now := Run(Do(fl, Operate(c)), between);
            && Do(now, Operate(retry)) == now
            && Operators.Mutate(BookOf(now), retry).1 == Operators.Mutate(BookOf(fl), c).1
  {
    StepKeepsShared(fl, Operate(c));
    RunKeepsShared(Do(fl, Operate(c)), between);
    AnswersStay(Do(fl, Operate(c)), between, c.key);
    assert Do(fl, Operate(c)).answers[c.key] == Operators.Mutate(BookOf(fl), c).1.value;
  }
}

/** What a delivery and a cycle count do amid the other services, in the columns of the tables. */
module SharedQueueRules {
  import opened QueueRows
  import opened Results
  import opened TaskFeed
  import opened TaskFeedLaws
  import opened TaskFeedRules
  import opened SharedQueue
  import Execution = TaskExecution
  import Movement = MovementTasks
  import Operators = OperatorQueue

  /** The message is news, withdraws its task, and another table still refers to the queue row it would delete. */
  predicate HeldBack(fl: Floor, m: Message) {
    && Good(m.content) && Withdraws(m.content.payload.value)
    && var f := fl.world.feed; var p := m.content.payload.value;
       && m.content.event.value !in f.inbox && (p.task in f.projections ==> f.projections[p.task].version < p.version)
       && p.task in f.queue && (p.task in fl.tables.tasks || p.task in fl.held)
  }

  /** A delivery is rolled back exactly when it is held back; otherwise it is ingested, and all services see its queue. */
  lemma {:induction false} DeliveryExactly(fl: Floor, m: Message)
    ensures Refused(fl, m) <==> HeldBack(fl, m)
    ensures var next := Do(fl, Device(Execution.Deliver(m)));
            && (HeldBack(fl, m) ==> next == fl)
            && (!HeldBack(fl, m) ==>
                  var f := Process(fl.world.feed, m);
                  next == fl.(world := fl.world.(feed := f), tables := fl.tables.(queue := f.queue)))
  {
    ClassifiedExactly(m.content);
    if Good(m.content) {
      GoodDispatch(m.content);
      StatusesAre(m.content.payload.value);
    }
  }

  /** A count writes the status, operator and version of one row, and leaves everything else, for all services. */
  lemma {:induction false} CountExactly(fl: Floor, t: string, status: string, operator: Option<string>, version: int)
    requires Shared(fl)
    ensures var next := Do(fl, Count(t, status, operator, version)); var queue := next.world.feed.queue;
            && next == fl.(world := fl.world.(feed := fl.world.feed.(queue := queue)), tables := fl.tables.(queue := queue))
            && queue.Keys == fl.world.feed.queue.Keys
            && forall k <- queue ::
                 var before, after := fl.world.feed.queue[k], queue[k];
                 && after.category == before.category && after.priority == before.priority && after.warehouse == before.warehouse
                 && (k == t ==> after.status == status && after.operator == operator && after.version == version)
                 && (k != t ==> after == before)
  {
  }

  /** The other steps work on the queue as they find it, and leave the tables of the other services as they were. */
  lemma {:induction false} OtherStepExactly(fl: Floor, s: Step)
    requires Shared(fl) && !s.Count? && !(s.Device? && s.step.Deliver?)
    ensures var next := Do(fl, s);
            match s
            case Device(step) => next == fl.(world := Execution.Do(fl.world, step))
            case Move(request) =>
              && next.tables == Movement.Step(fl.tables, request).0
              && next == fl.(world := fl.world.(feed := fl.world.feed.(queue := next.tables.queue)), tables := next.tables)
            case Operate(c) =>
              var b := Operators.Mutate(Operators.Book(fl.tables.queue, fl.answers, fl.outbox), c).0;
              next == fl.(world := fl.world.(feed := fl.world.feed.(queue := b.queue)), tables := fl.tables.(queue := b.queue),
                          answers := b.answers, outbox := b.outbox)
            case Count(_, _, _, _) => true
  {
    hide Movement.Step, Operators.Mutate;
  }
}
