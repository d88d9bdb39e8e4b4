/** Apart from the queue the services do not see each other, and what that means for convergence. */
module SharedQueueConvergence {
  import opened Envelopes
  import opened QueueRows
  import opened Results
  import opened TaskFeed
  import opened TaskFeedLaws
  import opened SharedQueue
  import opened SharedQueueLaws
  import Execution = TaskExecution
  import Movement = MovementTasks
  import Operators = OperatorQueue
  import StockTables
  import TaskReplayLaws

  // ---- Only the queue is shared ---------------------------------------------------------------

  function SansQueue(w: Execution.World): Execution.World {
    WithQueue(w, map[])
  }

  function TablesSansQueue(db: Movement.Tables): Movement.Tables {
    db.(queue := map[])
  }

  /** The steps of the dispatched-task service, without the deliveries that were refused. */
  function DeviceSteps(fl: Floor, steps: seq<Step>): seq<Execution.Step> {
    if steps == [] then []
    else
      var before, last := steps[..|steps| - 1], steps[|steps| - 1];
      DeviceSteps(fl, before)
      + if last.Device? && !(last.step.Deliver? && Refused(Run(fl, before), last.step.message)) then [last.step] else []
  }

  function Requests(steps: seq<Step>): seq<Movement.Request> {
    if steps == [] then []
    else
      var last := steps[|steps| - 1];
      Requests(steps[..|steps| - 1]) + if last.Move? then [last.request] else []
  }

  /** The messages whose transactions committed, in order. */
  function Arrived(fl: Floor, steps: seq<Step>): seq<Message> {
    TaskReplayLaws.Deliveries(DeviceSteps(fl, steps))
  }

  lemma {:induction false} AppliedIgnoresQueue(f: Feed, g: Feed, d: Dispatch)
    requires f.(queue := map[]) == g.(queue := map[])
    ensures Applied(f, d).(queue := map[]) == Applied(g, d).(queue := map[])
  {
    assert f.inbox == g.inbox && f.projections == g.projections && f.stale == g.stale && f.dead == g.dead;
  }

  lemma {:induction false} ProcessIgnoresQueue(f: Feed, g: Feed, m: Message)
    requires f.(queue := map[]) == g.(queue := map[])
    ensures Process(f, m).(queue := map[]) == Process(g, m).(queue := map[])
  {
    hide Applied, Classify;
    if Classify(m.content).Ok? {
      AppliedIgnoresQueue(f, g, Classify(m.content).value);
    } else {
      assert f.dead == g.dead && f.inbox == g.inbox && f.projections == g.projections && f.stale == g.stale;
    }
  }

  lemma {:induction false} CommittedIgnoresQueue(f: Feed, g: Feed, desk: Execution.Desk, c: Execution.Command)
    requires f.projections == g.projections
    ensures Execution.Committed(f, desk, c) == Execution.Committed(g, desk, c)
  {
  }

  lemma {:induction false} DoIgnoresQueue(w: Execution.World, v: Execution.World, s: Execution.Step)
    requires SansQueue(w) == SansQueue(v)
    ensures SansQueue(Execution.Do(w, s)) == SansQueue(Execution.Do(v, s))
  {
    assert w.desk == v.desk && w.threads == v.threads;
    assert w.feed.(queue := map[]) == SansQueue(w).feed == SansQueue(v).feed == v.feed.(queue := map[]);
    match s
    case Deliver(m) => ProcessIgnoresQueue(w.feed, v.feed, m);
    case Commit(t) =>
      assert w.feed.projections == v.feed.projections;
      if Execution.Waits(w, t) {
        CommittedIgnoresQueue(w.feed, v.feed, w.desk, w.threads[t].command);
      }
    case Begin(_, _) =>
    case Note(_) =>
    case Drop(_) =>
  }

  lemma {:induction false} ExecutedIgnoresQueue(db: Movement.Tables, e: Movement.Tables, c: Movement.Command)
    requires TablesSansQueue(db) == TablesSansQueue(e)
    ensures Movement.Executed(db, c).Ok? <==> Movement.Executed(e, c).Ok?
    ensures Movement.Executed(db, c).Ok? ==>
              TablesSansQueue(Movement.Executed(db, c).value.0) == TablesSansQueue(Movement.Executed(e, c).value.0)
  {
    assert db.tasks == e.tasks && db.stock == e.stock && db.commands == e.commands;
    assert db.outbox == e.outbox && db.audit == e.audit && db.transfers == e.transfers;
  }

  lemma {:induction false} TransferIgnoresQueue(db: Movement.Tables, e: Movement.Tables, x: Movement.TransferCommand)
    requires TablesSansQueue(db) == TablesSansQueue(e)
    ensures Movement.ExecutedTransfer(db, x).Ok? <==> Movement.ExecutedTransfer(e, x).Ok?
    ensures Movement.ExecutedTransfer(db, x).Ok? ==>
              TablesSansQueue(Movement.ExecutedTransfer(db, x).value.0) == TablesSansQueue(Movement.ExecutedTransfer(e, x).value.0)
  {
    assert db.tasks == e.tasks && db.stock == e.stock && db.commands == e.commands;
    assert db.outbox == e.outbox && db.audit == e.audit && db.transfers == e.transfers;
  }

  lemma {:induction false} RequestIgnoresQueue(db: Movement.Tables, e: Movement.Tables, r: Movement.Request)
    requires TablesSansQueue(db) == TablesSansQueue(e)
    ensures TablesSansQueue(Movement.Step(db, r).0) == TablesSansQueue(Movement.Step(e, r).0)
  {
    assert db.commands == e.commands && db.transfers == e.transfers;
    match r
    case Mutation(c) => ExecutedIgnoresQueue(db, e, c);
    case Transfers(x) => TransferIgnoresQueue(db, e, x);
  }

  /**
   Only the queue is shared: in every interleaving each service's other tables are those of its own steps alone,
   so that every law of TaskExecutionLaws and MovementLaws about them holds here too.
   */
  lemma {:induction false} OnlyQueueIsShared(fl: Floor, steps: seq<Step>)
    requires Fresh(fl)
    ensures SansQueue(Run(fl, steps).world) == SansQueue(Execution.Run(Execution.START, DeviceSteps(fl, steps)))
    ensures TablesSansQueue(Run(fl, steps).tables) == TablesSansQueue(Movement.Run(fl.tables, Requests(steps)))
  {
    hide Do;
    if steps != [] {
      var before, last := steps[..|steps| - 1], steps[|steps| - 1];
      OnlyQueueIsShared(fl, before);
      WorldGoesOn(fl, before, last);
      TablesGoOn(fl, before, last);
      assert steps == before + [last];
    }
  }

  lemma {:induction false} WorldGoesOn(fl: Floor, before: seq<Step>, last: Step)
    requires SansQueue(Run(fl, before).world) == SansQueue(Execution.Run(Execution.START, DeviceSteps(fl, before)))
    ensures SansQueue(Run(fl, before + [last]).world)
         == SansQueue(Execution.Run(Execution.START, DeviceSteps(fl, before + [last])))
  {
    assert (before + [last])[..|before|] == before;
    var all := DeviceSteps(fl, before + [last]);
    if last.Device? && !(last.step.Deliver? && Refused(Run(fl, before), last.step.message)) {
      assert all[..|all| - 1] == DeviceSteps(fl, before);
      DoIgnoresQueue(Run(fl, before).world, Execution.Run(Execution.START, DeviceSteps(fl, before)), last.step);
    } else {
      assert all == DeviceSteps(fl, before);
    }
  }

  lemma {:induction false} TablesGoOn(fl: Floor, before: seq<Step>, last: Step)
    requires TablesSansQueue(Run(fl, before).tables) == TablesSansQueue(Movement.Run(fl.tables, Requests(before)))
    ensures TablesSansQueue(Run(fl, before + [last]).tables)
         == TablesSansQueue(Movement.Run(fl.tables, Requests(before + [last])))
  {
    assert (before + [last])[..|before|] == before;
    var all := Requests(before + [last]);
    if last.Move? {
      assert all[..|all| - 1] == Requests(before);
      RequestIgnoresQueue(Run(fl, before).tables, Movement.Run(fl.tables, Requests(before)), last.request);
    } else {
      assert all == Requests(before);
    }
  }

  // ---- Convergence ------------------------------------------------------------------------------

  lemma {:induction false} FeedIsWhatArrived(fl: Floor, steps: seq<Step>)
    requires Fresh(fl)
    ensures var f, g := Run(fl, steps).world.feed, Ingest(EMPTY, Arrived(fl, steps));
            && f.inbox == g.inbox && f.projections == g.projections && f.received == g.received
            && f.stale == g.stale && f.dead == g.dead
  {
    OnlyQueueIsShared(fl, steps);
    TaskReplayLaws.FeedIsItsDeliveries(DeviceSteps(fl, steps));
    assert SansQueue(Run(fl, steps).world).feed
        == SansQueue(Execution.Run(Execution.START, DeviceSteps(fl, steps))).feed;
  }

  /**
   Convergence amid everything else: two interleavings in which the same messages were committed have the same
   inbox and projections, whatever operators, movements and counts did in between. The queue rows of a task that
   deliveries wrote last as a whole agree, operator apart, exactly when as many claims and releases have come
   since in both, and the last was of the same kind.
   */
  lemma {:induction false} RunsConverge(fa: Floor, a: seq<Step>, fb: Floor, b: seq<Step>, t: string)
    requires Fresh(fa) && Fresh(fb)
    requires Accepted(Arrived(fa, a)) == Accepted(Arrived(fb, b)) && Consistent(Accepted(Arrived(fa, a)))
    ensures var f, g := Run(fa, a).world.feed, Run(fb, b).world.feed;
            f.inbox == g.inbox && f.projections == g.projections
    ensures var p, q := OriginOf(fa, a, t), OriginOf(fb, b, t);
            p.writer == Feeding && q.writer == Feeding ==>
              (SameRows(RowsOf(Run(fa, a).world.feed, t), RowsOf(Run(fb, b).world.feed, t)) <==> AsTaken(p.taken, q.taken))
  {
    hide Do;
    FeedIsWhatArrived(fa, a);
    FeedIsWhatArrived(fb, b);
    IngestionConverges(Arrived(fa, a), Arrived(fb, b));
    RunExplains(fa, a, t);
    RunExplains(fb, b, t);
    var p, q := OriginOf(fa, a, t), OriginOf(fb, b, t);
    if p.writer == Feeding && q.writer == Feeding {
      MirrorsDecide(RowsOf(Run(fa, a).world.feed, t), p.taken, RowsOf(Run(fb, b).world.feed, t), q.taken);
    }
  }

  /** As many claims and releases, and the last of the same kind. */
  predicate AsTaken(a: seq<Operators.Action>, b: seq<Operators.Action>) {
    |a| == |b| && (a != [] ==> a[|a| - 1] == b[|b| - 1])
  }

  lemma {:induction false} MirrorsDecide(a: Rows, x: seq<Operators.Action>, b: Rows, y: seq<Operators.Action>)
    requires MirrorsTaken(a, x) && MirrorsTaken(b, y) && a.projection == b.projection
    ensures SameRows(a, b) <==> AsTaken(x, y)
  {
    if x != [] && y != [] {
      assert x[|x| - 1].Claim? || x[|x| - 1].Release?;
    }
  }

  /**
   And exactly: a row that a delivery wrote last as a whole is the row that the deliveries alone would leave,
   operator apart, if and only if no claim or release has changed it since.
   */
  lemma {:induction false} DeliveriesDecideExactly(fl: Floor, steps: seq<Step>, t: string)
    requires Fresh(fl) && OriginOf(fl, steps, t).writer == Feeding
    ensures SameRows(RowsOf(Run(fl, steps).world.feed, t), RowsOf(Ingest(EMPTY, Arrived(fl, steps)), t))
       <==> OriginOf(fl, steps, t).taken == []
  {
    FeedIsWhatArrived(fl, steps);
    RunExplains(fl, steps, t);
    QueueMirrorsProjection(Arrived(fl, steps), t);
    MirrorsDecide(RowsOf(Run(fl, steps).world.feed, t), OriginOf(fl, steps, t).taken,
                  RowsOf(Ingest(EMPTY, Arrived(fl, steps)), t), []);
  }

  // ---- Two inputs ---------------------------------------------------------------------------------

  /** The seeded putaway task, and the queue row seeded with it. */
  const PUTAWAY: Movement.Task := Movement.Task(
    "PUT-001", StockTables.Putaway, Movement.New, "WH-01", None, 1, "STAGE-01", "BULK-01", "ITEM-001", "PUT-ITEM-001",
    5, 0, false, false, false)

  const PUTAWAY_ROW: Queued := Queued("PUTAWAY", "NEW", 50, "WH-01", None, 1)

  /** One claim at the queue, and the row shows another status, operator and version than the movement task. */
  lemma {:induction false} ClaimLeavesTaskBehind(fl: Floor, c: Operators.Command)
    requires Shared(fl) && c.task == "PUT-001" && c.task in fl.tables.tasks && fl.tables.tasks[c.task] == PUTAWAY
    requires fl.world.feed.queue[c.task] == PUTAWAY_ROW
    requires c.action.Claim? && c.base == 1 && c.actor.warehouse == "WH-01" && c.key !in fl.answers
    requires EnvelopeValid(c.id, c.task, 2, c.actor)
    ensures InStep(fl, c.task)
    ensures var next := Do(fl, Operate(c));
            && next.tables.tasks[c.task] == PUTAWAY
            && next.world.feed.queue[c.task]
               == PUTAWAY_ROW.(status := "ASSIGNED", operator := Some(c.actor.operator), version := 2)
            && !InStep(next, c.task)
  {
    assert Operators.Takes(BookOf(fl), c);
    Operators.MutateWrites(BookOf(fl), c, c.task);
  }

  lemma RunAppend(fl: Floor, before: seq<Step>, last: Step)
    ensures Run(fl, before + [last]) == Do(Run(fl, before), last)
  {
    assert (before + [last])[..|before|] == before;
  }

  /** A delivery of a first or newer message that leaves the task queued. */
  lemma {:induction false} DeliveryQueues(fl: Floor, m: Message, d: Dispatch)
    requires Classify(m.content) == Ok(d) && d.status != "" && !Ignored(fl.world.feed, d)
    ensures var next := Do(fl, Device(Execution.Deliver(m))); var t := d.payload.task;
            && t in next.world.feed.queue && next.answers == fl.answers
            && next.world.feed.queue[t].version == d.payload.version
            && next.world.feed.queue[t].warehouse == d.payload.warehouse
            && (OperatorOf(d).None? && (t in fl.world.feed.queue ==> fl.world.feed.queue[t].operator.None?)
                ==> next.world.feed.queue[t].operator.None?)
            && next.world.feed.inbox == fl.world.feed.inbox + {d.event}
            && ProjectedVersion(next.world.feed, t) == d.payload.version
  {
  }

  lemma {:induction false} ClaimRaises(fl: Floor, c: Operators.Command)
    requires c.task in fl.world.feed.queue && fl.world.feed.queue[c.task].operator.None?
    requires c.action.Claim? && c.base == fl.world.feed.queue[c.task].version && c.key !in fl.answers
    requires c.actor.warehouse == fl.world.feed.queue[c.task].warehouse
    requires EnvelopeValid(c.id, c.task, c.base + 1, c.actor)
    ensures var next := Do(fl, Operate(c));
            && next.world.feed == fl.world.feed.(queue := next.world.feed.queue)
            && c.task in next.world.feed.queue && next.world.feed.queue[c.task].version == c.base + 1
  {
    assert Operators.Takes(BookOf(fl), c);
    Operators.MutateWrites(BookOf(fl), c, c.task);
  }

  /** Two messages that queue a task without naming an operator, and a claim of it. */
  ghost predicate ClaimedAmid(fl: Floor, m1: Message, d1: Dispatch, m2: Message, d2: Dispatch, c: Operators.Command) {
    && Classify(m1.content) == Ok(d1) && Classify(m2.content) == Ok(d2)
    && d1.payload.task == d2.payload.task == c.task && c.task !in fl.world.feed.queue
    && d1.status != "" && d2.status != "" && OperatorOf(d1).None? && OperatorOf(d2).None?
    && 1 <= d1.payload.version < d2.payload.version && d1.event != d2.event
    && c.action.Claim? && c.base == d1.payload.version && c.key !in fl.answers
    && c.actor.warehouse == d1.payload.warehouse == d2.payload.warehouse
    && EnvelopeValid(c.id, c.task, 2, c.actor)
  }

  lemma {:induction false} ClaimBetween(
      fl: Floor, m1: Message, d1: Dispatch, m2: Message, d2: Dispatch, c: Operators.Command)
    requires Fresh(fl) && ClaimedAmid(fl, m1, d1, m2, d2, c)
    ensures var end := Do(Do(Do(fl, Device(Execution.Deliver(m1))), Operate(c)), Device(Execution.Deliver(m2)));
            c.task in end.world.feed.queue && end.world.feed.queue[c.task].version == d2.payload.version
  {
    hide Do;
    assert ProjectedVersion(fl.world.feed, c.task) == 0;
    DeliveryQueues(fl, m1, d1);
    var one := Do(fl, Device(Execution.Deliver(m1)));
    ClaimRaises(one, c);
    DeliveryQueues(Do(one, Operate(c)), m2, d2);
  }

  lemma {:induction false} ClaimAfter(
      fl: Floor, m1: Message, d1: Dispatch, m2: Message, d2: Dispatch, c: Operators.Command)
    requires Fresh(fl) && ClaimedAmid(fl, m1, d1, m2, d2, c)
    ensures var late := Operate(c.(base := d2.payload.version));
            var end := Do(Do(Do(fl, Device(Execution.Deliver(m1))), Device(Execution.Deliver(m2))), late);
            c.task in end.world.feed.queue && end.world.feed.queue[c.task].version == d2.payload.version + 1
  {
    hide Do;
    assert ProjectedVersion(fl.world.feed, c.task) == 0;
    DeliveryQueues(fl, m1, d1);
    var one := Do(fl, Device(Execution.Deliver(m1)));
    DeliveryQueues(one, m2, d2);
    ClaimRaises(Do(one, Device(Execution.Deliver(m2))), c.(base := d2.payload.version));
  }

  /** The same two deliveries and one claim: claimed in between, or at the end, the row ends at different versions. */
  lemma {:induction false} ClaimOrderShows(
      fl: Floor, m1: Message, d1: Dispatch, m2: Message, d2: Dispatch, c: Operators.Command)
    requires Fresh(fl) && ClaimedAmid(fl, m1, d1, m2, d2, c)
    ensures var first, second := Device(Execution.Deliver(m1)), Device(Execution.Deliver(m2));
            var between := Do(Do(Do(fl, first), Operate(c)), second).world.feed.queue;
            var after := Do(Do(Do(fl, first), second), Operate(c.(base := d2.payload.version))).world.feed.queue;
            c.task in between && c.task in after && after[c.task].version == between[c.task].version + 1
  {
    ClaimBetween(fl, m1, d1, m2, d2, c);
    ClaimAfter(fl, m1, d1, m2, d2, c);
  }
}
