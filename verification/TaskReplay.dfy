/** Command ids, simultaneous requests, and what can hold a task back. */
module TaskReplayLaws {
  import opened Results
  import opened Text
  import opened TaskFeed
  import TaskFeedLaws
  import opened TaskFeedRules
  import opened TaskExecution
  import opened TaskExecutionLaws

  // ---- Commands do not touch the feed -----------------------------------------------------------

  function Deliveries(steps: seq<Step>): seq<Message> {
    if steps == [] then []
    else
      var last := steps[|steps| - 1];
      Deliveries(steps[..|steps| - 1]) + if last.Deliver? then [last.message] else []
  }

  lemma {:induction false} FeedIsItsDeliveries(steps: seq<Step>)
    ensures Run(START, steps).feed == Ingest(EMPTY, Deliveries(steps))
  {
    if steps != [] {
      var before, last := steps[..|steps| - 1], steps[|steps| - 1];
      FeedIsItsDeliveries(before);
      if last.Deliver? {
        assert Deliveries(steps)[..|Deliveries(steps)| - 1] == Deliveries(before);
      } else {
        assert Deliveries(steps) == Deliveries(before);
      }
    }
  }

  /**
   Convergence amid the commands of this service: two runs that were sent the same messages have the same feed,
   whatever commands ran in between. The claims, movements and counts that write the queue too are no steps here;
   with them, SharedQueueConvergence says what converges.
   */
  lemma {:induction false} RunsConverge(a: seq<Step>, b: seq<Step>)
    requires TaskFeedLaws.Accepted(Deliveries(a)) == TaskFeedLaws.Accepted(Deliveries(b))
    requires TaskFeedLaws.Consistent(TaskFeedLaws.Accepted(Deliveries(a)))
    ensures TaskFeedLaws.Converged(Run(START, a).feed, Run(START, b).feed)
  {
    FeedIsItsDeliveries(a);
    FeedIsItsDeliveries(b);
    TaskFeedLaws.IngestionConverges(Deliveries(a), Deliveries(b));
  }

  // ---- Replay -------------------------------------------------------------------------------------

  lemma {:induction false} CommitKeepsRow(feed: Feed, desk: Desk, c: Command, id: string)
    requires id in desk.commands && Committed(feed, desk, c).Ok?
    ensures var next := Committed(feed, desk, c).value.0; id in next.commands && next.commands[id] == desk.commands[id]
  {
  }

  lemma {:induction false} CommandRowStay(w: World, s: Step, id: string)
    requires id in w.desk.commands
    ensures id in Do(w, s).desk.commands && Do(w, s).desk.commands[id] == w.desk.commands[id]
  {
    if Commits(w, s) {
      CommitStep(w, s);
      CommitKeepsRow(w.feed, w.desk, CommandOf(w, s), id);
    } else {
      OtherStepFacts(w, s);
    }
  }

  lemma {:induction false} CommandRowsStay(w: World, steps: seq<Step>, id: string)
    requires id in w.desk.commands
    ensures id in Run(w, steps).desk.commands && Run(w, steps).desk.commands[id] == w.desk.commands[id]
  {
    if steps != [] {
      CommandRowsStay(w, steps[..|steps| - 1], id);
      CommandRowStay(Run(w, steps[..|steps| - 1]), steps[|steps| - 1], id);
    }
  }

  /** A request whose id has a row changes nothing, and the row decides its answer. */
  lemma {:induction false} StoredIdAnswers(w: World, thread: nat, request: Command)
    requires Normalized(request).Ok? && Normalized(request).value.id in w.desk.commands
    ensures var c := Normalized(request).value; var row := w.desk.commands[c.id];
            && Do(w, Begin(thread, request)) == w
            && Served(w.feed, w.desk, request)
               == (w.desk, if row.digest == DigestOf(c) then Ok(row.result) else Err(CommandConflict))
  {
  }

  /** The row a command leaves under an unused id. */
  lemma {:induction false} CommitStoresRow(feed: Feed, desk: Desk, c: Command)
    requires Committed(feed, desk, c).Ok? && c.id !in desk.commands
    ensures var (next, result) := Committed(feed, desk, c).value;
            c.id in next.commands && next.commands[c.id] == Done(DigestOf(c), result)
  {
  }

  /**
   Sequential replay: after a command with an unused id has committed, every later request with
   that id has no effect; it gets the first result if it asks the same, and is refused otherwise.
   */
  lemma {:induction false} RetryReplays(w: World, s: Step, steps: seq<Step>, thread: nat, retry: Command)
    requires Commits(w, s) && CommandOf(w, s).id !in w.desk.commands
    requires Normalized(retry).Ok? && Normalized(retry).value.id == CommandOf(w, s).id
    ensures var later := Run(Do(w, s), steps); var c := CommandOf(w, s);
            && Do(later, Begin(thread, retry)) == later
            && Served(later.feed, later.desk, retry)
               == (later.desk,
                   if DigestOf(c) == DigestOf(Normalized(retry).value) then Ok(Committed(w.feed, w.desk, c).value.1)
                   else Err(CommandConflict))
  {
    var c := CommandOf(w, s);
    CommitStep(w, s);
    CommitStoresRow(w.feed, w.desk, c);
    CommandRowsStay(Do(w, s), steps, c.id);
    StoredIdAnswers(Run(Do(w, s), steps), thread, retry);
  }

  /** The request is over: its thread is gone, and the tables are as given. */
  ghost predicate Over(end: World, w: World, desk: Desk) {
    end.feed == w.feed && end.desk == desk && end.threads == w.threads
  }

  lemma {:induction false} PendingIsServed(w: World, begun: World, thread: nat, c: Command)
    requires thread !in w.threads && begun == w.(threads := w.threads[thread := Pending(c)])
    requires Committed(w.feed, w.desk, c) == Err(ScanMismatch) ==> c.order.Scan?
    ensures var committed := Committed(w.feed, w.desk, c);
            Over(Do(Do(begun, Commit(thread)), Note(thread)), w,
                 if committed.Ok? then committed.value.0
                 else if committed.error == ScanMismatch && c.order.Scan? then Recorded(w.desk, c, false)
                 else w.desk)
  {
    assert begun.threads - {thread} == w.threads;
    assert begun.threads[thread := Rejecting(c)] - {thread} == w.threads;
  }

  lemma {:induction false} MismatchIsScan(feed: Feed, desk: Desk, c: Command)
    ensures Committed(feed, desk, c) == Err(ScanMismatch) ==> c.order.Scan?
  {
  }

  /** Serving a request without interruption is the run of its three steps. */
  lemma {:induction false} ServedIsRun(w: World, thread: nat, c: Command)
    requires thread !in w.threads
    ensures Over(Run(w, [Begin(thread, c), Commit(thread), Note(thread)]), w, Served(w.feed, w.desk, c).0)
  {
    RunThree(w, Begin(thread, c), Commit(thread), Note(thread));
    if Normalized(c).Ok? && Lookup(w.desk, Normalized(c).value).None? {
      MismatchIsScan(w.feed, w.desk, Normalized(c).value);
      PendingIsServed(w, Do(w, Begin(thread, c)), thread, Normalized(c).value);
    }
  }

  lemma RunThree(w: World, a: Step, b: Step, c: Step)
    ensures Run(w, [a, b, c]) == Do(Do(Do(w, a), b), c)
  {
    assert [a, b, c][..2] == [a, b] && [a, b][..1] == [a] && [a][..0] == [];
    assert Run(w, [a, b]) == Do(Run(w, [a]), b) && Run(w, [a]) == Do(Run(w, []), a);
  }

  // ---- One id, several requests ---------------------------------------------------------------------

  predicate WaitsFor(w: World, thread: nat, id: string) {
    Waits(w, thread) && w.threads[thread].command.id == id
  }

  /** Once an id is in the command table no new request for it gets past the lookup. */
  lemma {:induction false} NoNewRequests(w: World, steps: seq<Step>, thread: nat, id: string)
    requires id in w.desk.commands && WaitsFor(Run(w, steps), thread, id)
    ensures WaitsFor(w, thread, id) && Run(w, steps).threads[thread] == w.threads[thread]
  {
    if steps != [] {
      var before := Run(w, steps[..|steps| - 1]);
      CommandRowsStay(w, steps[..|steps| - 1], id);
      NoNewRequest(before, steps[|steps| - 1], thread, id);
      NoNewRequests(w, steps[..|steps| - 1], thread, id);
    }
  }

  lemma {:induction false} NoNewRequest(w: World, s: Step, thread: nat, id: string)
    requires id in w.desk.commands && WaitsFor(Do(w, s), thread, id)
    ensures WaitsFor(w, thread, id) && Do(w, s).threads[thread] == w.threads[thread]
  {
  }

  lemma {:induction false} CommitLeavesRow(w: World, s: Step)
    requires Commits(w, s)
    ensures CommandOf(w, s).id in Do(w, s).desk.commands && s.thread !in Do(w, s).threads
    ensures forall t :: t in Do(w, s).threads ==> t in w.threads && Do(w, s).threads[t] == w.threads[t]
  {
    CommitStep(w, s);
  }

  /**
   The command's own checks against the projection, the execution row and the scans, whatever the command table
   holds.
   */
  predicate Applicable(w: World, c: Command) {
    Committed(w.feed, w.desk.(commands := map[]), c).Ok?
  }

  /** The second half of a command does not read the command table. */
  lemma {:induction false} CommitIgnoresCommands(w: World, c: Command)
    ensures Committed(w.feed, w.desk, c).Ok? <==> Applicable(w, c)
  {
  }

  /** One id takes effect twice only if both requests had passed the lookup before the first of them committed. */
  lemma {:induction false} DoubleEffectNeedsOverlap(w: World, first: Step, steps: seq<Step>, second: Step)
    requires Commits(w, first) && Commits(Run(Do(w, first), steps), second)
    requires CommandOf(Run(Do(w, first), steps), second).id == CommandOf(w, first).id
    ensures second.thread != first.thread && WaitsFor(w, second.thread, CommandOf(w, first).id)
  {
    CommitLeavesRow(w, first);
    NoNewRequests(Do(w, first), steps, second.thread, CommandOf(w, first).id);
  }

  /**
   And exactly then: after a command has committed, another thread takes effect under its id if and only
   if that thread had passed the lookup before, is still waiting, and its command's own checks pass now.
   */
  lemma {:induction false} DoubleEffectExactly(w: World, first: Step, steps: seq<Step>, thread: nat)
    requires Commits(w, first)
    ensures var later := Run(Do(w, first), steps); var id := CommandOf(w, first).id;
            (Commits(later, Commit(thread)) && CommandOf(later, Commit(thread)).id == id) <==>
              && thread != first.thread && WaitsFor(w, thread, id) && WaitsFor(later, thread, id)
              && Applicable(later, w.threads[thread].command)
  {
    var later := Run(Do(w, first), steps);
    if WaitsFor(later, thread, CommandOf(w, first).id) {
      CommitLeavesRow(w, first);
      NoNewRequests(Do(w, first), steps, thread, CommandOf(w, first).id);
      CommitIgnoresCommands(later, later.threads[thread].command);
    }
  }

  lemma {:induction false} SecondCopyApplies(feed: Feed, desk: Desk, c: Command)
    requires Committed(feed, desk, c).Ok? && (c.order.Start? || c.order.Scan?)
    ensures Committed(feed, Committed(feed, desk, c).value.0, c).Ok?
  {
  }

  lemma {:induction false} SecondEndIsRefused(feed: Feed, desk: Desk, c: Command)
    requires Committed(feed, desk, c).Ok? && (c.order.Complete? || c.order.Fail?)
    ensures Committed(feed, Committed(feed, desk, c).value.0, c).Err?
  {
  }

  /** Of two waiting copies of one request, the second takes effect right after the first exactly for START and SCAN. */
  lemma {:induction false} TwinAppliesExactly(w: World, c: Command, a: nat, b: nat)
    requires a != b && a in w.threads && b in w.threads && w.threads[a] == Pending(c) && w.threads[b] == Pending(c)
    requires Commits(w, Commit(a))
    ensures Commits(Do(w, Commit(a)), Commit(b)) <==> c.order.Start? || c.order.Scan?
  {
    CommitStep(w, Commit(a));
    if c.order.Start? || c.order.Scan? {
      SecondCopyApplies(w.feed, w.desk, c);
    } else {
      SecondEndIsRefused(w.feed, w.desk, c);
    }
  }

  lemma {:induction false} CommitAddsFact(w: World, s: Step)
    requires Commits(w, s)
    ensures |Do(w, s).desk.facts| == |w.desk.facts| + if CommandOf(w, s).order.Scan? then 0 else 1
  {
    CommitStep(w, s);
    CommitFacts(w.feed, w.desk, CommandOf(w, s));
  }

  /** Two simultaneous STARTs with one id both apply, for every startable task, and write two facts. */
  lemma {:induction false} SimultaneousStartsBothApply(w: World, c: Command, a: nat, b: nat)
    requires a != b && a !in w.threads && b !in w.threads
    requires c.order.Start? && c.actor.operator != "" && c.actor.device != "" && c.id !in w.desk.commands
    requires c.task in w.feed.projections && w.feed.projections[c.task].version == c.expected
    requires !Finished(StateOf(w.desk, c.task))
    ensures var begun := Do(Do(w, Begin(a, c)), Begin(b, c)); var one := Do(begun, Commit(a));
            && Commits(begun, Commit(a)) && Commits(one, Commit(b))
            && |Do(one, Commit(b)).desk.facts| == |w.desk.facts| + 2
  {
    var begun := Do(Do(w, Begin(a, c)), Begin(b, c));
    StartSucceedsExactly(w.feed, w.desk, c);
    assert begun == w.(threads := w.threads[a := Pending(c)][b := Pending(c)]);
    TwinAppliesExactly(begun, c, a, b);
    CommitStep(begun, Commit(a));
    CommitAddsFact(begun, Commit(a));
    CommitAddsFact(Do(begun, Commit(a)), Commit(b));
  }

  // ---- Starting ---------------------------------------------------------------------------------------

  /**
   START asks for the projected version and an unfinished task, and nothing else: the projected status is not
   consulted.
   */
  lemma StartSucceedsExactly(feed: Feed, desk: Desk, c: Command)
    requires c.order.Start?
    ensures Committed(feed, desk, c).Ok? <==>
              && c.task in feed.projections && feed.projections[c.task].version == c.expected
              && !Finished(StateOf(desk, c.task))
  {
  }

  /** So a task that WMS has cancelled or failed, which leaves the operator queue, can still be started. */
  lemma WithdrawnTaskStarts(feed: Feed, m: Message, desk: Desk, c: Command)
    requires Good(m.content) && Withdraws(m.content.payload.value) && m.content.event.value !in feed.inbox
    requires var p := m.content.payload.value;
             && (p.task in feed.projections ==> feed.projections[p.task].version < p.version)
             && c.order.Start? && c.task == p.task && c.expected == p.version
    requires c.task in desk.executions ==> desk.executions[c.task].state != Completed && desk.executions[c.task].state != Failed
    ensures c.task !in Process(feed, m).queue && Committed(Process(feed, m), desk, c).Ok?
  {
    NewsLeaves(feed, m);
    StartSucceedsExactly(Process(feed, m), desk, c);
  }

  // ---- A rejected scan that later becomes right ---------------------------------------------------------

  /** An accepted scan command leaves an accepted row exactly when the same scan was not rejected before. */
  lemma ScanCountsExactly(feed: Feed, desk: Desk, c: Command)
    requires c.order.Scan? && Committed(feed, desk, c).Ok?
    ensures var key := ScanKey(c.task, c.order.scanType, c.order.value);
            AcceptedIn(Committed(feed, desk, c).value.0.scans, key) <==> !(key in desk.scans && !desk.scans[key].accepted)
  {
  }

  /** The projection requires type `r`, no scan of that type counts, and the expected one is on record as rejected. */
  ghost predicate Blocked(w: World, task: string, p: Projection, r: string) {
    && task in w.feed.projections && w.feed.projections[task] == p && r in p.scans
    && (forall k <- w.desk.scans :: k.task == task && EqualFold(k.scanType, r) ==> !w.desk.scans[k].accepted)
    && (exists value :: Names(p, ToUpper(r), value) && ScanKey(task, ToUpper(r), value) in w.desk.scans)
  }

  /** How a task gets there: a mismatch is recorded, and the next message makes that very value the expected one. */
  lemma MismatchThenUpdateBlocks(w: World, c: Command, d: Dispatch)
    requires c.order.Scan? && Committed(w.feed, w.desk, c) == Err(ScanMismatch)
    requires forall k <- w.desk.scans :: k.task == c.task && EqualFold(k.scanType, c.order.scanType) ==> !w.desk.scans[k].accepted
    requires d.payload.task == c.task && !Ignored(w.feed, d)
    requires c.order.scanType in d.payload.scans
    requires Names(ProjectionOf(d), c.order.scanType, c.order.value)
    ensures Blocked(w.(feed := Applied(w.feed, d), desk := Recorded(w.desk, c, false)), c.task, ProjectionOf(d), c.order.scanType)
  {
    KnownTypeIsUpper(c.order.scanType, c.order.scanType);
    assert Names(ProjectionOf(d), ToUpper(c.order.scanType), c.order.value);
  }

  lemma KnownTypeIsUpper(scanType: string, r: string)
    requires scanType in {"SOURCE", "DESTINATION", "ITEM", "LOT"} && EqualFold(scanType, r)
    ensures scanType == ToUpper(r)
  {
    assert ToUpper("SOURCE") == "SOURCE" && ToUpper("DESTINATION") == "DESTINATION" && ToUpper("ITEM") == "ITEM" && ToUpper("LOT") == "LOT";
  }

  lemma BlockedCommit(w: World, s: Step, task: string, p: Projection, r: string)
    requires Blocked(w, task, p, r) && Commits(w, s)
    ensures Blocked(Do(w, s), task, p, r)
    ensures forall i :: |w.desk.facts| <= i < |Do(w, s).desk.facts| && Do(w, s).desk.facts[i].task == task ==>
              !Do(w, s).desk.facts[i].outcome.TaskCompleted?
  {
    var c := CommandOf(w, s);
    var next := Do(w, s);
    CommitStep(w, s);
    CommitFacts(w.feed, w.desk, c);
    ScansAreKept(w.feed, w.desk, c);
    forall k | k in next.desk.scans && k.task == task && EqualFold(k.scanType, r)
      ensures !next.desk.scans[k].accepted
    {
      CommitScans(w.feed, w.desk, c, k);
      if AcceptedIn(next.desk.scans, k) && k.scanType in {"SOURCE", "DESTINATION", "ITEM", "LOT"} {
        KnownTypeIsUpper(k.scanType, r);
      }
    }
    if c.order.Complete? && c.task == task {
      CompleteChecks(w.feed, w.desk, c);
    }
  }

  lemma ScansAreKept(feed: Feed, desk: Desk, c: Command)
    requires Committed(feed, desk, c).Ok?
    ensures forall k <- desk.scans :: k in Committed(feed, desk, c).value.0.scans
  {
  }

  predicate DeliversTo(s: Step, task: string) {
    s.Deliver? && Classify(s.message.content).Ok? && Classify(s.message.content).value.payload.task == task
  }

  lemma BlockedOther(w: World, s: Step, task: string, p: Projection, r: string)
    requires Blocked(w, task, p, r) && !Commits(w, s) && !DeliversTo(s, task)
    ensures Blocked(Do(w, s), task, p, r) && Do(w, s).desk.facts == w.desk.facts
  {
    OtherStepFacts(w, s);
    if s.Deliver? && Classify(s.message.content).Ok? {
      var d := Classify(s.message.content).value;
      TaskFeedLaws.AppliedRows(w.feed, d, task);
      assert TaskFeedLaws.RowsOf(Applied(w.feed, d), task) == TaskFeedLaws.RowsOf(w.feed, task);
    }
  }

  /**
   A scan that was wrong when first made and right after an update is never accepted: the task cannot complete
   until WMS sends it again.
   */
  lemma {:induction false} RejectedScanBlocksCompletion(w: World, steps: seq<Step>, task: string, p: Projection, r: string)
    requires Blocked(w, task, p, r) && forall s <- steps :: !DeliversTo(s, task)
    ensures Blocked(Run(w, steps), task, p, r)
    ensures |w.desk.facts| <= |Run(w, steps).desk.facts|
    ensures forall i :: |w.desk.facts| <= i < |Run(w, steps).desk.facts| && Run(w, steps).desk.facts[i].task == task ==>
              !Run(w, steps).desk.facts[i].outcome.TaskCompleted?
  {
    if steps != [] {
      var before, s := Run(w, steps[..|steps| - 1]), steps[|steps| - 1];
      RejectedScanBlocksCompletion(w, steps[..|steps| - 1], task, p, r);
      FactsGrow(before, s);
      if Commits(before, s) {
        BlockedCommit(before, s, task, p, r);
      } else {
        BlockedOther(before, s, task, p, r);
      }
    }
  }
}
