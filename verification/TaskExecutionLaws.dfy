/** What every interleaving of deliveries and operator commands guarantees. */
module TaskExecutionLaws {
  import opened Results
  import opened Text
  import opened TaskFeed
  import TaskFeedLaws
  import opened TaskExecution

  predicate Terminal(f: Fact) {
    !f.outcome.TaskStarted?
  }

  /** The world before step `k`. */
  function At(steps: seq<Step>, k: nat): World
    requires k <= |steps|
  {
    Run(START, steps[..k])
  }

  lemma {:induction false} AtEnd(steps: seq<Step>)
    ensures At(steps, |steps|) == Run(START, steps)
  {
    assert steps[..|steps|] == steps;
  }

  // ---- One step -----------------------------------------------------------------------------

  /** A step that does not commit a command leaves executions, facts, accepted scans and command results alone. */
  lemma OtherStepFacts(w: World, s: Step)
    requires !Commits(w, s)
    ensures var next := Do(w, s).desk;
            && next.executions == w.desk.executions && next.facts == w.desk.facts && next.commands == w.desk.commands
            && (forall k <- w.desk.scans :: k in next.scans && next.scans[k] == w.desk.scans[k])
            && (forall k <- next.scans :: k in w.desk.scans || !next.scans[k].accepted)
  {
  }

  predicate StateFits(before: State, after: State, o: Order) {
    match o
    case Start => !Finished(before) && after == Started
    case Scan(_, _) => before == Started && after == Started
    case Complete(_) => before == Started && after == Completed
    case Fail(_) => !Finished(before) && after == Failed
  }

  predicate FactFits(f: Fact, c: Command) {
    match c.order
    case Start => f.outcome.TaskStarted?
    case Scan(_, _) => false
    case Complete(q) => f.outcome.TaskCompleted? && f.outcome.quantity == q
    case Fail(r) => f.outcome == TaskFailed(r)
  }

  lemma CommitStates(feed: Feed, desk: Desk, c: Command)
    requires Committed(feed, desk, c).Ok?
    ensures var next := Committed(feed, desk, c).value.0;
            && StateFits(StateOf(desk, c.task), StateOf(next, c.task), c.order)
            && (forall t :: t != c.task ==> StateOf(next, t) == StateOf(desk, t))
            && (!c.order.Scan? ==> next.scans == desk.scans)
  {
  }

  /** The one fact of a command, or none for a scan. */
  ghost predicate Writes(feed: Feed, desk: Desk, c: Command, facts: seq<Fact>)
    requires c.task in feed.projections
  {
    if c.order.Scan? then facts == desk.facts
    else
      && |facts| == |desk.facts| + 1 && facts[..|desk.facts|] == desk.facts
      && var f := facts[|desk.facts|];
      && f.task == c.task && f.version == c.expected && FactFits(f, c)
      && f.actor == c.actor && f.warehouse == feed.projections[c.task].warehouse
      && (c.order.Complete? ==> f.evidence == Evidence(desk.scans, c.task))
  }

  lemma CommitWrites(feed: Feed, desk: Desk, c: Command)
    requires Committed(feed, desk, c).Ok?
    ensures c.task in feed.projections && feed.projections[c.task].version == c.expected
    ensures Writes(feed, desk, c, Committed(feed, desk, c).value.0.facts)
  {
  }

  /** What a committed command does: at the version the caller expected, one legal state change and at most one fact. */
  lemma CommitFacts(feed: Feed, desk: Desk, c: Command)
    requires Committed(feed, desk, c).Ok?
    ensures c.task in feed.projections && feed.projections[c.task].version == c.expected
    ensures var next := Committed(feed, desk, c).value.0;
            && StateFits(StateOf(desk, c.task), StateOf(next, c.task), c.order)
            && (forall t :: t != c.task ==> StateOf(next, t) == StateOf(desk, t))
            && Writes(feed, desk, c, next.facts)
            && (!c.order.Scan? ==> next.scans == desk.scans)
  {
    CommitStates(feed, desk, c);
    CommitWrites(feed, desk, c);
  }

  lemma CommitStep(w: World, s: Step)
    requires Commits(w, s)
    ensures Committed(w.feed, w.desk, CommandOf(w, s)).Ok?
    ensures Do(w, s).feed == w.feed && Do(w, s).desk == Committed(w.feed, w.desk, CommandOf(w, s)).value.0
  {
  }

  // ---- Facts of a task ------------------------------------------------------------------------

  /** Among the facts, `i` records a start of the task. */
  ghost predicate StartAt(facts: seq<Fact>, i: nat, task: string) {
    i < |facts| && facts[i].task == task && facts[i].outcome.TaskStarted?
  }

  ghost predicate HasStart(facts: seq<Fact>, task: string) {
    exists i: nat :: StartAt(facts, i, task)
  }

  /** No fact follows a terminal one of its task, a completion follows a start, and versions never fall. */
  ghost predicate Orderly(facts: seq<Fact>) {
    && (forall i, j :: 0 <= i < j < |facts| && facts[i].task == facts[j].task ==>
          !Terminal(facts[i]) && facts[i].version <= facts[j].version)
    && (forall j :: 0 <= j < |facts| && facts[j].outcome.TaskCompleted? ==> HasStart(facts[..j], facts[j].task))
  }

  predicate StateOfOutcome(o: Outcome, s: State) {
    match o
    case TaskStarted => s != Dispatched
    case TaskCompleted(_, _, _) => s == Completed
    case TaskFailed(_) => s == Failed
  }

  /** The execution rows agree with the facts, and no fact is ahead of the projection. */
  ghost predicate Tracked(w: World) {
    && (forall i :: 0 <= i < |w.desk.facts| ==>
          && StateOfOutcome(w.desk.facts[i].outcome, StateOf(w.desk, w.desk.facts[i].task))
          && w.desk.facts[i].version <= ProjectedVersion(w.feed, w.desk.facts[i].task))
    && (forall t :: StateOf(w.desk, t) == Started ==> HasStart(w.desk.facts, t))
  }

  lemma StartStays(facts: seq<Fact>, more: seq<Fact>, task: string)
    requires facts <= more && HasStart(facts, task)
    ensures HasStart(more, task)
  {
    var i: nat :| StartAt(facts, i, task);
    assert StartAt(more, i, task);
  }

  lemma OrderlyAppend(facts: seq<Fact>, more: seq<Fact>)
    requires Orderly(facts) && |more| == |facts| + 1 && more[..|facts|] == facts
    requires var f := more[|facts|];
             && (forall i :: 0 <= i < |facts| && facts[i].task == f.task ==> !Terminal(facts[i]) && facts[i].version <= f.version)
             && (f.outcome.TaskCompleted? ==> HasStart(facts, f.task))
    ensures Orderly(more)
  {
    forall j | 0 <= j < |more| && more[j].outcome.TaskCompleted?
      ensures HasStart(more[..j], more[j].task)
    {
      if j < |facts| {
        assert more[..j] == facts[..j] && more[j] == facts[j];
      }
    }
    assert forall i :: 0 <= i < |facts| ==> more[i] == facts[i];
  }

  lemma {:induction false} CommitKeepsOrder(w: World, s: Step)
    requires Orderly(w.desk.facts) && Tracked(w) && Commits(w, s)
    ensures Orderly(Do(w, s).desk.facts)
  {
    var c := CommandOf(w, s);
    CommitStep(w, s);
    CommitFacts(w.feed, w.desk, c);
    if !c.order.Scan? {
      OrderlyAppend(w.desk.facts, Do(w, s).desk.facts);
    }
  }

  lemma CommitKeepsStarts(w: World, s: Step, t: string)
    requires Tracked(w) && Commits(w, s) && StateOf(Do(w, s).desk, t) == Started
    ensures HasStart(Do(w, s).desk.facts, t)
  {
    var c := CommandOf(w, s);
    CommitStep(w, s);
    CommitFacts(w.feed, w.desk, c);
    if c.order.Start? && t == c.task {
      assert StartAt(Do(w, s).desk.facts, |w.desk.facts|, c.task);
    } else {
      StartStays(w.desk.facts, Do(w, s).desk.facts, t);
    }
  }

  /** Fact number `i` still agrees with its execution row and its projection. */
  lemma {:induction false} CommitKeepsFact(w: World, s: Step, i: nat)
    requires Orderly(w.desk.facts) && Tracked(w) && Commits(w, s) && i < |Do(w, s).desk.facts|
    ensures var next := Do(w, s); var f := next.desk.facts[i];
            StateOfOutcome(f.outcome, StateOf(next.desk, f.task)) && f.version <= ProjectedVersion(next.feed, f.task)
  {
    hide Commits, Do, Committed;
    var c := CommandOf(w, s);
    CommitStep(w, s);
    CommitFacts(w.feed, w.desk, c);
    if i < |w.desk.facts| {
      assert Do(w, s).desk.facts[i] == w.desk.facts[i];
    }
  }

  lemma {:induction false} CommitKeepsTracked(w: World, s: Step)
    requires Orderly(w.desk.facts) && Tracked(w) && Commits(w, s)
    ensures Tracked(Do(w, s))
  {
    var next := Do(w, s);
    forall t | StateOf(next.desk, t) == Started
      ensures HasStart(next.desk.facts, t)
    {
      CommitKeepsStarts(w, s, t);
    }
    forall i | 0 <= i < |next.desk.facts|
      ensures StateOfOutcome(next.desk.facts[i].outcome, StateOf(next.desk, next.desk.facts[i].task))
      ensures next.desk.facts[i].version <= ProjectedVersion(next.feed, next.desk.facts[i].task)
    {
      CommitKeepsFact(w, s, i);
    }
  }

  /** A delivery never lowers a projected version. */
  lemma VersionsClimb(w: World, s: Step, task: string)
    ensures ProjectedVersion(w.feed, task) <= ProjectedVersion(Do(w, s).feed, task)
  {
    if s.Deliver? && Classify(s.message.content).Ok? {
      TaskFeedLaws.AppliedRows(w.feed, Classify(s.message.content).value, task);
    }
  }

  lemma OtherStepKeepsTracked(w: World, s: Step)
    requires Tracked(w) && !Commits(w, s)
    ensures Tracked(Do(w, s))
  {
    OtherStepFacts(w, s);
    forall t
      ensures ProjectedVersion(w.feed, t) <= ProjectedVersion(Do(w, s).feed, t)
    {
      VersionsClimb(w, s, t);
    }
  }

  lemma {:induction false} RunIsOrderly(steps: seq<Step>)
    ensures Orderly(Run(START, steps).desk.facts) && Tracked(Run(START, steps))
  {
    if steps != [] {
      var w, s := Run(START, steps[..|steps| - 1]), steps[|steps| - 1];
      RunIsOrderly(steps[..|steps| - 1]);
      if Commits(w, s) {
        CommitKeepsOrder(w, s);
        CommitKeepsTracked(w, s);
      } else {
        OtherStepFacts(w, s);
        OtherStepKeepsTracked(w, s);
      }
    }
  }

  /**
   Terminal facts, in every interleaving of lookups, commits, deliveries and stops: a task has at
   most one terminal fact, no fact of the task follows it, and a Completed fact follows a Started one.
   */
  lemma TerminalFactIsLast(steps: seq<Step>, i: nat, j: nat)
    requires i < |Run(START, steps).desk.facts| && j < |Run(START, steps).desk.facts|
    ensures var facts := Run(START, steps).desk.facts;
            && (Terminal(facts[i]) && facts[j].task == facts[i].task ==> j <= i)
            && (facts[i].outcome.TaskCompleted? ==> exists s: nat :: s < i && StartAt(facts, s, facts[i].task))
  {
    RunIsOrderly(steps);
    var facts := Run(START, steps).desk.facts;
    if facts[i].outcome.TaskCompleted? {
      var s: nat :| StartAt(facts[..i], s, facts[i].task);
      assert StartAt(facts, s, facts[i].task);
    }
  }

  // ---- Where a fact comes from ------------------------------------------------------------------

  /**
   Step `k` commits the command that writes fact number `n`, at the version projected then and expected by the
   caller.
   */
  ghost predicate WrittenAt(steps: seq<Step>, k: nat, n: nat) {
    && k < |steps| && Commits(At(steps, k), steps[k])
    && n == |At(steps, k).desk.facts| < |Run(START, steps).desk.facts|
    && var f := Run(START, steps).desk.facts[n]; var c := CommandOf(At(steps, k), steps[k]);
    && f.task == c.task && FactFits(f, c) && f.actor == c.actor
    && (c.order.Complete? ==> f.evidence == Evidence(At(steps, k).desk.scans, c.task))
    && f.version == c.expected == ProjectedVersion(At(steps, k).feed, c.task)
  }

  lemma FactsGrow(w: World, s: Step)
    ensures w.desk.facts <= Do(w, s).desk.facts
  {
    if Commits(w, s) {
      CommitStep(w, s);
      CommitFacts(w.feed, w.desk, CommandOf(w, s));
    } else {
      OtherStepFacts(w, s);
    }
  }

  lemma WrittenStays(before: seq<Step>, s: Step, k: nat, n: nat)
    requires WrittenAt(before, k, n)
    ensures WrittenAt(before + [s], k, n)
  {
    assert (before + [s])[..k] == before[..k];
    assert (before + [s])[..|before|] == before;
    FactsGrow(Run(START, before), s);
  }

  lemma {:induction false} NewFactIsWritten(before: seq<Step>, s: Step, n: nat)
    requires |Run(START, before).desk.facts| <= n < |Do(Run(START, before), s).desk.facts|
    ensures WrittenAt(before + [s], |before|, n)
  {
    var w := Run(START, before);
    assert (before + [s])[..|before|] == before;
    assert Run(START, before + [s]) == Do(w, s) && At(before + [s], |before|) == w;
    if !Commits(w, s) {
      OtherStepFacts(w, s);
    } else {
      CommitStep(w, s);
      CommitFacts(w.feed, w.desk, CommandOf(w, s));
    }
  }

  /** Every fact was written by one commit, with the version projected then, which the caller expected. */
  lemma {:induction false} FactIsWritten(steps: seq<Step>, n: nat)
    requires n < |Run(START, steps).desk.facts|
    ensures exists k: nat :: WrittenAt(steps, k, n)
  {
    var last := |steps| - 1;
    var before := steps[..last];
    assert steps == before + [steps[last]];
    if n < |Run(START, before).desk.facts| {
      FactIsWritten(before, n);
      var k: nat :| WrittenAt(before, k, n);
      WrittenStays(before, steps[last], k, n);
    } else {
      NewFactIsWritten(before, steps[last], n);
    }
  }

  /**
   Version order across components: the versions of a task's facts never fall (and each is the one `WrittenAt`
   names).
   */
  lemma {:induction false} FactVersionsNeverFall(steps: seq<Step>, i: nat, j: nat)
    requires i <= j < |Run(START, steps).desk.facts|
    requires Run(START, steps).desk.facts[i].task == Run(START, steps).desk.facts[j].task
    ensures Run(START, steps).desk.facts[i].version <= Run(START, steps).desk.facts[j].version
  {
    RunIsOrderly(steps);
  }

  // ---- Evidence -----------------------------------------------------------------------------------

  /** What the projection names for a scan: one column for each of the four types. */
  predicate Names(p: Projection, scanType: string, value: string) {
    || (scanType == "SOURCE" && value == p.source)
    || (scanType == "DESTINATION" && value == p.destination)
    || (scanType == "ITEM" && value == p.revision)
    || (scanType == "LOT" && value == p.lot)
  }

  /**
   Step `k` recorded the scan: the task was STARTED, its projection then required the type, and the value was
   the non-empty one that the projection named for the type.
   */
  ghost predicate ScannedAt(steps: seq<Step>, k: nat, key: ScanKey) {
    && k < |steps| && Commits(At(steps, k), steps[k])
    && var w := At(steps, k);
    && CommandOf(w, steps[k]).task == key.task && CommandOf(w, steps[k]).order == Scan(key.scanType, key.value)
    && StateOf(w.desk, key.task) == Started
    && key.task in w.feed.projections
    && var p := w.feed.projections[key.task];
    && Contains(p.scans, key.scanType) && Names(p, key.scanType, key.value) && key.value != ""
    && key !in w.desk.scans
  }

  predicate AcceptedIn(scans: map<ScanKey, ScanRow>, key: ScanKey) {
    key in scans && scans[key].accepted
  }

  /** The accepted scans a commit adds are the one it asks for, under the conditions of the code. */
  lemma CommitScans(feed: Feed, desk: Desk, c: Command, key: ScanKey)
    requires Committed(feed, desk, c).Ok?
    ensures var next := Committed(feed, desk, c).value.0;
            && (AcceptedIn(desk.scans, key) ==> AcceptedIn(next.scans, key))
            && (AcceptedIn(next.scans, key) && !AcceptedIn(desk.scans, key) ==>
                  && key !in desk.scans && c.task == key.task && c.order == Scan(key.scanType, key.value)
                  && StateOf(desk, key.task) == Started
                  && var p := feed.projections[c.task];
                  && Contains(p.scans, key.scanType) && Names(p, key.scanType, key.value) && key.value != "")
  {
  }

  lemma ScanStays(before: seq<Step>, s: Step, k: nat, key: ScanKey)
    requires ScannedAt(before, k, key)
    ensures ScannedAt(before + [s], k, key)
  {
    assert (before + [s])[..k] == before[..k];
  }

  lemma {:induction false} NewScanIsScanned(before: seq<Step>, s: Step, key: ScanKey)
    requires !AcceptedIn(Run(START, before).desk.scans, key) && AcceptedIn(Do(Run(START, before), s).desk.scans, key)
    ensures ScannedAt(before + [s], |before|, key)
  {
    var w := Run(START, before);
    assert (before + [s])[..|before|] == before;
    if !Commits(w, s) {
      OtherStepFacts(w, s);
    } else {
      CommitStep(w, s);
      CommitScans(w.feed, w.desk, CommandOf(w, s), key);
      CommitFacts(w.feed, w.desk, CommandOf(w, s));
    }
  }

  lemma {:induction false} AcceptedWasScanned(steps: seq<Step>, key: ScanKey)
    requires AcceptedIn(Run(START, steps).desk.scans, key)
    ensures exists k: nat :: ScannedAt(steps, k, key)
  {
    var last := |steps| - 1;
    var before := steps[..last];
    assert steps == before + [steps[last]];
    if AcceptedIn(Run(START, before).desk.scans, key) {
      AcceptedWasScanned(before, key);
      var k: nat :| ScannedAt(before, k, key);
      ScanStays(before, steps[last], k, key);
    } else {
      NewScanIsScanned(before, steps[last], key);
    }
  }

  lemma {:induction false} NothingMissing(required: seq<string>, types: set<string>)
    ensures FirstMissing(required, types).None? <==> forall r <- required :: ContainsType(types, r)
    ensures FirstMissing(required, types).Some? ==> FirstMissing(required, types).value in required
  {
    if required != [] {
      NothingMissing(required[..|required| - 1], types);
      assert required == required[..|required| - 1] + [required[|required| - 1]];
    }
  }

  /** The evidence holds an accepted scan of type `r` that was recorded, matching, before step `k`. */
  ghost predicate EvidenceFor(steps: seq<Step>, k: nat, evidence: map<ScanKey, ScanRow>, task: string, r: string) {
    exists j: nat, key: ScanKey ::
      j < k && ScannedAt(steps, j, key) && key.task == task && EqualFold(key.scanType, r) && AcceptedIn(evidence, key)
  }

  /** What a Complete command needed when it committed. */
  lemma CompleteChecks(feed: Feed, desk: Desk, c: Command)
    requires Committed(feed, desk, c).Ok? && c.order.Complete?
    ensures var p := feed.projections[c.task];
            && 0.0 < c.order.quantity <= p.remaining + 0.000001
            && forall r <- p.scans :: ContainsType(AcceptedTypes(desk.scans, c.task), r)
  {
    NothingMissing(feed.projections[c.task].scans, AcceptedTypes(desk.scans, c.task));
  }

  lemma TypeWasScanned(steps: seq<Step>, k: nat, task: string, r: string)
    requires k <= |steps| && ContainsType(AcceptedTypes(At(steps, k).desk.scans, task), r)
    ensures EvidenceFor(steps, k, Evidence(At(steps, k).desk.scans, task), task, r)
  {
    var scans := At(steps, k).desk.scans;
    var v :| v in AcceptedTypes(scans, task) && EqualFold(v, r);
    var key :| key in scans && key.task == task && scans[key].accepted && key.scanType == v;
    AcceptedWasScanned(steps[..k], key);
    var j: nat :| ScannedAt(steps[..k], j, key);
    assert steps[..k][..j] == steps[..j];
    assert ScannedAt(steps, j, key) && AcceptedIn(Evidence(scans, task), key);
  }

  /**
   Evidence behind completion: the commit of a Completed fact had a positive quantity within the
   remaining one, and for each scan type the projection then required an accepted scan recorded
   while the task was STARTED, whose value was the non-empty one expected at that scan; the fact carries it.
   */
  lemma CompletionHasEvidence(steps: seq<Step>, n: nat)
    requires n < |Run(START, steps).desk.facts| && Run(START, steps).desk.facts[n].outcome.TaskCompleted?
    ensures var f := Run(START, steps).desk.facts[n];
            exists k: nat ::
              && WrittenAt(steps, k, n) && f.task in At(steps, k).feed.projections
              && var p := At(steps, k).feed.projections[f.task];
              && 0.0 < f.outcome.quantity <= p.remaining + 0.000001
              && forall r <- p.scans :: EvidenceFor(steps, k, f.evidence, f.task, r)
  {
    FactIsWritten(steps, n);
    var k: nat :| WrittenAt(steps, k, n);
    var w, c := At(steps, k), CommandOf(At(steps, k), steps[k]);
    CommitFacts(w.feed, w.desk, c);
    CompleteChecks(w.feed, w.desk, c);
    forall r | r in w.feed.projections[c.task].scans
      ensures EvidenceFor(steps, k, Evidence(w.desk.scans, c.task), c.task, r)
    {
      TypeWasScanned(steps, k, c.task, r);
    }
  }

  lemma EvidenceIsKnown(steps: seq<Step>, k: nat, evidence: map<ScanKey, ScanRow>, task: string, r: string)
    requires EvidenceFor(steps, k, evidence, task, r)
    ensures exists known <- {"SOURCE", "DESTINATION", "ITEM", "LOT"} :: EqualFold(known, r)
  {
    var j: nat, key: ScanKey :| j < k && ScannedAt(steps, j, key) && key.task == task && EqualFold(key.scanType, r);
    assert key.scanType in {"SOURCE", "DESTINATION", "ITEM", "LOT"};
  }

  /** A task whose projection requires a scan type other than the four known ones cannot be completed in any run. */
  lemma {:induction false} UnknownScanBlocksCompletion(steps: seq<Step>, s: Step, r: string)
    requires Commits(Run(START, steps), s) && CommandOf(Run(START, steps), s).order.Complete?
    requires CommandOf(Run(START, steps), s).task in Run(START, steps).feed.projections
    requires r in Run(START, steps).feed.projections[CommandOf(Run(START, steps), s).task].scans
    ensures exists known <- {"SOURCE", "DESTINATION", "ITEM", "LOT"} :: EqualFold(known, r)
  {
    var w := Run(START, steps);
    var c := CommandOf(w, s);
    CompleteChecks(w.feed, w.desk, c);
    AtEnd(steps);
    TypeWasScanned(steps, |steps|, c.task, r);
    EvidenceIsKnown(steps, |steps|, Evidence(w.desk.scans, c.task), c.task, r);
  }

  // ---- Finished tasks -----------------------------------------------------------------------------

  lemma {:induction false} FinishedStep(w: World, s: Step, task: string)
    requires Finished(StateOf(w.desk, task))
    ensures StateOf(Do(w, s).desk, task) == StateOf(w.desk, task)
    ensures forall key: ScanKey :: key.task == task ==> (AcceptedIn(Do(w, s).desk.scans, key) <==> AcceptedIn(w.desk.scans, key))
    ensures w.desk.facts <= Do(w, s).desk.facts
    ensures forall i :: |w.desk.facts| <= i < |Do(w, s).desk.facts| ==> Do(w, s).desk.facts[i].task != task
  {
    if Commits(w, s) {
      var c := CommandOf(w, s);
      CommitStep(w, s);
      CommitFacts(w.feed, w.desk, c);
      forall key: ScanKey | key.task == task
        ensures AcceptedIn(Do(w, s).desk.scans, key) <==> AcceptedIn(w.desk.scans, key)
      {
        CommitScans(w.feed, w.desk, c, key);
      }
    } else {
      OtherStepFacts(w, s);
    }
  }

  /** A finished task stays as it is: its state, its accepted scans and its facts never change again. */
  lemma {:induction false} FinishedIsFinal(w: World, steps: seq<Step>, task: string)
    requires Finished(StateOf(w.desk, task))
    ensures StateOf(Run(w, steps).desk, task) == StateOf(w.desk, task)
    ensures forall key: ScanKey :: key.task == task ==> (AcceptedIn(Run(w, steps).desk.scans, key) <==> AcceptedIn(w.desk.scans, key))
    ensures w.desk.facts <= Run(w, steps).desk.facts
    ensures forall i :: |w.desk.facts| <= i < |Run(w, steps).desk.facts| ==> Run(w, steps).desk.facts[i].task != task
  {
    if steps != [] {
      FinishedIsFinal(w, steps[..|steps| - 1], task);
      FinishedStep(Run(w, steps[..|steps| - 1]), steps[|steps| - 1], task);
    }
  }
}
