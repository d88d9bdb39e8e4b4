/**
 What one operator command does, in its own words: when it takes effect, for which reason it is
 refused otherwise, and what it leaves in each table.
 */
module TaskExecutionRules {
  import opened Results
  import opened Text
  import opened TaskFeed
  import opened TaskExecution
  import opened TaskExecutionLaws

  // ---- When a command takes effect ----------------------------------------------------------------

  predicate Current(feed: Feed, c: Command) {
    c.task in feed.projections && feed.projections[c.task].version == c.expected
  }

  predicate Running(desk: Desk, task: string) {
    task in desk.executions && desk.executions[task].state == Started
  }

  predicate Over(desk: Desk, task: string) {
    task in desk.executions && (desk.executions[task].state == Completed || desk.executions[task].state == Failed)
  }

  predicate Required(p: Projection, scanType: string) {
    exists r <- p.scans :: EqualFold(r, scanType)
  }

  /** An accepted scan of the type is on record. */
  predicate HasScan(desk: Desk, task: string, r: string) {
    exists k <- desk.scans :: k.task == task && desk.scans[k].accepted && EqualFold(k.scanType, r)
  }

  predicate Within(p: Projection, quantity: real) {
    0.0 < quantity <= p.remaining + 0.000001
  }

  /** What each order asks of the task, once its version is the expected one. */
  predicate Fulfils(p: Projection, desk: Desk, c: Command) {
    match c.order
    case Start => !Over(desk, c.task)
    case Scan(scanType, value) =>
      Running(desk, c.task) && Required(p, scanType) && Names(p, scanType, value) && value != ""
    case Complete(quantity) =>
      Running(desk, c.task) && Within(p, quantity) && forall r <- p.scans :: HasScan(desk, c.task, r)
    case Fail(_) => !Over(desk, c.task)
  }

  /** The reason for which a command is refused: the first that applies. */
  predicate RefusedFor(feed: Feed, desk: Desk, c: Command, e: Error) {
    match e
    case TaskNotFound => c.task !in feed.projections
    case VersionConflict => c.task in feed.projections && feed.projections[c.task].version != c.expected
    case AlreadyFinished => Current(feed, c) && (c.order.Start? || c.order.Fail?) && Over(desk, c.task)
    case NotStarted => Current(feed, c) && (c.order.Scan? || c.order.Complete?) && !Running(desk, c.task)
    case ScanTypeInvalid =>
      Current(feed, c) && c.order.Scan? && Running(desk, c.task) && !Required(feed.projections[c.task], c.order.scanType)
    case ScanMismatch =>
      && Current(feed, c) && c.order.Scan? && Running(desk, c.task) && Required(feed.projections[c.task], c.order.scanType)
      && !(Names(feed.projections[c.task], c.order.scanType, c.order.value) && c.order.value != "")
    case QuantityInvalid =>
      && Current(feed, c) && c.order.Complete? && Running(desk, c.task)
      && !Within(feed.projections[c.task], c.order.quantity)
    case ScansIncomplete(r) =>
      && Current(feed, c) && c.order.Complete? && Running(desk, c.task)
      && Within(feed.projections[c.task], c.order.quantity) && FirstWithout(desk, c.task, feed.projections[c.task].scans, r)
    case OperatorRequired => false
    case ReasonRequired => false
    case CommandConflict => false
  }

  /** `r` is the first of the required types without an accepted scan. */
  predicate FirstWithout(desk: Desk, task: string, required: seq<string>, r: string) {
    exists i | 0 <= i < |required| ::
      required[i] == r && !HasScan(desk, task, r) && forall j :: 0 <= j < i ==> HasScan(desk, task, required[j])
  }

  lemma {:induction false} TypesAreScans(desk: Desk, task: string, r: string)
    ensures ContainsType(AcceptedTypes(desk.scans, task), r) <==> HasScan(desk, task, r)
  {
    if k :| k in desk.scans && k.task == task && desk.scans[k].accepted && EqualFold(k.scanType, r) {
      assert k.scanType in AcceptedTypes(desk.scans, task);
    }
  }

  lemma {:induction false} FirstMissingIsFirst(desk: Desk, task: string, required: seq<string>)
    ensures var missing := FirstMissing(required, AcceptedTypes(desk.scans, task));
            && (missing.None? <==> forall r <- required :: HasScan(desk, task, r))
            && (forall r :: missing == Some(r) <==> FirstWithout(desk, task, required, r))
  {
    if required != [] {
      var before, last := required[..|required| - 1], required[|required| - 1];
      assert required == before + [last];
      FirstMissingIsFirst(desk, task, before);
      TypesAreScans(desk, task, last);
      forall r
        ensures FirstWithout(desk, task, before, r) ==> FirstWithout(desk, task, required, r)
        ensures FirstWithout(desk, task, required, r) ==>
                  FirstWithout(desk, task, before, r) || (r == last && !HasScan(desk, task, last)
                                                          && forall x <- before :: HasScan(desk, task, x))
      {
        FirstWithoutPrefix(desk, task, before, last, r);
      }
      LastWithout(desk, task, before, last);
    }
  }

  lemma {:induction false} FirstWithoutPrefix(desk: Desk, task: string, before: seq<string>, last: string, r: string)
    ensures FirstWithout(desk, task, before, r) ==> FirstWithout(desk, task, before + [last], r)
    ensures FirstWithout(desk, task, before + [last], r) ==>
              FirstWithout(desk, task, before, r)
              || (r == last && !HasScan(desk, task, last) && forall x <- before :: HasScan(desk, task, x))
  {
    var required := before + [last];
    if i :| 0 <= i < |before| && before[i] == r && !HasScan(desk, task, r)
            && forall j :: 0 <= j < i ==> HasScan(desk, task, before[j]) {
      assert required[i] == r;
    }
    if i :| 0 <= i < |required| && required[i] == r && !HasScan(desk, task, r)
            && forall j :: 0 <= j < i ==> HasScan(desk, task, required[j]) {
      if i < |before| {
        assert before[i] == r && forall j :: 0 <= j < i ==> before[j] == required[j];
      } else {
        assert forall j :: 0 <= j < |before| ==> before[j] == required[j];
      }
    }
  }

  lemma {:induction false} LastWithout(desk: Desk, task: string, before: seq<string>, last: string)
    ensures !HasScan(desk, task, last) && (forall x <- before :: HasScan(desk, task, x)) ==>
              FirstWithout(desk, task, before + [last], last)
    ensures (exists r :: FirstWithout(desk, task, before, r)) ==> exists x <- before :: !HasScan(desk, task, x)
  {
    assert (before + [last])[|before|] == last;
    assert forall j :: 0 <= j < |before| ==> (before + [last])[j] == before[j] && before[j] in before;
  }

  /** A command takes effect exactly when its task has the version it expects and fulfils the order. */
  lemma {:induction false} CommitsExactly(feed: Feed, desk: Desk, c: Command)
    ensures Committed(feed, desk, c).Ok? <==> Current(feed, c) && Fulfils(feed.projections[c.task], desk, c)
  {
    if c.task in feed.projections {
      FirstMissingIsFirst(desk, c.task, feed.projections[c.task].scans);
    }
  }

  /** And it is refused for exactly one reason. */
  lemma {:induction false} RefusedExactly(feed: Feed, desk: Desk, c: Command, e: Error)
    ensures Committed(feed, desk, c) == Err(e) <==> RefusedFor(feed, desk, c, e)
  {
    if c.task in feed.projections {
      FirstMissingIsFirst(desk, c.task, feed.projections[c.task].scans);
    }
  }

  // ---- What a command leaves ------------------------------------------------------------------

  /** The execution row after the commit. */
  function RowAfter(p: Projection, desk: Desk, c: Command): Execution {
    var was := if c.task in desk.executions then desk.executions[c.task]
               else Execution(state := Dispatched, version := p.version, actor := c.actor, confirmed := 0.0, reason := "");
    match c.order
    case Start => was.(state := Started, version := p.version, actor := c.actor)
    case Scan(_, _) => was
    case Complete(quantity) => was.(state := Completed, confirmed := quantity)
    case Fail(reason) => was.(state := Failed, reason := reason, actor := c.actor)
  }

  /** The fact for WMS; a scan has none. */
  function FactsAfter(p: Projection, desk: Desk, c: Command): seq<Fact> {
    var evidence := map k | k in desk.scans && k.task == c.task :: desk.scans[k];
    match c.order
    case Start => [Fact(c.task, p.version, p.taskType, p.warehouse, c.actor, TaskStarted, map[])]
    case Scan(_, _) => []
    case Complete(quantity) =>
      [Fact(c.task, p.version, p.taskType, p.warehouse, c.actor,
            TaskCompleted(quantity := quantity, requested := p.requested, left := p.remaining - quantity), evidence)]
    case Fail(reason) => [Fact(c.task, p.version, p.taskType, p.warehouse, c.actor, TaskFailed(reason), evidence)]
  }

  /** The scan rows: a scan is recorded as accepted unless the very scan is on record. */
  function ScansAfter(desk: Desk, c: Command): map<ScanKey, ScanRow> {
    if c.order.Scan? && ScanKey(c.task, c.order.scanType, c.order.value) !in desk.scans
    then desk.scans[ScanKey(c.task, c.order.scanType, c.order.value) := ScanRow(true, c.actor)]
    else desk.scans
  }

  ghost predicate Leaves(p: Projection, desk: Desk, c: Command, next: Desk) {
    && next.executions == desk.executions[c.task := RowAfter(p, desk, c)]
    && next.scans == ScansAfter(desk, c) && next.facts == desk.facts + FactsAfter(p, desk, c)
  }

  lemma {:induction false} BeginningLeaves(p: Projection, desk: Desk, c: Command)
    requires Effect(p, desk, c).Ok? && c.order.Start?
    ensures Leaves(p, desk, c, Effect(p, desk, c).value)
  {
  }

  lemma {:induction false} ScanLeaves(p: Projection, desk: Desk, c: Command)
    requires Effect(p, desk, c).Ok? && c.order.Scan?
    ensures Leaves(p, desk, c, Effect(p, desk, c).value)
  {
    assert desk.facts + [] == desk.facts;
    assert desk.executions[c.task := desk.executions[c.task]] == desk.executions;
  }

  lemma {:induction false} CompletionLeaves(p: Projection, desk: Desk, c: Command)
    requires Effect(p, desk, c).Ok? && c.order.Complete?
    ensures Leaves(p, desk, c, Effect(p, desk, c).value)
  {
  }

  lemma {:induction false} FailureLeaves(p: Projection, desk: Desk, c: Command)
    requires Effect(p, desk, c).Ok? && c.order.Fail?
    ensures Leaves(p, desk, c, Effect(p, desk, c).value)
  {
  }

  /** What a committed command leaves: its execution row, scan and fact, and its result under its id. */
  lemma {:induction false} CommitLeaves(feed: Feed, desk: Desk, c: Command)
    requires Committed(feed, desk, c).Ok?
    ensures var p := feed.projections[c.task]; var (next, result) := Committed(feed, desk, c).value;
            && next.executions == desk.executions[c.task := RowAfter(p, desk, c)]
            && next.scans == ScansAfter(desk, c) && next.facts == desk.facts + FactsAfter(p, desk, c)
            && next.commands == (if c.id in desk.commands then desk.commands
                                 else desk.commands[c.id := Done(DigestOf(c), result)])
  {
    hide RowAfter, FactsAfter, ScansAfter;
    var p := feed.projections[c.task];
    match c.order
    case Start => BeginningLeaves(p, desk, c);
    case Scan(_, _) => ScanLeaves(p, desk, c);
    case Complete(_) => CompletionLeaves(p, desk, c);
    case Fail(_) => FailureLeaves(p, desk, c);
    EffectKeepsCommands(p, desk, c);
  }

  lemma {:induction false} EffectKeepsCommands(p: Projection, desk: Desk, c: Command)
    requires Effect(p, desk, c).Ok?
    ensures Effect(p, desk, c).value.commands == desk.commands
  {
  }

  /** The result shows the projection, the new execution row, and the types of the accepted scans. */
  lemma {:induction false} ResultShows(feed: Feed, desk: Desk, c: Command)
    requires Committed(feed, desk, c).Ok?
    ensures var result := Committed(feed, desk, c).value.1;
            && result.projection == feed.projections[c.task]
            && result.execution == Some(RowAfter(feed.projections[c.task], desk, c))
            && forall t :: t in result.completedScans <==>
                 exists k <- ScansAfter(desk, c) :: k.task == c.task && ScansAfter(desk, c)[k].accepted && k.scanType == t
  {
    CommitLeaves(feed, desk, c);
  }

  // ---- One request ------------------------------------------------------------------------------

  /** Two requests under one id are the same: a scan is compared by its type and value joined with a bar. */
  predicate SameRequest(a: Command, b: Command) {
    && a.task == b.task && a.expected == b.expected && a.actor.operator == b.actor.operator
    && match a.order
       case Start => b.order.Start?
       case Scan(scanType, value) => b.order.Scan? && scanType + "|" + value == b.order.scanType + "|" + b.order.value
       case Complete(quantity) => b.order == Complete(quantity)
       case Fail(reason) => b.order == Fail(reason)
  }

  lemma {:induction false} DigestsAgreeExactly(a: Command, b: Command)
    ensures DigestOf(a) == DigestOf(b) <==> SameRequest(a, b)
  {
  }

  /** What the digest of a request holds: its kind by name, the quantity of a COMPLETE, a scan or reason as text. */
  lemma {:induction false} DigestHolds(c: Command)
    ensures var d := DigestOf(c);
            && d.task == c.task && d.expected == c.expected && d.operator == c.actor.operator
            && match c.order
               case Start => d.commandType == "START" && d.quantity == 0.0 && d.extra == ""
               case Scan(scanType, value) => d.commandType == "SCAN" && d.quantity == 0.0 && d.extra == scanType + "|" + value
               case Complete(quantity) => d.commandType == "COMPLETE" && d.quantity == quantity && d.extra == ""
               case Fail(reason) => d.commandType == "FAIL" && d.quantity == 0.0 && d.extra == reason
  {
  }

  /** Why a request is refused before any table is read. */
  predicate Unfit(c: Command, e: Error) {
    match e
    case OperatorRequired => c.order.Start? && (c.actor.operator == "" || c.actor.device == "")
    case ScanTypeInvalid => c.order.Scan? && (Blank(c.order.scanType) || Blank(c.order.value))
    case ReasonRequired => c.order.Fail? && Blank(c.order.reason)
    case _ => false
  }

  predicate Fit(c: Command) {
    !Unfit(c, OperatorRequired) && !Unfit(c, ScanTypeInvalid) && !Unfit(c, ReasonRequired)
  }

  /** The request as it is served: types and reasons in capitals, and no white space around them. */
  function Cleaned(c: Command): Command {
    match c.order
    case Scan(scanType, value) => c.(order := Scan(ToUpper(Trim(scanType)), Trim(value)))
    case Fail(reason) => c.(order := Fail(ToUpper(Trim(reason))))
    case _ => c
  }

  lemma {:induction false} BlankUpper(s: string)
    ensures ToUpper(Trim(s)) == "" <==> Blank(s)
  {
    BlankIsTrimmedAway(s);
    assert |ToUpper(Trim(s))| == |Trim(s)|;
  }

  lemma {:induction false} NormalizedExactly(c: Command)
    ensures Fit(c) ==> Normalized(c) == Ok(Cleaned(c))
    ensures forall e :: Normalized(c) == Err(e) <==> Unfit(c, e)
  {
    match c.order
    case Scan(scanType, value) =>
      BlankUpper(scanType);
      BlankIsTrimmedAway(value);
    case Fail(reason) => BlankUpper(reason);
    case _ =>
  }

  /**
   One request, served without interruption. Unfit, it changes nothing. With an id on record it gets that result if
   it is the same request, and is refused otherwise. Else it takes effect or is refused by the rules above, and
   a refusal changes nothing but the record of a mismatched scan, as rejected, where there is none.
   */
  lemma {:induction false} ServedExactly(feed: Feed, desk: Desk, command: Command)
    ensures forall e :: Unfit(command, e) ==> Served(feed, desk, command) == (desk, Err(e))
    ensures Fit(command) && command.id in desk.commands ==>
              Served(feed, desk, command)
              == (desk, if desk.commands[command.id].digest == DigestOf(Cleaned(command)) then Ok(desk.commands[command.id].result)
                        else Err(CommandConflict))
    ensures Fit(command) && command.id !in desk.commands ==>
              var c := Cleaned(command);
              && (Committed(feed, desk, c).Ok? ==>
                    Served(feed, desk, command) == (Committed(feed, desk, c).value.0, Ok(Committed(feed, desk, c).value.1)))
              && (forall e :: RefusedFor(feed, desk, c, e) ==> Served(feed, desk, command) == (DeskRefused(desk, c, e), Err(e)))
  {
    NormalizedExactly(command);
    if Fit(command) && command.id !in desk.commands {
      ServedFresh(feed, desk, command);
    }
  }

  /** The tables after a refusal. */
  function DeskRefused(desk: Desk, c: Command, e: Error): Desk {
    if e == ScanMismatch && c.order.Scan? && ScanKey(c.task, c.order.scanType, c.order.value) !in desk.scans
    then desk.(scans := desk.scans[ScanKey(c.task, c.order.scanType, c.order.value) := ScanRow(false, c.actor)])
    else desk
  }

  lemma {:induction false} ServedFresh(feed: Feed, desk: Desk, command: Command)
    requires Fit(command) && command.id !in desk.commands
    ensures var c := Cleaned(command);
            && (Committed(feed, desk, c).Ok? ==>
                  Served(feed, desk, command) == (Committed(feed, desk, c).value.0, Ok(Committed(feed, desk, c).value.1)))
            && (forall e :: RefusedFor(feed, desk, c, e) ==> Served(feed, desk, command) == (DeskRefused(desk, c, e), Err(e)))
  {
    NormalizedExactly(command);
    var c := Cleaned(command);
    forall e | RefusedFor(feed, desk, c, e)
      ensures Served(feed, desk, command) == (DeskRefused(desk, c, e), Err(e))
    {
      RefusedExactly(feed, desk, c, e);
      ServedRefused(feed, desk, command, e);
    }
  }

  lemma {:induction false} ServedRefused(feed: Feed, desk: Desk, command: Command, e: Error)
    requires Normalized(command) == Ok(Cleaned(command)) && command.id !in desk.commands
    requires Committed(feed, desk, Cleaned(command)) == Err(e)
    ensures Served(feed, desk, command) == (DeskRefused(desk, Cleaned(command), e), Err(e))
  {
    hide Committed;
  }
}
