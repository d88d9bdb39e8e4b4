/** The command service as it runs over its tables, statement by statement. */
module TaskService {
  import opened Results
  import opened Text
  import opened TaskFeed
  import opened TaskExecution
  import Spec = TaskExecution

  ghost function ErrorOf(spec: Result<Desk, Error>): Option<Error> {
    if spec.Err? then Some(spec.error) else None
  }

  /** The loop of `contains`. */
  method ContainsFold(values: seq<string>, needle: string) returns (found: bool)
    ensures found == Contains(values, needle)
  {
    for i := 0 to |values|
      invariant forall j :: 0 <= j < i ==> !EqualFold(values[j], needle)
    {
      if EqualFold(values[i], needle) {
        return true;
      }
    }
    return false;
  }

  class Service {
    var feed: Feed
    var executions: map<string, Execution>
    var scans: map<ScanKey, ScanRow>
    var commands: map<string, Done>
    var facts: seq<Fact>

    function View(): Desk
      reads this
    {
      Desk(executions, scans, commands, facts)
    }

    constructor (feed: Feed)
      ensures this.feed == feed && View() == Desk(map[], map[], map[], [])
    {
      this.feed := feed;
      executions, scans, commands, facts := map[], map[], map[], [];
    }

    method LoadState(task: string) returns (s: State)
      ensures s == StateOf(View(), task)
    {
      if task in executions {
        return executions[task].state;
      }
      return Dispatched;
    }

    /** SELECT DISTINCT scan_type ... AND accepted, as a list in some order. */
    method AcceptedScanTypes(task: string) returns (types: seq<string>)
      ensures forall v :: v in types <==> v in AcceptedTypes(scans, task)
    {
      types := [];
      var rest := scans.Keys;
      while rest != {}
        invariant rest <= scans.Keys
        invariant forall v :: v in types <==> exists k <- scans.Keys - rest :: k.task == task && scans[k].accepted && k.scanType == v
        decreases |rest|
      {
        var k :| k in rest;
        ghost var done := scans.Keys - rest;
        rest := rest - {k};
        assert scans.Keys - rest == done + {k};
        if k.task == task && scans[k].accepted && k.scanType !in types {
          types := types + [k.scanType];
        }
      }
      assert scans.Keys - rest == scans.Keys;
    }

    /** The loop over the required scans in `Complete`. */
    method MissingScan(required: seq<string>, task: string) returns (missing: Option<string>)
      ensures missing == FirstMissing(required, AcceptedTypes(scans, task))
    {
      var accepted := AcceptedScanTypes(task);
      ghost var types := AcceptedTypes(scans, task);
      for i := 0 to |required|
        invariant FirstMissing(required[..i], types) == None
      {
        assert required[..i + 1][..i] == required[..i];
        var found := ContainsFold(accepted, required[i]);
        if !found {
          FirstMissingStays(required, i + 1, types);
          return Some(required[i]);
        }
      }
      assert required[..|required|] == required;
      return None;
    }

    method AppendFact(p: Projection, c: Command, outcome: Outcome)
      modifies this`facts
      ensures facts == old(facts) + [FactOf(p, old(View()), c, outcome)]
    {
      var evidence: map<ScanKey, ScanRow> := map[];
      if !outcome.TaskStarted? {
        evidence := Evidence(scans, c.task);
      }
      facts := facts + [Fact(c.task, p.version, p.taskType, p.warehouse, c.actor, outcome, evidence)];
    }

    method ApplyStart(p: Projection, state: State, c: Command) returns (e: Option<Error>)
      requires state == StateOf(View(), c.task) && c.order.Start?
      modifies this`executions, this`facts
      ensures e == ErrorOf(Effect(p, old(View()), c))
      ensures View() == if e.None? then Effect(p, old(View()), c).value else old(View())
    {
      if p.version != c.expected {
        return Some(VersionConflict);
      }
      if state == Completed || state == Failed {
        return Some(AlreadyFinished);
      }
      if c.task in executions {
        executions := executions[c.task := executions[c.task].(state := Started, version := p.version, actor := c.actor)];
      } else {
        executions := executions[c.task := Execution(Started, p.version, c.actor, 0.0, "")];
      }
      AppendFact(p, c, TaskStarted);
      return None;
    }

    method InsertScan(c: Command, accepted: bool)
      requires c.order.Scan?
      modifies this`scans
      ensures View() == Recorded(old(View()), c, accepted)
    {
      var k := ScanKey(c.task, c.order.scanType, c.order.value);
      if k !in scans {
        scans := scans[k := ScanRow(accepted, c.actor)];
      }
    }

    method ApplyScan(p: Projection, state: State, c: Command) returns (e: Option<Error>)
      requires state == StateOf(View(), c.task) && c.order.Scan?
      modifies this`scans
      ensures e == ErrorOf(Effect(p, old(View()), c))
      ensures View() == if e.None? then Effect(p, old(View()), c).value else old(View())
    {
      if p.version != c.expected {
        return Some(VersionConflict);
      }
      if state != Started {
        return Some(NotStarted);
      }
      var required := ContainsFold(p.scans, c.order.scanType);
      if !required {
        return Some(ScanTypeInvalid);
      }
      var expected := ExpectedValue(p, c.order.scanType);
      if expected.None? || expected.value == "" || expected.value != c.order.value {
        return Some(ScanMismatch);
      }
      InsertScan(c, true);
      return None;
    }

    method ApplyComplete(p: Projection, state: State, c: Command) returns (e: Option<Error>)
      requires state == StateOf(View(), c.task) && c.order.Complete?
      modifies this`executions, this`facts
      ensures e == ErrorOf(Effect(p, old(View()), c))
      ensures View() == if e.None? then Effect(p, old(View()), c).value else old(View())
    {
      var quantity := c.order.quantity;
      if p.version != c.expected {
        return Some(VersionConflict);
      }
      if state != Started {
        return Some(NotStarted);
      }
      if quantity <= 0.0 || p.remaining + TOLERANCE < quantity {
        return Some(QuantityInvalid);
      }
      var missing := MissingScan(p.scans, c.task);
      if missing.Some? {
        return Some(ScansIncomplete(missing.value));
      }
      executions := executions[c.task := executions[c.task].(state := Completed, confirmed := quantity)];
      AppendFact(p, c, TaskCompleted(quantity, p.requested, p.remaining - quantity));
      return None;
    }

    method ApplyFail(p: Projection, state: State, c: Command) returns (e: Option<Error>)
      requires state == StateOf(View(), c.task) && c.order.Fail?
      modifies this`executions, this`facts
      ensures e == ErrorOf(Effect(p, old(View()), c))
      ensures View() == if e.None? then Effect(p, old(View()), c).value else old(View())
    {
      if p.version != c.expected {
        return Some(VersionConflict);
      }
      if state == Completed || state == Failed {
        return Some(AlreadyFinished);
      }
      var reason := c.order.reason;
      if c.task in executions {
        executions := executions[c.task := executions[c.task].(state := Failed, reason := reason, actor := c.actor)];
      } else {
        executions := executions[c.task := Execution(Failed, p.version, c.actor, 0.0, reason)];
      }
      AppendFact(p, c, TaskFailed(reason));
      return None;
    }

    /** The second half of `command`: an error leaves every table as it was. */
    method Commit(c: Command) returns (r: Result<TaskView, Error>)
      modifies this
      ensures feed == old(feed)
      ensures match Committed(feed, old(View()), c)
              case Ok((next, result)) => r == Ok(result) && View() == next
              case Err(x) => r == Err(x) && View() == old(View())
    {
      if c.task !in feed.projections {
        return Err(TaskNotFound);
      }
      var p := feed.projections[c.task];
      var state := LoadState(c.task);
      var e: Option<Error>;
      match c.order {
        case Start => e := ApplyStart(p, state, c);
        case Scan(_, _) => e := ApplyScan(p, state, c);
        case Complete(_) => e := ApplyComplete(p, state, c);
        case Fail(_) => e := ApplyFail(p, state, c);
      }
      if e.Some? {
        return Err(e.value);
      }
      var result := ViewOf(p, View(), c.task);
      if c.id !in commands {
        commands := commands[c.id := Done(DigestOf(c), result)];
      }
      return Ok(result);
    }

    /** One request from start to end. */
    method Serve(command: Command) returns (r: Result<TaskView, Error>)
      modifies this
      ensures feed == old(feed) && (View(), r) == Served(feed, old(View()), command)
    {
      var normalized := Normalized(command);
      if normalized.Err? {
        return Err(normalized.error);
      }
      var c := normalized.value;
      if c.id in commands {
        if commands[c.id].digest != DigestOf(c) {
          return Err(CommandConflict);
        }
        return Ok(commands[c.id].result);
      }
      r := Commit(c);
      if r == Err(ScanMismatch) && c.order.Scan? {
        InsertScan(c, false);
      }
    }
  }

  lemma {:induction false} FirstMissingStays(required: seq<string>, n: nat, types: set<string>)
    requires n <= |required| && FirstMissing(required[..n], types).Some?
    ensures FirstMissing(required, types) == FirstMissing(required[..n], types)
  {
    if n == |required| {
      assert required[..n] == required;
    } else {
      assert required[..|required| - 1][..n] == required[..n];
      FirstMissingStays(required[..|required| - 1], n, types);
    }
  }
}
