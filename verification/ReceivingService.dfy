/** The receiving service as it runs: the task object, the store's loops and the transaction around them. */
module ReceivingService {
  import opened Results
  import opened Text
  import opened Envelopes
  import opened Receiving
  import Spec = Receiving
  import Laws = ReceivingLaws

  /** A call that follows `spec`: the task it gives and no error, or its error and an untouched task. */
  ghost predicate Did(before: Task, after: Task, spec: Result<Task, Error>, e: Option<Error>) {
    match spec
    case Ok(t) => e == None && after == t
    case Err(x) => e == Some(x) && after == before
  }

  class ReceivingTask {
    const id: string
    var status: Status
    const warehouse: string
    var operator: Option<string>
    var version: int
    const overReceipt: bool
    const remarkOnVariance: bool
    const lines: array<Line>

    function View(): Task
      reads this, lines
    {
      Task(id, Header(status, warehouse, operator, version, overReceipt, remarkOnVariance), lines[..])
    }

    constructor (t: Task)
      ensures View() == t && fresh(lines)
    {
      id, status, warehouse, operator := t.id, t.header.status, t.header.warehouse, t.header.operator;
      version, overReceipt, remarkOnVariance := t.header.version, t.header.overReceipt, t.header.remarkOnVariance;
      lines := new Line[|t.lines|](k requires 0 <= k < |t.lines| => t.lines[k]);
      new;
      assert lines[..] == t.lines;
    }

    method Start(actor: string, base: int) returns (e: Option<Error>)
      modifies this
      ensures Did(old(View()), View(), Started(old(View()), actor, base), e)
    {
      if version != base {
        return Some(VersionConflict);
      }
      if status == Completed {
        return Some(AlreadyCompleted);
      }
      if operator.None? || operator.value != actor {
        return Some(NotAssigned);
      }
      status := InProgress;
      version := version + 1;
      return None;
    }

    method Claim(actor: string, base: int) returns (e: Option<Error>)
      modifies this
      ensures Did(old(View()), View(), Claimed(old(View()), actor, base), e)
    {
      if version != base {
        return Some(VersionConflict);
      }
      if status == Completed {
        return Some(AlreadyCompleted);
      }
      if operator.Some? && operator.value != actor {
        return Some(NotAssigned);
      }
      operator := Some(actor);
      status := InProgress;
      version := version + 1;
      return None;
    }

    /** What `ConfirmWithCondition` checks of one line. */
    method CheckLine(l: Line, scanned: string, quantity: int, remark: Option<string>) returns (e: Option<Error>)
      ensures e == LineChecked(View().header, l, scanned, quantity, remark)
    {
      if l.barcode != scanned {
        return Some(WrongContext);
      }
      if quantity <= 0 {
        return Some(QuantityExceeded);
      }
      var remaining := l.expected - l.received;
      if remaining < quantity && !overReceipt {
        return Some(QuantityExceeded);
      }
      if remark.Some? {
        BlankIsTrimmedAway(remark.value);
      }
      if remarkOnVariance && quantity != remaining && (remark.None? || Trim(remark.value) == "") {
        return Some(RemarkRequired);
      }
      return None;
    }

    /** `ConfirmWithCondition`; on success `confirmed` is the line as changed. */
    method Confirm(
        actor: string, line: string, scanned: string, quantity: int, remark: Option<string>, base: int)
      returns (e: Option<Error>, confirmed: Line)
      modifies this, lines
      ensures Did(old(View()), View(), Confirmed(old(View()), actor, line, scanned, quantity, remark, base), e)
      ensures e.None? ==>
                var k := IndexOf(old(View()).lines, line); k < |View().lines| && View().lines[k] == confirmed
    {
      confirmed := Line("", "", "", 0, 0);
      if version != base {
        return Some(VersionConflict), confirmed;
      }
      if status == Completed {
        return Some(AlreadyCompleted), confirmed;
      }
      if operator.None? || operator.value != actor {
        return Some(NotAssigned), confirmed;
      }
      ghost var was := lines[..];
      for i := 0 to lines.Length
        invariant View() == old(View())
        invariant forall j :: 0 <= j < i ==> lines[j].id != line
      {
        var l := lines[i];
        if l.id == line {
          assert IndexOf(was, line) == i;
          e := CheckLine(l, scanned, quantity, remark);
          if e.Some? {
            return e, confirmed;
          }
          lines[i] := l.(received := l.received + quantity);
          status := PartiallyCompleted;
          version := version + 1;
          assert lines[..] == was[i := lines[i]];
          return None, lines[i];
        }
      }
      assert IndexOf(was, line) == |was|;
      return Some(WrongContext), confirmed;
    }

    method Complete(actor: string, base: int) returns (e: Option<Error>)
      modifies this
      ensures Did(old(View()), View(), CompletedOnce(old(View()), actor, base), e)
    {
      if version != base {
        return Some(VersionConflict);
      }
      if operator.None? || operator.value != actor {
        return Some(NotAssigned);
      }
      for i := 0 to lines.Length
        invariant View() == old(View())
        invariant forall j :: 0 <= j < i ==> lines[j].expected <= lines[j].received
      {
        if lines[i].received < lines[i].expected {
          assert lines[i] in lines[..];
          return Some(Incomplete);
        }
      }
      status := Completed;
      version := version + 1;
      return None;
    }

    /** What a line holds before it is confirmed: the last line with the id decides. */
    method ReceivedOf(line: string) returns (before: int)
      requires Laws.Distinct(View().lines)
      ensures var k := IndexOf(View().lines, line); before == if k < lines.Length then lines[k].received else 0
    {
      before := 0;
      for i := 0 to lines.Length
        invariant var k := IndexOf(lines[..], line); before == if k < i then lines[k].received else 0
      {
        if lines[i].id == line {
          before := lines[i].received;
          assert IndexOf(lines[..], line) == i;
        }
      }
    }

    /** The transition of one command, with the item and the amount to add to its balance. */
    method Perform(a: Action, actor: string, base: int) returns (e: Option<Error>, item: string, delta: int)
      requires Laws.Distinct(View().lines)
      modifies this, lines
      ensures Did(old(View()), View(), Transition(old(View()), a, actor, base), e)
      ensures e.None? && a.Confirm? ==>
                && var k := IndexOf(View().lines, a.line);
                k < |View().lines| && item == View().lines[k].item && delta == a.quantity && 0 < delta
      ensures e.None? && !a.Confirm? ==> delta == 0
    {
      item, delta := "", 0;
      match a {
        case Claim => e := Claim(actor, base);
        case Start => e := Start(actor, base);
        case Complete => e := Complete(actor, base);
        case Confirm(line, scanned, quantity, remark) =>
          ghost var was := View().lines;
          var before := ReceivedOf(line);
          var confirmed: Line;
          e, confirmed := Confirm(actor, line, scanned, quantity, remark, base);
          if e.None? {
            item, delta := confirmed.item, confirmed.received - before;
            assert Laws.Distinct(View().lines) && View().lines[IndexOf(was, line)].id == line;
            assert IndexOf(View().lines, line) == IndexOf(was, line);
          }
      }
    }
  }

  class Database {
    var headers: map<string, Header>
    var rows: seq<Row>
    var balances: map<Stocked, int>
    var outbox: seq<Event>
    var audit: seq<AuditRow>
    var commands: map<string, Saved>

    function View(): Tables
      reads this
    {
      Tables(headers, rows, balances, outbox, audit, commands)
    }

    constructor (db: Tables)
      ensures View() == db
    {
      headers, rows, balances := db.headers, db.rows, db.balances;
      outbox, audit, commands := db.outbox, db.audit, db.commands;
    }

    method GetForUpdate(id: string) returns (r: Option<Task>)
      ensures r == if id in headers then Some(Load(View(), id)) else None
    {
      if id !in headers {
        return None;
      }
      var lines: seq<Line> := [];
      for p := 0 to |rows|
        invariant lines == LinesOf(rows[..p], id)
      {
        assert rows[..p + 1][..p] == rows[..p];
        if rows[p].task == id {
          lines := lines + [rows[p].line];
        }
      }
      assert rows[..|rows|] == rows;
      return Some(Task(id, headers[id], lines));
    }

    /** The update of the header, and of each line by its id; a header that is gone is an error. */
    method Save(t: Task) returns (e: Option<Error>)
      modifies this`headers, this`rows
      ensures t.id in old(headers) ==> e == None && View() == Spec.Save(old(View()), t)
      ensures t.id !in old(headers) ==> e == Some(TaskNotFound) && View() == old(View())
    {
      if t.id !in headers {
        return Some(TaskNotFound);
      }
      headers := headers[t.id := t.header];
      for k := 0 to |t.lines|
        invariant headers == old(headers)[t.id := t.header]
        invariant rows == UpdateLines(old(rows), t.lines[..k])
      {
        assert t.lines[..k + 1][..k] == t.lines[..k];
        var before, l := rows, t.lines[k];
        rows := seq(|before|, p requires 0 <= p < |before| => Updated(before[p], l));
      }
      assert t.lines[..|t.lines|] == t.lines;
      return None;
    }

    method ApplyInventory(warehouse: string, item: string, delta: int)
      modifies this`balances
      ensures balances == old(balances)[Stocked(warehouse, item) := Balance(old(balances), Stocked(warehouse, item)) + delta]
    {
      var s := Stocked(warehouse, item);
      if s in balances {
        balances := balances[s := balances[s] + delta];
      } else {
        balances := balances[s := delta];
      }
    }

    /** The writes of a command whose task has been loaded and changed. */
    method Store(c: Command, t: Task, item: string, delta: int) returns (e: Option<Error>)
      requires c.action.Confirm? ==>
                 var k := IndexOf(t.lines, c.action.line);
                 k < |t.lines| && item == t.lines[k].item && delta == c.action.quantity && 0 < delta
      requires !c.action.Confirm? ==> delta == 0
      modifies this
      ensures e == if !EnvelopeValid(c.id, t.id, t.header.version, c.actor) then Some(EnvelopeInvalid)
                   else if t.id !in old(headers) then Some(TaskNotFound)
                   else if exists k <- old(commands) :: old(commands)[k].id == c.id then Some(ConstraintViolated)
                   else None
      ensures e.None? ==> View() == Stored(old(View()), c, t)
    {
      if !EnvelopeValid(c.id, t.id, t.header.version, c.actor) {
        return Some(EnvelopeInvalid);
      }
      e := Save(t);
      if e.Some? {
        return e;
      }
      if 0 < delta {
        ApplyInventory(t.header.warehouse, item, delta);
      }
      e := Log(c, t);
    }

    /** The outbox, audit and command rows of a command. */
    method Log(c: Command, t: Task) returns (e: Option<Error>)
      modifies this`outbox, this`audit, this`commands
      ensures e == if exists k <- old(commands) :: old(commands)[k].id == c.id then Some(ConstraintViolated) else None
      ensures e.None? ==>
                && outbox == old(outbox) + [Event(EventType(c.action), t.id, t.header.version, c.id, c.actor)]
                && audit == old(audit) + [Succeeded(EventType(c.action), t.id, c.actor)]
                && commands == old(commands)[c.key := Saved(c.id, t)]
    {
      outbox := outbox + [Event(EventType(c.action), t.id, t.header.version, c.id, c.actor)];
      audit := audit + [Succeeded(EventType(c.action), t.id, c.actor)];
      if exists k <- commands :: commands[k].id == c.id {
        return Some(ConstraintViolated);
      }
      commands := commands[c.key := Saved(c.id, t)];
      return None;
    }

    /** The body of the transaction, from the task lookup on. */
    method Execute(c: Command) returns (r: Result<Task, Error>)
      requires Laws.Valid(View())
      modifies this
      ensures match Executed(old(View()), c)
              case Ok((next, t)) => r == Ok(t) && View() == next
              case Err(x) => r == Err(x)
    {
      var loaded := GetForUpdate(c.task);
      if loaded.None? {
        return Err(TaskNotFound);
      }
      if loaded.value.header.warehouse != c.actor.warehouse {
        return Err(WarehouseDenied);
      }
      Laws.LoadedLinesAreDistinct(rows, c.task);
      var task := new ReceivingTask(loaded.value);
      var e, item, delta := task.Perform(c.action, c.actor.operator, c.base);
      if e.Some? {
        return Err(e.value);
      }
      e := Store(c, task.View(), item, delta);
      return if e.Some? then Err(e.value) else Ok(task.View());
    }

    method Mutate(c: Command) returns (r: Result<Task, Error>)
      requires Laws.Valid(View())
      modifies this
      ensures (View(), r) == Spec.Mutate(old(View()), c)
      ensures Laws.Valid(View())
    {
      if c.key in commands {
        return Ok(commands[c.key].result);
      }
      var begun := View();
      r := Execute(c);
      if r.Err? {
        headers, rows, balances := begun.headers, begun.rows, begun.balances;
        outbox, audit, commands := begun.outbox, begun.audit, begun.commands;
        audit := audit + [Denied(EventType(c.action), c.task, c.actor, r.error)];
      } else {
        Laws.CommitFacts(begun, c);
      }
    }
  }
}
