/**
 What one receiving command does, in the columns of the two task tables: when it commits, what
 each other case answers, and what a commit leaves in every table.
 */
module ReceivingRules {
  import opened Envelopes
  import opened Results
  import opened Text
  import opened Receiving
  import opened ReceivingLaws

  /** Row `p` is the line of the task that the command names. */
  predicate IsLine(db: Tables, c: Command, p: nat) {
    c.action.Confirm? && p < |db.rows| && db.rows[p].task == c.task && db.rows[p].line.id == c.action.line
  }

  /** What is still to come fits, or more may come. */
  predicate Fits(h: Header, l: Line, quantity: int) {
    0 < quantity && (l.received + quantity <= l.expected || h.overReceipt)
  }

  predicate Remarked(h: Header, l: Line, quantity: int, remark: Option<string>) {
    !h.remarkOnVariance || l.received + quantity == l.expected || (remark.Some? && !Blank(remark.value))
  }

  /** What each command asks of its task. */
  ghost predicate Accepts(db: Tables, c: Command)
    requires c.task in db.headers
  {
    var h := db.headers[c.task];
    && h.version == c.base
    && match c.action
       case Claim => h.status != Completed && (h.operator.None? || h.operator == Some(c.actor.operator))
       case Start => h.status != Completed && h.operator == Some(c.actor.operator)
       case Complete =>
         h.operator == Some(c.actor.operator) && forall r <- db.rows :: r.task == c.task ==> r.line.expected <= r.line.received
       case Confirm(_, barcode, quantity, remark) =>
         && h.status != Completed && h.operator == Some(c.actor.operator)
         && exists p: nat :: IsLine(db, c, p) && db.rows[p].line.barcode == barcode
              && Fits(h, db.rows[p].line, quantity) && Remarked(h, db.rows[p].line, quantity, remark)
  }

  /** The header that each command leaves. */
  function HeaderAfter(h: Header, a: Action, operator: string): Header {
    match a
    case Claim => h.(operator := Some(operator), status := InProgress, version := h.version + 1)
    case Start => h.(status := InProgress, version := h.version + 1)
    case Complete => h.(status := Completed, version := h.version + 1)
    case Confirm(_, _, _, _) => h.(status := PartiallyCompleted, version := h.version + 1)
  }

  lemma {:induction false} LinesAreRows(rows: seq<Row>, id: string, l: Line)
    ensures l in LinesOf(rows, id) <==> Row(id, l) in rows
  {
    if rows != [] {
      var before, last := rows[..|rows| - 1], rows[|rows| - 1];
      assert rows == before + [last];
      LinesAreRows(before, id, l);
    }
  }

  lemma {:induction false} FullExactly(db: Tables, id: string)
    ensures Full(LinesOf(db.rows, id)) <==> forall r <- db.rows :: r.task == id ==> r.line.expected <= r.line.received
  {
    forall r | r in db.rows && r.task == id
      ensures r.line in LinesOf(db.rows, id)
    {
      LinesAreRows(db.rows, id, r.line);
    }
    forall l | l in LinesOf(db.rows, id)
      ensures Row(id, l) in db.rows
    {
      LinesAreRows(db.rows, id, l);
    }
  }

  /** The line that is found by id is the row with that id. */
  lemma {:induction false} FoundExactly(db: Tables, c: Command)
    requires Valid(db) && c.action.Confirm?
    ensures var k := IndexOf(LinesOf(db.rows, c.task), c.action.line);
            && (k < |LinesOf(db.rows, c.task)| <==> exists p: nat :: IsLine(db, c, p))
            && (forall p: nat :: IsLine(db, c, p) ==>
                  k < |LinesOf(db.rows, c.task)| && LinesOf(db.rows, c.task)[k] == db.rows[p].line)
  {
    var lines := LinesOf(db.rows, c.task);
    var k := IndexOf(lines, c.action.line);
    if k < |lines| {
      LinesAreRows(db.rows, c.task, lines[k]);
      var p: nat :| p < |db.rows| && db.rows[p] == Row(c.task, lines[k]);
      assert IsLine(db, c, p);
    }
    forall p: nat | IsLine(db, c, p)
      ensures k < |lines| && lines[k] == db.rows[p].line
    {
      assert db.rows[p] == Row(c.task, db.rows[p].line);
      LinesAreRows(db.rows, c.task, db.rows[p].line);
      LoadedLinesAreDistinct(db.rows, c.task);
      var j :| 0 <= j < |lines| && lines[j] == db.rows[p].line;
    }
  }

  lemma {:induction false} CheckedExactly(h: Header, l: Line, barcode: string, quantity: int, remark: Option<string>)
    ensures LineChecked(h, l, barcode, quantity, remark)
         == if l.barcode != barcode then Some(WrongContext)
            else if !Fits(h, l, quantity) then Some(QuantityExceeded)
            else if !Remarked(h, l, quantity, remark) then Some(RemarkRequired)
            else None
  {
  }

  /** A command passes its task exactly when the task accepts it. */
  lemma {:induction false} TransitionExactly(db: Tables, c: Command)
    requires Valid(db) && c.task in db.headers
    ensures Transition(Load(db, c.task), c.action, c.actor.operator, c.base).Ok? <==> Accepts(db, c)
    ensures Accepts(db, c) ==>
              var t := Transition(Load(db, c.task), c.action, c.actor.operator, c.base).value;
              t.id == c.task && t.header == HeaderAfter(db.headers[c.task], c.action, c.actor.operator)
  {
    FullExactly(db, c.task);
    if c.action.Confirm? {
      FoundExactly(db, c);
      var k := IndexOf(LinesOf(db.rows, c.task), c.action.line);
      if p: nat :| IsLine(db, c, p) {
        CheckedExactly(db.headers[c.task], db.rows[p].line, c.action.barcode, c.action.quantity, c.action.remark);
      }
    }
  }

  // ---- The whole command ------------------------------------------------------------------------------

  predicate MayBeSent(db: Tables, c: Command)
    requires c.task in db.headers
  {
    && EnvelopeValid(c.id, c.task, db.headers[c.task].version + 1, c.actor)
    && forall k <- db.commands :: db.commands[k].id != c.id
  }

  /** A fresh command commits exactly when its task is in the actor's warehouse and accepts it, and it may be sent. */
  lemma {:induction false} CommandExactly(db: Tables, c: Command)
    requires Valid(db) && c.key !in db.commands
    ensures Commits(db, c) <==>
              c.task in db.headers && db.headers[c.task].warehouse == c.actor.warehouse && Accepts(db, c) && MayBeSent(db, c)
  {
    if c.task in db.headers {
      TransitionExactly(db, c);
      HeaderRises(db.headers[c.task], c.action, c.actor.operator);
      Settles(db, c);
    }
  }

  lemma {:induction false} HeaderRises(h: Header, a: Action, operator: string)
    ensures HeaderAfter(h, a, operator).version == h.version + 1
  {
  }

  lemma {:induction false} Settles(db: Tables, c: Command)
    requires c.key !in db.commands && c.task in db.headers
    ensures var t := Transition(Load(db, c.task), c.action, c.actor.operator, c.base);
            Commits(db, c) <==>
              && db.headers[c.task].warehouse == c.actor.warehouse && t.Ok?
              && EnvelopeValid(c.id, t.value.id, t.value.header.version, c.actor)
              && forall k <- db.commands :: db.commands[k].id != c.id
  {
    hide Transition;
  }

  predicate Publishes(a: Action, event: string) {
    match a
    case Claim => event == "ReceivingTaskClaimed"
    case Start => event == "ReceivingTaskStarted"
    case Confirm(_, _, _, _) => event == "ReceivingQuantityConfirmed"
    case Complete => event == "ReceivingTaskCompleted"
  }

  lemma {:induction false} EventExactly(a: Action, event: string)
    ensures EventType(a) == event <==> Publishes(a, event)
  {
  }

  /** The lines after a command: the one it names has received its quantity, and no other changes. */
  ghost predicate LinesAfter(db: Tables, c: Command, rows: seq<Row>) {
    && |rows| == |db.rows|
    && forall p: nat :: p < |rows| ==>
         rows[p] == if IsLine(db, c, p) then Row(c.task, db.rows[p].line.(received := db.rows[p].line.received + c.action.quantity))
                    else db.rows[p]
  }

  /** The balances after it: that of the line's item, in the task's warehouse, has grown by as much. */
  ghost predicate BalancesAfter(db: Tables, c: Command, balances: map<Stocked, int>)
    requires c.task in db.headers
  {
    forall s: Stocked ::
      (if s in balances then balances[s] else 0) == (if s in db.balances then db.balances[s] else 0)
        + if exists p: nat :: IsLine(db, c, p) && s == Stocked(db.headers[c.task].warehouse, db.rows[p].line.item)
          then c.action.quantity else 0
  }

  lemma {:induction false} ConfirmLeaves(db: Tables, c: Command)
    requires Valid(db) && Commits(db, c) && c.action.Confirm?
    ensures c.task in db.headers
    ensures LinesAfter(db, c, Mutate(db, c).0.rows) && BalancesAfter(db, c, Mutate(db, c).0.balances)
  {
    CommandExactly(db, c);
    var p, l := ConfirmFacts(db, c);
    var q: nat :| IsLine(db, c, q);
    ConfirmedIsNamed(db, c, p, l, q);
  }

  /** The row that a confirmation changed is the one it names. */
  lemma {:induction false} ConfirmedIsNamed(db: Tables, c: Command, p: nat, l: Line, q: nat)
    requires Valid(db) && Commits(db, c) && c.action.Confirm? && IsLine(db, c, q)
    requires p < |db.rows| && c.task in db.headers && db.rows[p].task == c.task
    requires l == db.rows[p].line.(received := db.rows[p].line.received + c.action.quantity)
    requires var next := Mutate(db, c).0; var s := Stocked(db.headers[c.task].warehouse, l.item);
             next.rows == db.rows[p := Row(c.task, l)]
             && next.balances == db.balances[s := Balance(db.balances, s) + c.action.quantity]
    ensures LinesAfter(db, c, Mutate(db, c).0.rows) && BalancesAfter(db, c, Mutate(db, c).0.balances)
  {
    NamedRowChanges(db, c, q);
    assert 0 < c.action.quantity by {
      CommandExactly(db, c);
    }
    assert p == q by {
      assert Mutate(db, c).0.rows[q] != db.rows[q];
    }
    assert forall x: nat :: IsLine(db, c, x) ==> x == q;
  }

  lemma {:induction false} NamedRowChanges(db: Tables, c: Command, q: nat)
    requires Valid(db) && Commits(db, c) && c.action.Confirm? && IsLine(db, c, q) && c.task in db.headers
    ensures |Mutate(db, c).0.rows| == |db.rows|
    ensures Mutate(db, c).0.rows[q].line.received == db.rows[q].line.received + c.action.quantity
  {
    FoundExactly(db, c);
    LoadedLinesAreDistinct(db.rows, c.task);
    CommitTables(db, c);
    var k, l := ConfirmedLine(Load(db, c.task), c.action, c.actor.operator, c.base);
    var p := ConfirmChangesOneRow(db.rows, c.task, k, l);
    ConfirmedTables(db, c, k, l);
    assert db.rows[p].line.id == l.id && Mutate(db, c).0.rows == db.rows[p := Row(c.task, l)];
    assert k == IndexOf(LinesOf(db.rows, c.task), c.action.line);
  }

  lemma {:induction false} OtherLeaves(db: Tables, c: Command)
    requires Valid(db) && Commits(db, c) && !c.action.Confirm?
    ensures c.task in db.headers
    ensures Mutate(db, c).0.rows == db.rows && Mutate(db, c).0.balances == db.balances
  {
    CommitTables(db, c);
    TransitionFacts(Load(db, c.task), c.action, c.actor.operator, c.base);
    SavingLoadedLinesIsNoChange(db.rows, c.task);
  }

  /** What a committed command leaves: its header, line and balance, and one row each in outbox, audit and commands. */
  lemma {:induction false} CommandLeaves(db: Tables, c: Command)
    requires Valid(db) && Commits(db, c)
    ensures c.task in db.headers
    ensures var h := HeaderAfter(db.headers[c.task], c.action, c.actor.operator); var next := Mutate(db, c).0;
            && next.headers == db.headers[c.task := h]
            && LinesAfter(db, c, next.rows) && BalancesAfter(db, c, next.balances)
            && Mutate(db, c).1 == Ok(Load(next, c.task))
            && (exists event :: Publishes(c.action, event)
                                && next.outbox == db.outbox + [Event(event, c.task, h.version, c.id, c.actor)]
                                && next.audit == db.audit + [Succeeded(event, c.task, c.actor)])
            && next.commands == db.commands[c.key := Saved(id := c.id, result := Load(next, c.task))]
  {
    CommandExactly(db, c);
    TransitionExactly(db, c);
    CommitFacts(db, c);
    CommitTables(db, c);
    EventExactly(c.action, EventType(c.action));
    if c.action.Confirm? {
      ConfirmLeaves(db, c);
    } else {
      OtherLeaves(db, c);
      assert LinesAfter(db, c, db.rows) && BalancesAfter(db, c, db.balances);
    }
  }

  /** Why a fresh command does not commit: the first reason that applies. */
  ghost predicate RefusedFor(db: Tables, c: Command, e: Error) {
    if c.task !in db.headers then e == TaskNotFound
    else if db.headers[c.task].warehouse != c.actor.warehouse then e == WarehouseDenied
    else if db.headers[c.task].version != c.base then e == VersionConflict
    else if db.headers[c.task].status == Completed && !c.action.Complete? then e == AlreadyCompleted
    else if db.headers[c.task].operator != Some(c.actor.operator) && !(c.action.Claim? && db.headers[c.task].operator.None?)
    then e == NotAssigned
    else if !Accepts(db, c) then if c.action.Confirm? then ConfirmRefused(db, c, e) else e == Incomplete
    else if !EnvelopeValid(c.id, c.task, db.headers[c.task].version + 1, c.actor) then e == EnvelopeInvalid
    else e == ConstraintViolated && exists k <- db.commands :: db.commands[k].id == c.id
  }

  /** What is wrong with a confirmation: the line or its barcode, the quantity, or the remark, in this order. */
  ghost predicate ConfirmRefused(db: Tables, c: Command, e: Error)
    requires c.task in db.headers && c.action.Confirm?
  {
    var h := db.headers[c.task];
    if exists p: nat :: IsLine(db, c, p) && db.rows[p].line.barcode == c.action.barcode then
      if exists p: nat :: IsLine(db, c, p) && Fits(h, db.rows[p].line, c.action.quantity) then e == RemarkRequired
      else e == QuantityExceeded
    else e == WrongContext
  }

  lemma {:induction false} DeclinedExactly(db: Tables, c: Command, e: Error)
    requires Valid(db) && c.task in db.headers && !Accepts(db, c)
    ensures Transition(Load(db, c.task), c.action, c.actor.operator, c.base) == Err(e) <==>
              var h := db.headers[c.task];
              if h.version != c.base then e == VersionConflict
              else if h.status == Completed && !c.action.Complete? then e == AlreadyCompleted
              else if h.operator != Some(c.actor.operator) && !(c.action.Claim? && h.operator.None?) then e == NotAssigned
              else if c.action.Confirm? then ConfirmRefused(db, c, e) else e == Incomplete
  {
    TransitionExactly(db, c);
    if c.action.Confirm? {
      FoundExactly(db, c);
      if p: nat :| IsLine(db, c, p) {
        CheckedExactly(db.headers[c.task], db.rows[p].line, c.action.barcode, c.action.quantity, c.action.remark);
        assert forall q: nat :: IsLine(db, c, q) ==> db.rows[q].line == db.rows[p].line;
      }
    }
  }

  /** And it is refused for exactly one reason, with one audit row. */
  lemma {:induction false} RefusedExactly(db: Tables, c: Command, e: Error)
    requires Valid(db) && c.key !in db.commands
    ensures Mutate(db, c).1 == Err(e) <==> RefusedFor(db, c, e)
    ensures Mutate(db, c).1 == Err(e) ==>
              exists event :: Publishes(c.action, event)
                              && Mutate(db, c).0 == db.(audit := db.audit + [Denied(event, c.task, c.actor, e)])
  {
    EventExactly(c.action, EventType(c.action));
    if c.task in db.headers {
      TransitionExactly(db, c);
      if Accepts(db, c) {
        HeaderRises(db.headers[c.task], c.action, c.actor.operator);
        AcceptedPasses(db, c);
      } else {
        DeclinedExactly(db, c, e);
      }
    }
    RefusalFollows(db, c, e);
  }

  lemma {:induction false} AcceptedPasses(db: Tables, c: Command)
    requires c.task in db.headers && Accepts(db, c)
    ensures var h := db.headers[c.task];
            && h.version == c.base && !(h.status == Completed && !c.action.Complete?)
            && !(h.operator != Some(c.actor.operator) && !(c.action.Claim? && h.operator.None?))
  {
  }

  lemma {:induction false} RefusalFollows(db: Tables, c: Command, e: Error)
    requires c.key !in db.commands
    requires c.task in db.headers ==>
               var h := db.headers[c.task]; var answer := Transition(Load(db, c.task), c.action, c.actor.operator, c.base);
               && (answer.Ok? <==> Accepts(db, c))
               && (Accepts(db, c) ==>
                     && answer.value.id == c.task && answer.value.header.version == h.version + 1
                     && h.version == c.base && !(h.status == Completed && !c.action.Complete?)
                     && !(h.operator != Some(c.actor.operator) && !(c.action.Claim? && h.operator.None?)))
               && (!Accepts(db, c) ==>
                     (answer == Err(e) <==>
                        if h.version != c.base then e == VersionConflict
                        else if h.status == Completed && !c.action.Complete? then e == AlreadyCompleted
                        else if h.operator != Some(c.actor.operator) && !(c.action.Claim? && h.operator.None?) then e == NotAssigned
                        else if c.action.Confirm? then ConfirmRefused(db, c, e) else e == Incomplete))
    ensures Mutate(db, c).1 == Err(e) <==> RefusedFor(db, c, e)
  {
    hide Transition, Accepts, ConfirmRefused;
  }
}
