/** What runs of receiving commands guarantee. */
module ReceivingLaws {
  import opened Results
  import opened Text
  import opened Envelopes
  import opened Receiving

  /** The keys of the two tables: line_id is unique and every line belongs to a task. */
  ghost predicate Valid(db: Tables) {
    && (forall p, q :: 0 <= p < q < |db.rows| ==> db.rows[p].line.id != db.rows[q].line.id)
    && (forall r <- db.rows :: r.task in db.headers)
  }

  ghost predicate Distinct(lines: seq<Line>) {
    forall i, j :: 0 <= i < j < |lines| ==> lines[i].id != lines[j].id
  }

  /** The same lines with other received quantities. */
  ghost predicate SameLines(a: seq<Line>, b: seq<Line>) {
    |a| == |b| && forall k :: 0 <= k < |a| ==> a[k] == b[k].(received := a[k].received)
  }

  ghost predicate DistinctRows(rows: seq<Row>) {
    forall p, q :: 0 <= p < q < |rows| ==> rows[p].line.id != rows[q].line.id
  }

  // ---- Saving a loaded task -----------------------------------------------------------------

  lemma {:induction false} LoadedLinesAreRows(rows: seq<Row>, id: string)
    ensures forall l <- LinesOf(rows, id) :: exists p :: 0 <= p < |rows| && rows[p] == Row(id, l)
  {
    if rows != [] {
      var init := rows[..|rows| - 1];
      LoadedLinesAreRows(init, id);
      forall l | l in LinesOf(rows, id)
        ensures exists p :: 0 <= p < |rows| && rows[p] == Row(id, l)
      {
        if l in LinesOf(init, id) {
          var p :| 0 <= p < |init| && init[p] == Row(id, l);
          assert rows[p] == Row(id, l);
        } else {
          assert rows[|rows| - 1] == Row(id, l);
        }
      }
    }
  }

  lemma {:induction false} LoadedLinesAreDistinct(rows: seq<Row>, id: string)
    requires DistinctRows(rows)
    ensures Distinct(LinesOf(rows, id))
  {
    if rows != [] {
      var init := rows[..|rows| - 1];
      LoadedLinesAreDistinct(init, id);
      LoadedLinesAreRows(init, id);
      forall l | l in LinesOf(init, id)
        ensures l.id != rows[|rows| - 1].line.id
      {
        var p :| 0 <= p < |init| && init[p] == Row(id, l);
        assert rows[p] == init[p];
      }
    }
  }

  /** What the update loop leaves in each row: the received quantity of the line with the row's id, if there is one. */
  lemma {:induction false} UpdateLinesAt(rows: seq<Row>, lines: seq<Line>, p: nat)
    requires p < |rows| && Distinct(lines)
    ensures |UpdateLines(rows, lines)| == |rows|
    ensures var k := IndexOf(lines, rows[p].line.id);
            UpdateLines(rows, lines)[p] == if k < |lines| then Updated(rows[p], lines[k]) else rows[p]
  {
    if lines != [] {
      UpdateLinesAt(rows, lines[..|lines| - 1], p);
    }
  }

  lemma {:induction false} UpdateLinesLength(rows: seq<Row>, lines: seq<Line>)
    ensures |UpdateLines(rows, lines)| == |rows|
  {
    if lines != [] {
      UpdateLinesLength(rows, lines[..|lines| - 1]);
    }
  }

  /** Loading from a longer stretch of rows extends the lines loaded from a shorter one. */
  lemma {:induction false} LinesOfPrefix(rows: seq<Row>, n: nat, id: string)
    requires n <= |rows|
    ensures LinesOf(rows[..n], id) <= LinesOf(rows, id)
  {
    if n < |rows| {
      LinesOfPrefix(rows[..|rows| - 1], n, id);
      assert rows[..|rows| - 1][..n] == rows[..n];
    } else {
      assert rows[..n] == rows;
    }
  }

  lemma LoadedLineAt(rows: seq<Row>, n: nat, id: string)
    requires n < |rows| && rows[n].task == id
    ensures var k := |LinesOf(rows[..n], id)|; k < |LinesOf(rows, id)| && LinesOf(rows, id)[k] == rows[n].line
  {
    assert rows[..n + 1][..n] == rows[..n];
    assert LinesOf(rows[..n + 1], id) == LinesOf(rows[..n], id) + [rows[n].line];
    LinesOfPrefix(rows, n + 1, id);
  }

  lemma LinesStep(rows: seq<Row>, n: nat, id: string)
    requires n < |rows|
    ensures LinesOf(rows[..n + 1], id) == LinesOf(rows[..n], id) + if rows[n].task == id then [rows[n].line] else []
  {
    assert rows[..n + 1][..n] == rows[..n];
  }

  /** Rows that differ from `rows` in the lines of one task only, where they hold `lines`. */
  ghost predicate Overwrites(rows: seq<Row>, after: seq<Row>, lines: seq<Line>, id: string) {
    && |after| == |rows|
    && forall p :: 0 <= p < |rows| ==>
         if rows[p].task != id then after[p] == rows[p]
         else |LinesOf(rows[..p], id)| < |lines| && after[p] == Row(id, lines[|LinesOf(rows[..p], id)|])
  }

  lemma {:induction false} OverwrittenNext(rows: seq<Row>, after: seq<Row>, lines: seq<Line>, id: string, n: nat)
    requires Overwrites(rows, after, lines, id) && n < |rows|
    requires |LinesOf(rows[..n], id)| <= |lines| && LinesOf(after[..n], id) == lines[..|LinesOf(rows[..n], id)|]
    ensures |LinesOf(rows[..n + 1], id)| <= |lines|
    ensures LinesOf(after[..n + 1], id) == lines[..|LinesOf(rows[..n + 1], id)|]
  {
    LinesStep(rows, n, id);
    LinesStep(after, n, id);
    if rows[n].task == id {
      var k := |LinesOf(rows[..n], id)|;
      assert after[n] == Row(id, lines[k]);
      assert lines[..k + 1] == lines[..k] + [lines[k]];
    } else {
      assert after[n] == rows[n];
    }
  }

  lemma {:induction false} OverwrittenLines(rows: seq<Row>, after: seq<Row>, lines: seq<Line>, id: string, n: nat)
    requires Overwrites(rows, after, lines, id) && n <= |rows|
    ensures |LinesOf(rows[..n], id)| <= |lines|
    ensures LinesOf(after[..n], id) == lines[..|LinesOf(rows[..n], id)|]
  {
    if n > 0 {
      OverwrittenLines(rows, after, lines, id, n - 1);
      OverwrittenNext(rows, after, lines, id, n - 1);
    }
  }

  lemma {:induction false} OtherLines(rows: seq<Row>, after: seq<Row>, lines: seq<Line>, id: string, n: nat, other: string)
    requires Overwrites(rows, after, lines, id) && n <= |rows| && other != id
    ensures LinesOf(after[..n], other) == LinesOf(rows[..n], other)
  {
    if n > 0 {
      OtherLines(rows, after, lines, id, n - 1, other);
      LinesStep(rows, n - 1, other);
      LinesStep(after, n - 1, other);
    }
  }

  lemma SavedRow(rows: seq<Row>, lines: seq<Line>, id: string, p: nat)
    requires DistinctRows(rows) && p < |rows| && SameLines(lines, LinesOf(rows, id))
    ensures |UpdateLines(rows, lines)| == |rows|
    ensures rows[p].task != id ==> UpdateLines(rows, lines)[p] == rows[p]
    ensures rows[p].task == id ==>
              var k := |LinesOf(rows[..p], id)|; k < |lines| && UpdateLines(rows, lines)[p] == Row(id, lines[k])
  {
    LoadedLinesAreDistinct(rows, id);
    UpdateLinesAt(rows, lines, p);
    if rows[p].task == id {
      LoadedLineAt(rows, p, id);
    } else {
      LoadedLinesAreRows(rows, id);
      assert forall l <- LinesOf(rows, id) :: l.id != rows[p].line.id;
      assert forall k :: 0 <= k < |lines| ==> LinesOf(rows, id)[k] in LinesOf(rows, id) && lines[k].id == LinesOf(rows, id)[k].id;
    }
  }

  lemma SaveOverwrites(rows: seq<Row>, lines: seq<Line>, id: string)
    requires DistinctRows(rows) && SameLines(lines, LinesOf(rows, id))
    ensures Overwrites(rows, UpdateLines(rows, lines), lines, id)
  {
    UpdateLinesLength(rows, lines);
    forall p | 0 <= p < |rows|
      ensures if rows[p].task != id then UpdateLines(rows, lines)[p] == rows[p]
              else |LinesOf(rows[..p], id)| < |lines| && UpdateLines(rows, lines)[p] == Row(id, lines[|LinesOf(rows[..p], id)|])
    {
      SavedRow(rows, lines, id, p);
    }
  }

  lemma {:induction false} WholeLines(rows: seq<Row>, after: seq<Row>, lines: seq<Line>, id: string)
    requires Overwrites(rows, after, lines, id) && |lines| == |LinesOf(rows, id)|
    ensures LinesOf(after, id) == lines
  {
    OverwrittenLines(rows, after, lines, id, |rows|);
    assert after[..|rows|] == after && rows[..|rows|] == rows;
  }

  lemma {:induction false} WholeOthers(rows: seq<Row>, after: seq<Row>, lines: seq<Line>, id: string, other: string)
    requires Overwrites(rows, after, lines, id) && other != id
    ensures LinesOf(after, other) == LinesOf(rows, other)
  {
    OtherLines(rows, after, lines, id, |rows|, other);
    assert after[..|rows|] == after && rows[..|rows|] == rows;
  }

  /** Round trip: a loaded task saved with new quantities loads as it was saved, and no other task changes. */
  lemma SaveThenLoad(db: Tables, t: Task, other: string)
    requires Valid(db) && t.id in db.headers && SameLines(t.lines, LinesOf(db.rows, t.id))
    ensures Load(Save(db, t), t.id) == t
    ensures other in db.headers && other != t.id ==> Load(Save(db, t), other) == Load(db, other)
  {
    SaveOverwrites(db.rows, t.lines, t.id);
    WholeLines(db.rows, UpdateLines(db.rows, t.lines), t.lines, t.id);
    if other != t.id {
      WholeOthers(db.rows, UpdateLines(db.rows, t.lines), t.lines, t.id, other);
    }
  }

  lemma SaveKeepsValid(db: Tables, t: Task)
    requires Valid(db) && t.id in db.headers && SameLines(t.lines, LinesOf(db.rows, t.id))
    ensures Valid(Save(db, t))
  {
    UpdateLinesLength(db.rows, t.lines);
    var after := UpdateLines(db.rows, t.lines);
    forall p | 0 <= p < |db.rows|
      ensures after[p].task == db.rows[p].task && after[p].line.id == db.rows[p].line.id
    {
      LoadedLinesAreDistinct(db.rows, t.id);
      UpdateLinesAt(db.rows, t.lines, p);
    }
  }

  // ---- One command ------------------------------------------------------------------------------

  lemma TransitionFacts(t: Task, a: Action, operator: string, base: int)
    requires Transition(t, a, operator, base).Ok?
    ensures var t' := Transition(t, a, operator, base).value;
            && t'.id == t.id && SameLines(t'.lines, t.lines) && t'.header.version == t.header.version + 1
            && t'.header.warehouse == t.header.warehouse && t'.header.overReceipt == t.header.overReceipt
            && (!a.Confirm? ==> t'.lines == t.lines)
            && (t.header.status == Completed ==> a.Complete?)
            && (t'.header.status == Completed <==> a.Complete?)
            && (a.Complete? ==> Full(t'.lines))
  {
  }

  lemma CommitTables(db: Tables, c: Command)
    requires Commits(db, c)
    ensures c.task in db.headers && Transition(Load(db, c.task), c.action, c.actor.operator, c.base).Ok?
    ensures Mutate(db, c).0 == Stored(db, c, Transition(Load(db, c.task), c.action, c.actor.operator, c.base).value)
  {
  }

  /** A commit replaces the loaded task by its successor, and nothing else in the two task tables. */
  lemma CommitFacts(db: Tables, c: Command)
    requires Valid(db) && Commits(db, c)
    ensures c.task in db.headers && Transition(Load(db, c.task), c.action, c.actor.operator, c.base).Ok?
    ensures var next := Mutate(db, c).0; var t := Transition(Load(db, c.task), c.action, c.actor.operator, c.base).value;
            && Valid(next) && next.headers.Keys == db.headers.Keys
            && t.id == c.task && next.headers == db.headers[t.id := t.header] && next.rows == UpdateLines(db.rows, t.lines)
            && Load(next, c.task) == t
            && forall id <- db.headers :: id != c.task ==> Load(next, id) == Load(db, id)
  {
    CommitTables(db, c);
    var t0 := Load(db, c.task);
    TransitionFacts(t0, c.action, c.actor.operator, c.base);
    var t := Transition(t0, c.action, c.actor.operator, c.base).value;
    SaveKeepsValid(db, t);
    forall id | id in db.headers
      ensures Load(Save(db, t), t.id) == t && (id != t.id ==> Load(Save(db, t), id) == Load(db, id))
    {
      SaveThenLoad(db, t, id);
    }
  }

  lemma OtherwiseUnchanged(db: Tables, c: Command)
    requires !Commits(db, c)
    ensures var next := Mutate(db, c).0;
            next.headers == db.headers && next.rows == db.rows && next.balances == db.balances
            && next.outbox == db.outbox && next.commands == db.commands
  {
  }

  lemma {:induction false} RunKeepsValid(db: Tables, commands: seq<Command>)
    requires Valid(db)
    ensures Valid(Run(db, commands)) && Run(db, commands).headers.Keys == db.headers.Keys
  {
    if commands != [] {
      var before, last := Run(db, commands[..|commands| - 1]), commands[|commands| - 1];
      RunKeepsValid(db, commands[..|commands| - 1]);
      if Commits(before, last) {
        CommitFacts(before, last);
      }
    }
  }

  // ---- Conservation -----------------------------------------------------------------------------

  predicate Counts(r: Row, headers: map<string, Header>, s: Stocked) {
    r.task in headers && headers[r.task].warehouse == s.warehouse && r.line.item == s.item
  }

  /** All that was received of an item, over all lines of the warehouse's tasks. */
  function Received(rows: seq<Row>, headers: map<string, Header>, s: Stocked): int {
    if rows == [] then 0
    else
      var last := rows[|rows| - 1];
      Received(rows[..|rows| - 1], headers, s) + if Counts(last, headers, s) then last.line.received else 0
  }

  lemma {:induction false} ReceivedUpdate(rows: seq<Row>, headers: map<string, Header>, s: Stocked, p: nat, r: Row)
    requires p < |rows| && r == rows[p].(line := rows[p].line.(received := r.line.received))
    ensures Received(rows[p := r], headers, s)
         == Received(rows, headers, s) + if Counts(r, headers, s) then r.line.received - rows[p].line.received else 0
  {
    var init := rows[..|rows| - 1];
    if p < |rows| - 1 {
      ReceivedUpdate(init, headers, s, p, r);
      assert rows[p := r][..|rows| - 1] == init[p := r];
    } else {
      assert rows[p := r][..|rows| - 1] == init;
    }
  }

  lemma {:induction false} ReceivedFrame(rows: seq<Row>, headers: map<string, Header>, id: string, h: Header, s: Stocked)
    requires id in headers && h.warehouse == headers[id].warehouse
    ensures Received(rows, headers[id := h], s) == Received(rows, headers, s)
  {
    if rows != [] {
      ReceivedFrame(rows[..|rows| - 1], headers, id, h, s);
    }
  }

  /** A row of the table is the line of a loaded task, or it is a line of another id than all of them. */
  lemma {:induction false} LoadedRow(rows: seq<Row>, id: string, k: nat) returns (p: nat)
    requires k < |LinesOf(rows, id)|
    ensures p < |rows| && rows[p] == Row(id, LinesOf(rows, id)[k])
  {
    LoadedLinesAreRows(rows, id);
    assert LinesOf(rows, id)[k] in LinesOf(rows, id);
    p :| 0 <= p < |rows| && rows[p] == Row(id, LinesOf(rows, id)[k]);
  }

  lemma {:induction false} ConfirmedRowAt(rows: seq<Row>, id: string, k: nat, l: Line, p: nat, q: nat)
    requires DistinctRows(rows) && k < |LinesOf(rows, id)| && l == LinesOf(rows, id)[k].(received := l.received)
    requires p < |rows| && rows[p] == Row(id, LinesOf(rows, id)[k]) && q < |rows|
    ensures |UpdateLines(rows, LinesOf(rows, id)[k := l])| == |rows|
    ensures UpdateLines(rows, LinesOf(rows, id)[k := l])[q] == if q == p then Row(id, l) else rows[q]
  {
    var lines := LinesOf(rows, id)[k := l];
    LoadedLinesAreDistinct(rows, id);
    UpdateLinesAt(rows, lines, q);
    var j := IndexOf(lines, rows[q].line.id);
    if j < |lines| {
      var r := LoadedRow(rows, id, j);
      assert r == q;
    } else {
      assert lines[k].id != rows[q].line.id;
    }
  }

  /** Confirming line k of a task changes exactly one row. */
  lemma {:induction false} ConfirmChangesOneRow(rows: seq<Row>, id: string, k: nat, l: Line) returns (p: nat)
    requires DistinctRows(rows) && k < |LinesOf(rows, id)|
    requires l == LinesOf(rows, id)[k].(received := l.received)
    ensures p < |rows| && rows[p] == Row(id, LinesOf(rows, id)[k])
    ensures UpdateLines(rows, LinesOf(rows, id)[k := l]) == rows[p := Row(id, l)]
  {
    p := LoadedRow(rows, id, k);
    var after := UpdateLines(rows, LinesOf(rows, id)[k := l]);
    UpdateLinesLength(rows, LinesOf(rows, id)[k := l]);
    forall q | 0 <= q < |rows|
      ensures after[q] == rows[p := Row(id, l)][q]
    {
      ConfirmedRowAt(rows, id, k, l, p, q);
    }
  }

  lemma SavingLoadedLinesIsNoChange(rows: seq<Row>, id: string)
    requires DistinctRows(rows)
    ensures UpdateLines(rows, LinesOf(rows, id)) == rows
  {
    if LinesOf(rows, id) != [] {
      var p := ConfirmChangesOneRow(rows, id, 0, LinesOf(rows, id)[0]);
      assert LinesOf(rows, id)[0 := LinesOf(rows, id)[0]] == LinesOf(rows, id);
    }
  }

  /** A confirmation adds its quantity to the one line it names. */
  lemma ConfirmedLine(t: Task, a: Action, operator: string, base: int) returns (k: nat, l: Line)
    requires a.Confirm? && Transition(t, a, operator, base).Ok? && Distinct(t.lines)
    ensures k < |t.lines| && l == t.lines[k].(received := t.lines[k].received + a.quantity)
    ensures var t' := Transition(t, a, operator, base).value;
            t'.lines == t.lines[k := l] && IndexOf(t'.lines, a.line) == k && t'.header.warehouse == t.header.warehouse
  {
    var t' := Transition(t, a, operator, base).value;
    k := IndexOf(t.lines, a.line);
    l := t'.lines[k];
    assert Distinct(t'.lines) && t'.lines[k].id == a.line;
  }

  /** What a committed confirmation does to one row, and to the balance of its item. */
  lemma {:induction false} ConfirmFacts(db: Tables, c: Command) returns (p: nat, l: Line)
    requires Valid(db) && Commits(db, c) && c.action.Confirm?
    ensures p < |db.rows| && c.task in db.headers && db.rows[p].task == c.task
    ensures l == db.rows[p].line.(received := db.rows[p].line.received + c.action.quantity)
    ensures var next := Mutate(db, c).0; var s := Stocked(db.headers[c.task].warehouse, l.item);
            && next.rows == db.rows[p := Row(c.task, l)]
            && next.balances == db.balances[s := Balance(db.balances, s) + c.action.quantity]
  {
    CommitTables(db, c);
    LoadedLinesAreDistinct(db.rows, c.task);
    var k: nat;
    k, l := ConfirmedLine(Load(db, c.task), c.action, c.actor.operator, c.base);
    p := ConfirmChangesOneRow(db.rows, c.task, k, l);
    ConfirmedTables(db, c, k, l);
  }

  /** The line and balance tables after a confirmation of line `k`. */
  lemma {:induction false} ConfirmedTables(db: Tables, c: Command, k: nat, l: Line)
    requires Commits(db, c) && c.action.Confirm? && c.task in db.headers && k < |LinesOf(db.rows, c.task)|
    requires Transition(Load(db, c.task), c.action, c.actor.operator, c.base).Ok?
    requires var t := Transition(Load(db, c.task), c.action, c.actor.operator, c.base).value;
             && t.lines == LinesOf(db.rows, c.task)[k := l] && IndexOf(t.lines, c.action.line) == k
             && t.header.warehouse == db.headers[c.task].warehouse
    ensures var next := Mutate(db, c).0; var s := Stocked(db.headers[c.task].warehouse, l.item);
            && next.rows == UpdateLines(db.rows, LinesOf(db.rows, c.task)[k := l])
            && next.balances == db.balances[s := Balance(db.balances, s) + c.action.quantity]
  {
    CommitTables(db, c);
  }

  lemma ConfirmConserves(db: Tables, c: Command, s: Stocked)
    requires Valid(db) && Commits(db, c) && c.action.Confirm?
    ensures var next := Mutate(db, c).0;
            Balance(next.balances, s) - Received(next.rows, next.headers, s)
            == Balance(db.balances, s) - Received(db.rows, db.headers, s)
  {
    var p, l := ConfirmFacts(db, c);
    var next := Mutate(db, c).0;
    HeadersKeepWarehouses(db, c);
    ReceivedFrame(next.rows, db.headers, c.task, next.headers[c.task], s);
    ReceivedUpdate(db.rows, db.headers, s, p, Row(c.task, l));
  }

  lemma HeadersKeepWarehouses(db: Tables, c: Command)
    requires Valid(db) && Commits(db, c)
    ensures var next := Mutate(db, c).0;
            && c.task in db.headers && c.task in next.headers
            && next.headers == db.headers[c.task := next.headers[c.task]]
            && next.headers[c.task].warehouse == db.headers[c.task].warehouse
  {
    CommitFacts(db, c);
    TransitionFacts(Load(db, c.task), c.action, c.actor.operator, c.base);
  }

  lemma {:induction false} OtherCommandConserves(db: Tables, c: Command, s: Stocked)
    requires Valid(db) && Commits(db, c) && !c.action.Confirm?
    ensures var next := Mutate(db, c).0;
            Balance(next.balances, s) - Received(next.rows, next.headers, s)
            == Balance(db.balances, s) - Received(db.rows, db.headers, s)
  {
    CommitTables(db, c);
    TransitionFacts(Load(db, c.task), c.action, c.actor.operator, c.base);
    SavingLoadedLinesIsNoChange(db.rows, c.task);
    ReceivedFrame(db.rows, db.headers, c.task, Mutate(db, c).0.headers[c.task], s);
  }

  lemma {:induction false} CommandConserves(db: Tables, c: Command, s: Stocked)
    requires Valid(db)
    ensures var next := Mutate(db, c).0;
            Balance(next.balances, s) - Received(next.rows, next.headers, s)
            == Balance(db.balances, s) - Received(db.rows, db.headers, s)
  {
    if !Commits(db, c) {
      OtherwiseUnchanged(db, c);
    } else if c.action.Confirm? {
      ConfirmConserves(db, c, s);
    } else {
      OtherCommandConserves(db, c, s);
    }
  }

  /**
   Receiving conserves: over every run with retries, balance minus what the lines of the warehouse's tasks
   received is constant.
   */
  lemma {:induction false} ReceivingConserves(db: Tables, commands: seq<Command>, s: Stocked)
    requires Valid(db)
    ensures var end := Run(db, commands);
            Balance(end.balances, s) - Received(end.rows, end.headers, s)
            == Balance(db.balances, s) - Received(db.rows, db.headers, s)
  {
    if commands != [] {
      var before := commands[..|commands| - 1];
      ReceivingConserves(db, before, s);
      RunKeepsValid(db, before);
      CommandConserves(Run(db, before), commands[|commands| - 1], s);
    }
  }

  // ---- Effects of confirmations ---------------------------------------------------------------

  /** What the committed confirmations of a run brought to one line. */
  function ConfirmedFor(db: Tables, commands: seq<Command>, id: string, line: string): int {
    if commands == [] then 0
    else
      var before, last := commands[..|commands| - 1], commands[|commands| - 1];
      ConfirmedFor(db, before, id, line)
      + if last.task == id && last.action.Confirm? && last.action.line == line && Commits(Run(db, before), last)
        then last.action.quantity else 0
  }

  lemma TransitionLine(t: Task, a: Action, operator: string, base: int, k: nat)
    requires Transition(t, a, operator, base).Ok? && Distinct(t.lines) && k < |t.lines|
    ensures var t' := Transition(t, a, operator, base).value;
            |t'.lines| == |t.lines|
            && t'.lines[k] == t.lines[k].(received :=
                 t.lines[k].received + if a.Confirm? && a.line == t.lines[k].id then a.quantity else 0)
  {
    if a.Confirm? && a.line == t.lines[k].id {
      assert IndexOf(t.lines, a.line) == k;
    }
  }

  /**
   A confirmation goes through exactly for a line of the task with that barcode, within its remaining quantity
   or under over-receipt, with a remark where a variance needs one.
   */
  lemma ConfirmSucceedsExactly(t: Task, a: Action, operator: string, base: int)
    requires a.Confirm? && Distinct(t.lines)
    ensures Transition(t, a, operator, base).Ok? <==>
              && t.header.version == base && t.header.status != Completed && t.header.operator == Some(operator)
              && exists l <- t.lines :: l.id == a.line && Receivable(t.header, l, a)
  {
    var k := IndexOf(t.lines, a.line);
    if k < |t.lines| {
      assert t.lines[k] in t.lines;
      assert forall l <- t.lines :: l.id == a.line ==> l == t.lines[k];
    }
  }

  predicate Receivable(h: Header, l: Line, a: Action)
    requires a.Confirm?
  {
    var remaining := l.expected - l.received;
    && l.barcode == a.barcode && 0 < a.quantity && (a.quantity <= remaining || h.overReceipt)
    && (a.quantity == remaining || !h.remarkOnVariance || (a.remark.Some? && !Blank(a.remark.value)))
  }

  /** Each line received exactly the quantities of its committed confirmations, each key counted once. */
  lemma {:induction false} ReceivedIsConfirmed(db: Tables, commands: seq<Command>, id: string, k: nat)
    requires Valid(db) && id in db.headers && k < |Load(db, id).lines|
    ensures id in Run(db, commands).headers && |Load(Run(db, commands), id).lines| == |Load(db, id).lines|
    ensures var l := Load(db, id).lines[k];
            Load(Run(db, commands), id).lines[k] == l.(received := l.received + ConfirmedFor(db, commands, id, l.id))
  {
    if commands != [] {
      var before, last := commands[..|commands| - 1], commands[|commands| - 1];
      ReceivedIsConfirmed(db, before, id, k);
      RunKeepsValid(db, before);
      LoadAfter(Run(db, before), last, id);
      LoadedLinesAreDistinct(Run(db, before).rows, id);
      if Commits(Run(db, before), last) && last.task == id {
        TransitionLine(Load(Run(db, before), id), last.action, last.actor.operator, last.base, k);
      }
    }
  }

  // ---- Completion ---------------------------------------------------------------------------------

  lemma LoadAfter(db: Tables, c: Command, id: string)
    requires Valid(db) && id in db.headers
    ensures id in Mutate(db, c).0.headers
    ensures if Commits(db, c) && c.task == id
            then Transition(Load(db, id), c.action, c.actor.operator, c.base) == Ok(Load(Mutate(db, c).0, id))
            else Load(Mutate(db, c).0, id) == Load(db, id)
  {
    if Commits(db, c) {
      CommitFacts(db, c);
    } else {
      OtherwiseUnchanged(db, c);
    }
  }

  /** Completed is absorbing: whatever runs next, the task stays completed and its lines keep their quantities. */
  lemma {:induction false} CompletedIsFinal(db: Tables, commands: seq<Command>, id: string)
    requires Valid(db) && id in db.headers && db.headers[id].status == Completed
    ensures id in Run(db, commands).headers && Run(db, commands).headers[id].status == Completed
    ensures Load(Run(db, commands), id).lines == Load(db, id).lines
  {
    if commands != [] {
      var before, last := commands[..|commands| - 1], commands[|commands| - 1];
      CompletedIsFinal(db, before, id);
      RunKeepsValid(db, before);
      LoadAfter(Run(db, before), last, id);
      if Commits(Run(db, before), last) && last.task == id {
        TransitionFacts(Load(Run(db, before), id), last.action, last.actor.operator, last.base);
      }
    }
  }

  /** What a completed task still accepts: another Complete of its operator at its version, if every line is full. */
  lemma CompletedAcceptsOnlyComplete(t: Task, a: Action, operator: string, base: int)
    requires t.header.status == Completed
    ensures Transition(t, a, operator, base).Ok? <==>
              a.Complete? && t.header.version == base && t.header.operator == Some(operator) && Full(t.lines)
  {
  }

  /** Without over-receipt no line holds more than expected, and a completed task holds exactly what was expected. */
  ghost predicate WithinExpected(t: Task) {
    && (forall l <- t.lines :: l.received <= l.expected)
    && (t.header.status == Completed ==> Full(t.lines))
  }

  lemma TransitionKeepsWithin(t: Task, a: Action, operator: string, base: int)
    requires WithinExpected(t) && !t.header.overReceipt && Transition(t, a, operator, base).Ok?
    ensures WithinExpected(Transition(t, a, operator, base).value)
  {
  }

  lemma {:induction false} RunKeepsWithin(db: Tables, commands: seq<Command>, id: string)
    requires Valid(db) && id in db.headers && !db.headers[id].overReceipt && WithinExpected(Load(db, id))
    ensures id in Run(db, commands).headers && !Run(db, commands).headers[id].overReceipt
    ensures WithinExpected(Load(Run(db, commands), id))
  {
    if commands != [] {
      var before, last := commands[..|commands| - 1], commands[|commands| - 1];
      RunKeepsWithin(db, before, id);
      RunKeepsValid(db, before);
      LoadAfter(Run(db, before), last, id);
      if Commits(Run(db, before), last) && last.task == id {
        var t := Load(Run(db, before), id);
        TransitionFacts(t, last.action, last.actor.operator, last.base);
        TransitionKeepsWithin(t, last.action, last.actor.operator, last.base);
      }
    }
  }

  /**
   With over-receipt off, from a start within the expected quantities, a completed task received every line
   exactly as expected.
   */
  lemma CompletedExactly(db: Tables, commands: seq<Command>, id: string)
    requires Valid(db) && id in db.headers && !db.headers[id].overReceipt
    requires db.headers[id].status != Completed && forall l <- Load(db, id).lines :: l.received <= l.expected
    ensures id in Run(db, commands).headers
    ensures forall l <- Load(Run(db, commands), id).lines :: l.received <= l.expected
    ensures Run(db, commands).headers[id].status == Completed ==>
              forall l <- Load(Run(db, commands), id).lines :: l.received == l.expected
  {
    RunKeepsWithin(db, commands, id);
  }

  // ---- Retries --------------------------------------------------------------------------------------

  /** The run without the commands whose key was already committed when they came. */
  function WithoutRepeats(db: Tables, commands: seq<Command>): seq<Command> {
    if commands == [] then []
    else
      var before, last := commands[..|commands| - 1], commands[|commands| - 1];
      WithoutRepeats(db, before) + if last.key in Run(db, before).commands then [] else [last]
  }

  /** Retry equivalence: dropping every repeat of a committed key changes nothing in any table. */
  lemma {:induction false} RetriesChangeNothing(db: Tables, commands: seq<Command>)
    ensures Run(db, WithoutRepeats(db, commands)) == Run(db, commands)
  {
    if commands != [] {
      var before, last := commands[..|commands| - 1], commands[|commands| - 1];
      RetriesChangeNothing(db, before);
      var kept := WithoutRepeats(db, before);
      if last.key in Run(db, before).commands {
        assert kept + [] == kept;
      } else {
        assert (kept + [last])[..|kept|] == kept;
      }
    }
  }

  lemma {:induction false} RunRemembers(db: Tables, commands: seq<Command>, key: string)
    requires key in db.commands
    ensures key in Run(db, commands).commands && Run(db, commands).commands[key] == db.commands[key]
  {
    if commands != [] {
      RunRemembers(db, commands[..|commands| - 1], key);
    }
  }

  /** A repeated key gets the first answer again whatever ran in between, also when another operator or task asks. */
  lemma {:induction false} RetryAnswersTheSame(db: Tables, c: Command, between: seq<Command>, retry: Command)
    requires Commits(db, c) && retry.key == c.key
    ensures var now := Run(Mutate(db, c).0, between);
            Mutate(now, retry) == (now, Mutate(db, c).1)
  {
    CommitTables(db, c);
    RunRemembers(Mutate(db, c).0, between, c.key);
  }

  /** Every commit writes one outbox row and one command row, and every call that is not a repeat one audit row. */
  lemma {:induction false} RowsGrowTogether(db: Tables, commands: seq<Command>)
    ensures var end := Run(db, commands);
            && |end.outbox| - |db.outbox| == |end.commands| - |db.commands|
            && |end.audit| - |db.audit| == |WithoutRepeats(db, commands)|
  {
    if commands != [] {
      RowsGrowTogether(db, commands[..|commands| - 1]);
    }
  }
}
