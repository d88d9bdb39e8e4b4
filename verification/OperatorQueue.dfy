/**
 The operator queue (table warehouse_task) and the endpoints by which operators take a task
 from it and give it back (internal/execution/domain/task.go and
 internal/execution/application/task_service.go). Ingestion, movement commands and cycle
 counts write the same rows.
 */
module QueueRows {
  import opened Results

  /** A row of warehouse_task. */
  datatype Queued = Queued(
    category: string, status: string, priority: int, warehouse: string, operator: Option<string>, version: int)

  /** UPDATE warehouse_task SET status, operator_id, version WHERE task_id = ...; no row is no error. */
  function Updated(queue: map<string, Queued>, id: string, status: string, operator: Option<string>, version: int)
    : map<string, Queued>
  {
    if id in queue then queue[id := queue[id].(status := status, operator := operator, version := version)] else queue
  }
}

module OperatorQueue {
  import opened Envelopes
  import opened QueueRows
  import opened Results

  datatype Action = Claim | Release

  datatype Command = Command(id: string, key: string, task: string, base: int, actor: Actor, action: Action)

  datatype Error = TaskNotFound | WarehouseDenied | VersionConflict | TaskLocked | TaskNotAssigned | EnvelopeInvalid

  /** A row of command_idempotency: the task as first returned. */
  datatype Answer = Answer(task: string, row: Queued)

  datatype Book = Book(queue: map<string, Queued>, answers: map<string, Answer>, outbox: seq<Event>)

  function Claimed(row: Queued, operator: string, base: int): Result<Queued, Error> {
    if row.version != base then Err(VersionConflict)
    else if row.operator.Some? && row.operator.value != operator then Err(TaskLocked)
    else if row.operator.Some? && row.status == "ASSIGNED" then Ok(row)
    else Ok(row.(operator := Some(operator), status := "ASSIGNED", version := row.version + 1))
  }

  function Released(row: Queued, operator: string, base: int): Result<Queued, Error> {
    if row.version != base then Err(VersionConflict)
    else if row.operator != Some(operator) then Err(TaskNotAssigned)
    else Ok(row.(operator := None, status := "NEW", version := row.version + 1))
  }

  function Transition(row: Queued, a: Action, operator: string, base: int): Result<Queued, Error> {
    match a
    case Claim => Claimed(row, operator, base)
    case Release => Released(row, operator, base)
  }

  function EventType(a: Action): string {
    if a.Claim? then "TaskAssigned" else "TaskReleased"
  }

  function Remembered(b: Book, c: Command, row: Queued): Book {
    b.(answers := b.answers[c.key := Answer(c.task, row)])
  }

  /** The transaction of a key that has no answer yet. A claim that changes nothing writes its answer only. */
  function Executed(b: Book, c: Command): Result<(Book, Answer), Error> {
    if c.task !in b.queue then Err(TaskNotFound)
    else if b.queue[c.task].warehouse != c.actor.warehouse then Err(WarehouseDenied)
    else
      var row :- Transition(b.queue[c.task], c.action, c.actor.operator, c.base);
      if row.version == b.queue[c.task].version then Ok((Remembered(b, c, row), Answer(c.task, row)))
      else if !EnvelopeValid(c.id, c.task, row.version, c.actor) then Err(EnvelopeInvalid)
      else
        Ok((Remembered(b.(queue := Updated(b.queue, c.task, row.status, row.operator, row.version),
                          outbox := b.outbox + [Event(EventType(c.action), c.task, row.version, c.id, c.actor)]), c, row),
            Answer(c.task, row)))
  }

  /** `mutate`: a known key gets its answer, whoever asks and for whatever task. */
  function Mutate(b: Book, c: Command): (Book, Result<Answer, Error>) {
    if c.key in b.answers then (b, Ok(b.answers[c.key]))
    else
      match Executed(b, c)
      case Ok((next, answer)) => (next, Ok(answer))
      case Err(e) => (b, Err(e))
  }

  /** The command changes the row of its task: it is fresh, it passes, and it raises the version. */
  predicate Takes(b: Book, c: Command) {
    c.key !in b.answers && Executed(b, c).Ok? && Executed(b, c).value.1.row.version != b.queue[c.task].version
  }

  /** What a command does to the row of a task. */
  lemma MutateWrites(b: Book, c: Command, t: string)
    ensures var next := Mutate(b, c).0;
            && next.queue.Keys == b.queue.Keys
            && (!(Takes(b, c) && c.task == t) && t in b.queue ==> next.queue[t] == b.queue[t])
    ensures Takes(b, c) ==>
              var row := b.queue[c.task]; var next := Mutate(b, c).0.queue[c.task];
              next == if c.action.Claim?
                      then row.(status := "ASSIGNED", operator := Some(c.actor.operator), version := row.version + 1)
                      else row.(status := "NEW", operator := None, version := row.version + 1)
  {
  }
}

/** What one claim or release does, in the columns of the queue row. */
module OperatorQueueRules {
  import opened Envelopes
  import opened OperatorQueue
  import opened QueueRows
  import opened Results

  /** A row may be claimed by its operator, or by anyone if it has none, and released by its operator. */
  predicate Accepts(row: Queued, c: Command) {
    && row.version == c.base
    && match c.action
       case Claim => row.operator.None? || row.operator == Some(c.actor.operator)
       case Release => row.operator == Some(c.actor.operator)
  }

  /** A claim of a row that the operator has been assigned. */
  predicate ChangesNothing(row: Queued, c: Command) {
    c.action.Claim? && row.operator == Some(c.actor.operator) && row.status == "ASSIGNED"
  }

  function RowAfter(row: Queued, c: Command): Queued {
    if ChangesNothing(row, c) then row
    else if c.action.Claim? then row.(operator := Some(c.actor.operator), status := "ASSIGNED", version := row.version + 1)
    else row.(operator := None, status := "NEW", version := row.version + 1)
  }

  /** The row is there, in the actor's warehouse. */
  predicate Reaches(b: Book, c: Command) {
    c.task in b.queue && b.queue[c.task].warehouse == c.actor.warehouse
  }

  predicate MayBeSent(b: Book, c: Command)
    requires c.task in b.queue
  {
    ChangesNothing(b.queue[c.task], c) || EnvelopeValid(c.id, c.task, b.queue[c.task].version + 1, c.actor)
  }

  /** A fresh command passes exactly when it reaches a row that accepts it and its event may be sent. */
  lemma {:induction false} PassesExactly(b: Book, c: Command)
    requires c.key !in b.answers
    ensures Mutate(b, c).1.Ok? <==> Reaches(b, c) && Accepts(b.queue[c.task], c) && MayBeSent(b, c)
  {
  }

  /** It answers with the row it leaves, and keeps the answer; a change is one event, and touches no other row. */
  lemma {:induction false} PassedLeaves(b: Book, c: Command)
    requires c.key !in b.answers && Mutate(b, c).1.Ok?
    ensures c.task in b.queue
    ensures var row := RowAfter(b.queue[c.task], c); var (next, answer) := Mutate(b, c);
            && answer == Ok(Answer(c.task, row)) && next.answers == b.answers[c.key := Answer(c.task, row)]
            && next.queue == b.queue[c.task := row]
            && next.outbox == b.outbox
                 + if ChangesNothing(b.queue[c.task], c) then []
                   else [Event(if c.action.Claim? then "TaskAssigned" else "TaskReleased", c.task, row.version, c.id, c.actor)]
  {
    assert b.outbox + [] == b.outbox;
    assert b.queue[c.task := b.queue[c.task]] == b.queue;
  }

  /** Why a fresh command does not pass: the first reason that applies. */
  predicate RefusedFor(b: Book, c: Command, e: Error) {
    if c.task !in b.queue then e == TaskNotFound
    else if b.queue[c.task].warehouse != c.actor.warehouse then e == WarehouseDenied
    else if b.queue[c.task].version != c.base then e == VersionConflict
    else if c.action.Claim? && b.queue[c.task].operator.Some? && b.queue[c.task].operator != Some(c.actor.operator)
    then e == TaskLocked
    else if c.action.Release? && b.queue[c.task].operator != Some(c.actor.operator) then e == TaskNotAssigned
    else !MayBeSent(b, c) && e == EnvelopeInvalid
  }

  /** And it is refused for exactly one reason, without a trace; a known key gets its answer, without one either. */
  lemma {:induction false} RefusedExactly(b: Book, c: Command, e: Error)
    ensures c.key !in b.answers ==> (Mutate(b, c) == (b, Err(e)) <==> RefusedFor(b, c, e))
    ensures c.key in b.answers ==> Mutate(b, c) == (b, Ok(b.answers[c.key]))
  {
  }
}

/** The service over its tables, statement by statement. */
module OperatorQueueService {
  import opened Envelopes
  import opened OperatorQueue
  import opened QueueRows
  import opened Results
  import Spec = OperatorQueue

  class Task {
    const category: string
    const priority: int
    const warehouse: string
    var status: string
    var operator: Option<string>
    var version: int

    function View(): Queued
      reads this
    {
      Queued(category, status, priority, warehouse, operator, version)
    }

    constructor (row: Queued)
      ensures View() == row
    {
      category, priority, warehouse := row.category, row.priority, row.warehouse;
      status, operator, version := row.status, row.operator, row.version;
    }

    method Claim(operatorId: string, base: int) returns (e: Option<Error>)
      modifies this
      ensures match Claimed(old(View()), operatorId, base)
              case Ok(row) => e == None && View() == row
              case Err(x) => e == Some(x) && View() == old(View())
    {
      if version != base {
        return Some(VersionConflict);
      }
      if operator.Some? && operator.value != operatorId {
        return Some(TaskLocked);
      }
      if operator.Some? && operator.value == operatorId && status == "ASSIGNED" {
        return None;
      }
      operator := Some(operatorId);
      status := "ASSIGNED";
      version := version + 1;
      return None;
    }

    method Release(operatorId: string, base: int) returns (e: Option<Error>)
      modifies this
      ensures match Released(old(View()), operatorId, base)
              case Ok(row) => e == None && View() == row
              case Err(x) => e == Some(x) && View() == old(View())
    {
      if version != base {
        return Some(VersionConflict);
      }
      if operator.None? || operator.value != operatorId {
        return Some(TaskNotAssigned);
      }
      operator := None;
      status := "NEW";
      version := version + 1;
      return None;
    }
  }

  class Service {
    var queue: map<string, Queued>
    var answers: map<string, Answer>
    var outbox: seq<Event>

    function View(): Book
      reads this
    {
      Book(queue, answers, outbox)
    }

    constructor (b: Book)
      ensures View() == b
    {
      queue, answers, outbox := b.queue, b.answers, b.outbox;
    }

    /** The update of a task row; a row that is gone is an error. */
    method Save(id: string, row: Queued) returns (e: Option<Error>)
      modifies this`queue
      ensures queue == Updated(old(queue), id, row.status, row.operator, row.version)
      ensures e == if id in old(queue) then None else Some(TaskNotFound)
    {
      if id !in queue {
        return Some(TaskNotFound);
      }
      queue := queue[id := queue[id].(status := row.status, operator := row.operator, version := row.version)];
      return None;
    }

    /** One call of `Claim` or `Release`: replay, load, change, event and answer; an error writes nothing. */
    method Mutate(c: Command) returns (r: Result<Answer, Error>)
      modifies this
      ensures View() == Spec.Mutate(old(View()), c).0 && r == Spec.Mutate(old(View()), c).1
    {
      if c.key in answers {
        return Ok(answers[c.key]);
      }
      if c.task !in queue {
        return Err(TaskNotFound);
      }
      var task := new Task(queue[c.task]);
      if task.warehouse != c.actor.warehouse {
        return Err(WarehouseDenied);
      }
      var original := task.version;
      var e: Option<Error>;
      match c.action {
        case Claim => e := task.Claim(c.actor.operator, c.base);
        case Release => e := task.Release(c.actor.operator, c.base);
      }
      if e.Some? {
        return Err(e.value);
      }
      var answer := Answer(c.task, task.View());
      if task.version != original {
        if !EnvelopeValid(c.id, c.task, task.version, c.actor) {
          return Err(EnvelopeInvalid);
        }
        e := Save(c.task, answer.row);
        outbox := outbox + [Event(EventType(c.action), c.task, task.version, c.id, c.actor)];
      }
      answers := answers[c.key := answer];
      return Ok(answer);
    }
  }
}
