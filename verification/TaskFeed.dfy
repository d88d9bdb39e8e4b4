/**
 Ingestion of WMS task messages (internal/integration/adapters/kafka/wms_task_consumer.go):
 a versioned projection and an operator queue kept under duplicated and reordered delivery.
 `Process` is one transaction of `process`; JSON, uuid and version parsing are oracles
 whose outcome is the `content` of a message.
 */
module TaskFeed {
  import opened QueueRows
  import opened Results
  import opened Text

  const SUPPORTED_CONTRACT := 1
  const DEFAULT_PRIORITY := 5
  const NIL_EVENT := "00000000-0000-0000-0000-000000000000"

  /** The columns the queue and the commands read, and `rest` for the ones that are only copied. */
  datatype Payload = Payload(
    task: string, taskType: string, version: int, status: string, priority: int, warehouse: string, operator: string,
    source: string, destination: string, revision: string, lot: string,
    requested: real, remaining: real, scans: seq<string>, rest: string)

  type Instant = int

  datatype Place = Place(topic: string, partition: int, offset: int)

  datatype Content =
    | Garbage
    | Invalid(eventType: string)
    | Envelope(eventType: string, event: Option<string>, contract: int, occurred: Instant, payload: Option<Payload>)

  /** A record of a topic; `at` is its broker time, or the time of the delivery where it has none. */
  datatype Message = Message(place: Place, content: Content, at: Instant)

  datatype Failure =
    | MalformedEnvelope | InvalidEnvelope | EventIdNotUuid | UnsupportedVersion(contract: int) | MalformedPayload
    | MissingIdentity | UnsupportedType(taskType: string) | UnsupportedStatus(status: string)

  /** A message that passed every check; `status` is its queue status, "" for a withdrawn task. */
  datatype Dispatch = Dispatch(
    event: string, eventType: string, occurred: Instant, category: string, status: string, payload: Payload)

  /** A row of wms_task_projection, without backend_received_at and updated_at; `dispatched` is source_dispatched_at. */
  datatype Projection = Projection(
    event: string, dispatched: Instant, taskType: string, version: int, status: string, priority: int, warehouse: string,
    source: string, destination: string, revision: string, lot: string,
    requested: real, remaining: real, scans: seq<string>, rest: string)

  datatype Stale = Stale(event: string, task: string, incoming: int, projected: int, eventType: string)

  /**
   The dead-letter table is keyed by the event id, or by the topic coordinates of a message without one or with
   the nil one.
   */
  datatype DeadKey = ForEvent(event: string) | ForPlace(place: Place)

  datatype Dead = Dead(place: Place, content: Content, failure: Failure, attempts: int)

  datatype Feed = Feed(
    inbox: set<string>, projections: map<string, Projection>, received: map<string, Instant>,
    queue: map<string, Queued>, stale: seq<Stale>, dead: map<DeadKey, Dead>)

  const EMPTY: Feed := Feed({}, map[], map[], map[], [], map[])

  // ---- Mappings ---------------------------------------------------------------------------

  function TaskCategory(taskType: string): Option<string> {
    var t := ToUpper(taskType);
    if t == "PICKING" || t == "STAGE_TO_PRODUCTION" || t == "ISSUE_TO_PRODUCTION" then Some("PICKING")
    else if t == "PUTAWAY" then Some("PUTAWAY")
    else if t == "RECEIVE_FINISHED_GOODS" || t == "RECEIVE_SEMI_FINISHED" || t == "RETURN_FROM_PRODUCTION"
    then Some("RECEIVING")
    else if t == "REPLENISHMENT" || t == "TRANSFER" then Some("REPLENISHMENT")
    else None
  }

  function QueueStatus(status: string): Option<string> {
    var s := ToUpper(status);
    if s == "CREATED" then Some("NEW")
    else if s == "ASSIGNED" || s == "CLAIMED" then Some("ASSIGNED")
    else if s == "IN_PROGRESS" || s == "PARTIALLY_COMPLETED" then Some("IN_PROGRESS")
    else if s == "COMPLETED" then Some("COMPLETED")
    else if s == "CANCELLED" || s == "FAILED" then Some("")
    else None
  }

  /** The priority that is stored: always one the queue's CHECK (priority BETWEEN 0 AND 100) admits. */
  function PriorityOrDefault(priority: int): (p: int)
    ensures 0 < p <= 100
    ensures p != priority ==> p == DEFAULT_PRIORITY && !(0 < priority <= 100)
  {
    if priority <= 0 || priority > 100 then DEFAULT_PRIORITY else priority
  }

  function Classify(content: Content): Result<Dispatch, Failure> {
    match content
    case Garbage => Err(MalformedEnvelope)
    case Invalid(_) => Err(InvalidEnvelope)
    case Envelope(eventType, event, contract, occurred, payload) =>
      if event.None? then Err(EventIdNotUuid)
      else if contract == 0 || contract > SUPPORTED_CONTRACT then Err(UnsupportedVersion(contract))
      else if payload.None? then Err(MalformedPayload)
      else
        var p := payload.value;
        if p.task == "" || p.warehouse == "" || p.version < 1 then Err(MissingIdentity)
        else if TaskCategory(p.taskType).None? then Err(UnsupportedType(p.taskType))
        else if QueueStatus(p.status).None? then Err(UnsupportedStatus(p.status))
        else Ok(Dispatch(event.value, eventType, occurred, TaskCategory(p.taskType).value, QueueStatus(p.status).value, p))
  }

  function DeadKeyOf(m: Message): DeadKey {
    if m.content.Envelope? && m.content.event.Some? && m.content.event.value != NIL_EVENT
    then ForEvent(m.content.event.value)
    else ForPlace(m.place)
  }

  // ---- Statements ---------------------------------------------------------------------------

  function ProjectionOf(d: Dispatch): Projection {
    var p := d.payload;
    Projection(d.event, d.occurred, ToUpper(p.taskType), p.version, ToUpper(p.status), PriorityOrDefault(p.priority),
               p.warehouse, p.source, p.destination, p.revision, p.lot, p.requested, p.remaining, p.scans, p.rest)
  }

  function OperatorOf(d: Dispatch): Option<string> {
    if d.payload.operator == "" then None else Some(d.payload.operator)
  }

  /** The queue row of a message; `was` is the operator of the row it replaces, kept when the message names none. */
  function QueuedOf(d: Dispatch, was: Option<string>): Queued {
    var p := d.payload;
    Queued(d.category, d.status, PriorityOrDefault(p.priority), p.warehouse,
           if OperatorOf(d).Some? then OperatorOf(d) else was, p.version)
  }

  function Synced(queue: map<string, Queued>, d: Dispatch): map<string, Queued> {
    var t := d.payload.task;
    if d.status == "" then queue - {t}
    else queue[t := QueuedOf(d, if t in queue then queue[t].operator else None)]
  }

  function ProjectedVersion(f: Feed, task: string): int {
    if task in f.projections then f.projections[task].version else 0
  }

  /** The two writes of a fresh message: the projection row and the queue row. */
  function Written(f: Feed, d: Dispatch): Feed {
    f.(projections := f.projections[d.payload.task := ProjectionOf(d)], queue := Synced(f.queue, d))
  }

  /** A message that is known, or no news for its task. */
  predicate Ignored(f: Feed, d: Dispatch) {
    d.event in f.inbox || d.payload.version <= ProjectedVersion(f, d.payload.task)
  }

  /** LEAST(backend_received_at, ...): the time at which a message of the task first came that was projected. */
  function Earliest(received: map<string, Instant>, task: string, at: Instant): map<string, Instant> {
    received[task := if task in received && received[task] < at then received[task] else at]
  }

  function Applied(f: Feed, d: Dispatch): Feed {
    if d.event in f.inbox then f
    else
      var claimed := f.(inbox := f.inbox + {d.event});
      if d.payload.version <= ProjectedVersion(f, d.payload.task)
      then claimed.(stale := f.stale + [Stale(d.event, d.payload.task, d.payload.version,
                                              ProjectedVersion(f, d.payload.task), d.eventType)])
      else Written(claimed, d)
  }

  /** INSERT ... ON CONFLICT DO UPDATE: one more attempt and the last error, over the envelope first stored. */
  function Buried(dead: map<DeadKey, Dead>, m: Message, failure: Failure): map<DeadKey, Dead> {
    var k := DeadKeyOf(m);
    dead[k := if k in dead then dead[k].(failure := failure, attempts := dead[k].attempts + 1)
              else Dead(m.place, m.content, failure, 1)]
  }

  function Process(f: Feed, m: Message): Feed {
    match Classify(m.content)
    case Ok(d) =>
      if Ignored(f, d) then Applied(f, d)
      else Applied(f, d).(received := Earliest(f.received, d.payload.task, m.at))
    case Err(failure) => f.(dead := Buried(f.dead, m, failure))
  }

  function Ingest(f: Feed, messages: seq<Message>): Feed {
    if messages == [] then f
    else Process(Ingest(f, messages[..|messages| - 1]), messages[|messages| - 1])
  }
}

/** Ingestion converges: the order, duplication and redelivery of messages do not matter. */
module TaskFeedLaws {
  import opened QueueRows
  import opened Results
  import opened Text
  import opened TaskFeed

  /** The messages that pass every check, as a set: how often and in which order they came is forgotten. */
  function Accepted(messages: seq<Message>): set<Dispatch> {
    set m | m in messages && Classify(m.content).Ok? :: Classify(m.content).value
  }

  predicate SameVersion(d: Dispatch, e: Dispatch) {
    d.payload.task == e.payload.task && d.payload.version == e.payload.version
  }

  /** What WMS guarantees: an event id names one message, and so does a task with a version. */
  ghost predicate Consistent(sent: set<Dispatch>) {
    forall d <- sent, e <- sent :: d.event == e.event || SameVersion(d, e) ==> d == e
  }

  /** What the projection and the queue hold about one task. */
  datatype Rows = Rows(projection: Option<Projection>, queued: Option<Queued>)

  function RowsOf(f: Feed, t: string): Rows {
    Rows(if t in f.projections then Some(f.projections[t]) else None, if t in f.queue then Some(f.queue[t]) else None)
  }

  /** The rows show the message `d`: projected as sent, and queued unless it withdraws the task. */
  ghost predicate Shows(rows: Rows, d: Dispatch) {
    && rows.projection == Some(ProjectionOf(d))
    && (rows.queued.None? <==> d.status == "")
    && (rows.queued.Some? ==> rows.queued.value == QueuedOf(d, rows.queued.value.operator))
  }

  ghost predicate Explained(rows: Rows, t: string, sent: set<Dispatch>) {
    if rows.projection.None? then rows.queued.None?
    else exists d <- sent :: d.payload.task == t && Shows(rows, d)
  }

  /** The feed is what the messages, as a set, say it is. */
  ghost predicate Reflects(f: Feed, sent: set<Dispatch>) {
    && f.inbox == (set d <- sent :: d.event)
    && (forall d <- sent :: 1 <= d.payload.version <= ProjectedVersion(f, d.payload.task))
    && (forall t :: Explained(RowsOf(f, t), t, sent))
  }

  lemma AcceptedAppend(messages: seq<Message>, m: Message)
    ensures Accepted(messages + [m])
         == Accepted(messages) + if Classify(m.content).Ok? then {Classify(m.content).value} else {}
  {
    forall d
      ensures d in Accepted(messages + [m]) <==>
                d in Accepted(messages) + if Classify(m.content).Ok? then {Classify(m.content).value} else {}
    {
      if d in Accepted(messages) {
        var n :| n in messages && Classify(n.content).Ok? && Classify(n.content).value == d;
        assert n in messages + [m];
      }
      assert m in messages + [m];
    }
  }

  /** A message changes the rows of its own task only, and only when it is new in both senses. */
  lemma AppliedRows(f: Feed, d: Dispatch, t: string)
    ensures Ignored(f, d) || t != d.payload.task ==> RowsOf(Applied(f, d), t) == RowsOf(f, t)
    ensures !Ignored(f, d) && t == d.payload.task ==> Shows(RowsOf(Applied(f, d), t), d)
    ensures ProjectedVersion(f, t) <= ProjectedVersion(Applied(f, d), t)
  {
  }

  lemma StaysExplained(rows: Rows, t: string, sent: set<Dispatch>, d: Dispatch)
    requires Explained(rows, t, sent)
    ensures Explained(rows, t, sent + {d})
  {
    if rows.projection.Some? {
      var e :| e in sent && e.payload.task == t && Shows(rows, e);
      assert e in sent + {d};
    }
  }

  lemma {:induction false} AppliedExplains(f: Feed, sent: set<Dispatch>, d: Dispatch, t: string)
    requires Explained(RowsOf(f, t), t, sent)
    ensures Explained(RowsOf(Applied(f, d), t), t, sent + {d})
  {
    AppliedRows(f, d, t);
    if Ignored(f, d) || t != d.payload.task {
      StaysExplained(RowsOf(f, t), t, sent, d);
    } else {
      assert d in sent + {d};
    }
  }

  lemma {:induction false} AppliedCounts(f: Feed, sent: set<Dispatch>, d: Dispatch)
    requires Reflects(f, sent) && 1 <= d.payload.version
    requires forall e <- sent :: d.event == e.event ==> d == e
    ensures Applied(f, d).inbox == (set e <- sent + {d} :: e.event)
    ensures forall e <- sent + {d} :: 1 <= e.payload.version <= ProjectedVersion(Applied(f, d), e.payload.task)
  {
    forall e | e in sent + {d}
      ensures 1 <= e.payload.version <= ProjectedVersion(Applied(f, d), e.payload.task)
    {
      AppliedRows(f, d, e.payload.task);
    }
  }

  lemma {:induction false} AppliedReflects(f: Feed, sent: set<Dispatch>, d: Dispatch)
    requires Reflects(f, sent) && 1 <= d.payload.version
    requires forall e <- sent :: d.event == e.event ==> d == e
    ensures Reflects(Applied(f, d), sent + {d})
  {
    AppliedCounts(f, sent, d);
    forall t
      ensures Explained(RowsOf(Applied(f, d), t), t, sent + {d})
    {
      AppliedExplains(f, sent, d, t);
    }
  }

  lemma {:induction false} ReceivedIsApart(f: Feed, received: map<string, Instant>, sent: set<Dispatch>)
    requires Reflects(f, sent)
    ensures Reflects(f.(received := received), sent)
  {
    forall t
      ensures Explained(RowsOf(f.(received := received), t), t, sent)
    {
      assert RowsOf(f.(received := received), t) == RowsOf(f, t);
    }
  }

  lemma ProcessReflects(f: Feed, m: Message, sent: set<Dispatch>)
    requires Reflects(f, sent)
    requires forall e <- sent :: Classify(m.content).Ok? && Classify(m.content).value.event == e.event ==> Classify(m.content).value == e
    ensures Reflects(Process(f, m), sent + if Classify(m.content).Ok? then {Classify(m.content).value} else {})
  {
    match Classify(m.content)
    case Ok(d) =>
      AppliedReflects(f, sent, d);
      assert Process(f, m) == Applied(f, d).(received := Process(f, m).received);
      ReceivedIsApart(Applied(f, d), Process(f, m).received, sent + {d});
    case Err(_) =>
      assert sent + {} == sent;
      assert forall t :: RowsOf(Process(f, m), t) == RowsOf(f, t);
  }

  lemma NothingReflects()
    ensures Reflects(Ingest(EMPTY, []), Accepted([]))
  {
  }

  lemma ConsistentBefore(sent: set<Dispatch>, more: set<Dispatch>)
    requires Consistent(sent + more)
    ensures Consistent(sent)
    ensures forall e <- sent, d <- more :: d.event == e.event ==> d == e
  {
  }

  lemma {:induction false} IngestReflects(messages: seq<Message>)
    requires Consistent(Accepted(messages))
    ensures Reflects(Ingest(EMPTY, messages), Accepted(messages))
  {
    if messages == [] {
      NothingReflects();
    } else {
      var before, m := messages[..|messages| - 1], messages[|messages| - 1];
      var added := if Classify(m.content).Ok? then {Classify(m.content).value} else {};
      assert messages == before + [m];
      AcceptedAppend(before, m);
      ConsistentBefore(Accepted(before), added);
      IngestReflects(before);
      ProcessReflects(Ingest(EMPTY, before), m, Accepted(before));
    }
  }

  /**
   What ingestion leaves: the newest message of a task is the one projected, and the task is queued iff that
   message does not withdraw it.
   */
  lemma {:induction false} FeedShowsNewest(messages: seq<Message>, d: Dispatch)
    requires Consistent(Accepted(messages)) && d in Accepted(messages)
    requires forall e <- Accepted(messages) :: e.payload.task == d.payload.task ==> e.payload.version <= d.payload.version
    ensures Shows(RowsOf(Ingest(EMPTY, messages), d.payload.task), d)
  {
    IngestReflects(messages);
    var rows := RowsOf(Ingest(EMPTY, messages), d.payload.task);
    var e :| e in Accepted(messages) && e.payload.task == d.payload.task && Shows(rows, e);
    assert SameVersion(d, e);
  }

  /** Two feeds that agree on everything but queue operators, timestamps and the stale and dead-letter logs. */
  ghost predicate Converged(f: Feed, g: Feed) {
    && f.inbox == g.inbox && f.projections == g.projections && f.queue.Keys == g.queue.Keys
    && forall t <- f.queue :: g.queue[t] == f.queue[t].(operator := g.queue[t].operator)
  }

  ghost predicate SameRows(a: Rows, b: Rows) {
    && a.projection == b.projection && (a.queued.None? <==> b.queued.None?)
    && (a.queued.Some? ==> b.queued.value == a.queued.value.(operator := b.queued.value.operator))
  }

  lemma TaskConverges(f: Feed, g: Feed, sent: set<Dispatch>, t: string)
    requires Reflects(f, sent) && Reflects(g, sent) && Consistent(sent)
    ensures SameRows(RowsOf(f, t), RowsOf(g, t))
  {
    var a, b := RowsOf(f, t), RowsOf(g, t);
    assert Explained(a, t, sent) && Explained(b, t, sent);
    if a.projection.Some? {
      var d :| d in sent && d.payload.task == t && Shows(a, d);
      var e :| e in sent && e.payload.task == t && Shows(b, e);
      assert SameVersion(d, e);
    }
  }

  /**
   Convergence: the same set of messages, in any order and with any repetition, leaves the same inbox,
   projection and queue.
   */
  lemma {:induction false} IngestionConverges(a: seq<Message>, b: seq<Message>)
    requires Accepted(a) == Accepted(b) && Consistent(Accepted(a))
    ensures Converged(Ingest(EMPTY, a), Ingest(EMPTY, b))
  {
    var f, g := Ingest(EMPTY, a), Ingest(EMPTY, b);
    IngestReflects(a);
    IngestReflects(b);
    forall t
      ensures SameRows(RowsOf(f, t), RowsOf(g, t))
    {
      TaskConverges(f, g, Accepted(a), t);
    }
    RowsDecide(f, g);
  }

  lemma RowsDecide(f: Feed, g: Feed)
    requires f.inbox == g.inbox && forall t :: SameRows(RowsOf(f, t), RowsOf(g, t))
    ensures Converged(f, g)
  {
    forall t
      ensures t in f.projections <==> t in g.projections
      ensures t in f.queue <==> t in g.queue
      ensures t in f.projections ==> f.projections[t] == g.projections[t]
      ensures t in f.queue ==> g.queue[t] == f.queue[t].(operator := g.queue[t].operator)
    {
      assert SameRows(RowsOf(f, t), RowsOf(g, t));
    }
  }

  // ---- The queue against the projection -------------------------------------------------------

  /** The category of each task type. */
  const CATEGORIES: map<string, string> := map[
    "PICKING" := "PICKING", "STAGE_TO_PRODUCTION" := "PICKING", "ISSUE_TO_PRODUCTION" := "PICKING",
    "PUTAWAY" := "PUTAWAY",
    "RECEIVE_FINISHED_GOODS" := "RECEIVING", "RECEIVE_SEMI_FINISHED" := "RECEIVING", "RETURN_FROM_PRODUCTION" := "RECEIVING",
    "REPLENISHMENT" := "REPLENISHMENT", "TRANSFER" := "REPLENISHMENT"]

  /** The queue status of each status that leaves a task in the queue. */
  const SHOWN: map<string, string> := map[
    "CREATED" := "NEW", "ASSIGNED" := "ASSIGNED", "CLAIMED" := "ASSIGNED",
    "IN_PROGRESS" := "IN_PROGRESS", "PARTIALLY_COMPLETED" := "IN_PROGRESS", "COMPLETED" := "COMPLETED"]

  /** The queue row of a task is the operator's view of its projection row; a withdrawn task has none. */
  ghost predicate Mirrors(rows: Rows) {
    match rows.projection
    case None => rows.queued.None?
    case Some(p) =>
      && (rows.queued.None? <==> p.status == "CANCELLED" || p.status == "FAILED")
      && (rows.queued.Some? ==>
            var q := rows.queued.value;
            && p.status in SHOWN && q.status == SHOWN[p.status]
            && p.taskType in CATEGORIES && q.category == CATEGORIES[p.taskType]
            && q.priority == p.priority && q.warehouse == p.warehouse && q.version == p.version)
  }

  lemma ShownMirrors(content: Content, rows: Rows)
    requires Classify(content).Ok? && Shows(rows, Classify(content).value)
    ensures Mirrors(rows)
  {
  }

  /**
   Deliveries alone, whatever the messages, leave each queue row in agreement with the projection of its task, and
   exactly the withdrawn tasks without one. The table has other writers: with them, SharedQueueLaws says when a row
   agrees.
   */
  lemma {:induction false} QueueMirrorsProjection(messages: seq<Message>, t: string)
    ensures Mirrors(RowsOf(Ingest(EMPTY, messages), t))
  {
    if messages != [] {
      var before, m := Ingest(EMPTY, messages[..|messages| - 1]), messages[|messages| - 1];
      QueueMirrorsProjection(messages[..|messages| - 1], t);
      match Classify(m.content)
      case Ok(d) =>
        AppliedRows(before, d, t);
        if !Ignored(before, d) && t == d.payload.task {
          ShownMirrors(m.content, RowsOf(Applied(before, d), t));
        }
      case Err(_) =>
        assert RowsOf(Process(before, m), t) == RowsOf(before, t);
    }
  }

  // ---- When a task was received -----------------------------------------------------------------

  /** Message `i` was news for the task when it came. */
  predicate NewsAt(messages: seq<Message>, t: string, i: nat) {
    && i < |messages| && Classify(messages[i].content).Ok?
    && var d := Classify(messages[i].content).value;
    d.payload.task == t && !Ignored(Ingest(EMPTY, messages[..i]), d)
  }

  ghost predicate FirstNews(messages: seq<Message>, t: string, at: Instant) {
    && (exists i: nat :: NewsAt(messages, t, i) && messages[i].at == at)
    && (forall i: nat :: NewsAt(messages, t, i) ==> at <= messages[i].at)
  }

  lemma {:induction false} NewsStays(messages: seq<Message>, m: Message, t: string, i: nat)
    ensures i < |messages| ==> (NewsAt(messages + [m], t, i) <==> NewsAt(messages, t, i))
    ensures i < |messages| ==> (messages + [m])[i] == messages[i]
    ensures NewsAt(messages + [m], t, i) ==> i <= |messages|
  {
    if i < |messages| {
      assert (messages + [m])[..i] == messages[..i];
    }
  }

  lemma {:induction false} LastIsNews(messages: seq<Message>, m: Message, t: string)
    ensures NewsAt(messages + [m], t, |messages|) <==>
              && Classify(m.content).Ok? && Classify(m.content).value.payload.task == t
              && !Ignored(Ingest(EMPTY, messages), Classify(m.content).value)
  {
    assert (messages + [m])[..|messages|] == messages;
  }

  lemma {:induction false} NoNewsKeepsFirst(messages: seq<Message>, m: Message, t: string, at: Instant)
    requires !NewsAt(messages + [m], t, |messages|) && FirstNews(messages, t, at)
    ensures FirstNews(messages + [m], t, at)
  {
    var i: nat :| NewsAt(messages, t, i) && messages[i].at == at;
    NewsStays(messages, m, t, i);
    forall j: nat | NewsAt(messages + [m], t, j)
      ensures at <= (messages + [m])[j].at
    {
      NewsStays(messages, m, t, j);
    }
  }

  lemma {:induction false} NewsTakesLeast(messages: seq<Message>, m: Message, t: string, received: map<string, Instant>)
    requires NewsAt(messages + [m], t, |messages|)
    requires t in received ==> FirstNews(messages, t, received[t])
    requires t !in received ==> forall i: nat :: !NewsAt(messages, t, i)
    ensures FirstNews(messages + [m], t, Earliest(received, t, m.at)[t])
  {
    assert (messages + [m])[|messages|] == m;
    if t in received {
      var i: nat :| NewsAt(messages, t, i) && messages[i].at == received[t];
      NewsStays(messages, m, t, i);
    }
    forall j: nat | NewsAt(messages + [m], t, j)
      ensures Earliest(received, t, m.at)[t] <= (messages + [m])[j].at
    {
      NewsStays(messages, m, t, j);
    }
  }

  lemma {:induction false} NoNewsBefore(messages: seq<Message>, m: Message, t: string)
    requires !NewsAt(messages + [m], t, |messages|) && forall i: nat :: !NewsAt(messages, t, i)
    ensures forall i: nat :: !NewsAt(messages + [m], t, i)
  {
    forall i: nat
      ensures !NewsAt(messages + [m], t, i)
    {
      NewsStays(messages, m, t, i);
    }
  }

  lemma {:induction false} ProcessReceives(f: Feed, m: Message, t: string)
    ensures var g := Process(f, m);
            if Classify(m.content).Ok? && Classify(m.content).value.payload.task == t && !Ignored(f, Classify(m.content).value)
            then t in g.received && g.received[t] == Earliest(f.received, t, m.at)[t]
            else (t in g.received <==> t in f.received) && (t in f.received ==> g.received[t] == f.received[t])
  {
  }

  /**
   The time at which the backend received a task is the least of the messages that were news when they came, in
   every order and with any repetition; one that came late, as stale, does not count.
   */
  lemma {:induction false} ReceivedIsEarliest(messages: seq<Message>, t: string)
    ensures var received := Ingest(EMPTY, messages).received;
            && (t in received ==> FirstNews(messages, t, received[t]))
            && (t !in received ==> forall i: nat :: !NewsAt(messages, t, i))
  {
    if messages != [] {
      var before, m := messages[..|messages| - 1], messages[|messages| - 1];
      assert messages == before + [m];
      ReceivedIsEarliest(before, t);
      LastIsNews(before, m, t);
      ProcessReceives(Ingest(EMPTY, before), m, t);
      if NewsAt(before + [m], t, |before|) {
        NewsTakesLeast(before, m, t, Ingest(EMPTY, before).received);
      } else if t in Ingest(EMPTY, before).received {
        NoNewsKeepsFirst(before, m, t, Ingest(EMPTY, before).received[t]);
      } else {
        NoNewsBefore(before, m, t);
      }
    }
  }

  // ---- The operator of a queued task --------------------------------------------------------

  function QueuedOperator(f: Feed, t: string): Option<string> {
    if t in f.queue then f.queue[t].operator else None
  }

  /** The newest message names the operator, or no message that leaves the task queued names any. */
  ghost predicate OperatorIsSettled(sent: set<Dispatch>, d: Dispatch) {
    OperatorOf(d).Some? || forall e <- sent :: e.payload.task == d.payload.task && e.status != "" ==> OperatorOf(e).None?
  }

  ghost predicate OperatorsAreSent(f: Feed, sent: set<Dispatch>) {
    forall t <- f.queue :: f.queue[t].operator.Some? ==>
      exists e <- sent :: e.payload.task == t && e.status != "" && OperatorOf(e) == f.queue[t].operator
  }

  lemma {:induction false} IngestSendsOperators(messages: seq<Message>)
    ensures OperatorsAreSent(Ingest(EMPTY, messages), Accepted(messages))
  {
    if messages != [] {
      var before, m := messages[..|messages| - 1], messages[|messages| - 1];
      assert messages == before + [m];
      IngestSendsOperators(before);
      AcceptedAppend(before, m);
      if Classify(m.content).Ok? {
        AppliedSendsOperators(Ingest(EMPTY, before), Accepted(before), Classify(m.content).value);
      }
    }
  }

  lemma AppliedSendsOperators(f: Feed, sent: set<Dispatch>, d: Dispatch)
    requires OperatorsAreSent(f, sent)
    ensures OperatorsAreSent(Applied(f, d), sent + {d})
  {
    var g := Applied(f, d);
    assert d in sent + {d};
    forall t | t in g.queue && g.queue[t].operator.Some?
      ensures exists e <- sent + {d} :: e.payload.task == t && e.status != "" && OperatorOf(e) == g.queue[t].operator
    {
      if t in f.queue && g.queue[t].operator == f.queue[t].operator {
        var e :| e in sent && e.payload.task == t && e.status != "" && OperatorOf(e) == f.queue[t].operator;
        assert e in sent + {d};
      }
    }
  }

  lemma {:induction false} IngestNext(f: Feed, messages: seq<Message>, m: Message)
    ensures Ingest(f, messages + [m]) == Process(Ingest(f, messages), m)
  {
    assert (messages + [m])[..|messages|] == messages;
  }

  /** A message that is no news for task `t` leaves its rows. */
  lemma {:induction false} ProcessKeepsRows(f: Feed, m: Message, t: string)
    requires Classify(m.content).Ok? ==>
               var d := Classify(m.content).value; d.payload.task == t ==> d.payload.version <= ProjectedVersion(f, t)
    ensures RowsOf(Process(f, m), t) == RowsOf(f, t)
  {
    if Classify(m.content).Ok? {
      AppliedRows(f, Classify(m.content).value, t);
    }
  }

  lemma {:induction false} SameRowsSameVersion(f: Feed, g: Feed, t: string)
    requires RowsOf(f, t) == RowsOf(g, t)
    ensures ProjectedVersion(f, t) == ProjectedVersion(g, t)
  {
  }

  /** Once the newest message of a task is in, its rows stay. */
  lemma {:induction false} RowsStay(f: Feed, first: seq<Message>, rest: seq<Message>, t: string)
    requires forall e <- Accepted(rest) :: e.payload.task == t ==> e.payload.version <= ProjectedVersion(Ingest(f, first), t)
    ensures RowsOf(Ingest(f, first + rest), t) == RowsOf(Ingest(f, first), t)
    decreases |rest|
  {
    if rest == [] {
      assert first + rest == first;
    } else {
      var front, m := rest[..|rest| - 1], rest[|rest| - 1];
      assert rest == front + [m] && first + rest == (first + front) + [m];
      AcceptedAppend(front, m);
      RowsStay(f, first, front, t);
      IngestNext(f, first + front, m);
      SameRowsSameVersion(Ingest(f, first + front), Ingest(f, first), t);
      assert Classify(m.content).Ok? ==> Classify(m.content).value in Accepted(rest);
      ProcessKeepsRows(Ingest(f, first + front), m, t);
    }
  }

  /** Messages that a set already has can be delivered once more, and first. */
  lemma AcceptedAgain(messages: seq<Message>, first: seq<Message>)
    requires forall m <- first :: m in messages
    ensures Accepted(first + messages) == Accepted(messages)
  {
  }

  ghost predicate OneOperator(sent: set<Dispatch>, t: string) {
    forall a, b :: Accepted(a) == sent && Accepted(b) == sent ==>
      QueuedOperator(Ingest(EMPTY, a), t) == QueuedOperator(Ingest(EMPTY, b), t)
  }

  lemma SettledOperator(messages: seq<Message>, d: Dispatch)
    requires Consistent(Accepted(messages)) && d in Accepted(messages) && d.status != ""
    requires forall e <- Accepted(messages) :: e.payload.task == d.payload.task ==> e.payload.version <= d.payload.version
    requires OperatorIsSettled(Accepted(messages), d)
    ensures QueuedOperator(Ingest(EMPTY, messages), d.payload.task) == OperatorOf(d)
  {
    FeedShowsNewest(messages, d);
    IngestSendsOperators(messages);
  }

  lemma AcceptedIsPositive(content: Content)
    ensures Classify(content).Ok? ==> 1 <= Classify(content).value.payload.version
  {
  }

  lemma {:induction false} AppliedApart(f: Feed, received: map<string, Instant>, d: Dispatch)
    ensures Applied(f.(received := received), d) == Applied(f, d).(received := received)
  {
    hide ProjectionOf, QueuedOf;
  }

  lemma {:induction false} IngestOne(m: Message, d: Dispatch)
    requires Classify(m.content) == Ok(d)
    ensures Ingest(EMPTY, [m]) == Applied(EMPTY, d).(received := Ingest(EMPTY, [m]).received)
  {
    IngestNext(EMPTY, [], m);
    assert [] + [m] == [m];
  }

  lemma {:induction false} IngestTwo(mx: Message, x: Dispatch, md: Message, d: Dispatch)
    requires Classify(mx.content) == Ok(x) && Classify(md.content) == Ok(d)
    ensures Ingest(EMPTY, [mx, md]) == Applied(Applied(EMPTY, x), d).(received := Ingest(EMPTY, [mx, md]).received)
  {
    IngestOne(mx, x);
    AppliedApart(Applied(EMPTY, x), Ingest(EMPTY, [mx]).received, d);
    IngestNext(EMPTY, [mx], md);
    assert [mx] + [md] == [mx, md];
  }

  lemma {:induction false} QueuedAlone(d: Dispatch)
    requires d.status != "" && 1 <= d.payload.version
    ensures RowsOf(Applied(EMPTY, d), d.payload.task).queued == Some(QueuedOf(d, None))
    ensures ProjectedVersion(Applied(EMPTY, d), d.payload.task) == d.payload.version
  {
    assert ProjectedVersion(EMPTY, d.payload.task) == 0;
  }

  /** A queue row keeps the operator that an older message named when the newer one names none. */
  lemma {:induction false} QueuedAfter(x: Dispatch, d: Dispatch)
    requires x.status != "" && d.status != "" && x.payload.task == d.payload.task && x.event != d.event
    requires 1 <= x.payload.version < d.payload.version
    ensures RowsOf(Applied(Applied(EMPTY, x), d), d.payload.task).queued == Some(QueuedOf(d, OperatorOf(x)))
    ensures ProjectedVersion(Applied(Applied(EMPTY, x), d), d.payload.task) == d.payload.version
  {
    var f := Applied(EMPTY, x);
    QueuedAlone(x);
    assert f.queue[d.payload.task] == QueuedOf(x, None);
    assert d.event !in f.inbox;
  }

  lemma {:induction false} OlderIsDifferent(sent: set<Dispatch>, d: Dispatch, x: Dispatch)
    requires Consistent(sent) && d in sent && x in sent && x.payload.task == d.payload.task
    requires x.payload.version <= d.payload.version && OperatorOf(x) != OperatorOf(d)
    ensures x.event != d.event && x.payload.version < d.payload.version
  {
    assert SameVersion(x, d) ==> x == d;
  }

  /** The newest message first leaves no operator; a message that names one before it leaves that one. */
  lemma {:induction false} UnsettledOperator(md: Message, mx: Message, messages: seq<Message>, d: Dispatch, x: Dispatch)
    requires Consistent(Accepted(messages)) && md in messages && mx in messages
    requires Classify(md.content) == Ok(d) && Classify(mx.content) == Ok(x) && x.payload.task == d.payload.task
    requires forall e <- Accepted(messages) :: e.payload.task == d.payload.task ==> e.payload.version <= d.payload.version
    requires d.status != "" && OperatorOf(d).None? && x.status != "" && OperatorOf(x).Some?
    ensures QueuedOperator(Ingest(EMPTY, [md] + messages), d.payload.task) == None
    ensures QueuedOperator(Ingest(EMPTY, [mx, md] + messages), d.payload.task) == OperatorOf(x)
  {
    var t := d.payload.task;
    assert d in Accepted(messages) && x in Accepted(messages);
    AcceptedIsPositive(md.content);
    AcceptedIsPositive(mx.content);
    OlderIsDifferent(Accepted(messages), d, x);
    IngestOne(md, d);
    QueuedAlone(d);
    RowsStay(EMPTY, [md], messages, t);
    IngestTwo(mx, x, md, d);
    QueuedAfter(x, d);
    RowsStay(EMPTY, [mx, md], messages, t);
    assert RowsOf(Ingest(EMPTY, [md]), t) == RowsOf(Applied(EMPTY, d), t);
    assert RowsOf(Ingest(EMPTY, [mx, md]), t) == RowsOf(Applied(Applied(EMPTY, x), d), t);
    QueuedRow(Ingest(EMPTY, [md] + messages), t);
    QueuedRow(Ingest(EMPTY, [mx, md] + messages), t);
  }

  lemma QueuedRow(f: Feed, t: string)
    ensures QueuedOperator(f, t) == if RowsOf(f, t).queued.Some? then RowsOf(f, t).queued.value.operator else None
  {
  }

  lemma {:induction false} SettledMeansOne(messages: seq<Message>, d: Dispatch)
    requires Consistent(Accepted(messages)) && d in Accepted(messages) && d.status != ""
    requires forall e <- Accepted(messages) :: e.payload.task == d.payload.task ==> e.payload.version <= d.payload.version
    requires OperatorIsSettled(Accepted(messages), d)
    ensures OneOperator(Accepted(messages), d.payload.task)
  {
    forall a | Accepted(a) == Accepted(messages)
      ensures QueuedOperator(Ingest(EMPTY, a), d.payload.task) == OperatorOf(d)
    {
      SettledOperator(a, d);
    }
  }

  lemma Sender(messages: seq<Message>, d: Dispatch) returns (m: Message)
    requires d in Accepted(messages)
    ensures m in messages && Classify(m.content) == Ok(d)
  {
    m :| m in messages && Classify(m.content).Ok? && Classify(m.content).value == d;
  }

  lemma TwoOperators(a: seq<Message>, b: seq<Message>, t: string)
    requires Accepted(a) == Accepted(b)
    requires QueuedOperator(Ingest(EMPTY, a), t) != QueuedOperator(Ingest(EMPTY, b), t)
    ensures !OneOperator(Accepted(a), t)
  {
  }

  lemma UnsettledWitness(sent: set<Dispatch>, d: Dispatch) returns (x: Dispatch)
    requires !OperatorIsSettled(sent, d)
    ensures OperatorOf(d).None? && x in sent && x.payload.task == d.payload.task && x.status != "" && OperatorOf(x).Some?
  {
    x :| x in sent && x.payload.task == d.payload.task && x.status != "" && OperatorOf(x).Some?;
  }

  lemma {:induction false} UnsettledMeansTwo(messages: seq<Message>, d: Dispatch)
    requires Consistent(Accepted(messages)) && d in Accepted(messages) && d.status != ""
    requires forall e <- Accepted(messages) :: e.payload.task == d.payload.task ==> e.payload.version <= d.payload.version
    requires !OperatorIsSettled(Accepted(messages), d)
    ensures !OneOperator(Accepted(messages), d.payload.task)
  {
    var x := UnsettledWitness(Accepted(messages), d);
    var md := Sender(messages, d);
    var mx := Sender(messages, x);
    UnsettledOperator(md, mx, messages, d, x);
    AcceptedAgain(messages, [md]);
    AcceptedAgain(messages, [mx, md]);
    TwoOperators([md] + messages, [mx, md] + messages, d.payload.task);
  }

  /** The queue's operator does not depend on the order of messages exactly when it is settled. */
  lemma {:induction false} OperatorConvergesExactly(messages: seq<Message>, d: Dispatch)
    requires Consistent(Accepted(messages)) && d in Accepted(messages) && d.status != ""
    requires forall e <- Accepted(messages) :: e.payload.task == d.payload.task ==> e.payload.version <= d.payload.version
    ensures OperatorIsSettled(Accepted(messages), d) <==> OneOperator(Accepted(messages), d.payload.task)
  {
    if OperatorIsSettled(Accepted(messages), d) {
      SettledMeansOne(messages, d);
    } else {
      UnsettledMeansTwo(messages, d);
    }
  }

  // ---- Two first messages at once -----------------------------------------------------------

  /** `d` and `e` looked up a task without a row, which locks nothing; `e` writes after `d` committed. */
  function Raced(f: Feed, d: Dispatch, e: Dispatch): Feed {
    Written(Written(f.(inbox := f.inbox + {d.event, e.event}), d), e)
  }

  /** Two concurrent first messages end as two consecutive ones would exactly when the newer one writes last. */
  lemma RaceConvergesExactly(f: Feed, d: Dispatch, e: Dispatch)
    requires d.payload.task == e.payload.task && d.payload.task !in f.projections
    requires 1 <= d.payload.version && 1 <= e.payload.version && d.payload.version != e.payload.version
    requires d.event != e.event && d.event !in f.inbox && e.event !in f.inbox
    ensures ProjectedVersion(Applied(Applied(f, d), e), d.payload.task)
         == if d.payload.version < e.payload.version then e.payload.version else d.payload.version
    ensures Raced(f, d, e).projections == Applied(Applied(f, d), e).projections <==> d.payload.version < e.payload.version
  {
    assert ProjectionOf(d).version == d.payload.version && ProjectionOf(e).version == e.payload.version;
    if e.payload.version < d.payload.version {
      assert Raced(f, d, e).projections[d.payload.task].version == e.payload.version;
    }
  }
}

/** The consumer over its tables, statement by statement. */
module TaskConsumer {
  import opened QueueRows
  import opened Results
  import opened Text
  import opened TaskFeed
  import Spec = TaskFeed

  class WMSTaskConsumer {
    var inbox: set<string>
    var projections: map<string, Projection>
    var received: map<string, Instant>
    var queue: map<string, Queued>
    var stale: seq<Stale>
    var dead: map<DeadKey, Dead>

    function View(): Feed
      reads this
    {
      Feed(inbox, projections, received, queue, stale, dead)
    }

    constructor ()
      ensures View() == EMPTY
    {
      inbox, projections, received, queue, stale, dead := {}, map[], map[], map[], [], map[];
    }

    method DeadLetter(m: Message, failure: Failure)
      modifies this`dead
      ensures dead == Buried(old(dead), m, failure)
    {
      var k := DeadKeyOf(m);
      if k in dead {
        dead := dead[k := dead[k].(failure := failure, attempts := dead[k].attempts + 1)];
      } else {
        dead := dead[k := Dead(m.place, m.content, failure, 1)];
      }
    }

    /** INSERT ... ON CONFLICT DO UPDATE; every envelope that is valid has a source time, so that COALESCE takes it. */
    method UpsertProjection(d: Dispatch, at: Instant)
      modifies this`projections, this`received
      ensures projections == old(projections)[d.payload.task := ProjectionOf(d)]
      ensures received == Earliest(old(received), d.payload.task, at)
    {
      var p := d.payload;
      projections := projections[p.task := Projection(
        d.event, d.occurred, ToUpper(p.taskType), p.version, ToUpper(p.status), PriorityOrDefault(p.priority), p.warehouse,
        p.source, p.destination, p.revision, p.lot, p.requested, p.remaining, p.scans, p.rest)];
      if p.task !in received || at < received[p.task] {
        received := received[p.task := at];
      }
    }

    method SyncOperatorQueue(d: Dispatch)
      modifies this`queue
      ensures queue == Synced(old(queue), d)
    {
      var p := d.payload;
      if d.status == "" {
        queue := queue - {p.task};
        return;
      }
      var operator := OperatorOf(d);
      if operator.None? && p.task in queue {
        operator := queue[p.task].operator;
      }
      queue := queue[p.task := Queued(d.category, d.status, PriorityOrDefault(p.priority), p.warehouse, operator, p.version)];
    }

    method Process(m: Message)
      modifies this
      ensures View() == Spec.Process(old(View()), m)
    {
      var classified := Classify(m.content);
      if classified.Err? {
        DeadLetter(m, classified.error);
        return;
      }
      var d := classified.value;
      if d.event in inbox {
        return;
      }
      inbox := inbox + {d.event};
      var projected := 0;
      if d.payload.task in projections {
        projected := projections[d.payload.task].version;
      }
      if d.payload.version <= projected {
        stale := stale + [Stale(d.event, d.payload.task, d.payload.version, projected, d.eventType)];
        return;
      }
      UpsertProjection(d, m.at);
      SyncOperatorQueue(d);
    }
  }
}
