/**
 What one delivery does, and what deliveries leave, in the words of the message: the literal
 statuses and types that WMS sends, and the columns of its payload.
 */
module TaskFeedRules {
  import opened QueueRows
  import opened Results
  import opened Text
  import opened TaskFeed
  import opened TaskFeedLaws

  predicate Withdraws(p: Payload) {
    ToUpper(p.status) == "CANCELLED" || ToUpper(p.status) == "FAILED"
  }

  /** What a message must be to be projected. */
  predicate Good(c: Content) {
    && c.Envelope? && c.event.Some? && c.contract != 0 && c.contract <= 1 && c.payload.Some?
    && var p := c.payload.value;
       && p.task != "" && p.warehouse != "" && 1 <= p.version && ToUpper(p.taskType) in CATEGORIES
       && (ToUpper(p.status) in SHOWN || Withdraws(p))
  }

  /** Why a message that is not good is dead-lettered: the first thing that is wrong with it. */
  predicate WrongWith(c: Content, failure: Failure) {
    match failure
    case MalformedEnvelope => c.Garbage?
    case InvalidEnvelope => c.Invalid?
    case EventIdNotUuid => c.Envelope? && c.event.None?
    case UnsupportedVersion(n) => c.Envelope? && c.event.Some? && c.contract == n && (n == 0 || 1 < n)
    case MalformedPayload => Versioned(c) && c.payload.None?
    case MissingIdentity =>
      Versioned(c) && c.payload.Some?
      && (c.payload.value.task == "" || c.payload.value.warehouse == "" || c.payload.value.version < 1)
    case UnsupportedType(t) => Identified(c) && c.payload.value.taskType == t && ToUpper(t) !in CATEGORIES
    case UnsupportedStatus(s) =>
      Identified(c) && ToUpper(c.payload.value.taskType) in CATEGORIES && c.payload.value.status == s
      && ToUpper(s) !in SHOWN && !Withdraws(c.payload.value)
  }

  predicate Versioned(c: Content) {
    c.Envelope? && c.event.Some? && c.contract != 0 && c.contract <= 1
  }

  predicate Identified(c: Content) {
    Versioned(c) && c.payload.Some? && c.payload.value.task != "" && c.payload.value.warehouse != ""
    && 1 <= c.payload.value.version
  }

  lemma {:induction false} CategoriesAre(p: Payload)
    ensures TaskCategory(p.taskType) == if ToUpper(p.taskType) in CATEGORIES then Some(CATEGORIES[ToUpper(p.taskType)]) else None
  {
  }

  lemma {:induction false} StatusesAre(p: Payload)
    ensures QueueStatus(p.status) == if ToUpper(p.status) in SHOWN then Some(SHOWN[ToUpper(p.status)])
                                     else if Withdraws(p) then Some("") else None
    ensures ToUpper(p.status) in SHOWN ==> !Withdraws(p) && SHOWN[ToUpper(p.status)] != ""
  {
  }

  /** A message is taken exactly when it is good, and otherwise refused for exactly one reason. */
  lemma {:induction false} ClassifiedExactly(c: Content)
    ensures Classify(c).Ok? <==> Good(c)
    ensures forall failure :: Classify(c) == Err(failure) <==> WrongWith(c, failure)
  {
    if c.Envelope? && c.payload.Some? {
      CategoriesAre(c.payload.value);
      StatusesAre(c.payload.value);
    }
  }

  lemma {:induction false} GoodDispatch(c: Content)
    requires Good(c)
    ensures var p := c.payload.value;
            Classify(c) == Ok(Dispatch(c.event.value, c.eventType, c.occurred, CATEGORIES[ToUpper(p.taskType)],
                                       if Withdraws(p) then "" else SHOWN[ToUpper(p.status)], p))
  {
    CategoriesAre(c.payload.value);
    StatusesAre(c.payload.value);
  }

  /** The priority as stored. */
  function StoredPriority(p: Payload): int {
    if 1 <= p.priority <= 100 then p.priority else 5
  }

  /** The projection row of a good message: each column from the envelope or the payload. */
  function RowFor(c: Content): Projection
    requires Good(c)
  {
    var p := c.payload.value;
    Projection(event := c.event.value, dispatched := c.occurred, taskType := ToUpper(p.taskType), version := p.version,
               status := ToUpper(p.status), priority := StoredPriority(p), warehouse := p.warehouse,
               source := p.source, destination := p.destination, revision := p.revision, lot := p.lot,
               requested := p.requested, remaining := p.remaining, scans := p.scans, rest := p.rest)
  }

  /** The queue row of a good message that does not withdraw its task; the operator it names, or the one before. */
  function QueueRowFor(c: Content, queue: map<string, Queued>): Queued
    requires Good(c) && !Withdraws(c.payload.value)
  {
    var p := c.payload.value;
    Queued(category := CATEGORIES[ToUpper(p.taskType)], status := SHOWN[ToUpper(p.status)], priority := StoredPriority(p),
           warehouse := p.warehouse, version := p.version,
           operator := if p.operator != "" then Some(p.operator)
                       else if p.task in queue then queue[p.task].operator else None)
  }

  /** The key of a dead letter: its event id, or its place where that is missing or nil. */
  function BuriedUnder(m: Message): DeadKey {
    if m.content.Envelope? && m.content.event.Some? && m.content.event != Some("00000000-0000-0000-0000-000000000000")
    then ForEvent(m.content.event.value)
    else ForPlace(m.place)
  }

  /** A good message that is new and newer: inbox, projection, received time and queue, and nothing else. */
  lemma {:induction false} NewsLeaves(f: Feed, m: Message)
    requires Good(m.content) && m.content.event.value !in f.inbox
    requires var p := m.content.payload.value; p.task in f.projections ==> f.projections[p.task].version < p.version
    ensures var p := m.content.payload.value;
            Process(f, m) == f.(
              inbox := f.inbox + {m.content.event.value},
              projections := f.projections[p.task := RowFor(m.content)],
              received := f.received[p.task := if p.task in f.received && f.received[p.task] < m.at then f.received[p.task] else m.at],
              queue := if Withdraws(p) then f.queue - {p.task} else f.queue[p.task := QueueRowFor(m.content, f.queue)])
  {
    GoodDispatch(m.content);
    StatusesAre(m.content.payload.value);
  }

  /** A good message that is known changes nothing; one that is new but no newer is noted as stale. */
  lemma {:induction false} NoNewsLeaves(f: Feed, m: Message)
    requires Good(m.content)
    ensures m.content.event.value in f.inbox ==> Process(f, m) == f
    ensures var p := m.content.payload.value; var event := m.content.event.value;
            event !in f.inbox && p.task in f.projections && p.version <= f.projections[p.task].version ==>
              Process(f, m) == f.(
                inbox := f.inbox + {event},
                stale := f.stale + [Stale(event := event, task := p.task, incoming := p.version,
                                          projected := f.projections[p.task].version, eventType := m.content.eventType)])
  {
    GoodDispatch(m.content);
  }

  /** Any other message is buried with its reason, once more if it is there, and changes nothing else. */
  lemma {:induction false} BadLeaves(f: Feed, m: Message, failure: Failure)
    requires WrongWith(m.content, failure)
    ensures var k := BuriedUnder(m);
            Process(f, m) == f.(dead := f.dead[k := if k in f.dead
                                                    then f.dead[k].(failure := failure, attempts := f.dead[k].attempts + 1)
                                                    else Dead(m.place, m.content, failure, 1)])
  {
    ClassifiedExactly(m.content);
  }

  // ---- What deliveries leave ------------------------------------------------------------------

  /** The event ids, and the tasks with a version, name one good message each. */
  ghost predicate SentOnce(messages: seq<Message>) {
    forall a <- messages, b <- messages :: Good(a.content) && Good(b.content) ==>
      var p, q := a.content.payload.value, b.content.payload.value;
      a.content.event == b.content.event || (p.task == q.task && p.version == q.version) ==> SameMessage(a.content, b.content)
  }

  /** The same envelope and payload, the contract version aside. */
  predicate SameMessage(a: Content, b: Content)
    requires a.Envelope? && b.Envelope?
  {
    a.event == b.event && a.eventType == b.eventType && a.occurred == b.occurred && a.payload == b.payload
  }

  lemma {:induction false} SentOnceIsConsistent(messages: seq<Message>)
    requires SentOnce(messages)
    ensures Consistent(Accepted(messages))
  {
    forall d, e | d in Accepted(messages) && e in Accepted(messages) && (d.event == e.event || SameVersion(d, e))
      ensures d == e
    {
      var a := Sender(messages, d);
      var b := Sender(messages, e);
      ClassifiedExactly(a.content);
      ClassifiedExactly(b.content);
      GoodDispatch(a.content);
      GoodDispatch(b.content);
    }
  }

  lemma {:induction false} NewestIsNewest(messages: seq<Message>, m: Message)
    requires m in messages && Good(m.content)
    requires forall n <- messages :: Good(n.content) && n.content.payload.value.task == m.content.payload.value.task ==>
               n.content.payload.value.version <= m.content.payload.value.version
    ensures Classify(m.content).Ok? && Classify(m.content).value in Accepted(messages)
    ensures forall e <- Accepted(messages) :: e.payload.task == m.content.payload.value.task ==>
              e.payload.version <= m.content.payload.value.version
  {
    ClassifiedExactly(m.content);
    GoodDispatch(m.content);
    forall e | e in Accepted(messages) && e.payload.task == m.content.payload.value.task
      ensures e.payload.version <= m.content.payload.value.version
    {
      var n := Sender(messages, e);
      ClassifiedExactly(n.content);
      GoodDispatch(n.content);
    }
  }

  /**
   What deliveries leave of a task, in any order and with any repetition: the projection is the newest message,
   column by column; the task is in the queue exactly when that message does not say CANCELLED or FAILED, and the
   row there has the message's category, status, priority, warehouse and version by the tables above.
   */
  lemma {:induction false} NewestIsShown(messages: seq<Message>, m: Message)
    requires SentOnce(messages) && m in messages && Good(m.content)
    requires forall n <- messages :: Good(n.content) && n.content.payload.value.task == m.content.payload.value.task ==>
               n.content.payload.value.version <= m.content.payload.value.version
    ensures var f := Ingest(EMPTY, messages); var t := m.content.payload.value.task;
            && t in f.projections && f.projections[t] == RowFor(m.content)
            && (t in f.queue <==> !Withdraws(m.content.payload.value))
            && (t in f.queue ==> f.queue[t] == QueueRowFor(m.content, map[]).(operator := f.queue[t].operator))
  {
    var d := Classify(m.content).value;
    SentOnceIsConsistent(messages);
    NewestIsNewest(messages, m);
    GoodDispatch(m.content);
    StatusesAre(m.content.payload.value);
    FeedShowsNewest(messages, d);
    var f := Ingest(EMPTY, messages);
    var rows := RowsOf(f, m.content.payload.value.task);
    assert rows.projection == Some(ProjectionOf(d));
  }

  lemma {:induction false} GoodIsKept(f: Feed, m: Message)
    requires Good(m.content)
    ensures Process(f, m).dead == f.dead
  {
    GoodDispatch(m.content);
  }

  /** A dead letter is a message that was delivered and is not good, with a reason that fits it. */
  ghost predicate BuriedRightly(messages: seq<Message>, k: DeadKey, d: Dead) {
    && (exists m <- messages :: BuriedUnder(m) == k && m.place == d.place && m.content == d.content && !Good(m.content))
    && (exists m <- messages :: BuriedUnder(m) == k && WrongWith(m.content, d.failure))
  }

  lemma {:induction false} BadHasReason(c: Content) returns (failure: Failure)
    requires !Good(c)
    ensures WrongWith(c, failure)
  {
    ClassifiedExactly(c);
    failure := Classify(c).error;
  }

  /** The table holds exactly the messages that are not good, under their keys. */
  ghost predicate HoldsTheBad(messages: seq<Message>, dead: map<DeadKey, Dead>) {
    && (forall k :: k in dead <==> exists m <- messages :: !Good(m.content) && BuriedUnder(m) == k)
    && (forall k <- dead :: BuriedRightly(messages, k, dead[k]))
  }

  /** In every run the dead-letter table holds exactly the messages that are not good, under their keys. */
  lemma {:induction false} DeadLettersExactly(messages: seq<Message>)
    ensures HoldsTheBad(messages, Ingest(EMPTY, messages).dead)
  {
    if messages != [] {
      var before, m := messages[..|messages| - 1], messages[|messages| - 1];
      assert messages == before + [m];
      DeadLettersExactly(before);
      OneMoreHolds(before, m, Ingest(EMPTY, before));
    }
  }

  lemma {:induction false} OneMoreHolds(before: seq<Message>, m: Message, f: Feed)
    requires HoldsTheBad(before, f.dead)
    ensures HoldsTheBad(before + [m], Process(f, m).dead)
  {
    hide HoldsTheBad;
    if Good(m.content) {
      GoodIsKept(f, m);
      KeptRightly(before, m, f.dead);
    } else {
      var failure := BadHasReason(m.content);
      BadLeaves(f, m, failure);
      BuriedOnce(before, m, f.dead, failure);
    }
  }

  lemma {:induction false} KeptRightly(before: seq<Message>, m: Message, dead: map<DeadKey, Dead>)
    requires Good(m.content) && HoldsTheBad(before, dead)
    ensures HoldsTheBad(before + [m], dead)
  {
    hide Good, WrongWith, BuriedUnder;
    assert forall n :: n in before + [m] <==> n in before || n == m;
  }

  lemma {:induction false} BuriedOnce(before: seq<Message>, m: Message, dead: map<DeadKey, Dead>, failure: Failure)
    requires WrongWith(m.content, failure) && !Good(m.content) && HoldsTheBad(before, dead)
    ensures var at := BuriedUnder(m);
            HoldsTheBad(before + [m],
                        dead[at := if at in dead then dead[at].(failure := failure, attempts := dead[at].attempts + 1)
                                   else Dead(m.place, m.content, failure, 1)])
  {
    hide Good, WrongWith, BuriedUnder;
    assert forall n :: n in before + [m] <==> n in before || n == m;
    assert m in before + [m];
  }
}
