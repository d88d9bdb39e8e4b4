/**
 The relay of the cross-system outbox (internal/integration/adapters/kafka/integration_relay.go).
 Each statement of `RunOnce` commits on its own, so each is one step here; a worker may
 stop (crash, or return a database error) between any two of them. Instants and waits
 are nanoseconds, as time.Duration counts them.
 */
module OutboxRelay {
  import opened Results
  import opened Sums

  type EventId = string
  type WorkerId = string
  type Instant = int

  const SECOND: int := 1_000_000_000
  const MAX_ATTEMPTS: nat := 8
  const MAX_BACKOFF: int := 300 * SECOND
  const BATCH_SIZE: nat := 100

  datatype Row = Row(created: Instant, attempts: nat, availableAt: Instant, published: bool)

  /** A claimed row as the worker remembers it: `attempts` is the count its claim returned. */
  datatype Item = Item(id: EventId, attempts: nat)

  datatype Stage = Ready | Written | Refused | Buried

  /** A worker inside its loop: the items left, and how far it is with the first of them. */
  datatype Worker = Worker(batch: seq<Item>, stage: Stage)

  datatype DeadLetter = DeadLetter(id: EventId, attempts: nat, at: Instant)

  /** A failed write, kept as history. */
  datatype Failure = Failure(id: EventId, at: Instant)

  datatype State = State(
    rows: map<EventId, Row>,
    topic: seq<EventId>,
    deadLetters: seq<DeadLetter>,
    workers: map<WorkerId, Worker>,
    failures: seq<Failure>,
    clock: Instant)

  datatype Step =
    | Append(id: EventId, at: Instant)
    | Claim(worker: WorkerId, ids: seq<EventId>, at: Instant)
    | Write(worker: WorkerId, delivered: bool, acknowledged: bool, at: Instant)
    | MarkPublished(worker: WorkerId, at: Instant)
    | Bury(worker: WorkerId, at: Instant)
    | Retire(worker: WorkerId, at: Instant)
    | Postpone(worker: WorkerId, at: Instant)
    | Crash(worker: WorkerId, at: Instant)

  function Pow2(n: nat): nat {
    if n == 0 then 1 else 2 * Pow2(n - 1)
  }

  /** The wait after failure number `attempts`: doubling, capped at five minutes. */
  function Backoff(attempts: nat): int {
    if Pow2(attempts) * SECOND > MAX_BACKOFF then MAX_BACKOFF else Pow2(attempts) * SECOND
  }

  // ---- The steps ------------------------------------------------------------------------

  predicate Busy(st: State, w: WorkerId) {
    w in st.workers && st.workers[w].batch != []
  }

  predicate Due(st: State, id: EventId, now: Instant) {
    id in st.rows && !st.rows[id].published && st.rows[id].availableAt <= now
  }

  predicate Claimable(st: State, w: WorkerId, ids: seq<EventId>, now: Instant) {
    && !Busy(st, w)
    && |ids| <= BATCH_SIZE
    && (forall i, j :: 0 <= i < j < |ids| ==> ids[i] != ids[j])
    && (forall id <- ids :: Due(st, id, now))
  }

  /** Which worker steps the code can take next. Every step happens at or after the previous one. */
  predicate Enabled(st: State, step: Step) {
    && st.clock <= step.at
    && match step
       case Append(id, at) => id !in st.rows
       case Claim(w, ids, at) => Claimable(st, w, ids, at)
       case Write(w, delivered, acknowledged, at) => Busy(st, w) && st.workers[w].stage == Ready && (acknowledged ==> delivered)
       case MarkPublished(w, at) => Busy(st, w) && st.workers[w].stage == Written
       case Bury(w, at) => Busy(st, w) && st.workers[w].stage == Refused && MAX_ATTEMPTS <= st.workers[w].batch[0].attempts
       case Retire(w, at) => Busy(st, w) && st.workers[w].stage == Buried
       case Postpone(w, at) => Busy(st, w) && st.workers[w].stage == Refused && st.workers[w].batch[0].attempts < MAX_ATTEMPTS
       case Crash(w, at) => true
  }

  function Claimed(rows: map<EventId, Row>, ids: seq<EventId>): map<EventId, Row> {
    map id | id in rows :: if id in ids then rows[id].(attempts := rows[id].attempts + 1) else rows[id]
  }

  function Items(rows: map<EventId, Row>, ids: seq<EventId>): (items: seq<Item>)
    requires forall id <- ids :: id in rows
    ensures |items| == |ids|
    ensures forall i :: 0 <= i < |ids| ==> items[i] == Item(ids[i], rows[ids[i]].attempts)
  {
    seq(|ids|, i requires 0 <= i < |ids| => Item(ids[i], rows[ids[i]].attempts))
  }

  function SetRow(st: State, id: EventId, row: Row): State {
    st.(rows := st.rows[id := row])
  }

  function Publish(st: State, id: EventId): State {
    if id in st.rows then SetRow(st, id, st.rows[id].(published := true)) else st
  }

  function SetStage(st: State, w: WorkerId, stage: Stage): State
    requires w in st.workers
  {
    st.(workers := st.workers[w := st.workers[w].(stage := stage)])
  }

  /** Go on with the next item of the batch. */
  function NextItem(st: State, w: WorkerId): State
    requires Busy(st, w)
  {
    st.(workers := st.workers[w := Worker(st.workers[w].batch[1..], Ready)])
  }

  function Apply(st: State, step: Step): State
    requires Enabled(st, step)
  {
    var s := st.(clock := step.at);
    match step
    case Append(id, at) => SetRow(s, id, Row(at, 0, at, false))
    case Claim(w, ids, at) =>
      var rows := Claimed(s.rows, ids);
      s.(rows := rows, workers := s.workers[w := Worker(Items(rows, ids), Ready)])
    case Write(w, delivered, acknowledged, at) =>
      var id := s.workers[w].batch[0].id;
      var sent := if delivered then s.(topic := s.topic + [id]) else s;
      if acknowledged then SetStage(sent, w, Written)
      else SetStage(sent, w, Refused).(failures := s.failures + [Failure(id, at)])
    case MarkPublished(w, at) => NextItem(Publish(s, s.workers[w].batch[0].id), w)
    case Bury(w, at) =>
      var item := s.workers[w].batch[0];
      SetStage(s, w, Buried).(deadLetters := s.deadLetters + [DeadLetter(item.id, item.attempts, at)])
    case Retire(w, at) => NextItem(Publish(s, s.workers[w].batch[0].id), w)
    case Postpone(w, at) =>
      var item := s.workers[w].batch[0];
      var waiting := if item.id in s.rows then SetRow(s, item.id, s.rows[item.id].(availableAt := at + Backoff(item.attempts))) else s;
      NextItem(waiting, w)
    case Crash(w, at) => s.(workers := s.workers - {w})
  }

  /** A step that the code cannot take from here changes nothing. */
  function Do(st: State, step: Step): State {
    if Enabled(st, step) then Apply(st, step) else st
  }

  function Run(st: State, steps: seq<Step>): State {
    if steps == [] then st else Do(Run(st, steps[..|steps| - 1]), steps[|steps| - 1])
  }

  lemma {:induction false} RunConcat(st: State, before: seq<Step>, after: seq<Step>)
    ensures Run(st, before + after) == Run(Run(st, before), after)
  {
    if after == [] {
      assert before + after == before;
    } else {
      var all := before + after;
      assert all[..|all| - 1] == before + after[..|after| - 1];
      RunConcat(st, before, after[..|after| - 1]);
    }
  }

  // ---- Safety: any number of workers, crashes anywhere ------------------------------------

  ghost predicate InTopic(st: State, id: EventId) {
    id in st.topic
  }

  ghost predicate DeadLettered(st: State, id: EventId) {
    exists d <- st.deadLetters :: d.id == id
  }

  ghost predicate FailedWrite(st: State, id: EventId) {
    exists f <- st.failures :: f.id == id
  }

  /** A row is accounted for while it is unpublished, or once it is on the topic or in the dead-letter table. */
  ghost predicate Accounted(st: State, id: EventId)
    requires id in st.rows
  {
    st.rows[id].published ==> InTopic(st, id) || DeadLettered(st, id)
  }

  /** What a worker knows about the item in its hands. */
  ghost predicate Honest(st: State, k: Worker) {
    && (forall item <- k.batch :: item.id in st.rows && item.attempts <= st.rows[item.id].attempts)
    && (k.batch != [] ==>
          var item := k.batch[0];
          && (k.stage == Written ==> InTopic(st, item.id))
          && (k.stage == Refused ==> FailedWrite(st, item.id))
          && (k.stage == Buried ==> DeadLettered(st, item.id)))
  }

  ghost predicate Deserved(st: State, d: DeadLetter) {
    MAX_ATTEMPTS <= d.attempts && d.id in st.rows && d.attempts <= st.rows[d.id].attempts && FailedWrite(st, d.id)
  }

  ghost predicate Safe(st: State) {
    && (forall id <- st.rows :: Accounted(st, id))
    && (forall w <- st.workers :: Honest(st, st.workers[w]))
    && (forall d <- st.deadLetters :: Deserved(st, d))
  }

  /** The tables and the history only ever grow. */
  ghost predicate Grows(st: State, st': State) {
    && (forall id <- st.rows :: id in st'.rows && st.rows[id].attempts <= st'.rows[id].attempts
                                && (st.rows[id].published ==> st'.rows[id].published))
    && st.topic <= st'.topic && st.deadLetters <= st'.deadLetters && st.failures <= st'.failures
  }

  lemma DoGrows(st: State, step: Step)
    ensures Grows(st, Do(st, step))
  {
  }

  lemma {:induction false} RunGrows(st: State, steps: seq<Step>)
    ensures Grows(st, Run(st, steps))
  {
    if steps != [] {
      RunGrows(st, steps[..|steps| - 1]);
      DoGrows(Run(st, steps[..|steps| - 1]), steps[|steps| - 1]);
    }
  }

  lemma GrowsKeepsHonest(st: State, st': State, k: Worker)
    requires Grows(st, st') && Honest(st, k)
    ensures Honest(st', k)
  {
  }

  lemma GrowsKeepsDeserved(st: State, st': State, d: DeadLetter)
    requires Grows(st, st') && Deserved(st, d)
    ensures Deserved(st', d)
  {
  }

  lemma ActingWorkerIsHonest(st: State, step: Step, w: WorkerId)
    requires Safe(st) && Enabled(st, step) && !step.Append? && w == step.worker && w in Apply(st, step).workers
    ensures Honest(Apply(st, step), Apply(st, step).workers[w])
  {
    var st' := Apply(st, step);
    if step.Claim? {
    } else {
      var item := st.workers[w].batch[0];
      assert Honest(st, st.workers[w]);
      if step.Write? {
        assert step.delivered ==> st'.topic[|st.topic|] == item.id;
        assert !step.acknowledged ==> st'.failures[|st.failures|] == Failure(item.id, step.at);
      } else if step.Bury? {
        assert st'.deadLetters[|st.deadLetters|] == DeadLetter(item.id, item.attempts, step.at);
      }
    }
  }

  lemma {:induction false} DoIsSafe(st: State, step: Step)
    requires Safe(st)
    ensures Safe(Do(st, step))
  {
    if Enabled(st, step) {
      var st' := Apply(st, step);
      DoGrows(st, step);
      forall w | w in st'.workers
        ensures Honest(st', st'.workers[w])
      {
        if !step.Append? && step.worker == w {
          ActingWorkerIsHonest(st, step, w);
        } else {
          GrowsKeepsHonest(st, st', st.workers[w]);
        }
      }
      forall d | d in st'.deadLetters
        ensures Deserved(st', d)
      {
        if d in st.deadLetters {
          GrowsKeepsDeserved(st, st', d);
        } else {
          assert Honest(st, st.workers[step.worker]);
        }
      }
      forall id | id in st'.rows
        ensures Accounted(st', id)
      {
        RowStaysAccounted(st, step, id);
      }
    }
  }

  lemma RowStaysAccounted(st: State, step: Step, id: EventId)
    requires Safe(st) && Enabled(st, step) && id in Apply(st, step).rows
    ensures Accounted(Apply(st, step), id)
  {
    var st' := Apply(st, step);
    if id in st.rows {
      assert Accounted(st, id);
      if step.MarkPublished? || step.Retire? {
        assert Honest(st, st.workers[step.worker]);
      }
    }
  }

  lemma {:induction false} RunIsSafe(st: State, steps: seq<Step>)
    requires Safe(st)
    ensures Safe(Run(st, steps))
  {
    if steps != [] {
      RunIsSafe(st, steps[..|steps| - 1]);
      DoIsSafe(Run(st, steps[..|steps| - 1]), steps[|steps| - 1]);
    }
  }

  /**
   The relay loses nothing: at every moment of every run each row that ever existed is still there, and is
   unpublished, on the topic or dead-lettered.
   */
  lemma {:induction false} NothingIsLost(st: State, steps: seq<Step>, n: nat, id: EventId)
    requires Safe(st) && n <= |steps| && id in Run(st, steps[..n]).rows
    ensures id in Run(st, steps).rows && Accounted(Run(st, steps), id)
    ensures Run(st, steps[..n]).rows[id].published ==> Run(st, steps).rows[id].published
  {
    RunIsSafe(st, steps);
    RunConcat(st, steps[..n], steps[n..]);
    assert steps[..n] + steps[n..] == steps;
    RunGrows(Run(st, steps[..n]), steps[n..]);
  }

  /** Dead-lettering only follows a failed write and at least eight claims of the row. */
  lemma DeadLettersAreDeserved(st: State, steps: seq<Step>, d: DeadLetter)
    requires Safe(st) && d in Run(st, steps).deadLetters
    ensures d.id in Run(st, steps).rows && 8 <= Run(st, steps).rows[d.id].attempts && FailedWrite(Run(st, steps), d.id)
  {
    RunIsSafe(st, steps);
    assert Deserved(Run(st, steps), d);
  }

  // ---- Two workers can hold the same row ----------------------------------------------------

  ghost predicate Holds(st: State, w: WorkerId, id: EventId) {
    w in st.workers && exists item <- st.workers[w].batch :: item.id == id
  }

  /**
   The row lock ends with the claim statement: a row that one worker holds goes to a second worker exactly when
   it is still unpublished and due.
   */
  lemma HeldRowIsClaimedAgain(st: State, first: WorkerId, second: WorkerId, id: EventId, now: Instant)
    requires Holds(st, first, id) && first != second && !Busy(st, second) && st.clock <= now
    ensures var st' := Do(st, Claim(second, [id], now));
            (Holds(st', first, id) && Holds(st', second, id)) <==> Due(st, id, now)
  {
    var st' := Do(st, Claim(second, [id], now));
    if Due(st, id, now) {
      assert st'.workers[second].batch[0].id == id;
    } else {
      assert !Enabled(st, Claim(second, [id], now)) by {
        assert id in [id];
      }
    }
  }

  lemma BothClaim(id: EventId, a: WorkerId, b: WorkerId)
    requires a != b
    ensures var st := Do(Do(State(map[id := Row(0, 0, 0, false)], [], [], map[], [], 0), Claim(a, [id], 0)), Claim(b, [id], 0));
            && a in st.workers && st.workers[a] == Worker([Item(id, 1)], Ready)
            && b in st.workers && st.workers[b] == Worker([Item(id, 2)], Ready)
            && st.rows == map[id := Row(0, 2, 0, false)] && st.topic == [] && st.clock == 0
  {
    var st0 := State(map[id := Row(0, 0, 0, false)], [], [], map[], [], 0);
    assert Enabled(st0, Claim(a, [id], 0));
    var st1 := Do(st0, Claim(a, [id], 0));
    assert st1.workers[a] == Worker([Item(id, 1)], Ready) && st1.rows == map[id := Row(0, 1, 0, false)];
    assert Enabled(st1, Claim(b, [id], 0));
  }

  /** A write that Kafka takes puts the item on the topic. */
  lemma WriteDelivers(st: State, w: WorkerId, at: Instant)
    requires Busy(st, w) && st.workers[w].stage == Ready && st.clock <= at
    ensures var next := Do(st, Write(w, true, true, at));
            && next.topic == st.topic + [st.workers[w].batch[0].id] && next.rows == st.rows && next.clock == at
            && forall x <- st.workers :: x != w ==> x in next.workers && next.workers[x] == st.workers[x]
  {
  }

  lemma RunFour(st: State, a: Step, b: Step, c: Step, d: Step)
    ensures Run(st, [a, b, c, d]) == Do(Do(Do(Do(st, a), b), c), d)
  {
    assert [a, b, c, d][..3] == [a, b, c] && [a, b, c][..2] == [a, b] && [a, b][..1] == [a] && [a][..0] == [];
    assert Run(st, [a]) == Do(Run(st, []), a) && Run(st, [a, b]) == Do(Run(st, [a]), b);
    assert Run(st, [a, b, c]) == Do(Run(st, [a, b]), c);
  }

  /** Two relay workers that start together: both hold the one pending row and both put it on the topic. */
  lemma TwoWorkersPublishOneRowTwice(id: EventId, a: WorkerId, b: WorkerId)
    requires a != b
    ensures var st := Run(State(map[id := Row(0, 0, 0, false)], [], [], map[], [], 0),
                          [Claim(a, [id], 0), Claim(b, [id], 0), Write(a, true, true, 0), Write(b, true, true, 0)]);
            st.topic == [id, id] && id in st.rows && st.rows[id].attempts == 2
  {
    var st0 := State(map[id := Row(0, 0, 0, false)], [], [], map[], [], 0);
    BothClaim(id, a, b);
    var st2 := Do(Do(st0, Claim(a, [id], 0)), Claim(b, [id], 0));
    WriteDelivers(st2, a, 0);
    WriteDelivers(Do(st2, Write(a, true, true, 0)), b, 0);
    RunFour(st0, Claim(a, [id], 0), Claim(b, [id], 0), Write(a, true, true, 0), Write(b, true, true, 0));
  }
}

/** What each statement of the relay does, in the columns of the tables and in literal numbers. */
module OutboxRelayRules {
  import opened OutboxRelay

  /** After failure `n`: 2, 4, 8 seconds and so on, and five minutes from the ninth on. */
  lemma {:induction false} BackoffExactly(n: nat)
    ensures n == 0 ==> Backoff(n) == 1_000_000_000
    ensures 0 < n <= 8 ==> Backoff(n) == 2 * Backoff(n - 1)
    ensures 9 <= n ==> Backoff(n) == 300_000_000_000
  {
    if n <= 9 {
      assert Pow2(0) == 1 && Pow2(1) == 2 && Pow2(2) == 4 && Pow2(3) == 8 && Pow2(4) == 16 && Pow2(5) == 32;
      assert Pow2(6) == 64 && Pow2(7) == 128 && Pow2(8) == 256 && Pow2(9) == 512;
    } else {
      BackoffExactly(n - 1);
      assert Pow2(n) == 2 * Pow2(n - 1);
    }
  }

  /** A worker without an item in its hands. */
  predicate Idle(st: State, w: WorkerId) {
    w !in st.workers || st.workers[w].batch == []
  }

  /** The worker holds an item, and is at this stage with it. */
  predicate Holds(st: State, w: WorkerId, stage: Stage) {
    w in st.workers && st.workers[w].batch != [] && st.workers[w].stage == stage
  }

  /** A new event is one unpublished row, due at once; an id that is there is not appended again. */
  lemma {:induction false} AppendExactly(st: State, id: EventId, at: Instant)
    ensures Do(st, Append(id, at)) ==
            if st.clock <= at && id !in st.rows
            then st.(rows := st.rows[id := Row(created := at, attempts := 0, availableAt := at, published := false)], clock := at)
            else st
  {
  }

  /** An idle worker claims up to a hundred different rows, each unpublished and due; a claim is one more attempt. */
  predicate MayClaim(st: State, w: WorkerId, ids: seq<EventId>, at: Instant) {
    && st.clock <= at && Idle(st, w) && |ids| <= 100 && (forall i, j :: 0 <= i < j < |ids| ==> ids[i] != ids[j])
    && forall id <- ids :: id in st.rows && !st.rows[id].published && st.rows[id].availableAt <= at
  }

  lemma {:induction false} ClaimExactly(st: State, w: WorkerId, ids: seq<EventId>, at: Instant)
    ensures !MayClaim(st, w, ids, at) ==> Do(st, Claim(w, ids, at)) == st
    ensures MayClaim(st, w, ids, at) ==>
              var next := Do(st, Claim(w, ids, at));
              && next == st.(rows := next.rows, workers := st.workers[w := next.workers[w]], clock := at)
              && next.rows.Keys == st.rows.Keys
              && (forall id <- st.rows :: next.rows[id] == st.rows[id].(
                    attempts := st.rows[id].attempts + if id in ids then 1 else 0))
              && next.workers[w].stage == Ready && |next.workers[w].batch| == |ids|
              && forall i :: 0 <= i < |ids| ==> next.workers[w].batch[i] == Item(ids[i], st.rows[ids[i]].attempts + 1)
  {
  }

  /** A write puts the item on the topic if Kafka takes it, and is a failure unless Kafka says so. */
  lemma {:induction false} WriteExactly(st: State, w: WorkerId, delivered: bool, acknowledged: bool, at: Instant)
    ensures !(st.clock <= at && Holds(st, w, Ready) && (acknowledged ==> delivered)) ==>
              Do(st, Write(w, delivered, acknowledged, at)) == st
    ensures st.clock <= at && Holds(st, w, Ready) && (acknowledged ==> delivered) ==>
              var id := st.workers[w].batch[0].id;
              Do(st, Write(w, delivered, acknowledged, at)) == st.(
                topic := st.topic + (if delivered then [id] else []),
                failures := st.failures + (if acknowledged then [] else [Failure(id, at)]),
                workers := st.workers[w := Worker(st.workers[w].batch, if acknowledged then Written else Refused)],
                clock := at)
  {
    assert st.topic + [] == st.topic && st.failures + [] == st.failures;
  }

  /** The rows with one of them, if it is there, published. */
  function WithPublished(rows: map<EventId, Row>, id: EventId): map<EventId, Row> {
    if id in rows then rows[id := rows[id].(published := true)] else rows
  }

  /** The workers once `w` goes on with its next item. */
  function GoingOn(workers: map<WorkerId, Worker>, w: WorkerId): map<WorkerId, Worker>
    requires w in workers && workers[w].batch != []
  {
    workers[w := Worker(workers[w].batch[1..], Ready)]
  }

  /** An item that was written, or is a dead letter, is marked as published. */
  lemma {:induction false} PublishedExactly(st: State, w: WorkerId, at: Instant)
    ensures var next := Do(st, MarkPublished(w, at));
            if st.clock <= at && Holds(st, w, Written)
            then next == st.(rows := WithPublished(st.rows, st.workers[w].batch[0].id), workers := GoingOn(st.workers, w), clock := at)
            else next == st
    ensures var next := Do(st, Retire(w, at));
            if st.clock <= at && Holds(st, w, Buried)
            then next == st.(rows := WithPublished(st.rows, st.workers[w].batch[0].id), workers := GoingOn(st.workers, w), clock := at)
            else next == st
  {
  }

  /** A refused item is a dead letter from its eighth attempt on, and waits before that. */
  lemma {:induction false} RefusedExactly(st: State, w: WorkerId, at: Instant)
    ensures var next := Do(st, Bury(w, at));
            if st.clock <= at && Holds(st, w, Refused) && 8 <= st.workers[w].batch[0].attempts
            then var item := st.workers[w].batch[0];
                 next == st.(deadLetters := st.deadLetters + [DeadLetter(item.id, item.attempts, at)],
                             workers := st.workers[w := st.workers[w].(stage := Buried)], clock := at)
            else next == st
    ensures var next := Do(st, Postpone(w, at));
            if st.clock <= at && Holds(st, w, Refused) && st.workers[w].batch[0].attempts < 8
            then var item := st.workers[w].batch[0];
                 next == st.(rows := if item.id in st.rows
                                     then st.rows[item.id := st.rows[item.id].(availableAt := at + Backoff(item.attempts))]
                                     else st.rows,
                             workers := GoingOn(st.workers, w), clock := at)
            else next == st
  {
  }

  /** A worker may stop at any moment; what it held in memory is lost, and nothing else changes. */
  lemma {:induction false} CrashExactly(st: State, w: WorkerId, at: Instant)
    ensures Do(st, Crash(w, at)) == if st.clock <= at then st.(workers := st.workers - {w}, clock := at) else st
  {
  }
}
