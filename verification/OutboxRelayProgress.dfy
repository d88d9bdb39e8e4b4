/**
 What one relay worker that never crashes guarantees: bounded attempts, exact waits, and a measure
 of the attempts left.
 */
module OutboxRelayProgress {
  import opened Results
  import opened Sums
  import opened OutboxRelay

  /** Only worker `w` runs, without a crash or database error; new rows may still be appended. */
  ghost predicate Sole(steps: seq<Step>, w: WorkerId) {
    forall step <- steps :: SoleStep(step, w)
  }

  ghost predicate SoleStep(step: Step, w: WorkerId) {
    step.Append? || (step.worker == w && !step.Crash?)
  }

  function FirstFailure(failures: seq<Failure>, id: EventId): Option<Instant> {
    if failures == [] then None
    else
      var earlier := FirstFailure(failures[..|failures| - 1], id);
      var last := failures[|failures| - 1];
      if earlier.Some? then earlier else if last.id == id then Some(last.at) else None
  }

  /** The waits before claim number `k` of a row, added up: 2 + 4 + ... + 2^(k-1) seconds. */
  function WaitBefore(k: nat): int
    requires 1 <= k
  {
    if k == 1 then 0 else WaitBefore(k - 1) + Pow2(k - 1) * SECOND
  }

  /** The five-minute cap never binds, and the waits before the eighth claim add up to 254 seconds. */
  lemma WaitsAreExact()
    ensures forall k :: 1 <= k < 8 ==> Backoff(k) == Pow2(k) * 1_000_000_000 && Backoff(k) < 300_000_000_000
    ensures WaitBefore(8) == 254_000_000_000
  {
    assert Pow2(1) == 2 && Pow2(2) == 4 && Pow2(3) == 8;
    assert Pow2(4) == 16 && Pow2(5) == 32 && Pow2(6) == 64;
    assert Pow2(7) == 128;
    assert WaitBefore(1) == 0 && WaitBefore(2) == 2 * SECOND && WaitBefore(3) == 6 * SECOND;
    assert WaitBefore(4) == 14 * SECOND && WaitBefore(5) == 30 * SECOND && WaitBefore(6) == 62 * SECOND;
    assert WaitBefore(7) == 126 * SECOND;
    forall k | 1 <= k < MAX_ATTEMPTS
      ensures Backoff(k) == Pow2(k) * SECOND && Backoff(k) < MAX_BACKOFF
    {
      assert k == 1 || k == 2 || k == 3 || k == 4 || k == 5 || k == 6 || k == 7;
    }
  }

  /** By instant `t`, claim number `k` of the row is no earlier than its waits allow. */
  ghost predicate Waited(st: State, id: EventId, k: nat, t: Instant)
    requires 1 <= k
  {
    match FirstFailure(st.failures, id)
    case None => k == 1
    case Some(first) => 2 <= k && first + WaitBefore(k) <= t
  }

  /** A row that no worker holds. */
  ghost predicate Resting(st: State, id: EventId)
    requires id in st.rows
  {
    !st.rows[id].published ==> st.rows[id].attempts < MAX_ATTEMPTS && Waited(st, id, st.rows[id].attempts + 1, st.rows[id].availableAt)
  }

  /** A claimed row whose write has not failed on this claim. */
  ghost predicate InHand(st: State, item: Item) {
    && item.id in st.rows && !st.rows[item.id].published
    && item.attempts == st.rows[item.id].attempts && 1 <= item.attempts <= MAX_ATTEMPTS
    && Waited(st, item.id, item.attempts, st.clock)
  }

  /** A claimed row whose write has just failed. */
  ghost predicate JustFailed(st: State, item: Item) {
    && item.id in st.rows && !st.rows[item.id].published
    && item.attempts == st.rows[item.id].attempts && 1 <= item.attempts <= MAX_ATTEMPTS
    && var first := FirstFailure(st.failures, item.id);
       first.Some? && first.value + WaitBefore(item.attempts) <= st.clock
  }

  ghost predicate LateEnough(st: State, d: DeadLetter) {
    var first := FirstFailure(st.failures, d.id);
    first.Some? && first.value + WaitBefore(MAX_ATTEMPTS) <= d.at
  }

  ghost predicate BatchInOrder(st: State, k: Worker) {
    && (forall i, j :: 0 <= i < j < |k.batch| ==> k.batch[i].id != k.batch[j].id)
    && (forall i :: 0 <= i < |k.batch| ==>
          if i == 0 && (k.stage == Refused || k.stage == Buried) then JustFailed(st, k.batch[i]) else InHand(st, k.batch[i]))
    && (k.batch != [] && k.stage == Buried ==> MAX_ATTEMPTS <= k.batch[0].attempts)
  }

  ghost predicate Alone(st: State, w: WorkerId) {
    && (forall x <- st.workers :: x == w)
    && (forall id <- st.rows :: st.rows[id].attempts <= MAX_ATTEMPTS)
    && (forall f <- st.failures :: f.id in st.rows)
  }

  ghost predicate AllRest(st: State, w: WorkerId) {
    forall id <- st.rows :: !Holds(st, w, id) ==> Resting(st, id)
  }

  ghost predicate AllLate(st: State) {
    forall d <- st.deadLetters :: LateEnough(st, d)
  }

  ghost predicate InOrder(st: State, w: WorkerId) {
    w in st.workers ==> BatchInOrder(st, st.workers[w])
  }

  /** The invariant of a lone worker. */
  ghost predicate Timed(st: State, w: WorkerId) {
    Alone(st, w) && AllRest(st, w) && InOrder(st, w) && AllLate(st)
  }

  lemma {:induction false} NoFailureYet(failures: seq<Failure>, id: EventId)
    requires forall f <- failures :: f.id != id
    ensures FirstFailure(failures, id) == None
  {
    if failures != [] {
      NoFailureYet(failures[..|failures| - 1], id);
    }
  }

  lemma FailureAppended(failures: seq<Failure>, f: Failure, id: EventId)
    ensures var earlier := FirstFailure(failures, id);
            FirstFailure(failures + [f], id) == if earlier.Some? then earlier else if f.id == id then Some(f.at) else None
  {
    assert (failures + [f])[..|failures|] == failures;
  }

  lemma ClaimedAreInHand(st: State, w: WorkerId, ids: seq<EventId>, now: Instant)
    requires Timed(st, w) && Enabled(st, Claim(w, ids, now))
    ensures var st' := Apply(st, Claim(w, ids, now)); BatchInOrder(st', st'.workers[w])
  {
    var st' := Apply(st, Claim(w, ids, now));
    var batch := st'.workers[w].batch;
    forall i | 0 <= i < |batch|
      ensures InHand(st', batch[i])
    {
      assert ids[i] in ids;
      assert Due(st, ids[i], now) && Resting(st, ids[i]);
    }
  }

  /** What a claim changes: the attempts of the claimed rows, and the worker. */
  lemma ClaimChanges(st: State, w: WorkerId, ids: seq<EventId>, now: Instant)
    requires Enabled(st, Claim(w, ids, now))
    ensures var st' := Apply(st, Claim(w, ids, now));
            && st'.rows.Keys == st.rows.Keys && st'.failures == st.failures && st'.deadLetters == st.deadLetters
            && st'.workers.Keys == st.workers.Keys + {w}
            && forall id <- st.rows :: id !in ids ==> st'.rows[id] == st.rows[id]
  {
  }

  lemma ClaimedRowIsHeld(st: State, w: WorkerId, ids: seq<EventId>, now: Instant, id: EventId)
    requires Enabled(st, Claim(w, ids, now)) && id in ids
    ensures Holds(Apply(st, Claim(w, ids, now)), w, id)
  {
    var batch := Apply(st, Claim(w, ids, now)).workers[w].batch;
    var i :| 0 <= i < |ids| && ids[i] == id;
    assert batch[i] in batch && batch[i].id == id;
  }

  lemma UnclaimedKeepResting(st: State, w: WorkerId, ids: seq<EventId>, now: Instant, id: EventId)
    requires Timed(st, w) && Enabled(st, Claim(w, ids, now)) && id in st.rows && id !in ids
    ensures id in Apply(st, Claim(w, ids, now)).rows && Resting(Apply(st, Claim(w, ids, now)), id)
  {
    ClaimChanges(st, w, ids, now);
    assert Resting(st, id);
  }

  lemma ClaimKeepsRest(st: State, w: WorkerId, ids: seq<EventId>, now: Instant)
    requires Timed(st, w) && Enabled(st, Claim(w, ids, now))
    ensures AllRest(Apply(st, Claim(w, ids, now)), w)
  {
    var st' := Apply(st, Claim(w, ids, now));
    ClaimChanges(st, w, ids, now);
    forall id | id in st'.rows && !Holds(st', w, id)
      ensures Resting(st', id)
    {
      if id in ids {
        ClaimedRowIsHeld(st, w, ids, now, id);
      } else {
        UnclaimedKeepResting(st, w, ids, now, id);
      }
    }
  }

  lemma ClaimKeepsBound(st: State, w: WorkerId, ids: seq<EventId>, now: Instant, id: EventId)
    requires Timed(st, w) && Enabled(st, Claim(w, ids, now)) && id in st.rows
    ensures id in Apply(st, Claim(w, ids, now)).rows && Apply(st, Claim(w, ids, now)).rows[id].attempts <= MAX_ATTEMPTS
  {
    if id in ids {
      assert Due(st, id, now) && Resting(st, id);
    }
  }

  lemma ClaimKeepsAlone(st: State, w: WorkerId, ids: seq<EventId>, now: Instant)
    requires Timed(st, w) && Enabled(st, Claim(w, ids, now))
    ensures Alone(Apply(st, Claim(w, ids, now)), w)
  {
    ClaimChanges(st, w, ids, now);
    forall id | id in st.rows
      ensures id in Apply(st, Claim(w, ids, now)).rows && Apply(st, Claim(w, ids, now)).rows[id].attempts <= MAX_ATTEMPTS
    {
      ClaimKeepsBound(st, w, ids, now, id);
    }
  }

  /** Dead letters stay late enough while no failure is added. */
  lemma LateStays(st: State, st': State)
    requires AllLate(st) && st'.failures == st.failures && st'.deadLetters == st.deadLetters
    ensures AllLate(st')
  {
    forall d | d in st'.deadLetters
      ensures LateEnough(st', d)
    {
      assert LateEnough(st, d);
    }
  }

  lemma ClaimIsTimed(st: State, w: WorkerId, ids: seq<EventId>, now: Instant)
    requires Timed(st, w) && Enabled(st, Claim(w, ids, now))
    ensures Timed(Apply(st, Claim(w, ids, now)), w)
  {
    ClaimedAreInHand(st, w, ids, now);
    ClaimKeepsRest(st, w, ids, now);
    ClaimKeepsAlone(st, w, ids, now);
    ClaimChanges(st, w, ids, now);
    LateStays(st, Apply(st, Claim(w, ids, now)));
  }

  /** The first item of the batch is done, and its row is settled or resting again. */
  ghost predicate Leaves(st: State, w: WorkerId, row: Row, now: Instant) {
    && Busy(st, w) && st.clock <= now
    && var item := st.workers[w].batch[0];
    && row.attempts == item.attempts
    && (!row.published ==> row.attempts < MAX_ATTEMPTS && Waited(st, item.id, row.attempts + 1, row.availableAt))
  }

  function Left(st: State, w: WorkerId, row: Row, now: Instant): State
    requires Busy(st, w)
  {
    NextItem(SetRow(st.(clock := now), st.workers[w].batch[0].id, row), w)
  }

  lemma LeavingKeepsOrder(st: State, w: WorkerId, row: Row, now: Instant)
    requires Timed(st, w) && Leaves(st, w, row, now)
    ensures InOrder(Left(st, w, row, now), w)
  {
    var batch := st.workers[w].batch;
    forall i | 0 <= i < |batch| - 1
      ensures InHand(Left(st, w, row, now), batch[1..][i])
    {
      assert InHand(st, batch[i + 1]);
      assert batch[0].id != batch[i + 1].id;
    }
  }

  lemma LeavingKeepsRest(st: State, w: WorkerId, row: Row, now: Instant)
    requires Timed(st, w) && Leaves(st, w, row, now)
    ensures AllRest(Left(st, w, row, now), w)
  {
    var batch, st' := st.workers[w].batch, Left(st, w, row, now);
    forall id | id in st'.rows && !Holds(st', w, id)
      ensures Resting(st', id)
    {
      if id != batch[0].id {
        assert forall x <- batch :: x == batch[0] || x in batch[1..];
        assert Resting(st, id);
      }
    }
  }

  lemma LeavingKeepsAlone(st: State, w: WorkerId, row: Row, now: Instant)
    requires Timed(st, w) && Leaves(st, w, row, now)
    ensures Alone(Left(st, w, row, now), w) && AllLate(Left(st, w, row, now))
  {
    var item := st.workers[w].batch[0];
    assert InHand(st, item) || JustFailed(st, item);
    LateStays(st, Left(st, w, row, now));
  }

  /** Moving on: the others are still in hand. */
  lemma NextItemIsTimed(st: State, w: WorkerId, row: Row, now: Instant)
    requires Timed(st, w) && Leaves(st, w, row, now)
    ensures Timed(Left(st, w, row, now), w)
  {
    LeavingKeepsOrder(st, w, row, now);
    LeavingKeepsRest(st, w, row, now);
    LeavingKeepsAlone(st, w, row, now);
  }

  /** A write changes what is known about the first item, and about no other row. */
  lemma WriteKeepsWaits(st: State, w: WorkerId, step: Step, id: EventId)
    requires step.Write? && step.worker == w && Enabled(st, step)
    ensures FirstFailure(Apply(st, step).failures, id)
         == if FirstFailure(st.failures, id).Some? || step.acknowledged || id != st.workers[w].batch[0].id
            then FirstFailure(st.failures, id) else Some(step.at)
  {
    if !step.acknowledged {
      FailureAppended(st.failures, Failure(st.workers[w].batch[0].id, step.at), id);
    }
  }

  lemma WrittenBatchInOrder(st: State, w: WorkerId, step: Step)
    requires step.Write? && step.worker == w && Timed(st, w) && Enabled(st, step)
    ensures var st' := Apply(st, step); BatchInOrder(st', st'.workers[w])
  {
    var k := st.workers[w];
    var st' := Apply(st, step);
    assert WaitBefore(1) == 0;
    forall i | 0 <= i < |k.batch|
      ensures if i == 0 && !step.acknowledged then JustFailed(st', k.batch[i]) else InHand(st', k.batch[i])
    {
      assert InHand(st, k.batch[i]);
      WriteKeepsWaits(st, w, step, k.batch[i].id);
      assert i != 0 ==> k.batch[0].id != k.batch[i].id;
    }
  }

  lemma UnwrittenKeepResting(st: State, w: WorkerId, step: Step, id: EventId)
    requires step.Write? && step.worker == w && Timed(st, w) && Enabled(st, step)
    requires id in st.rows && !Holds(Apply(st, step), w, id)
    ensures id in Apply(st, step).rows && Resting(Apply(st, step), id)
  {
    assert Apply(st, step).workers[w].batch == st.workers[w].batch && Apply(st, step).rows == st.rows;
    assert st.workers[w].batch[0] in st.workers[w].batch;
    assert !Holds(st, w, id) && Resting(st, id);
    WriteKeepsWaits(st, w, step, id);
  }

  lemma WriteKeepsLate(st: State, w: WorkerId, step: Step)
    requires step.Write? && step.worker == w && Timed(st, w) && Enabled(st, step)
    ensures Alone(Apply(st, step), w) && AllLate(Apply(st, step))
  {
    assert InHand(st, st.workers[w].batch[0]);
    forall d | d in st.deadLetters
      ensures LateEnough(Apply(st, step), d)
    {
      assert LateEnough(st, d);
      WriteKeepsWaits(st, w, step, d.id);
    }
  }

  lemma WriteIsTimed(st: State, w: WorkerId, step: Step)
    requires step.Write? && step.worker == w && Timed(st, w) && Enabled(st, step)
    ensures Timed(Apply(st, step), w)
  {
    var st' := Apply(st, step);
    WrittenBatchInOrder(st, w, step);
    forall id | id in st'.rows && !Holds(st', w, id)
      ensures Resting(st', id)
    {
      UnwrittenKeepResting(st, w, step, id);
    }
    WriteKeepsLate(st, w, step);
  }

  lemma BuryIsTimed(st: State, w: WorkerId, now: Instant)
    requires Timed(st, w) && Enabled(st, Bury(w, now))
    ensures Timed(Apply(st, Bury(w, now)), w)
  {
    var k := st.workers[w];
    var st' := Apply(st, Bury(w, now));
    assert JustFailed(st, k.batch[0]);
    forall i | 0 <= i < |k.batch|
      ensures if i == 0 then JustFailed(st', k.batch[i]) else InHand(st', k.batch[i])
    {
      assert i != 0 ==> InHand(st, k.batch[i]);
    }
    forall id | id in st'.rows && !Holds(st', w, id)
      ensures Resting(st', id)
    {
      assert st'.workers[w].batch == k.batch;
      assert Resting(st, id);
    }
  }

  lemma AppendIsTimed(st: State, w: WorkerId, id: EventId, now: Instant)
    requires Timed(st, w) && Enabled(st, Append(id, now))
    ensures Timed(Apply(st, Append(id, now)), w)
  {
    var st' := Apply(st, Append(id, now));
    NoFailureYet(st.failures, id);
    forall x | x in st'.rows && !Holds(st', w, x)
      ensures Resting(st', x)
    {
      if x != id {
        assert Resting(st, x);
      }
    }
    if w in st.workers {
      forall i | 0 <= i < |st.workers[w].batch|
        ensures InHand(st, st.workers[w].batch[i]) ==> InHand(st', st.workers[w].batch[i])
        ensures JustFailed(st, st.workers[w].batch[i]) ==> JustFailed(st', st.workers[w].batch[i])
      {
      }
    }
  }

  /** The two ways a row gets its published_at. */
  lemma {:induction false} PublishingIsTimed(st: State, w: WorkerId, step: Step)
    requires step.MarkPublished? || step.Retire?
    requires step.worker == w && Timed(st, w) && Enabled(st, step)
    ensures Timed(Apply(st, step), w)
  {
    var item := st.workers[w].batch[0];
    assert InHand(st, item) || JustFailed(st, item);
    var row := st.rows[item.id].(published := true);
    NextItemIsTimed(st, w, row, step.at);
    assert Apply(st, step) == Left(st, w, row, step.at);
  }

  lemma WaitGrows(k: nat)
    requires 1 <= k < MAX_ATTEMPTS
    ensures WaitBefore(k + 1) == WaitBefore(k) + Backoff(k)
  {
    WaitsAreExact();
  }

  lemma PostponedWaits(st: State, w: WorkerId, now: Instant)
    requires Timed(st, w) && Enabled(st, Postpone(w, now))
    ensures var item := st.workers[w].batch[0];
            && item.id in st.rows && item.attempts == st.rows[item.id].attempts < MAX_ATTEMPTS
            && Waited(st, item.id, item.attempts + 1, now + Backoff(item.attempts))
  {
    var item := st.workers[w].batch[0];
    assert JustFailed(st, item);
    WaitGrows(item.attempts);
  }

  lemma PostponeIsLeaving(st: State, w: WorkerId, now: Instant)
    requires Enabled(st, Postpone(w, now)) && st.workers[w].batch[0].id in st.rows
    ensures var item := st.workers[w].batch[0];
            Apply(st, Postpone(w, now)) == Left(st, w, st.rows[item.id].(availableAt := now + Backoff(item.attempts)), now)
  {
  }

  lemma {:induction false} PostponedRowLeaves(st: State, w: WorkerId, now: Instant)
    requires Timed(st, w) && Enabled(st, Postpone(w, now))
    ensures var item := st.workers[w].batch[0];
            item.id in st.rows && Leaves(st, w, st.rows[item.id].(availableAt := now + Backoff(item.attempts)), now)
  {
    PostponedWaits(st, w, now);
  }

  lemma {:induction false} PostponingIsTimed(st: State, w: WorkerId, now: Instant)
    requires Timed(st, w) && Enabled(st, Postpone(w, now))
    ensures Timed(Apply(st, Postpone(w, now)), w)
  {
    PostponedRowLeaves(st, w, now);
    PostponeIsLeaving(st, w, now);
    NextItemIsTimed(st, w, st.rows[st.workers[w].batch[0].id].(availableAt := now + Backoff(st.workers[w].batch[0].attempts)), now);
  }

  lemma DoIsTimed(st: State, step: Step, w: WorkerId)
    requires Timed(st, w) && SoleStep(step, w)
    ensures Timed(Do(st, step), w)
  {
    if Enabled(st, step) {
      match step
      case Append(id, at) => AppendIsTimed(st, w, id, at);
      case Claim(_, ids, at) => ClaimIsTimed(st, w, ids, at);
      case Write(_, _, _, _) => WriteIsTimed(st, w, step);
      case Bury(_, at) => BuryIsTimed(st, w, at);
      case MarkPublished(_, _) => PublishingIsTimed(st, w, step);
      case Retire(_, _) => PublishingIsTimed(st, w, step);
      case Postpone(_, at) => PostponingIsTimed(st, w, at);
    }
  }

  lemma {:induction false} RunIsTimed(st: State, steps: seq<Step>, w: WorkerId)
    requires Timed(st, w) && Sole(steps, w)
    ensures Timed(Run(st, steps), w)
  {
    if steps != [] {
      RunIsTimed(st, steps[..|steps| - 1], w);
      DoIsTimed(Run(st, steps[..|steps| - 1]), steps[|steps| - 1], w);
    }
  }

  /** Attempts never exceed eight, and no row is dead-lettered sooner than 254 seconds after its first failure. */
  lemma DeadLettersAreLate(st: State, steps: seq<Step>, w: WorkerId)
    requires Timed(st, w) && Sole(steps, w)
    ensures var end := Run(st, steps);
            && (forall id <- end.rows :: end.rows[id].attempts <= 8)
            && (forall d <- end.deadLetters ::
                  var first := FirstFailure(end.failures, d.id); first.Some? && first.value + 254_000_000_000 <= d.at)
  {
    RunIsTimed(st, steps, w);
    WaitsAreExact();
    forall d | d in Run(st, steps).deadLetters
      ensures LateEnough(Run(st, steps), d)
    {
    }
  }

  /** After failure number k of a row, k from 1 to 7, it waits exactly 2^k seconds. */
  lemma PostponedExactly(st: State, steps: seq<Step>, w: WorkerId, now: Instant)
    requires Timed(st, w) && Sole(steps, w) && Enabled(Run(st, steps), Postpone(w, now))
    ensures var before := Run(st, steps); var id := before.workers[w].batch[0].id;
            var after := Do(before, Postpone(w, now));
            && id in before.rows && id in after.rows
            && 1 <= before.rows[id].attempts <= 7
            && after.rows[id].availableAt == now + Pow2(before.rows[id].attempts) * 1_000_000_000
  {
    RunIsTimed(st, steps, w);
    WaitsAreExact();
    assert JustFailed(Run(st, steps), Run(st, steps).workers[w].batch[0]);
  }

  // ---- Progress -----------------------------------------------------------------------------

  /** The attempts each unpublished row has left. */
  function Outstanding(rows: map<EventId, Row>): map<EventId, int> {
    map id | id in rows && !rows[id].published :: 8 - rows[id].attempts
  }

  ghost function Remaining(st: State): int {
    Sum(Outstanding(st.rows))
  }

  lemma {:induction false} ClaimSpends(rows: map<EventId, Row>, ids: seq<EventId>)
    requires forall i, j :: 0 <= i < j < |ids| ==> ids[i] != ids[j]
    requires forall id <- ids :: id in rows && !rows[id].published
    ensures Sum(Outstanding(Claimed(rows, ids))) == Sum(Outstanding(rows)) - |ids|
  {
    if ids == [] {
      assert Claimed(rows, ids) == rows;
    } else {
      var front, last := ids[..|ids| - 1], ids[|ids| - 1];
      assert ids == front + [last];
      ClaimSpends(rows, front);
      assert last !in front;
      assert last in ids;
      OneMoreSpends(rows, front, last);
    }
  }

  lemma OneMoreSpends(rows: map<EventId, Row>, front: seq<EventId>, last: EventId)
    requires last !in front && last in rows && !rows[last].published
    ensures Sum(Outstanding(Claimed(rows, front + [last]))) == Sum(Outstanding(Claimed(rows, front))) - 1
  {
    ClaimOneMore(rows, front, last);
    var most := Outstanding(Claimed(rows, front));
    SumUpdate(most, last, most[last] - 1);
  }

  lemma ClaimOneMore(rows: map<EventId, Row>, front: seq<EventId>, last: EventId)
    requires last !in front && last in rows && !rows[last].published
    ensures var most := Outstanding(Claimed(rows, front));
            last in most && Outstanding(Claimed(rows, front + [last])) == most[last := most[last] - 1]
  {
    var most := Outstanding(Claimed(rows, front));
    var more := Outstanding(Claimed(rows, front + [last]));
    assert forall id :: id in front + [last] <==> id in front || id == last;
    assert more.Keys == most.Keys;
    assert forall id <- more :: more[id] == most[last := most[last] - 1][id];
  }

  lemma PublishSpends(rows: map<EventId, Row>, id: EventId, row: Row)
    requires id in rows && !rows[id].published && rows[id].attempts <= MAX_ATTEMPTS
    requires row.published
    ensures Sum(Outstanding(rows[id := row])) <= Sum(Outstanding(rows))
  {
    SumSplit(Outstanding(rows), id);
    assert Outstanding(rows[id := row]) == Outstanding(rows) - {id};
  }

  function ClaimedBy(st: State, step: Step): nat {
    if step.Claim? && Enabled(st, step) then |step.ids| else 0
  }

  /** A claim spends one attempt per claimed row, and no other step of the worker gives any back. */
  lemma DoSpends(st: State, step: Step, w: WorkerId)
    requires Timed(st, w) && SoleStep(step, w) && !step.Append?
    ensures Remaining(Do(st, step)) <= Remaining(st) - ClaimedBy(st, step)
  {
    if Enabled(st, step) {
      match step
      case Claim(_, ids, _) => ClaimSpends(st.rows, ids);
      case MarkPublished(_, _) =>
        var item := st.workers[w].batch[0];
        assert InHand(st, item);
        PublishSpends(st.rows, item.id, st.rows[item.id].(published := true));
      case Retire(_, _) =>
        var item := st.workers[w].batch[0];
        assert JustFailed(st, item);
        PublishSpends(st.rows, item.id, st.rows[item.id].(published := true));
      case Postpone(_, at) =>
        assert Outstanding(Do(st, step).rows) == Outstanding(st.rows);
      case Write(_, _, _, _) =>
      case Bury(_, _) =>
    }
  }

  function ClaimCount(st: State, steps: seq<Step>): nat {
    if steps == [] then 0
    else ClaimCount(st, steps[..|steps| - 1]) + ClaimedBy(Run(st, steps[..|steps| - 1]), steps[|steps| - 1])
  }

  lemma {:induction false} RunSpends(st: State, steps: seq<Step>, w: WorkerId)
    requires Timed(st, w) && Sole(steps, w) && forall step <- steps :: !step.Append?
    ensures ClaimCount(st, steps) + Remaining(Run(st, steps)) <= Remaining(st)
  {
    if steps != [] {
      RunSpends(st, steps[..|steps| - 1], w);
      RunIsTimed(st, steps[..|steps| - 1], w);
      DoSpends(Run(st, steps[..|steps| - 1]), steps[|steps| - 1], w);
    }
  }

  ghost predicate Settled(st: State) {
    forall id <- st.rows :: st.rows[id].published
  }

  /**
   Between cycles, no attempts are left exactly when every row is settled; otherwise some row can be claimed
   once it is due.
   */
  lemma IdleMeasure(st: State, w: WorkerId)
    requires Timed(st, w) && !Busy(st, w)
    ensures 0 <= Remaining(st)
    ensures Remaining(st) == 0 <==> Settled(st)
    ensures forall id <- st.rows, now: Instant :: !st.rows[id].published && st.clock <= now && st.rows[id].availableAt <= now
              ==> Enabled(st, Claim(w, [id], now))
  {
    SumNonNegative(Outstanding(st.rows));
    forall id | id in st.rows
      ensures Resting(st, id)
    {
      assert !Holds(st, w, id);
    }
    if Settled(st) {
      assert Outstanding(st.rows) == map[];
    }
    assert forall id <- st.rows :: !st.rows[id].published ==> id in Outstanding(st.rows);
  }
}
