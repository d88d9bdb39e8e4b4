/**
 Whole cycles of `RunOnce`: which rows a cycle claims, that the cycles of a lone worker
 settle every row, and the relay object.
 */
module OutboxRelayCycles {
  import opened Ordering
  import opened Results
  import opened OutboxRelay
  import opened OutboxRelayProgress

  // ---- Which rows are claimed ---------------------------------------------------------------

  /** ORDER BY created_at, event_id. */
  predicate Before(rows: map<EventId, Row>, a: EventId, b: EventId)
    requires a in rows && b in rows
  {
    rows[a].created < rows[b].created || (rows[a].created == rows[b].created && Less(a, b))
  }

  /** published_at IS NULL AND available_at <= now. */
  predicate IsDue(st: State, id: EventId, now: Instant) {
    id in st.rows && !st.rows[id].published && st.rows[id].availableAt <= now
  }

  /**
   What a lone worker's SELECT ... LIMIT 100 returns, in any order: due rows, and the oldest ones if there are
   more.
   */
  ghost predicate Selects(st: State, ids: seq<EventId>, now: Instant) {
    && |ids| <= 100
    && (forall i, j :: 0 <= i < j < |ids| ==> ids[i] != ids[j])
    && (forall id <- ids :: IsDue(st, id, now))
    && (forall id :: IsDue(st, id, now) && id !in ids ==> LeftBehind(st, ids, id))
  }

  /** A row that waits because a full batch of older ones goes first. */
  ghost predicate LeftBehind(st: State, ids: seq<EventId>, id: EventId)
    requires id in st.rows
  {
    && |ids| == 100
    && forall x <- ids ::
         && x in st.rows
         && (st.rows[x].created < st.rows[id].created || (st.rows[x].created == st.rows[id].created && Less(x, id)))
  }

  lemma {:induction false} BeforeIsTotal(rows: map<EventId, Row>, a: EventId, b: EventId)
    requires a in rows && b in rows
    ensures a != b ==> Before(rows, a, b) || Before(rows, b, a)
    ensures !(Before(rows, a, b) && Before(rows, b, a))
  {
    LessIsTotal(a, b);
  }

  lemma {:induction false} BeforeIsTransitive(rows: map<EventId, Row>, a: EventId, b: EventId, c: EventId)
    requires a in rows && b in rows && c in rows && Before(rows, a, b) && Before(rows, b, c)
    ensures Before(rows, a, c)
  {
    if Less(a, b) && Less(b, c) {
      LessIsTransitive(a, b, c);
    }
  }

  ghost function Elements(ids: seq<EventId>): set<EventId> {
    set id | id in ids
  }

  lemma {:induction false} ElementsCount(ids: seq<EventId>)
    requires forall i, j :: 0 <= i < j < |ids| ==> ids[i] != ids[j]
    ensures |Elements(ids)| == |ids|
  {
    if ids == [] {
      assert Elements(ids) == {};
    } else {
      var front, last := ids[..|ids| - 1], ids[|ids| - 1];
      ElementsCount(front);
      assert ids == front + [last];
      assert Elements(ids) == Elements(front) + {last};
    }
  }

  /** The claim statement decides which rows are claimed: two selections at one instant have the same rows. */
  lemma {:induction false} SelectionIsUnique(st: State, a: seq<EventId>, b: seq<EventId>, now: Instant)
    requires Selects(st, a, now) && Selects(st, b, now)
    ensures Elements(a) == Elements(b)
  {
    SelectionIsIncluded(st, a, b, now);
    SelectionIsIncluded(st, b, a, now);
  }

  lemma {:induction false} SelectionIsIncluded(st: State, a: seq<EventId>, b: seq<EventId>, now: Instant)
    requires Selects(st, a, now) && Selects(st, b, now)
    ensures Elements(a) <= Elements(b)
  {
    forall x | x in Elements(a)
      ensures x in Elements(b)
    {
      if x !in Elements(b) {
        SelectedRowIsShared(st, a, b, now, x);
      }
    }
  }

  lemma {:induction false} SelectedRowIsShared(st: State, a: seq<EventId>, b: seq<EventId>, now: Instant, x: EventId)
    requires Selects(st, a, now) && Selects(st, b, now) && x in a
    ensures x in b
  {
    if x !in b {
      assert LeftBehind(st, b, x);
      ElementsCount(a);
      ElementsCount(b);
      var y := MissedBy(Elements(a), Elements(b), x);
      assert LeftBehind(st, a, y);
      BeforeIsTotal(st.rows, x, y);
    }
  }

  /** A set no larger than another that has an element of its own misses one of the other's. */
  lemma {:induction false} MissedBy(a: set<EventId>, b: set<EventId>, x: EventId) returns (y: EventId)
    requires |a| <= |b| && x in a && x !in b
    ensures y in b && y !in a
  {
    if b - a == {} {
      assert forall z <- b :: z in b - a || z in a - {x};
      SubsetIsSmaller(b, a - {x});
    }
    y :| y in b - a;
  }

  lemma {:induction false} SubsetIsSmaller(a: set<EventId>, b: set<EventId>)
    requires a <= b
    ensures |a| <= |b|
  {
    assert b == a + (b - a);
  }

  // ---- The statements of a cycle ----------------------------------------------------------------

  /** How Kafka answers one write, and when. */
  datatype Answer = Answer(delivered: bool, acknowledged: bool, at: Instant)

  ghost predicate Timely(answers: seq<Answer>, now: Instant) {
    && (forall a <- answers :: now <= a.at && (a.acknowledged ==> a.delivered))
    && (forall i, j :: 0 <= i < j < |answers| ==> answers[i].at <= answers[j].at)
  }

  /** The statements one item of a batch leads to. */
  function ItemSteps(w: WorkerId, item: Item, a: Answer): seq<Step> {
    [Write(w, a.delivered, a.acknowledged, a.at)]
    + if a.acknowledged then [MarkPublished(w, a.at)]
      else if MAX_ATTEMPTS <= item.attempts then [Bury(w, a.at), Retire(w, a.at)]
      else [Postpone(w, a.at)]
  }

  function CycleSteps(w: WorkerId, batch: seq<Item>, answers: seq<Answer>): seq<Step>
    requires |batch| == |answers|
  {
    if batch == [] then []
    else CycleSteps(w, batch[..|batch| - 1], answers[..|batch| - 1]) + ItemSteps(w, batch[|batch| - 1], answers[|batch| - 1])
  }

  function Acknowledged(answers: seq<Answer>): nat {
    if answers == [] then 0
    else Acknowledged(answers[..|answers| - 1]) + if answers[|answers| - 1].acknowledged then 1 else 0
  }

  /** The number a cycle returns: as many as there are answers by which Kafka says it took the write. */
  lemma {:induction false} AcknowledgedCounts(answers: seq<Answer>)
    ensures Acknowledged(answers) == |set i: nat | i < |answers| && answers[i].acknowledged|
  {
    if answers != [] {
      var n := |answers| - 1;
      AcknowledgedCounts(answers[..n]);
      var before := set i: nat | i < |answers[..n]| && answers[..n][i].acknowledged;
      assert (set i: nat | i < |answers| && answers[i].acknowledged) == before + if answers[n].acknowledged then {n} else {};
    }
  }

  lemma AcknowledgedNext(answers: seq<Answer>, i: nat)
    requires i < |answers|
    ensures Acknowledged(answers[..i + 1]) == Acknowledged(answers[..i]) + if answers[i].acknowledged then 1 else 0
  {
    assert answers[..i + 1][..i] == answers[..i];
  }

  lemma RunOne(st: State, step: Step)
    ensures Run(st, [step]) == Do(st, step)
  {
    assert [step][..0] == [];
  }

  lemma RunTwo(st: State, first: Step, second: Step)
    ensures Run(st, [first, second]) == Do(Do(st, first), second)
  {
    assert [first, second][..1] == [first];
    RunOne(st, first);
  }

  /** Where the statements of one item lead. */
  function Delivered(st: State, w: WorkerId, item: Item, a: Answer): State
    requires Busy(st, w) && item.id in st.rows
  {
    var moved := st.(clock := a.at, topic := if a.delivered then st.topic + [item.id] else st.topic,
                     workers := st.workers[w := Worker(st.workers[w].batch[1..], Ready)]);
    if a.acknowledged then SetRow(moved, item.id, st.rows[item.id].(published := true))
    else
      var failed := moved.(failures := st.failures + [Failure(item.id, a.at)]);
      if MAX_ATTEMPTS <= item.attempts then
        SetRow(failed, item.id, st.rows[item.id].(published := true))
        .(deadLetters := st.deadLetters + [DeadLetter(item.id, item.attempts, a.at)])
      else SetRow(failed, item.id, st.rows[item.id].(availableAt := a.at + Backoff(item.attempts)))
  }

  ghost predicate AtItem(st: State, w: WorkerId, item: Item, a: Answer) {
    && Busy(st, w) && st.workers[w].stage == Ready && st.workers[w].batch[0] == item
    && item.id in st.rows && st.clock <= a.at && (a.acknowledged ==> a.delivered)
  }

  lemma RunThree(st: State, first: Step, second: Step, third: Step)
    ensures Run(st, [first, second, third]) == Do(Do(Do(st, first), second), third)
  {
    assert [first, second, third][..2] == [first, second];
    RunTwo(st, first, second);
  }

  lemma ThreeStepsDeliver(st: State, w: WorkerId, item: Item, a: Answer)
    requires AtItem(st, w, item, a) && !a.acknowledged && MAX_ATTEMPTS <= item.attempts
    ensures Do(Do(Do(st, Write(w, a.delivered, a.acknowledged, a.at)), Bury(w, a.at)), Retire(w, a.at))
         == Delivered(st, w, item, a)
  {
    assert Do(Do(st, Write(w, a.delivered, a.acknowledged, a.at)), Bury(w, a.at)).workers[w] == Worker(st.workers[w].batch, Buried);
  }

  lemma ExhaustedItemDelivers(st: State, w: WorkerId, item: Item, a: Answer)
    requires AtItem(st, w, item, a) && !a.acknowledged && MAX_ATTEMPTS <= item.attempts
    ensures Run(st, ItemSteps(w, item, a)) == Delivered(st, w, item, a)
  {
    var write := Write(w, a.delivered, a.acknowledged, a.at);
    ThreeStepsDeliver(st, w, item, a);
    RunThree(st, write, Bury(w, a.at), Retire(w, a.at));
    assert ItemSteps(w, item, a) == [write, Bury(w, a.at), Retire(w, a.at)];
  }

  lemma TwoStepsDeliver(st: State, w: WorkerId, item: Item, a: Answer)
    requires AtItem(st, w, item, a) && (a.acknowledged || item.attempts < MAX_ATTEMPTS)
    ensures Do(Do(st, Write(w, a.delivered, a.acknowledged, a.at)), if a.acknowledged then MarkPublished(w, a.at) else Postpone(w, a.at))
         == Delivered(st, w, item, a)
  {
  }

  lemma ItemStepsDeliver(st: State, w: WorkerId, item: Item, a: Answer)
    requires AtItem(st, w, item, a)
    ensures Run(st, ItemSteps(w, item, a)) == Delivered(st, w, item, a)
  {
    if a.acknowledged || item.attempts < MAX_ATTEMPTS {
      var write := Write(w, a.delivered, a.acknowledged, a.at);
      var last := if a.acknowledged then MarkPublished(w, a.at) else Postpone(w, a.at);
      TwoStepsDeliver(st, w, item, a);
      RunTwo(st, write, last);
      assert ItemSteps(w, item, a) == [write, last];
    } else {
      ExhaustedItemDelivers(st, w, item, a);
    }
  }

  /** The state after the first `i` items of a batch. */
  ghost function CycleState(st: State, w: WorkerId, batch: seq<Item>, answers: seq<Answer>, i: nat): State
    requires |batch| == |answers| && i <= |batch|
  {
    Run(st, CycleSteps(w, batch[..i], answers[..i]))
  }

  /** A cycle goes item by item. */
  lemma CycleGoesOn(st: State, w: WorkerId, batch: seq<Item>, answers: seq<Answer>, i: nat)
    requires |batch| == |answers| && i < |batch|
    requires AtItem(CycleState(st, w, batch, answers, i), w, batch[i], answers[i])
    ensures CycleState(st, w, batch, answers, i + 1) == Delivered(CycleState(st, w, batch, answers, i), w, batch[i], answers[i])
  {
    assert batch[..i + 1][..i] == batch[..i] && answers[..i + 1][..i] == answers[..i];
    RunConcat(st, CycleSteps(w, batch[..i], answers[..i]), ItemSteps(w, batch[i], answers[i]));
    ItemStepsDeliver(CycleState(st, w, batch, answers, i), w, batch[i], answers[i]);
  }

  /** A worker has `i` items of its batch behind it, and the rest before it. */
  ghost predicate CycleAt(st: State, now: State, w: WorkerId, batch: seq<Item>, answers: seq<Answer>, i: nat)
    requires |batch| == |answers| && i <= |batch|
  {
    && now == CycleState(st, w, batch, answers, i)
    && w in now.workers && now.workers[w] == Worker(batch[i..], Ready)
    && now.rows.Keys == st.rows.Keys
  }

  lemma DeliveredMovesOn(st: State, w: WorkerId, item: Item, a: Answer)
    requires AtItem(st, w, item, a)
    ensures var next := Delivered(st, w, item, a);
            && w in next.workers && next.workers[w] == Worker(st.workers[w].batch[1..], Ready)
            && next.rows.Keys == st.rows.Keys && next.clock == a.at
  {
  }

  lemma NextCycleAt(st: State, now: State, w: WorkerId, batch: seq<Item>, answers: seq<Answer>, i: nat)
    requires |batch| == |answers| && i < |batch| && CycleAt(st, now, w, batch, answers, i)
    requires AtItem(now, w, batch[i], answers[i])
    ensures CycleAt(st, Delivered(now, w, batch[i], answers[i]), w, batch, answers, i + 1)
  {
    CycleGoesOn(st, w, batch, answers, i);
    DeliveredMovesOn(now, w, batch[i], answers[i]);
    assert batch[i..][1..] == batch[i + 1..];
  }

  lemma CycleBegins(st: State, w: WorkerId, batch: seq<Item>, answers: seq<Answer>)
    requires |batch| == |answers| && w in st.workers && st.workers[w] == Worker(batch, Ready)
    ensures CycleAt(st, st, w, batch, answers, 0)
  {
    assert batch[0..] == batch && batch[..0] == [];
  }

  lemma ItemIsNext(st: State, now: State, w: WorkerId, batch: seq<Item>, answers: seq<Answer>, i: nat)
    requires |batch| == |answers| && i < |batch| && CycleAt(st, now, w, batch, answers, i)
    requires (forall item <- batch :: item.id in st.rows) && (forall a <- answers :: a.acknowledged ==> a.delivered)
    requires now.clock <= answers[i].at
    ensures AtItem(now, w, batch[i], answers[i])
  {
    assert answers[i] in answers && batch[i] in batch;
    assert now.workers[w].batch[0] == batch[i];
  }

  // ---- Whole cycles -------------------------------------------------------------------------------

  /** One call of `RunOnce`: the rows it claims, when, and what Kafka answers. */
  datatype Cycle = Cycle(ids: seq<EventId>, now: Instant, answers: seq<Answer>)

  ghost predicate CanRun(st: State, w: WorkerId, c: Cycle) {
    !Busy(st, w) && st.clock <= c.now && Selects(st, c.ids, c.now) && |c.answers| == |c.ids| && Timely(c.answers, c.now)
  }

  ghost function StepsOf(st: State, w: WorkerId, c: Cycle): seq<Step>
    requires CanRun(st, w, c)
  {
    [Claim(w, c.ids, c.now)] + CycleSteps(w, Items(Claimed(st.rows, c.ids), c.ids), c.answers)
  }

  lemma {:induction false} CycleRuns(st: State, w: WorkerId, batch: seq<Item>, answers: seq<Answer>, i: nat)
    requires |batch| == |answers| && i <= |batch| && w in st.workers && st.workers[w] == Worker(batch, Ready)
    requires (forall item <- batch :: item.id in st.rows) && Timely(answers, st.clock)
    ensures Turning(st, CycleState(st, w, batch, answers, i), w, batch, answers, i)
  {
    if i == 0 {
      BatchBegins(st, w, batch, answers);
    } else {
      CycleRuns(st, w, batch, answers, i - 1);
      var now := CycleState(st, w, batch, answers, i - 1);
      ItemIsNext(st, now, w, batch, answers, i - 1);
      NextCycleAt(st, now, w, batch, answers, i - 1);
      DeliveredMovesOn(now, w, batch[i - 1], answers[i - 1]);
    }
  }

  lemma {:induction false} CycleEndsIdle(st: State, w: WorkerId, batch: seq<Item>, answers: seq<Answer>)
    requires |batch| == |answers| && w in st.workers && st.workers[w] == Worker(batch, Ready)
    requires (forall item <- batch :: item.id in st.rows) && Timely(answers, st.clock)
    ensures !Busy(Run(st, CycleSteps(w, batch, answers)), w)
  {
    CycleRuns(st, w, batch, answers, |batch|);
    BatchEnds(st, CycleState(st, w, batch, answers, |batch|), w, batch, answers);
  }

  /** A worker's own step that is no claim and appends nothing. */
  ghost predicate Follows(step: Step, w: WorkerId) {
    SoleStep(step, w) && !step.Append? && !step.Claim?
  }

  lemma {:induction false} CycleStepsFollow(w: WorkerId, batch: seq<Item>, answers: seq<Answer>)
    requires |batch| == |answers|
    ensures forall step <- CycleSteps(w, batch, answers) :: Follows(step, w)
  {
    if batch != [] {
      CycleStepsFollow(w, batch[..|batch| - 1], answers[..|batch| - 1]);
    }
  }

  lemma {:induction false} ClaimCountGrows(st: State, first: Step, rest: seq<Step>)
    ensures ClaimedBy(st, first) <= ClaimCount(st, [first] + rest)
  {
    var all := [first] + rest;
    if rest == [] {
      assert all == [first] && [first][..0] == [];
      assert ClaimCount(st, [first]) == ClaimCount(st, []) + ClaimedBy(Run(st, []), first);
    } else {
      assert all[..|all| - 1] == [first] + rest[..|rest| - 1];
      ClaimCountGrows(st, first, rest[..|rest| - 1]);
    }
  }

  /** A cycle is a run of the worker's own steps that appends nothing, claims what it selected, and ends idle. */
  lemma {:induction false} CycleFacts(st: State, w: WorkerId, c: Cycle)
    requires CanRun(st, w, c)
    ensures var steps := StepsOf(st, w, c);
            WholeCycle(st, steps, w) && |c.ids| <= ClaimCount(st, steps)
  {
    var claim := Claim(w, c.ids, c.now);
    var batch := Items(Claimed(st.rows, c.ids), c.ids);
    CycleStepsFollow(w, batch, c.answers);
    ClaimCountGrows(st, claim, CycleSteps(w, batch, c.answers));
    BatchIsClaimed(st, w, c);
    CycleEndsIdle(Do(st, claim), w, batch, c.answers);
    RunFirst(st, claim, CycleSteps(w, batch, c.answers));
  }

  lemma RunFirst(st: State, first: Step, rest: seq<Step>)
    ensures Run(st, [first] + rest) == Run(Do(st, first), rest)
  {
    RunOne(st, first);
    RunConcat(st, [first], rest);
  }

  lemma BatchIsClaimed(st: State, w: WorkerId, c: Cycle)
    requires CanRun(st, w, c)
    ensures var claimed := Do(st, Claim(w, c.ids, c.now)); var batch := Items(Claimed(st.rows, c.ids), c.ids);
            && w in claimed.workers && claimed.workers[w] == Worker(batch, Ready)
            && claimed.clock == c.now && forall item <- batch :: item.id in claimed.rows
  {
    assert forall i :: 0 <= i < |c.ids| ==> c.ids[i] in c.ids;
  }

  // ---- Every row settles ----------------------------------------------------------------------------

  /** The worker's own steps, without a crash, a database error or a new row, from idle to idle. */
  ghost predicate WholeCycle(st: State, steps: seq<Step>, w: WorkerId) {
    Sole(steps, w) && (forall step <- steps :: !step.Append?) && !Busy(Run(st, steps), w)
  }

  ghost function After(st: State, cycles: seq<seq<Step>>): State {
    if cycles == [] then st else Run(After(st, cycles[..|cycles| - 1]), cycles[|cycles| - 1])
  }

  ghost predicate WholeCycles(st: State, cycles: seq<seq<Step>>, w: WorkerId) {
    cycles == [] || (WholeCycles(st, cycles[..|cycles| - 1], w)
                     && WholeCycle(After(st, cycles[..|cycles| - 1]), cycles[|cycles| - 1], w))
  }

  /** The cycles that claim a row, or start with every row settled. */
  ghost function Gainful(st: State, cycles: seq<seq<Step>>): nat {
    if cycles == [] then 0
    else
      var before := After(st, cycles[..|cycles| - 1]);
      Gainful(st, cycles[..|cycles| - 1])
      + if Settled(before) || 1 <= ClaimCount(before, cycles[|cycles| - 1]) then 1 else 0
  }

  lemma DoAddsNoRow(st: State, step: Step)
    requires !step.Append?
    ensures Do(st, step).rows.Keys == st.rows.Keys
  {
  }

  lemma {:induction false} RunAddsNoRow(st: State, steps: seq<Step>)
    requires forall step <- steps :: !step.Append?
    ensures Run(st, steps).rows.Keys == st.rows.Keys
  {
    if steps != [] {
      RunAddsNoRow(st, steps[..|steps| - 1]);
      DoAddsNoRow(Run(st, steps[..|steps| - 1]), steps[|steps| - 1]);
    }
  }

  lemma {:induction false} SettledStays(st: State, steps: seq<Step>)
    requires Settled(st) && forall step <- steps :: !step.Append?
    ensures Settled(Run(st, steps))
  {
    RunAddsNoRow(st, steps);
    RunGrows(st, steps);
  }

  /** What the cycles keep, and what they spend. */
  lemma {:induction false} CyclesSpend(st: State, cycles: seq<seq<Step>>, w: WorkerId)
    requires Timed(st, w) && Safe(st) && !Busy(st, w) && WholeCycles(st, cycles, w)
    ensures var end := After(st, cycles);
            && Timed(end, w) && Safe(end) && !Busy(end, w)
            && (Settled(end) || Gainful(st, cycles) + Remaining(end) <= Remaining(st))
  {
    if cycles != [] {
      var before, last := After(st, cycles[..|cycles| - 1]), cycles[|cycles| - 1];
      CyclesSpend(st, cycles[..|cycles| - 1], w);
      RunIsTimed(before, last, w);
      RunIsSafe(before, last);
      if Settled(before) {
        SettledStays(before, last);
      } else {
        RunSpends(before, last, w);
      }
    }
  }

  /**
   Every row settles: when as many cycles of a lone worker claim a row, or find all settled, as there
   are attempts left, every row is published, and on the topic or in the dead-letter table. Idle
   cycles in between do not matter, and nor does how Kafka answers.
   */
  lemma {:induction false} EveryRowSettles(st: State, cycles: seq<seq<Step>>, w: WorkerId)
    requires Timed(st, w) && Safe(st) && !Busy(st, w) && WholeCycles(st, cycles, w)
    requires Remaining(st) <= Gainful(st, cycles)
    ensures var end := After(st, cycles);
            Settled(end) && forall id <- end.rows :: InTopic(end, id) || DeadLettered(end, id)
  {
    var end := After(st, cycles);
    CyclesSpend(st, cycles, w);
    IdleMeasure(end, w);
    forall id | id in end.rows
      ensures Accounted(end, id)
    {
    }
  }

  // ---- Cycles of RunOnce ------------------------------------------------------------------------------

  const LONGEST_WAIT: int := 128_000_000_000

  ghost predicate DueBy(st: State, t: Instant) {
    forall id <- st.rows :: !st.rows[id].published ==> st.rows[id].availableAt <= t
  }

  /** Every unpublished row is due within the longest wait. */
  ghost predicate SoonDue(st: State) {
    DueBy(st, st.clock + LONGEST_WAIT)
  }

  lemma DoKeepsSoon(st: State, step: Step, w: WorkerId)
    requires Timed(st, w) && SoleStep(step, w) && SoonDue(st)
    ensures SoonDue(Do(st, step))
  {
    if step.Postpone? && Enabled(st, step) {
      PostponedWaits(st, w, step.at);
      WaitsAreExact();
      BackoffIsShort(st.workers[w].batch[0].attempts);
    }
  }

  lemma BackoffIsShort(k: nat)
    requires k < MAX_ATTEMPTS
    ensures Backoff(k) <= LONGEST_WAIT
  {
    assert Pow2(1) == 2 && Pow2(2) == 4 && Pow2(3) == 8 && Pow2(4) == 16;
    assert Pow2(5) == 32 && Pow2(6) == 64;
    assert k == 0 || k == 1 || k == 2 || k == 3 || k == 4 || k == 5 || k == 6 || k == 7;
  }

  lemma {:induction false} RunKeepsSoon(st: State, steps: seq<Step>, w: WorkerId)
    requires Timed(st, w) && Sole(steps, w) && SoonDue(st)
    ensures SoonDue(Run(st, steps))
  {
    if steps != [] {
      RunKeepsSoon(st, steps[..|steps| - 1], w);
      RunIsTimed(st, steps[..|steps| - 1], w);
      DoKeepsSoon(Run(st, steps[..|steps| - 1]), steps[|steps| - 1], w);
    }
  }

  /** A cycle claims a row exactly when some row is due. */
  lemma CycleClaimsExactly(st: State, w: WorkerId, c: Cycle)
    requires CanRun(st, w, c)
    ensures c.ids != [] <==> exists id :: IsDue(st, id, c.now)
  {
    if c.ids != [] {
      assert c.ids[0] in c.ids && Due(st, c.ids[0], c.now);
    }
    forall id | Due(st, id, c.now)
      ensures c.ids != []
    {
      assert id in c.ids || LeftBehind(st, c.ids, id);
    }
  }

  /** A cycle that begins when every unpublished row is due claims one, unless all are settled. */
  lemma LateCycleClaims(st: State, w: WorkerId, c: Cycle)
    requires CanRun(st, w, c) && DueBy(st, c.now)
    ensures Settled(st) || 1 <= ClaimCount(st, StepsOf(st, w, c))
  {
    if id :| id in st.rows && !st.rows[id].published {
      assert IsDue(st, id, c.now);
      CycleClaimsExactly(st, w, c);
      CycleFacts(st, w, c);
    }
  }

  /** A cycle that claims no row changes none. */
  lemma IdleCycleKeepsRows(st: State, w: WorkerId, c: Cycle)
    requires CanRun(st, w, c) && ClaimCount(st, StepsOf(st, w, c)) == 0
    ensures Run(st, StepsOf(st, w, c)).rows == st.rows
  {
    CycleFacts(st, w, c);
    assert c.ids == [] && Claimed(st.rows, []) == st.rows;
    RunOne(st, Claim(w, [], c.now));
  }

  /** The statements of a sequence of cycles, each from the state the one before it left. */
  ghost function StepsOfAll(st: State, w: WorkerId, cycles: seq<Cycle>): seq<seq<Step>>
    requires CanRunAll(st, w, cycles)
    decreases |cycles|, 1
  {
    if cycles == [] then []
    else
      var front, last := cycles[..|cycles| - 1], cycles[|cycles| - 1];
      StepsOfAll(st, w, front) + [StepsOf(After(st, StepsOfAll(st, w, front)), w, last)]
  }

  ghost predicate CanRunAll(st: State, w: WorkerId, cycles: seq<Cycle>)
    decreases |cycles|, 0
  {
    cycles == []
    || (CanRunAll(st, w, cycles[..|cycles| - 1])
        && CanRun(After(st, StepsOfAll(st, w, cycles[..|cycles| - 1])), w, cycles[|cycles| - 1]))
  }

  /** How many times the longest wait has passed over some cycles, and since when it has not. */
  datatype Pace = Pace(rounds: nat, since: Instant)

  /** A round ends with the first cycle that begins at least the longest wait after the end of the round before. */
  ghost function PaceOf(st: State, w: WorkerId, cycles: seq<Cycle>): Pace
    requires CanRunAll(st, w, cycles)
  {
    if cycles == [] then Pace(0, st.clock)
    else
      var before, last := PaceOf(st, w, cycles[..|cycles| - 1]), cycles[|cycles| - 1];
      if before.since + LONGEST_WAIT <= last.now
      then Pace(before.rounds + 1, After(st, StepsOfAll(st, w, cycles)).clock)
      else before
  }

  /**
   Each round has had a gainful cycle; unless there was one more since, every unpublished row is due when the
   round ends.
   */
  ghost predicate OnPace(st: State, cycles: seq<seq<Step>>, p: Pace) {
    && p.rounds <= Gainful(st, cycles)
    && (p.rounds < Gainful(st, cycles) || DueBy(After(st, cycles), p.since + LONGEST_WAIT))
  }

  lemma {:induction false} CyclesAppend(st: State, cycles: seq<seq<Step>>, steps: seq<Step>, w: WorkerId)
    ensures After(st, cycles + [steps]) == Run(After(st, cycles), steps)
    ensures WholeCycles(st, cycles + [steps], w) <==> WholeCycles(st, cycles, w) && WholeCycle(After(st, cycles), steps, w)
    ensures Gainful(st, cycles + [steps])
         == Gainful(st, cycles) + if Settled(After(st, cycles)) || 1 <= ClaimCount(After(st, cycles), steps) then 1 else 0
  {
    assert (cycles + [steps])[..|cycles|] == cycles;
  }

  lemma {:induction false} CyclesAreWhole(st: State, w: WorkerId, cycles: seq<Cycle>)
    requires Timed(st, w) && Safe(st) && !Busy(st, w) && SoonDue(st) && CanRunAll(st, w, cycles)
    ensures WholeCycles(st, StepsOfAll(st, w, cycles), w) && SoonDue(After(st, StepsOfAll(st, w, cycles)))
  {
    if cycles != [] {
      var front, last := cycles[..|cycles| - 1], cycles[|cycles| - 1];
      CyclesAreWhole(st, w, front);
      var steps := StepsOfAll(st, w, front);
      CyclesSpend(st, steps, w);
      CycleFacts(After(st, steps), w, last);
      RunKeepsSoon(After(st, steps), StepsOf(After(st, steps), w, last), w);
      CyclesAppend(st, steps, StepsOf(After(st, steps), w, last), w);
    }
  }

  /** One more cycle keeps the pace, whether or not it ends a round. */
  lemma {:induction false} NextCycleKeepsPace(st: State, w: WorkerId, cycles: seq<seq<Step>>, p: Pace, c: Cycle)
    requires OnPace(st, cycles, p) && CanRun(After(st, cycles), w, c)
    requires SoonDue(Run(After(st, cycles), StepsOf(After(st, cycles), w, c)))
    ensures var now := After(st, cycles); var steps := StepsOf(now, w, c);
            OnPace(st, cycles + [steps],
                   if p.since + LONGEST_WAIT <= c.now then Pace(p.rounds + 1, Run(now, steps).clock) else p)
  {
    var now := After(st, cycles);
    var steps := StepsOf(now, w, c);
    CyclesAppend(st, cycles, steps, w);
    if p.rounds == Gainful(st, cycles) && p.since + LONGEST_WAIT <= c.now {
      LateCycleClaims(now, w, c);
    }
    if ClaimCount(now, steps) == 0 {
      IdleCycleKeepsRows(now, w, c);
    }
  }

  lemma {:induction false} PaceGoesOn(st: State, w: WorkerId, cycles: seq<Cycle>)
    requires cycles != [] && CanRunAll(st, w, cycles)
    ensures var front, last := cycles[..|cycles| - 1], cycles[|cycles| - 1];
            var before := StepsOfAll(st, w, front); var p := PaceOf(st, w, front);
            var steps := StepsOf(After(st, before), w, last);
            && StepsOfAll(st, w, cycles) == before + [steps]
            && PaceOf(st, w, cycles) == if p.since + LONGEST_WAIT <= last.now
                                        then Pace(p.rounds + 1, Run(After(st, before), steps).clock) else p
  {
    var before := StepsOfAll(st, w, cycles[..|cycles| - 1]);
    CyclesAppend(st, before, StepsOf(After(st, before), w, cycles[|cycles| - 1]), w);
  }

  /** However often the relay polls, each round spends an attempt or finds every row settled. */
  lemma {:induction false} CyclesKeepPace(st: State, w: WorkerId, cycles: seq<Cycle>)
    requires Timed(st, w) && Safe(st) && !Busy(st, w) && SoonDue(st) && CanRunAll(st, w, cycles)
    ensures OnPace(st, StepsOfAll(st, w, cycles), PaceOf(st, w, cycles))
  {
    if cycles != [] {
      var front, last := cycles[..|cycles| - 1], cycles[|cycles| - 1];
      CyclesKeepPace(st, w, front);
      CyclesAreWhole(st, w, cycles);
      PaceGoesOn(st, w, cycles);
      var before := StepsOfAll(st, w, front);
      CyclesAppend(st, before, StepsOf(After(st, before), w, last), w);
      NextCycleKeepsPace(st, w, before, PaceOf(st, w, front), last);
    }
  }

  /**
   So the polling relay settles every row: a sequence of calls of `RunOnce`, as close together as one likes, over
   which 128 seconds pass as many times as there are attempts left, ends with every row on the topic or
   dead-lettered.
   */
  lemma {:induction false} RelaySettlesEveryRow(st: State, w: WorkerId, cycles: seq<Cycle>)
    requires Timed(st, w) && Safe(st) && !Busy(st, w) && SoonDue(st) && CanRunAll(st, w, cycles)
    requires Remaining(st) <= PaceOf(st, w, cycles).rounds
    ensures var end := After(st, StepsOfAll(st, w, cycles));
            Settled(end) && forall id <- end.rows :: InTopic(end, id) || DeadLettered(end, id)
  {
    CyclesAreWhole(st, w, cycles);
    CyclesKeepPace(st, w, cycles);
    EveryRowSettles(st, StepsOfAll(st, w, cycles), w);
  }

  /** The loop's invariant: `i` items are done, and the rest of the answers are still to come. */
  ghost predicate Turning(st: State, now: State, w: WorkerId, batch: seq<Item>, answers: seq<Answer>, i: nat)
    requires |batch| == |answers| && i <= |batch|
  {
    && CycleAt(st, now, w, batch, answers, i)
    && (forall item <- batch :: item.id in st.rows) && Timely(answers, st.clock)
    && (i < |batch| ==> now.clock <= answers[i].at)
  }

  lemma {:induction false} BatchBegins(st: State, w: WorkerId, batch: seq<Item>, answers: seq<Answer>)
    requires |batch| == |answers| && w in st.workers && st.workers[w] == Worker(batch, Ready)
    requires (forall item <- batch :: item.id in st.rows) && Timely(answers, st.clock)
    ensures Turning(st, st, w, batch, answers, 0)
  {
    CycleBegins(st, w, batch, answers);
    assert batch != [] ==> answers[0] in answers;
  }

  lemma {:induction false} BatchEnds(st: State, now: State, w: WorkerId, batch: seq<Item>, answers: seq<Answer>)
    requires |batch| == |answers| && Turning(st, now, w, batch, answers, |batch|)
    ensures now == Run(st, CycleSteps(w, batch, answers)) && !Busy(now, w)
  {
    assert batch[..|batch|] == batch && answers[..|batch|] == answers;
  }

  class IntegrationRelay {
    const worker: WorkerId
    var rows: map<EventId, Row>
    var deadLetters: seq<DeadLetter>
    ghost var topic: seq<EventId>
    ghost var workers: map<WorkerId, Worker>
    ghost var failures: seq<Failure>
    ghost var clock: Instant

    ghost function View(): State
      reads this
    {
      State(rows, topic, deadLetters, workers, failures, clock)
    }

    constructor (worker: WorkerId)
      ensures this.worker == worker && View() == State(map[], [], [], map[], [], 0)
      ensures Safe(View()) && Timed(View(), worker) && SoonDue(View())
    {
      this.worker := worker;
      rows, deadLetters := map[], [];
      topic, workers, failures, clock := [], map[], [], 0;
    }

    /** One write and the statements that follow its answer. */
    method Deliver(item: Item, a: Answer) returns (acknowledged: bool)
      requires AtItem(View(), worker, item, a)
      modifies this
      ensures View() == Delivered(old(View()), worker, item, a)
      ensures rows.Keys == old(rows.Keys) && clock == a.at
      ensures worker in workers && workers[worker] == Worker(old(workers[worker].batch[1..]), Ready)
      ensures acknowledged == a.acknowledged
    {
      clock := a.at;
      workers := workers[worker := Worker(workers[worker].batch[1..], Ready)];
      if a.delivered {
        topic := topic + [item.id];
      }
      if a.acknowledged {
        rows := rows[item.id := rows[item.id].(published := true)];
        return true;
      }
      failures := failures + [Failure(item.id, a.at)];
      acknowledged := false;
      if item.attempts >= MAX_ATTEMPTS {
        deadLetters := deadLetters + [DeadLetter(item.id, item.attempts, a.at)];
        rows := rows[item.id := rows[item.id].(published := true)];
      } else {
        var backoff := Pow2(item.attempts) * SECOND;
        if backoff > MAX_BACKOFF {
          backoff := MAX_BACKOFF;
        }
        rows := rows[item.id := rows[item.id].(availableAt := a.at + backoff)];
      }
    }

    /** The oldest of some due rows. */
    method Oldest(due: set<EventId>) returns (oldest: EventId)
      requires due != {} && due <= rows.Keys
      ensures oldest in due && forall id <- due :: id == oldest || Before(rows, oldest, id)
    {
      oldest :| oldest in due;
      var rest := due - {oldest};
      while rest != {}
        invariant rest <= due && oldest in due
        invariant forall id <- due - rest :: id == oldest || Before(rows, oldest, id)
        decreases |rest|
      {
        var id :| id in rest;
        rest := rest - {id};
        BeforeIsTotal(rows, id, oldest);
        if Before(rows, id, oldest) {
          forall x | x in due - rest
            ensures x == id || Before(rows, id, x)
          {
            if x != id && x != oldest {
              BeforeIsTransitive(rows, id, oldest, x);
            }
          }
          oldest := id;
        }
      }
    }

    /** The SELECT of the claim statement: the due rows, oldest first, a hundred at most. */
    method Select(now: Instant) returns (ids: seq<EventId>)
      ensures Selects(View(), ids, now)
    {
      ids := [];
      var due := set id | id in rows && !rows[id].published && rows[id].availableAt <= now;
      while due != {} && |ids| < BATCH_SIZE
        invariant |ids| <= BATCH_SIZE && due <= rows.Keys
        invariant forall id :: id in due || id in ids <==> Due(View(), id, now)
        invariant forall i, j :: 0 <= i < j < |ids| ==> ids[i] != ids[j]
        invariant forall x <- ids :: x !in due && x in rows
        invariant forall x <- ids, id <- due :: x in rows && Before(rows, x, id)
        decreases |due|
      {
        var id := Oldest(due);
        due := due - {id};
        ids := ids + [id];
      }
    }

    /** The claim statement: one more attempt for every selected row. */
    method ClaimBatch(now: Instant) returns (batch: seq<Item>, ghost selected: seq<EventId>)
      requires !Busy(View(), worker) && clock <= now
      modifies this
      ensures Selects(old(View()), selected, now)
      ensures View() == Do(old(View()), Claim(worker, selected, now))
      ensures batch == Items(Claimed(old(rows), selected), selected)
    {
      var ids := Select(now);
      rows := Claimed(rows, ids);
      batch := Items(rows, ids);
      workers, clock := workers[worker := Worker(batch, Ready)], now;
      selected := ids;
    }

    /** One turn of the loop over a claimed batch. */
    method PublishNext(ghost begun: State, batch: seq<Item>, answers: seq<Answer>, i: nat) returns (acknowledged: bool)
      requires |batch| == |answers| && i < |batch| && Turning(begun, View(), worker, batch, answers, i)
      modifies this
      ensures Turning(begun, View(), worker, batch, answers, i + 1)
      ensures acknowledged == answers[i].acknowledged
    {
      ItemIsNext(begun, View(), worker, batch, answers, i);
      NextCycleAt(begun, View(), worker, batch, answers, i);
      acknowledged := Deliver(batch[i], answers[i]);
    }

    /** The loop over a claimed batch. */
    method PublishBatch(batch: seq<Item>, answers: seq<Answer>) returns (published: nat)
      requires worker in workers && workers[worker] == Worker(batch, Ready)
      requires forall item <- batch :: item.id in rows
      requires |answers| == |batch| && Timely(answers, clock)
      modifies this
      ensures View() == Run(old(View()), CycleSteps(worker, batch, answers))
      ensures published == Acknowledged(answers)
      ensures !Busy(View(), worker)
    {
      ghost var begun := View();
      published := 0;
      BatchBegins(begun, worker, batch, answers);
      for i := 0 to |batch|
        invariant Turning(begun, View(), worker, batch, answers, i)
        invariant published == Acknowledged(answers[..i])
      {
        var acknowledged := PublishNext(begun, batch, answers, i);
        if acknowledged {
          published := published + 1;
        }
        AcknowledgedNext(answers, i);
      }
      BatchEnds(begun, View(), worker, batch, answers);
      assert answers[..|batch|] == answers;
    }

    /**
     One cycle: claim the oldest due rows, then write them one by one. `answers[k]` is how Kafka takes write
     number k, if there is one.
     */
    method RunOnce(now: Instant, answers: seq<Answer>) returns (published: nat, ghost cycle: Cycle)
      requires !Busy(View(), worker) && clock <= now
      requires |answers| == BATCH_SIZE && Timely(answers, now)
      modifies this
      ensures cycle.now == now && cycle.answers <= answers && CanRun(old(View()), worker, cycle)
      ensures View() == Run(old(View()), StepsOf(old(View()), worker, cycle))
      ensures published == Acknowledged(cycle.answers)
      ensures !Busy(View(), worker)
    {
      ghost var before := View();
      ghost var ids: seq<EventId>;
      var batch: seq<Item>;
      batch, ids := ClaimBatch(now);
      var used := answers[..|batch|];
      cycle := Cycle(ids, now, used);
      TimelyPrefix(answers, |batch|, now);
      BatchIsClaimed(before, worker, cycle);
      RunFirst(before, Claim(worker, ids, now), CycleSteps(worker, batch, used));
      published := PublishBatch(batch, used);
    }
  }

  lemma TimelyPrefix(answers: seq<Answer>, n: nat, now: Instant)
    requires n <= |answers| && Timely(answers, now)
    ensures Timely(answers[..n], now)
  {
    assert forall a <- answers[..n] :: a in answers;
  }
}
