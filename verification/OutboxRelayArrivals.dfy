/**
 The relay while producers go on appending: a row is claimed before every newer one, so that it
 settles in bounded time whatever arrives.
 */
module OutboxRelayArrivals {
  import opened Ordering
  import opened OutboxRelay
  import opened OutboxRelayCycles
  import opened OutboxRelayProgress
  import opened Results
  import opened Sums

  // ---- Attempts left among some rows ------------------------------------------------------------

  /** The attempts an unpublished row has left; a row that has not arrived has them all. */
  function AttemptsLeft(rows: map<EventId, Row>, id: EventId): int {
    if id !in rows then 8
    else if rows[id].published then 0
    else 8 - rows[id].attempts
  }

  ghost function Left(rows: map<EventId, Row>, among: set<EventId>): int {
    Sum(map id | id in among :: AttemptsLeft(rows, id))
  }

  /** The step claims one of these rows. */
  predicate Spends(st: State, step: Step, among: set<EventId>) {
    step.Claim? && Enabled(st, step) && exists id <- step.ids :: id in among
  }

  lemma {:induction false} NothingGivesBack(st: State, step: Step, w: WorkerId, id: EventId)
    requires Timed(st, w) && SoleStep(step, w)
    ensures AttemptsLeft(Do(st, step).rows, id) <= AttemptsLeft(st.rows, id)
    ensures step.Claim? && Enabled(st, step) && id in step.ids ==>
              AttemptsLeft(Do(st, step).rows, id) == AttemptsLeft(st.rows, id) - 1
  {
  }

  lemma {:induction false} StepSpends(st: State, step: Step, w: WorkerId, among: set<EventId>)
    requires Timed(st, w) && SoleStep(step, w)
    ensures Left(Do(st, step).rows, among) + (if Spends(st, step, among) then 1 else 0) <= Left(st.rows, among)
  {
    var before := map id | id in among :: AttemptsLeft(st.rows, id);
    var after := map id | id in among :: AttemptsLeft(Do(st, step).rows, id);
    forall id | id in among
      ensures after[id] <= before[id]
    {
      NothingGivesBack(st, step, w, id);
    }
    if Spends(st, step, among) {
      var id :| id in step.ids && id in among;
      NothingGivesBack(st, step, w, id);
      SumDrops(after, before, id);
    } else {
      SumAtMost(after, before);
    }
  }

  function SpentBy(st: State, steps: seq<Step>, among: set<EventId>): nat {
    if steps == [] then 0
    else
      var before := steps[..|steps| - 1];
      SpentBy(st, before, among) + if Spends(Run(st, before), steps[|steps| - 1], among) then 1 else 0
  }

  /** Each claim of one of some rows spends an attempt, and nothing gives any back: arrivals do not, nor failures. */
  lemma {:induction false} RunSpendsAmong(st: State, steps: seq<Step>, w: WorkerId, among: set<EventId>)
    requires Timed(st, w) && Sole(steps, w)
    ensures SpentBy(st, steps, among) + Left(Run(st, steps).rows, among) <= Left(st.rows, among)
  {
    if steps != [] {
      RunSpendsAmong(st, steps[..|steps| - 1], w, among);
      RunIsTimed(st, steps[..|steps| - 1], w);
      StepSpends(Run(st, steps[..|steps| - 1]), steps[|steps| - 1], w, among);
    }
  }

  lemma {:induction false} NoneLeftMeansPublished(st: State, w: WorkerId, among: set<EventId>, id: EventId)
    requires Timed(st, w) && !Busy(st, w) && id in among && id in st.rows && Left(st.rows, among) <= 0
    ensures st.rows[id].published
  {
    var left := map x | x in among :: AttemptsLeft(st.rows, x);
    forall x | x in among
      ensures 0 <= left[x]
    {
    }
    SumNonNegative(left);
    assert left[id] == 0;
    assert !Holds(st, w, id) && Resting(st, id);
  }

  // ---- Cycles with arrivals -----------------------------------------------------------------------

  /** A call of `RunOnce` amid arrivals: some before its claim, and some between its later statements. */
  datatype Turn = Turn(arrivals: seq<Step>, ids: seq<EventId>, now: Instant, rest: seq<Step>)

  function StepsOfTurn(w: WorkerId, c: Turn): seq<Step> {
    c.arrivals + ([Claim(w, c.ids, c.now)] + c.rest)
  }

  ghost predicate CanTurn(st: State, w: WorkerId, c: Turn) {
    && !Busy(st, w) && (forall step <- c.arrivals :: step.Append?)
    && Run(st, c.arrivals).clock <= c.now && Selects(Run(st, c.arrivals), c.ids, c.now)
    && (forall step <- c.rest :: step.Append? || Follows(step, w))
    && !Busy(Run(st, StepsOfTurn(w, c)), w)
  }

  ghost function AfterTurns(st: State, w: WorkerId, turns: seq<Turn>): State {
    if turns == [] then st
    else Run(AfterTurns(st, w, turns[..|turns| - 1]), StepsOfTurn(w, turns[|turns| - 1]))
  }

  ghost predicate CanTurns(st: State, w: WorkerId, turns: seq<Turn>) {
    turns == []
    || (CanTurns(st, w, turns[..|turns| - 1]) && CanTurn(AfterTurns(st, w, turns[..|turns| - 1]), w, turns[|turns| - 1]))
  }

  /** The turn claims one of these rows, or the row has settled before it. */
  ghost predicate Counts(st: State, w: WorkerId, c: Turn, among: set<EventId>, id: EventId) {
    1 <= SpentBy(st, StepsOfTurn(w, c), among) || (id in st.rows && st.rows[id].published)
  }

  ghost function Counted(st: State, w: WorkerId, turns: seq<Turn>, among: set<EventId>, id: EventId): nat {
    if turns == [] then 0
    else
      var before, last := turns[..|turns| - 1], turns[|turns| - 1];
      Counted(st, w, before, among, id) + if Counts(AfterTurns(st, w, before), w, last, among, id) then 1 else 0
  }

  lemma {:induction false} TurnIsSole(st: State, w: WorkerId, c: Turn)
    requires CanTurn(st, w, c)
    ensures Sole(StepsOfTurn(w, c), w)
  {
  }

  /** Rows stay, keep their place in the order, and stay published. */
  ghost predicate RowsStay(st: State, later: State) {
    forall id <- st.rows ::
      && id in later.rows && later.rows[id].created == st.rows[id].created
      && (st.rows[id].published ==> later.rows[id].published)
  }

  lemma {:induction false} DoKeepsRows(st: State, step: Step)
    ensures RowsStay(st, Do(st, step))
  {
  }

  lemma {:induction false} RunKeepsRows(st: State, steps: seq<Step>)
    ensures RowsStay(st, Run(st, steps))
  {
    if steps != [] {
      RunKeepsRows(st, steps[..|steps| - 1]);
      DoKeepsRows(Run(st, steps[..|steps| - 1]), steps[|steps| - 1]);
    }
  }

  lemma {:induction false} TurnsKeepRows(st: State, w: WorkerId, turns: seq<Turn>)
    ensures RowsStay(st, AfterTurns(st, w, turns))
  {
    if turns != [] {
      TurnsKeepRows(st, w, turns[..|turns| - 1]);
      RunKeepsRows(AfterTurns(st, w, turns[..|turns| - 1]), StepsOfTurn(w, turns[|turns| - 1]));
    }
  }

  lemma {:induction false} TurnsKeep(st: State, w: WorkerId, turns: seq<Turn>)
    requires Timed(st, w) && Safe(st) && !Busy(st, w) && SoonDue(st) && CanTurns(st, w, turns)
    ensures var end := AfterTurns(st, w, turns); Timed(end, w) && Safe(end) && !Busy(end, w) && SoonDue(end)
  {
    if turns != [] {
      var before, last := AfterTurns(st, w, turns[..|turns| - 1]), turns[|turns| - 1];
      TurnsKeep(st, w, turns[..|turns| - 1]);
      TurnIsSole(before, w, last);
      RunIsTimed(before, StepsOfTurn(w, last), w);
      RunIsSafe(before, StepsOfTurn(w, last));
      RunKeepsSoon(before, StepsOfTurn(w, last), w);
    }
  }

  /** The turns that count spend the attempts of these rows, until the row is published. */
  lemma {:induction false} TurnsSpend(st: State, w: WorkerId, turns: seq<Turn>, among: set<EventId>, id: EventId)
    requires Timed(st, w) && Safe(st) && !Busy(st, w) && SoonDue(st) && CanTurns(st, w, turns) && id in st.rows
    ensures var end := AfterTurns(st, w, turns);
            && id in end.rows
            && (end.rows[id].published || Counted(st, w, turns, among, id) + Left(end.rows, among) <= Left(st.rows, among))
  {
    TurnsKeepRows(st, w, turns);
    if turns != [] {
      var before, last := AfterTurns(st, w, turns[..|turns| - 1]), turns[|turns| - 1];
      TurnsSpend(st, w, turns[..|turns| - 1], among, id);
      TurnsKeep(st, w, turns[..|turns| - 1]);
      TurnIsSole(before, w, last);
      RunSpendsAmong(before, StepsOfTurn(w, last), w, among);
      RunKeepsRows(before, StepsOfTurn(w, last));
    }
  }

  /**
   A row settles whatever arrives: when as many turns of a lone worker claim the row or one of some others, or
   come after it settled, as these rows have attempts, the row is published, and on the topic or dead-lettered.
   */
  lemma {:induction false} RowSettles(st: State, w: WorkerId, turns: seq<Turn>, among: set<EventId>, id: EventId)
    requires Timed(st, w) && Safe(st) && !Busy(st, w) && SoonDue(st) && CanTurns(st, w, turns)
    requires id in st.rows && id in among && Left(st.rows, among) <= Counted(st, w, turns, among, id)
    ensures var end := AfterTurns(st, w, turns);
            id in end.rows && end.rows[id].published && (InTopic(end, id) || DeadLettered(end, id))
  {
    var end := AfterTurns(st, w, turns);
    TurnsSpend(st, w, turns, among, id);
    TurnsKeep(st, w, turns);
    if !end.rows[id].published {
      NoneLeftMeansPublished(end, w, among, id);
    }
    assert Accounted(end, id);
  }

  // ---- A polling relay ------------------------------------------------------------------------------

  /** The row and the rows that are claimed before it. */
  ghost function Ahead(rows: map<EventId, Row>, id: EventId): set<EventId>
    requires id in rows
  {
    set x | x in rows && (x == id || Before(rows, x, id))
  }

  lemma {:induction false} AheadStays(st: State, later: State, id: EventId)
    requires id in st.rows && RowsStay(st, later)
    ensures id in later.rows && Ahead(st.rows, id) <= Ahead(later.rows, id)
  {
  }

  lemma {:induction false} ArrivalsKeepRow(st: State, arrivals: seq<Step>, w: WorkerId, id: EventId)
    requires id in st.rows && forall step <- arrivals :: step.Append?
    ensures id in Run(st, arrivals).rows && Run(st, arrivals).rows[id] == st.rows[id]
    ensures Run(st, arrivals).workers == st.workers
  {
    if arrivals != [] {
      ArrivalsKeepRow(st, arrivals[..|arrivals| - 1], w, id);
    }
  }

  lemma {:induction false} SpentInside(st: State, before: seq<Step>, step: Step, after: seq<Step>, among: set<EventId>)
    requires Spends(Run(st, before), step, among)
    ensures 1 <= SpentBy(st, before + ([step] + after), among)
    decreases |after|
  {
    var all := before + ([step] + after);
    if after == [] {
      assert all == before + [step] && all[..|all| - 1] == before;
    } else {
      assert all[..|all| - 1] == before + ([step] + after[..|after| - 1]);
      SpentInside(st, before, step, after[..|after| - 1], among);
    }
  }

  /** A turn that begins when the row is due claims it, or a full batch of rows ahead of it. */
  lemma {:induction false} LateTurnCounts(st: State, w: WorkerId, c: Turn, among: set<EventId>, id: EventId)
    requires CanTurn(st, w, c) && id in st.rows && id in Run(st, c.arrivals).rows
    requires Ahead(Run(st, c.arrivals).rows, id) <= among
    requires !st.rows[id].published ==> st.rows[id].availableAt <= c.now
    ensures Counts(st, w, c, among, id)
  {
    if !st.rows[id].published {
      var s := Run(st, c.arrivals);
      ArrivalsKeepRow(st, c.arrivals, w, id);
      assert Due(s, id, c.now);
      if id !in c.ids {
        assert LeftBehind(s, c.ids, id);
        assert c.ids[0] in c.ids && c.ids[0] in Ahead(s.rows, id);
      } else {
        assert id in Ahead(s.rows, id);
      }
      assert Spends(s, Claim(w, c.ids, c.now), among);
      SpentInside(st, c.arrivals, Claim(w, c.ids, c.now), c.rest, among);
    }
  }

  lemma {:induction false} OtherStepKeepsRow(st: State, step: Step, w: WorkerId, id: EventId)
    requires id in st.rows && !Holds(st, w, id) && (step.Append? || Follows(step, w))
    ensures id in Do(st, step).rows && Do(st, step).rows[id] == st.rows[id] && !Holds(Do(st, step), w, id)
  {
    if Enabled(st, step) && !step.Append? {
      assert st.workers[w].batch[0] in st.workers[w].batch;
      assert forall item <- st.workers[w].batch[1..] :: item in st.workers[w].batch;
    }
  }

  lemma {:induction false} OtherStepsKeepRow(st: State, steps: seq<Step>, w: WorkerId, id: EventId)
    requires id in st.rows && !Holds(st, w, id) && forall step <- steps :: step.Append? || Follows(step, w)
    ensures id in Run(st, steps).rows && Run(st, steps).rows[id] == st.rows[id] && !Holds(Run(st, steps), w, id)
  {
    if steps != [] {
      OtherStepsKeepRow(st, steps[..|steps| - 1], w, id);
      OtherStepKeepsRow(Run(st, steps[..|steps| - 1]), steps[|steps| - 1], w, id);
    }
  }

  lemma {:induction false} ClaimOfOthers(st: State, w: WorkerId, ids: seq<EventId>, now: Instant, id: EventId)
    requires id in st.rows && id !in ids && !Busy(st, w)
    ensures var next := Do(st, Claim(w, ids, now));
            id in next.rows && next.rows[id] == st.rows[id] && !Holds(next, w, id)
  {
  }

  /** A turn that claims none of these rows changes none of them. */
  lemma {:induction false} IdleTurnKeepsRow(st: State, w: WorkerId, c: Turn, among: set<EventId>, id: EventId)
    requires CanTurn(st, w, c) && id in st.rows && id in among && SpentBy(st, StepsOfTurn(w, c), among) == 0
    ensures var end := Run(st, StepsOfTurn(w, c)); id in end.rows && end.rows[id] == st.rows[id]
  {
    var s, claim := Run(st, c.arrivals), Claim(w, c.ids, c.now);
    ArrivalsKeepRow(st, c.arrivals, w, id);
    if id in c.ids {
      assert Spends(s, claim, among);
      SpentInside(st, c.arrivals, claim, c.rest, among);
    }
    ClaimOfOthers(s, w, c.ids, c.now, id);
    OtherStepsKeepRow(Do(s, claim), c.rest, w, id);
    RunConcat(st, c.arrivals, [claim] + c.rest);
    RunFirst(s, claim, c.rest);
  }

  /** How many times the longest wait has passed over some turns, as in `PaceOf`. */
  ghost function TurnPace(st: State, w: WorkerId, turns: seq<Turn>): Pace {
    if turns == [] then Pace(0, st.clock)
    else
      var before, last := TurnPace(st, w, turns[..|turns| - 1]), turns[|turns| - 1];
      if before.since + LONGEST_WAIT <= last.now then Pace(before.rounds + 1, AfterTurns(st, w, turns).clock)
      else before
  }

  /** Each round has had a turn that counts; unless there was one more since, the row is due when the round ends. */
  ghost predicate RowOnPace(end: State, counted: nat, p: Pace, id: EventId)
    requires id in end.rows
  {
    && p.rounds <= counted
    && (p.rounds < counted || end.rows[id].published || end.rows[id].availableAt <= p.since + LONGEST_WAIT)
  }

  lemma {:induction false} TurnKeepsPace(
      st: State, w: WorkerId, c: Turn, counted: nat, p: Pace, among: set<EventId>, id: EventId)
    requires id in st.rows && CanTurn(st, w, c) && RowOnPace(st, counted, p, id)
    requires var end := Run(st, StepsOfTurn(w, c)); SoonDue(end) && id in end.rows && Ahead(end.rows, id) <= among
    ensures var end := Run(st, StepsOfTurn(w, c));
            RowOnPace(end, counted + if Counts(st, w, c, among, id) then 1 else 0,
                      if p.since + LONGEST_WAIT <= c.now then Pace(p.rounds + 1, end.clock) else p, id)
  {
    var s, end := Run(st, c.arrivals), Run(st, StepsOfTurn(w, c));
    RunConcat(st, c.arrivals, [Claim(w, c.ids, c.now)] + c.rest);
    RunKeepsRows(st, c.arrivals);
    RunKeepsRows(s, [Claim(w, c.ids, c.now)] + c.rest);
    AheadStays(s, end, id);
    assert id in Ahead(end.rows, id);
    if p.rounds == counted && p.since + LONGEST_WAIT <= c.now {
      LateTurnCounts(st, w, c, among, id);
    }
    if !Counts(st, w, c, among, id) {
      IdleTurnKeepsRow(st, w, c, among, id);
    }
  }

  lemma {:induction false} TurnsKeepPace(st: State, w: WorkerId, turns: seq<Turn>, among: set<EventId>, id: EventId)
    requires Timed(st, w) && Safe(st) && !Busy(st, w) && SoonDue(st) && CanTurns(st, w, turns) && id in st.rows
    requires id in AfterTurns(st, w, turns).rows && Ahead(AfterTurns(st, w, turns).rows, id) <= among
    ensures RowOnPace(AfterTurns(st, w, turns), Counted(st, w, turns, among, id), TurnPace(st, w, turns), id)
  {
    if turns != [] {
      var front, last := turns[..|turns| - 1], turns[|turns| - 1];
      var before := AfterTurns(st, w, front);
      TurnsKeepRows(st, w, front);
      RunKeepsRows(before, StepsOfTurn(w, last));
      AheadStays(before, AfterTurns(st, w, turns), id);
      TurnsKeepPace(st, w, front, among, id);
      TurnsKeep(st, w, turns);
      TurnKeepsPace(before, w, last, Counted(st, w, front, among, id), TurnPace(st, w, front), among, id);
    }
  }

  /**
   So a polling relay settles each row while producers append: 128 seconds for each attempt that the row and the
   rows ahead of it have left, those included that arrive ahead of it, are enough.
   */
  lemma {:induction false} RelaySettlesRow(st: State, w: WorkerId, turns: seq<Turn>, id: EventId)
    requires Timed(st, w) && Safe(st) && !Busy(st, w) && SoonDue(st) && CanTurns(st, w, turns)
    requires id in st.rows && id in AfterTurns(st, w, turns).rows
    requires Left(st.rows, Ahead(AfterTurns(st, w, turns).rows, id)) <= TurnPace(st, w, turns).rounds
    ensures var end := AfterTurns(st, w, turns);
            end.rows[id].published && (InTopic(end, id) || DeadLettered(end, id))
  {
    var among := Ahead(AfterTurns(st, w, turns).rows, id);
    TurnsKeepPace(st, w, turns, among, id);
    RowSettles(st, w, turns, among, id);
  }

  // ---- Newer rows wait ------------------------------------------------------------------------------

  /** The rows that were not there before are not older than the state they came into. */
  ghost predicate NewRowsAreLater(st: State, later: State) {
    && st.clock <= later.clock
    && forall id <- later.rows :: id !in st.rows ==> st.clock <= later.rows[id].created
  }

  lemma {:induction false} DoAddsLater(st: State, step: Step)
    ensures NewRowsAreLater(st, Do(st, step))
  {
  }

  lemma {:induction false} RunAddsLater(st: State, steps: seq<Step>)
    ensures NewRowsAreLater(st, Run(st, steps))
  {
    if steps != [] {
      var before := Run(st, steps[..|steps| - 1]);
      RunAddsLater(st, steps[..|steps| - 1]);
      RunKeepsRows(st, steps[..|steps| - 1]);
      DoAddsLater(before, steps[|steps| - 1]);
      DoKeepsRows(before, steps[|steps| - 1]);
    }
  }

  lemma {:induction false} TurnsAddLater(st: State, w: WorkerId, turns: seq<Turn>)
    ensures NewRowsAreLater(st, AfterTurns(st, w, turns))
  {
    if turns != [] {
      var before := AfterTurns(st, w, turns[..|turns| - 1]);
      TurnsAddLater(st, w, turns[..|turns| - 1]);
      TurnsKeepRows(st, w, turns[..|turns| - 1]);
      RunAddsLater(before, StepsOfTurn(w, turns[|turns| - 1]));
      RunKeepsRows(before, StepsOfTurn(w, turns[|turns| - 1]));
    }
  }

  /** The rows that are older than a row, or as old with a smaller id, and the row. */
  ghost function Older(st: State, id: EventId): set<EventId>
    requires id in st.rows
  {
    set x | x in st.rows && (st.rows[x].created < st.rows[id].created
                             || (st.rows[x].created == st.rows[id].created && (x == id || Less(x, id))))
  }

  /**
   A row that was there before the last statement waits for the rows that are older than it and for no others: 128
   seconds for each attempt these have left settle it, however many rows arrive meanwhile.
   */
  lemma {:induction false} OldRowSettles(st: State, w: WorkerId, turns: seq<Turn>, id: EventId)
    requires Timed(st, w) && Safe(st) && !Busy(st, w) && SoonDue(st) && CanTurns(st, w, turns)
    requires id in st.rows && st.rows[id].created < st.clock
    requires Left(st.rows, Older(st, id)) <= TurnPace(st, w, turns).rounds
    ensures var end := AfterTurns(st, w, turns);
            id in end.rows && end.rows[id].published && (InTopic(end, id) || DeadLettered(end, id))
  {
    TurnsKeepRows(st, w, turns);
    TurnsAddLater(st, w, turns);
    OlderIsAhead(st, AfterTurns(st, w, turns), id);
    RelaySettlesRow(st, w, turns, id);
  }

  lemma {:induction false} OlderIsAhead(st: State, later: State, id: EventId)
    requires id in st.rows && st.rows[id].created < st.clock && RowsStay(st, later) && NewRowsAreLater(st, later)
    ensures id in later.rows && Ahead(later.rows, id) == Older(st, id)
  {
    LessIsTotal(id, id);
    forall x
      ensures x in Ahead(later.rows, id) <==> x in Older(st, id)
    {
      if x in later.rows && x !in st.rows {
        assert st.clock <= later.rows[x].created;
      }
    }
  }
}
