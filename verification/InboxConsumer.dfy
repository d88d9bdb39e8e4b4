/**
 The inbox consumer (internal/integration/adapters/kafka/consumer.go and the inbox and
 dead-letter tables of postgres_store.go). One reader of one partition; every statement
 is one step, and the process may stop between any two of them.
 */
module InboxConsumer {

  type EventId = string

  const MAX_ATTEMPTS: nat := 3

  /** A log entry; one whose bytes do not decode has no event. */
  datatype Message = Message(decodes: bool, event: EventId)

  datatype Stage = Fetching | Checking | Handling(attempt: nat) | Burying | Marking | Committing

  /** What happened so far, in order. `delivery` numbers the fetches. */
  datatype Event =
    | Handled(event: EventId, ok: bool, delivery: nat)
    | DeadLettered(event: EventId, delivery: nat)
    | Marked(event: EventId)

  datatype State = State(
    log: seq<Message>,
    committed: nat,
    inbox: set<EventId>,
    dlq: set<EventId>,
    stage: Stage,
    delivery: nat,
    history: seq<Event>)

  /** The next statement: what the handler answers (when it is called), or a stop of the process. */
  datatype Step = Go(handlerOk: bool) | Stop

  function Start(log: seq<Message>): State {
    State(log, 0, {}, {}, Fetching, 0, [])
  }

  /** The message in hand: the first one whose offset is not committed. */
  function Current(st: State): Message
    requires st.committed < |st.log|
  {
    st.log[st.committed]
  }

  function Do(st: State, step: Step): State {
    if step.Stop? then st.(stage := Fetching)
    else if st.committed >= |st.log| then st
    else
      var m := Current(st);
      match st.stage
      case Fetching => st.(stage := if m.decodes then Checking else Committing, delivery := st.delivery + 1)
      case Checking => st.(stage := if m.event in st.inbox then Committing else Handling(1))
      case Handling(n) =>
        st.(history := st.history + [Handled(m.event, step.handlerOk, st.delivery)],
            stage := if step.handlerOk then Marking else if n < MAX_ATTEMPTS then Handling(n + 1) else Burying)
      case Burying =>
        st.(dlq := st.dlq + {m.event}, history := st.history + [DeadLettered(m.event, st.delivery)], stage := Marking)
      case Marking =>
        st.(inbox := st.inbox + {m.event}, history := st.history + [Marked(m.event)], stage := Committing)
      case Committing => st.(committed := st.committed + 1, stage := Fetching)
  }

  function Exec(st: State, steps: seq<Step>): State {
    if steps == [] then st else Do(Exec(st, steps[..|steps| - 1]), steps[|steps| - 1])
  }

  lemma {:induction false} ExecConcat(st: State, before: seq<Step>, after: seq<Step>)
    ensures Exec(st, before + after) == Exec(Exec(st, before), after)
  {
    if after == [] {
      assert before + after == before;
    } else {
      var all := before + after;
      assert all[..|all| - 1] == before + after[..|after| - 1];
      ExecConcat(st, before, after[..|after| - 1]);
    }
  }

  /** The handler calls of one delivery. */
  function Calls(history: seq<Event>, delivery: nat): nat {
    if history == [] then 0
    else
      var e := history[|history| - 1];
      Calls(history[..|history| - 1], delivery) + if e.Handled? && e.delivery == delivery then 1 else 0
  }

  /** The failed handler calls of one delivery for one event. */
  function Refusals(history: seq<Event>, event: EventId, delivery: nat): nat {
    if history == [] then 0
    else
      var e := history[|history| - 1];
      Refusals(history[..|history| - 1], event, delivery) + if e == Handled(event, false, delivery) then 1 else 0
  }

  lemma CallsAppend(history: seq<Event>, e: Event, delivery: nat)
    ensures Calls(history + [e], delivery) == Calls(history, delivery) + if e.Handled? && e.delivery == delivery then 1 else 0
  {
    assert (history + [e])[..|history|] == history;
  }

  lemma RefusalsAppend(history: seq<Event>, e: Event, event: EventId, delivery: nat)
    ensures Refusals(history + [e], event, delivery)
         == Refusals(history, event, delivery) + if e == Handled(event, false, delivery) then 1 else 0
  {
    assert (history + [e])[..|history|] == history;
  }

  ghost predicate Succeeded(history: seq<Event>, event: EventId) {
    exists d: nat :: Handled(event, true, d) in history
  }

  // ---- The invariant ------------------------------------------------------------------------

  /** Everything below the committed offset is settled. */
  ghost predicate CommittedAreSettled(st: State) {
    && st.committed <= |st.log|
    && forall i :: 0 <= i < st.committed ==> !st.log[i].decodes || st.log[i].event in st.inbox
  }

  ghost predicate InboxIsEarned(st: State) {
    forall e <- st.inbox :: Succeeded(st.history, e) || e in st.dlq
  }

  /** Once marked, an event is never handled again. */
  ghost predicate NoHandlingAfterMark(st: State) {
    && (forall i, j :: 0 <= i < j < |st.history| && st.history[i].Marked? && st.history[j].Handled?
          ==> st.history[i].event != st.history[j].event)
    && (forall e <- st.history :: e.Marked? ==> e.event in st.inbox)
  }

  ghost predicate CallsAreBounded(st: State) {
    && (forall d: nat :: Calls(st.history, d) <= MAX_ATTEMPTS)
    && (forall d: nat :: st.delivery < d ==> Calls(st.history, d) == 0)
    && (forall d: nat, e: EventId :: st.delivery < d ==> Refusals(st.history, e, d) == 0)
  }

  /** A dead letter was refused three times in one delivery. */
  ghost predicate DeadLettersAreRefused(st: State) {
    && (forall e <- st.history :: e.DeadLettered? ==> Refusals(st.history, e.event, e.delivery) == MAX_ATTEMPTS)
    && (forall e <- st.dlq :: exists d: nat :: DeadLettered(e, d) in st.history)
  }

  /** What the stage says about the message in hand. */
  ghost predicate StageIsHonest(st: State) {
    && (st.stage != Fetching ==> st.committed < |st.log|)
    && (st.stage.Handling? || st.stage.Burying? || st.stage.Marking? || st.stage.Checking? ==> Current(st).decodes)
    && (st.stage.Checking? ==> Calls(st.history, st.delivery) == 0 && Refusals(st.history, Current(st).event, st.delivery) == 0)
    && (st.stage.Handling? ==>
          && Current(st).event !in st.inbox && 1 <= st.stage.attempt <= MAX_ATTEMPTS
          && Calls(st.history, st.delivery) == st.stage.attempt - 1
          && Refusals(st.history, Current(st).event, st.delivery) == st.stage.attempt - 1)
    && (st.stage.Burying? ==> Current(st).event !in st.inbox && Refusals(st.history, Current(st).event, st.delivery) == MAX_ATTEMPTS)
    && (st.stage.Marking? ==>
          Current(st).event !in st.inbox && (Succeeded(st.history, Current(st).event) || Current(st).event in st.dlq))
    && (st.stage.Committing? ==> !Current(st).decodes || Current(st).event in st.inbox)
  }

  ghost predicate Sound(st: State) {
    && CommittedAreSettled(st) && InboxIsEarned(st) && NoHandlingAfterMark(st)
    && CallsAreBounded(st) && DeadLettersAreRefused(st) && StageIsHonest(st)
  }

  lemma SuccessIsKept(history: seq<Event>, e: Event, event: EventId)
    requires Succeeded(history, event) || (e.Handled? && e.ok && e.event == event)
    ensures Succeeded(history + [e], event)
  {
    if Succeeded(history, event) {
      var d: nat :| Handled(event, true, d) in history;
      assert Handled(event, true, d) in history + [e];
    } else {
      assert (history + [e])[|history|] == Handled(event, true, e.delivery);
    }
  }

  /** A step that records an event keeps what was earned and refused before. */
  lemma RecordKeepsHistory(st: State, st': State, e: Event)
    requires InboxIsEarned(st) && DeadLettersAreRefused(st) && CallsAreBounded(st)
    requires st'.history == st.history + [e] && st'.delivery == st.delivery
    requires st.dlq <= st'.dlq
    requires e.Handled? ==> e.delivery == st.delivery && Calls(st.history, st.delivery) < MAX_ATTEMPTS
    ensures forall x <- st.inbox :: Succeeded(st'.history, x) || x in st'.dlq
    ensures CallsAreBounded(st')
    ensures forall x <- st.dlq :: exists d: nat :: DeadLettered(x, d) in st'.history
  {
    forall x | x in st.inbox && Succeeded(st.history, x)
      ensures Succeeded(st'.history, x)
    {
      SuccessIsKept(st.history, e, x);
    }
    forall d: nat
      ensures Calls(st'.history, d) == Calls(st.history, d) + if e.Handled? && e.delivery == d then 1 else 0
    {
      CallsAppend(st.history, e, d);
    }
    forall d: nat, x: EventId | st.delivery < d
      ensures Refusals(st'.history, x, d) == 0
    {
      RefusalsAppend(st.history, e, x, d);
    }
    forall x | x in st.dlq
      ensures exists d: nat :: DeadLettered(x, d) in st'.history
    {
      var d: nat :| DeadLettered(x, d) in st.history;
      assert DeadLettered(x, d) in st'.history;
    }
  }

  /** Handling goes on in the current delivery only, whose event has no dead letter of this delivery yet. */
  lemma HandlingIsSound(st: State, ok: bool)
    requires Sound(st) && st.stage.Handling?
    ensures Sound(Do(st, Go(ok)))
  {
    var m := Current(st);
    var e := Handled(m.event, ok, st.delivery);
    var st' := Do(st, Go(ok));
    RecordKeepsHistory(st, st', e);
    CallsAppend(st.history, e, st.delivery);
    RefusalsAppend(st.history, e, m.event, st.delivery);
    if ok {
      SuccessIsKept(st.history, e, m.event);
    }
    forall x | x in st'.history && x.DeadLettered?
      ensures Refusals(st'.history, x.event, x.delivery) == MAX_ATTEMPTS
    {
      assert x in st.history;
      RefusalsAppend(st.history, e, x.event, x.delivery);
      assert x.event == m.event && x.delivery == st.delivery ==> Refusals(st.history, m.event, st.delivery) == MAX_ATTEMPTS;
    }
  }

  lemma BuryingIsSound(st: State, ok: bool)
    requires Sound(st) && st.stage.Burying?
    ensures Sound(Do(st, Go(ok)))
  {
    var m := Current(st);
    var e := DeadLettered(m.event, st.delivery);
    var st' := Do(st, Go(ok));
    RecordKeepsHistory(st, st', e);
    assert st'.history[|st.history|] == e;
    forall x | x in st'.history && x.DeadLettered?
      ensures Refusals(st'.history, x.event, x.delivery) == MAX_ATTEMPTS
    {
      RefusalsAppend(st.history, e, x.event, x.delivery);
      assert x in st.history || x == e;
    }
  }

  lemma MarkingIsSound(st: State, ok: bool)
    requires Sound(st) && st.stage.Marking?
    ensures Sound(Do(st, Go(ok)))
  {
    var m := Current(st);
    var e := Marked(m.event);
    var st' := Do(st, Go(ok));
    RecordKeepsHistory(st, st', e);
    if Succeeded(st.history, m.event) {
      SuccessIsKept(st.history, e, m.event);
    }
    forall x | x in st'.history && x.DeadLettered?
      ensures Refusals(st'.history, x.event, x.delivery) == MAX_ATTEMPTS
    {
      RefusalsAppend(st.history, e, x.event, x.delivery);
      assert x in st.history;
    }
  }

  lemma {:induction false} DoIsSound(st: State, step: Step)
    requires Sound(st)
    ensures Sound(Do(st, step))
  {
    if step.Go? && st.committed < |st.log| {
      match st.stage
      case Handling(_) => HandlingIsSound(st, step.handlerOk);
      case Burying => BuryingIsSound(st, step.handlerOk);
      case Marking => MarkingIsSound(st, step.handlerOk);
      case Fetching =>
      case Checking =>
      case Committing =>
    }
  }

  lemma {:induction false} ExecIsSound(st: State, steps: seq<Step>)
    requires Sound(st)
    ensures Sound(Exec(st, steps))
  {
    if steps != [] {
      ExecIsSound(st, steps[..|steps| - 1]);
      DoIsSound(Exec(st, steps[..|steps| - 1]), steps[|steps| - 1]);
    }
  }

  lemma DeadLetterWasRefused(st: State, e: EventId)
    requires DeadLettersAreRefused(st) && e in st.dlq
    ensures exists d: nat :: Refusals(st.history, e, d) == MAX_ATTEMPTS
  {
    var d: nat :| DeadLettered(e, d) in st.history;
    var letter := DeadLettered(e, d);
    assert letter in st.history && letter.DeadLettered?;
    assert Refusals(st.history, letter.event, letter.delivery) == MAX_ATTEMPTS;
  }

  /**
   Each committed message is undecodable or in the inbox, and each inbox event was handled successfully or is a
   dead letter, in every run with stops anywhere.
   */
  lemma {:induction false} CommittedEventsAreSettled(log: seq<Message>, steps: seq<Step>)
    ensures var end := Exec(Start(log), steps); CommittedAreSettled(end) && InboxIsEarned(end)
  {
    ExecIsSound(Start(log), steps);
  }

  /** After an event is marked it is never handled again, and each delivery makes at most three handler calls. */
  lemma HandlerCallsAreBounded(log: seq<Message>, steps: seq<Step>)
    ensures var end := Exec(Start(log), steps);
            NoHandlingAfterMark(end) && forall d: nat :: Calls(end.history, d) <= 3
  {
    ExecIsSound(Start(log), steps);
  }

  /** Every dead letter was refused three times in one delivery. */
  lemma DeadLettersWereRefused(log: seq<Message>, steps: seq<Step>, e: EventId)
    requires e in Exec(Start(log), steps).dlq
    ensures exists d: nat :: Refusals(Exec(Start(log), steps).history, e, d) == 3
  {
    ExecIsSound(Start(log), steps);
    DeadLetterWasRefused(Exec(Start(log), steps), e);
  }

  /** How many statements the message in hand needs at most. */
  function StatementsLeft(stage: Stage): int {
    match stage
    case Fetching => 8
    case Checking => 7
    case Handling(attempt) => 7 - attempt
    case Burying => 3
    case Marking => 2
    case Committing => 1
  }

  lemma {:induction false} GoAdvances(st: State, step: Step)
    requires step.Go? && st.committed < |st.log| && (st.stage.Handling? ==> 1 <= st.stage.attempt <= 3)
    ensures var next := Do(st, step);
            && next.log == st.log && (next.stage.Handling? ==> 1 <= next.stage.attempt <= 3)
            && (next.committed == st.committed + 1
                || (next.committed == st.committed && StatementsLeft(next.stage) < StatementsLeft(st.stage)))
  {
  }

  /** No message is stuck: eight statements without a stop commit an offset, whatever the handler answers. */
  lemma {:induction false} EightStatementsCommit(st: State, steps: seq<Step>)
    requires st.committed < |st.log| && (st.stage.Handling? ==> 1 <= st.stage.attempt <= 3)
    requires StatementsLeft(st.stage) <= |steps| && forall step <- steps :: step.Go?
    ensures exists n: nat :: n <= |steps| && Exec(st, steps[..n]).committed == st.committed + 1
    decreases |steps|
  {
    var next := Do(st, steps[0]);
    GoAdvances(st, steps[0]);
    FirstStep(st, steps, 1);
    assert steps[1..][..0] == [];
    if next.committed != st.committed + 1 {
      EightStatementsCommit(next, steps[1..]);
      var n: nat :| n <= |steps[1..]| && Exec(next, steps[1..][..n]).committed == next.committed + 1;
      FirstStep(st, steps, n + 1);
    }
  }

  lemma {:induction false} FirstStep(st: State, steps: seq<Step>, n: nat)
    requires 1 <= n <= |steps|
    ensures Exec(st, steps[..n]) == Exec(Do(st, steps[0]), steps[1..][..n - 1])
  {
    assert steps[..n] == [steps[0]] + steps[1..][..n - 1];
    ExecConcat(st, [steps[0]], steps[1..][..n - 1]);
    assert [steps[0]][..0] == [];
    assert Exec(st, [steps[0]]) == Do(st, steps[0]);
  }

  // ---- The consumer object ------------------------------------------------------------------

  lemma ExecNext(st: State, steps: seq<Step>, step: Step)
    ensures Exec(st, steps + [step]) == Do(Exec(st, steps), step)
  {
    assert (steps + [step])[..|steps|] == steps;
  }

  class Consumer {
    const log: seq<Message>
    var committed: nat
    var inbox: set<EventId>
    var dlq: set<EventId>
    ghost var stage: Stage
    ghost var delivery: nat
    ghost var history: seq<Event>

    ghost function View(): State
      reads this
    {
      State(log, committed, inbox, dlq, stage, delivery, history)
    }

    constructor (log: seq<Message>)
      ensures this.log == log && View() == Start(log) && Sound(View())
    {
      this.log := log;
      committed, inbox, dlq := 0, {}, {};
      stage, delivery, history := Fetching, 0, [];
    }

    /**
     The handler, called until it succeeds, three times at most. `answers[k]` is what call
     number k of this delivery returns; `budget` is how many statements run before the
     process stops.
     */
    method Handle(answers: nat -> bool, budget: nat) returns (ok: bool, left: nat, stopped: bool, ghost steps: seq<Step>)
      requires committed < |log| && stage == Handling(1)
      modifies this`stage, this`history
      ensures View() == Exec(old(View()), steps)
      ensures stopped ==> left == 0 && stage.Handling?
      ensures !stopped ==> stage == (if ok then Marking else Burying)
      ensures MAX_ATTEMPTS <= budget ==> !stopped && budget <= left + MAX_ATTEMPTS
    {
      ghost var before := View();
      ok, left, stopped, steps := false, budget, false, [];
      var attempt := 1;
      while attempt <= MAX_ATTEMPTS
        invariant 1 <= attempt <= MAX_ATTEMPTS + 1
        invariant View() == Exec(before, steps)
        invariant !ok && !stopped && budget == left + attempt - 1
        invariant stage == if attempt <= MAX_ATTEMPTS then Handling(attempt) else Burying
        decreases MAX_ATTEMPTS + 1 - attempt
      {
        if left == 0 {
          stopped := true;
          return;
        }
        left := left - 1;
        ok := answers(attempt);
        ExecNext(before, steps, Go(ok));
        steps := steps + [Go(ok)];
        history := history + [Handled(log[committed].event, ok, delivery)];
        stage := if ok then Marking else if attempt < MAX_ATTEMPTS then Handling(attempt + 1) else Burying;
        if ok {
          return;
        }
        attempt := attempt + 1;
      }
    }

    /** A message whose event is not in the inbox: handle it, bury it if it was refused, mark it. */
    method Settle(answers: nat -> bool, budget: nat) returns (left: nat, stopped: bool, ghost steps: seq<Step>)
      requires committed < |log| && stage == Handling(1)
      modifies this`stage, this`history, this`dlq, this`inbox
      ensures View() == Exec(old(View()), steps)
      ensures !stopped ==> stage == Committing
      ensures 5 <= budget ==> !stopped && budget <= left + 5
    {
      ghost var before := View();
      var event := log[committed].event;
      var ok;
      ok, left, stopped, steps := Handle(answers, budget);
      if stopped { return; }
      stopped := true;
      if !ok {
        if left == 0 { return; }
        left := left - 1;
        ExecNext(before, steps, Go(true));
        steps := steps + [Go(true)];
        dlq, history, stage := dlq + {event}, history + [DeadLettered(event, delivery)], Marking;
      }
      if left == 0 { return; }
      left, stopped := left - 1, false;
      ExecNext(before, steps, Go(true));
      steps := steps + [Go(true)];
      inbox, history, stage := inbox + {event}, history + [Marked(event)], Committing;
    }

    /** Fetch the next message and look its event up in the inbox. */
    method Fetch(budget: nat) returns (left: nat, stopped: bool, ghost steps: seq<Step>)
      requires committed < |log| && stage == Fetching
      modifies this`stage, this`delivery
      ensures View() == Exec(old(View()), steps)
      ensures !stopped ==> stage == if log[committed].decodes && log[committed].event !in inbox then Handling(1) else Committing
      ensures 2 <= budget ==> !stopped && budget <= left + 2
    {
      ghost var before := View();
      left, stopped, steps := budget, true, [];
      var message := log[committed];
      if left == 0 { return; }
      left := left - 1;
      ExecNext(before, steps, Go(true));
      steps := steps + [Go(true)];
      delivery, stage := delivery + 1, if message.decodes then Checking else Committing;
      if message.decodes {
        if left == 0 { return; }
        left := left - 1;
        ExecNext(before, steps, Go(true));
        steps := steps + [Go(true)];
        stage := if message.event in inbox then Committing else Handling(1);
      }
      stopped := false;
    }

    /** The loop body of `Run`: one message, from its fetch to the commit of its offset. */
    method One(answers: nat -> bool, budget: nat) returns (left: nat, stopped: bool, ghost steps: seq<Step>)
      requires committed < |log| && stage == Fetching
      modifies this
      ensures View() == Exec(old(View()), steps)
      ensures !stopped ==> committed == old(committed) + 1 && stage == Fetching
      ensures stopped ==> committed == old(committed)
      ensures 8 <= budget ==> !stopped && budget <= left + 8
    {
      ghost var before := View();
      left, stopped, steps := Fetch(budget);
      if stopped { return; }
      var m := log[committed];
      if m.decodes && m.event !in inbox {
        ghost var more;
        left, stopped, more := Settle(answers, left);
        ExecConcat(before, steps, more);
        steps := steps + more;
        if stopped { return; }
      }
      if left == 0 {
        stopped := true;
        return;
      }
      left := left - 1;
      ExecNext(before, steps, Go(true));
      steps := steps + [Go(true)];
      committed, stage := committed + 1, Fetching;
    }

    /** `Run`: message after message, until the log is read or the process stops. */
    method Run(answers: (nat, nat) -> bool, budget: nat) returns (stopped: bool, ghost steps: seq<Step>)
      requires Sound(View()) && stage == Fetching
      modifies this
      ensures View() == Exec(old(View()), steps)
      ensures Sound(View()) && stage == Fetching
      ensures !stopped ==> committed == |log|
      ensures 8 * |log| <= budget ==> !stopped
    {
      ghost var before := View();
      var left := budget;
      stopped, steps := false, [];
      while committed < |log|
        invariant View() == Exec(before, steps)
        invariant Sound(View()) && stage == Fetching && !stopped
        invariant 8 * |log| <= budget ==> 8 * (|log| - committed) <= left
        decreases |log| - committed
      {
        ghost var sofar := View();
        var offset: nat := committed;
        var rest, halted, more := One((k: nat) => answers(offset, k), left);
        ExecConcat(before, steps, more);
        ExecIsSound(sofar, more);
        steps, left := steps + more, rest;
        if halted {
          stopped := true;
          // The process is gone: what it held in memory is lost, the tables stay.
          ExecNext(before, steps, Stop);
          steps := steps + [Stop];
          DoIsSound(View(), Stop);
          stage := Fetching;
          return;
        }
      }
    }
  }
}
