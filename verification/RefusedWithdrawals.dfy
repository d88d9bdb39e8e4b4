/**
 The foreign keys on warehouse_task refuse to delete the row of a task that another table refers
 to, so that a message which withdraws such a task is lost; when that breaks convergence.
 */
module RefusedWithdrawals {
  import opened QueueRows
  import opened Results
  import opened TaskFeed
  import opened TaskFeedLaws
  import opened SharedQueue
  import opened SharedQueueLaws
  import opened SharedQueueConvergence
  import Execution = TaskExecution
  import TaskReplayLaws

  /** All messages delivered, refused or not. */
  function Delivered(steps: seq<Step>): seq<Message> {
    if steps == [] then []
    else
      var last := steps[|steps| - 1];
      Delivered(steps[..|steps| - 1]) + if last.Device? && last.step.Deliver? then [last.step.message] else []
  }

  /** The message withdraws a task that another table refers to. */
  predicate HeldWithdrawal(fl: Floor, d: Dispatch) {
    d.status == "" && (d.payload.task in fl.tables.tasks || d.payload.task in fl.held)
  }

  /** The messages that withdraw no such task. */
  ghost function Harmless(fl: Floor, sent: set<Dispatch>): set<Dispatch> {
    set d | d in sent && !HeldWithdrawal(fl, d)
  }

  /** Some newer message leaves the task queued. */
  ghost predicate Overtaken(sent: set<Dispatch>, d: Dispatch) {
    exists e <- sent :: e.payload.task == d.payload.task && e.status != "" && d.payload.version < e.payload.version
  }

  ghost predicate NoneOvertaken(fl: Floor, sent: set<Dispatch>) {
    forall d <- sent :: HeldWithdrawal(fl, d) ==> !Overtaken(sent, d)
  }

  lemma {:induction false} ReferencesStay(fl: Floor, steps: seq<Step>)
    requires Shared(fl)
    ensures forall t :: Referenced(Run(fl, steps), t) <==> Referenced(fl, t)
  {
    RunKeepsShared(fl, steps);
  }

  lemma ConsistentSubset(some: set<Dispatch>, sent: set<Dispatch>)
    requires Consistent(sent) && some <= sent
    ensures Consistent(some)
  {
  }

  lemma {:induction false} ArrivedNext(fl: Floor, before: seq<Step>, last: Step)
    ensures Arrived(fl, before + [last])
         == Arrived(fl, before)
            + if last.Device? && last.step.Deliver? && !Refused(Run(fl, before), last.step.message) then [last.step.message]
              else []
    ensures Delivered(before + [last])
         == Delivered(before) + if last.Device? && last.step.Deliver? then [last.step.message] else []
    ensures Run(fl, before + [last]) == Do(Run(fl, before), last)
  {
    assert (before + [last])[..|before|] == before;
    var steps := DeviceSteps(fl, before + [last]);
    if steps != DeviceSteps(fl, before) {
      assert steps[..|steps| - 1] == DeviceSteps(fl, before);
    }
  }

  lemma {:induction false} ArrivedReflects(fl: Floor, steps: seq<Step>, sent: set<Dispatch>)
    requires Fresh(fl) && Consistent(sent) && Accepted(Arrived(fl, steps)) <= sent
    ensures var g := Ingest(EMPTY, Arrived(fl, steps));
            && Reflects(g, Accepted(Arrived(fl, steps)))
            && Run(fl, steps).world.feed.inbox == g.inbox && Run(fl, steps).world.feed.projections == g.projections
  {
    ConsistentSubset(Accepted(Arrived(fl, steps)), sent);
    FeedIsWhatArrived(fl, steps);
    IngestReflects(Arrived(fl, steps));
  }

  /** The message that recorded an event in the inbox. */
  lemma {:induction false} Recorder(fl: Floor, steps: seq<Step>, sent: set<Dispatch>, event: string) returns (e: Dispatch)
    requires Fresh(fl) && Consistent(sent) && Accepted(Arrived(fl, steps)) <= sent
    requires event in Run(fl, steps).world.feed.inbox
    ensures e in Accepted(Arrived(fl, steps)) && e.event == event
  {
    ArrivedReflects(fl, steps, sent);
    e :| e in Accepted(Arrived(fl, steps)) && e.event == event;
  }

  /** The message that a projection row shows. */
  lemma {:induction false} Projector(fl: Floor, steps: seq<Step>, sent: set<Dispatch>, t: string) returns (e: Dispatch)
    requires Fresh(fl) && Consistent(sent) && Accepted(Arrived(fl, steps)) <= sent
    requires t in Run(fl, steps).world.feed.projections
    ensures e in Accepted(Arrived(fl, steps)) && e.payload.task == t
    ensures Run(fl, steps).world.feed.projections[t].version == e.payload.version
  {
    ArrivedReflects(fl, steps, sent);
    var g := Ingest(EMPTY, Arrived(fl, steps));
    assert Explained(RowsOf(g, t), t, Accepted(Arrived(fl, steps)));
    e :| e in Accepted(Arrived(fl, steps)) && e.payload.task == t && Shows(RowsOf(g, t), e);
  }

  lemma {:induction false} OtherEvent(sent: set<Dispatch>, d: Dispatch, e: Dispatch)
    requires Consistent(sent) && d in sent && e in sent && d != e
    ensures d.event != e.event
  {
  }

  /** A message that did not arrive is not in the inbox. */
  lemma {:induction false} NeverRecorded(
      fl: Floor, steps: seq<Step>, some: set<Dispatch>, sent: set<Dispatch>, d: Dispatch)
    requires Fresh(fl) && Consistent(sent) && d in sent
    requires Accepted(Arrived(fl, steps)) <= some <= sent && d !in some
    ensures d.event !in Run(fl, steps).world.feed.inbox
  {
    if d.event in Run(fl, steps).world.feed.inbox {
      var e := Recorder(fl, steps, sent, d.event);
      OtherEvent(sent, d, e);
    }
  }

  lemma {:induction false} HeldIsNewer(fl: Floor, before: seq<Step>, d: Dispatch, sent: set<Dispatch>)
    requires Fresh(fl) && Consistent(sent) && Accepted(Arrived(fl, before)) <= Harmless(fl, sent)
    requires d in sent && HeldWithdrawal(fl, d) && !Overtaken(sent, d) && 1 <= d.payload.version
    ensures ProjectedVersion(Run(fl, before).world.feed, d.payload.task) < d.payload.version
  {
    assert Harmless(fl, sent) <= sent;
    if d.payload.task in Run(fl, before).world.feed.projections {
      var e := Projector(fl, before, sent, d.payload.task);
      HeldIsNewerThan(fl, sent, d, e);
    }
  }

  lemma {:induction false} HeldIsNewerThan(fl: Floor, sent: set<Dispatch>, d: Dispatch, e: Dispatch)
    requires Consistent(sent) && d in sent && HeldWithdrawal(fl, d) && !Overtaken(sent, d)
    requires e in Harmless(fl, sent) && e.payload.task == d.payload.task
    ensures e.payload.version < d.payload.version
  {
    assert SameVersion(e, d) ==> e == d;
  }

  /** A withdrawal that nothing overtakes is refused whenever it comes. */
  lemma {:induction false} HeldIsRefused(fl: Floor, before: seq<Step>, m: Message, sent: set<Dispatch>)
    requires Fresh(fl) && Consistent(sent) && NoneOvertaken(fl, sent)
    requires Accepted(Arrived(fl, before)) <= Harmless(fl, sent)
    requires Classify(m.content).Ok? && Classify(m.content).value in sent && HeldWithdrawal(fl, Classify(m.content).value)
    ensures Refused(Run(fl, before), m)
  {
    AcceptedIsPositive(m.content);
    assert Harmless(fl, sent) <= sent && Classify(m.content).value !in Harmless(fl, sent);
    NeverRecorded(fl, before, Harmless(fl, sent), sent, Classify(m.content).value);
    HeldIsNewer(fl, before, Classify(m.content).value, sent);
    RunKeepsShared(fl, before);
    ReferencesStay(fl, before);
  }

  lemma {:induction false} OthersArrive(fl: Floor, before: seq<Step>, m: Message)
    requires Shared(fl) && (Classify(m.content).Ok? ==> !HeldWithdrawal(fl, Classify(m.content).value))
    ensures !Refused(Run(fl, before), m)
  {
    ReferencesStay(fl, before);
  }

  lemma HarmlessNext(fl: Floor, messages: seq<Message>, m: Message)
    ensures Harmless(fl, Accepted(messages + [m]))
         == Harmless(fl, Accepted(messages))
            + if Classify(m.content).Ok? && !HeldWithdrawal(fl, Classify(m.content).value) then {Classify(m.content).value}
              else {}
  {
    AcceptedAppend(messages, m);
  }

  /** If nothing overtakes a held withdrawal, exactly the other messages arrive, in every interleaving. */
  lemma {:induction false} HarmlessArrive(fl: Floor, steps: seq<Step>, sent: set<Dispatch>)
    requires Fresh(fl) && Consistent(sent) && NoneOvertaken(fl, sent) && Accepted(Delivered(steps)) <= sent
    ensures Accepted(Arrived(fl, steps)) == Harmless(fl, Accepted(Delivered(steps)))
  {
    if steps != [] {
      var before, last := steps[..|steps| - 1], steps[|steps| - 1];
      assert steps == before + [last];
      ArrivedNext(fl, before, last);
      if last.Device? && last.step.Deliver? {
        AcceptedAppend(Delivered(before), last.step.message);
        HarmlessArrive(fl, before, sent);
        HarmlessArrives(fl, before, last.step.message, sent);
      } else {
        assert Arrived(fl, before) + [] == Arrived(fl, before) && Delivered(before) + [] == Delivered(before);
        HarmlessArrive(fl, before, sent);
      }
    }
  }

  lemma {:induction false} HarmlessArrives(fl: Floor, before: seq<Step>, m: Message, sent: set<Dispatch>)
    requires Fresh(fl) && Consistent(sent) && NoneOvertaken(fl, sent) && Accepted(Delivered(before) + [m]) <= sent
    requires Accepted(Delivered(before)) <= sent
    requires Accepted(Arrived(fl, before)) == Harmless(fl, Accepted(Delivered(before)))
    ensures Accepted(Arrived(fl, before) + if Refused(Run(fl, before), m) then [] else [m])
         == Harmless(fl, Accepted(Delivered(before) + [m]))
  {
    hide Do, Run, Classify;
    AcceptedAppend(Delivered(before), m);
    HarmlessNext(fl, Delivered(before), m);
    AcceptedAppend(Arrived(fl, before), m);
    if Classify(m.content).Ok? && HeldWithdrawal(fl, Classify(m.content).value) {
      assert Classify(m.content).value in Accepted(Delivered(before) + [m]);
      HeldIsRefused(fl, before, m, sent);
      assert Arrived(fl, before) + [] == Arrived(fl, before);
    } else {
      OthersArrive(fl, before, m);
    }
  }

  /** All interleavings in which the messages `sent` are delivered leave the same inbox and projections. */
  ghost predicate OneOutcome(fl: Floor, sent: set<Dispatch>) {
    forall a, b :: Accepted(Delivered(a)) == sent && Accepted(Delivered(b)) == sent ==> SameOutcome(fl, a, b)
  }

  predicate SameOutcome(fl: Floor, a: seq<Step>, b: seq<Step>) {
    var f, g := Run(fl, a).world.feed, Run(fl, b).world.feed;
    f.inbox == g.inbox && f.projections == g.projections
  }

  lemma {:induction false} NoneOvertakenMeansOne(fl: Floor, sent: set<Dispatch>)
    requires Fresh(fl) && Consistent(sent) && NoneOvertaken(fl, sent)
    ensures OneOutcome(fl, sent)
  {
    forall a, b | Accepted(Delivered(a)) == sent && Accepted(Delivered(b)) == sent
      ensures SameOutcome(fl, a, b)
    {
      HarmlessArrive(fl, a, sent);
      HarmlessArrive(fl, b, sent);
      ConsistentSubset(Harmless(fl, sent), sent);
      RunsConverge(fl, a, fl, b, "");
    }
  }

  // ---- When a held withdrawal is overtaken ----------------------------------------------------------

  function DeliverAll(messages: seq<Message>): seq<Step> {
    if messages == [] then []
    else DeliverAll(messages[..|messages| - 1]) + [Device(Execution.Deliver(messages[|messages| - 1]))]
  }

  lemma {:induction false} DeliverAllNext(messages: seq<Message>, m: Message)
    ensures DeliverAll(messages + [m]) == DeliverAll(messages) + [Device(Execution.Deliver(m))]
  {
    assert (messages + [m])[..|messages|] == messages;
  }

  lemma {:induction false} DeliveredAll(messages: seq<Message>)
    ensures Delivered(DeliverAll(messages)) == messages
  {
    if messages != [] {
      var before, m := messages[..|messages| - 1], messages[|messages| - 1];
      DeliveredAll(before);
      assert DeliverAll(messages)[..|DeliverAll(messages)| - 1] == DeliverAll(before);
      assert messages == before + [m];
    }
  }

  /** A message of a task whose projection is newer already is recorded as stale, and not refused. */
  lemma {:induction false} LateWithdrawalArrives(fl: Floor, s: Step, d: Dispatch)
    requires s.Device? && s.step.Deliver? && Classify(s.step.message.content) == Ok(d)
    requires d.payload.version < ProjectedVersion(fl.world.feed, d.payload.task)
    ensures d.event in Do(fl, s).world.feed.inbox
  {
  }

  lemma {:induction false} DeliveryGrows(fl: Floor, m: Message, t: string)
    ensures var next := Do(fl, Device(Execution.Deliver(m)));
            && fl.world.feed.inbox <= next.world.feed.inbox
            && ProjectedVersion(fl.world.feed, t) <= ProjectedVersion(next.world.feed, t)
  {
    hide Classify;
    if Classify(m.content).Ok? {
      AppliedRows(fl.world.feed, Classify(m.content).value, t);
    }
  }

  lemma {:induction false} StartApplies(fl: Floor, me: Message, e: Dispatch)
    requires Fresh(fl) && Classify(me.content) == Ok(e) && e.status != "" && 1 <= e.payload.version
    ensures ProjectedVersion(Run(fl, [Device(Execution.Deliver(me))]).world.feed, e.payload.task) == e.payload.version
  {
    assert [Device(Execution.Deliver(me))][..0] == [];
    assert ProjectedVersion(fl.world.feed, e.payload.task) == 0;
  }

  lemma {:induction false} DeliverNext(fl: Floor, messages: seq<Message>, m: Message)
    ensures Run(fl, DeliverAll(messages + [m])) == Do(Run(fl, DeliverAll(messages)), Device(Execution.Deliver(m)))
  {
    DeliverAllNext(messages, m);
    RunAppend(fl, DeliverAll(messages), Device(Execution.Deliver(m)));
  }

  lemma {:induction false} NewerBegins(fl: Floor, me: Message, e: Dispatch)
    requires Fresh(fl) && Classify(me.content) == Ok(e) && e.status != ""
    ensures e.payload.version <= ProjectedVersion(Run(fl, DeliverAll([me])).world.feed, e.payload.task)
  {
    AcceptedIsPositive(me.content);
    assert [me] == [] + [me];
    DeliverAllNext([], me);
    assert DeliverAll([]) + [Device(Execution.Deliver(me))] == [Device(Execution.Deliver(me))];
    StartApplies(fl, me, e);
  }

  lemma {:induction false} OneMoreGrows(fl: Floor, messages: seq<Message>, m: Message, t: string)
    ensures var f, g := Run(fl, DeliverAll(messages)).world.feed, Run(fl, DeliverAll(messages + [m])).world.feed;
            f.inbox <= g.inbox && ProjectedVersion(f, t) <= ProjectedVersion(g, t)
  {
    DeliverNext(fl, messages, m);
    DeliveryGrows(Run(fl, DeliverAll(messages)), m, t);
  }

  lemma {:induction false} MoreGrow(fl: Floor, first: seq<Message>, more: seq<Message>, t: string)
    ensures var f, g := Run(fl, DeliverAll(first)).world.feed, Run(fl, DeliverAll(first + more)).world.feed;
            f.inbox <= g.inbox && ProjectedVersion(f, t) <= ProjectedVersion(g, t)
    decreases |more|
  {
    hide Do;
    if more == [] {
      assert first + more == first;
    } else {
      MoreGrow(fl, first, more[..|more| - 1], t);
      OneMoreGrows(fl, first + more[..|more| - 1], more[|more| - 1], t);
      assert first + more == (first + more[..|more| - 1]) + [more[|more| - 1]];
    }
  }

  lemma {:induction false} LateArrives(fl: Floor, before: seq<Message>, md: Message, d: Dispatch)
    requires Classify(md.content) == Ok(d)
    requires d.payload.version < ProjectedVersion(Run(fl, DeliverAll(before)).world.feed, d.payload.task)
    ensures d.event in Run(fl, DeliverAll(before + [md])).world.feed.inbox
  {
    DeliverNext(fl, before, md);
    LateWithdrawalArrives(Run(fl, DeliverAll(before)), Device(Execution.Deliver(md)), d);
  }

  /** First the newer message, then all: the withdrawal among them is recorded, as stale at the latest. */
  lemma {:induction false} NewerFirst(fl: Floor, me: Message, e: Dispatch, messages: seq<Message>, md: Message, d: Dispatch)
    requires Fresh(fl) && Classify(me.content) == Ok(e) && Classify(md.content) == Ok(d) && e.status != ""
    requires e.payload.task == d.payload.task && d.payload.version < e.payload.version && md in messages
    ensures d.event in Run(fl, DeliverAll([me] + messages)).world.feed.inbox
  {
    hide Do, Run, DeliverAll;
    var i :| 0 <= i < |messages| && messages[i] == md;
    var before, after := [me] + messages[..i], messages[i + 1..];
    NewerBegins(fl, me, e);
    MoreGrow(fl, [me], messages[..i], e.payload.task);
    LateArrives(fl, before, md, d);
    MoreGrow(fl, before + [md], after, e.payload.task);
    assert [me] + messages == (before + [md]) + after;
  }

  function Except(messages: seq<Message>, d: Dispatch): seq<Message> {
    if messages == [] then []
    else
      var m := messages[|messages| - 1];
      Except(messages[..|messages| - 1], d) + if Classify(m.content) == Ok(d) then [] else [m]
  }

  lemma {:induction false} ExceptKeeps(messages: seq<Message>, d: Dispatch)
    ensures forall m: Message :: m in Except(messages, d) <==> m in messages && Classify(m.content) != Ok(d)
  {
    if messages != [] {
      var before, m := messages[..|messages| - 1], messages[|messages| - 1];
      ExceptKeeps(before, d);
      assert messages == before + [m];
    }
  }

  lemma {:induction false} FirstIsRefused(fl: Floor, md: Message, d: Dispatch)
    requires Fresh(fl) && Classify(md.content) == Ok(d) && HeldWithdrawal(fl, d)
    ensures Refused(fl, md)
  {
    AcceptedIsPositive(md.content);
    assert Referenced(fl, d.payload.task) && d.payload.task in fl.world.feed.queue;
    assert ProjectedVersion(fl.world.feed, d.payload.task) == 0;
  }

  lemma {:induction false} OnlyOthersArrive(fl: Floor, md: Message, d: Dispatch)
    requires Fresh(fl) && Classify(md.content) == Ok(d) && HeldWithdrawal(fl, d)
    ensures Arrived(fl, DeliverAll([md])) == []
  {
    assert [md] == [] + [md];
    DeliverAllNext([], md);
    FirstIsRefused(fl, md, d);
    ArrivedNext(fl, [], Device(Execution.Deliver(md)));
  }

  lemma {:induction false} OneMoreArrives(arrived: seq<Message>, sent: seq<Message>, m: Message, d: Dispatch, refused: bool)
    requires d !in Accepted(arrived) && Accepted(arrived) <= Accepted(sent) && Classify(m.content) != Ok(d)
    ensures d !in Accepted(arrived + if !refused then [m] else [])
    ensures Accepted(arrived + if !refused then [m] else []) <= Accepted(sent + [m])
  {
    AcceptedAppend(arrived, m);
    AcceptedAppend(sent, m);
    assert arrived + [] == arrived;
  }

  lemma {:induction false} OtherMayArrive(fl: Floor, before: seq<Message>, m: Message, d: Dispatch)
    requires d !in Accepted(Arrived(fl, DeliverAll(before))) && Classify(m.content) != Ok(d)
    requires Accepted(Arrived(fl, DeliverAll(before))) <= Accepted(before)
    ensures d !in Accepted(Arrived(fl, DeliverAll(before + [m])))
    ensures Accepted(Arrived(fl, DeliverAll(before + [m]))) <= Accepted(before + [m])
  {
    DeliverAllNext(before, m);
    ArrivedNext(fl, DeliverAll(before), Device(Execution.Deliver(m)));
    OneMoreArrives(Arrived(fl, DeliverAll(before)), before, m, d, Refused(Run(fl, DeliverAll(before)), m));
  }

  /** First the withdrawal, then all others: it is refused, and no trace of it is left. */
  lemma {:induction false} WithdrawalFirst(fl: Floor, md: Message, d: Dispatch, others: seq<Message>)
    requires Fresh(fl) && Classify(md.content) == Ok(d) && HeldWithdrawal(fl, d)
    requires forall m <- others :: Classify(m.content) != Ok(d)
    ensures d !in Accepted(Arrived(fl, DeliverAll([md] + others)))
    ensures Accepted(Arrived(fl, DeliverAll([md] + others))) <= Accepted([md] + others)
    decreases |others|
  {
    hide Do, Run, DeliverAll, Classify;
    if others == [] {
      assert [md] + others == [md];
      OnlyOthersArrive(fl, md, d);
    } else {
      var before, m := others[..|others| - 1], others[|others| - 1];
      assert m in others && [md] + others == ([md] + before) + [m];
      WithdrawalFirst(fl, md, d, before);
      OtherMayArrive(fl, [md] + before, m, d);
    }
  }

  /** The two interleavings that differ when a newer message overtakes the withdrawal. */
  lemma {:induction false} OvertakenMeansTwo(
      fl: Floor, messages: seq<Message>, md: Message, d: Dispatch, me: Message, e: Dispatch)
    requires Fresh(fl) && Consistent(Accepted(messages)) && md in messages && me in messages
    requires Classify(md.content) == Ok(d) && HeldWithdrawal(fl, d)
    requires Classify(me.content) == Ok(e) && e.status != ""
    requires e.payload.task == d.payload.task && d.payload.version < e.payload.version
    ensures !OneOutcome(fl, Accepted(messages))
  {
    var sent := Accepted(messages);
    var others := Except(messages, d);
    var a, b := DeliverAll([me] + messages), DeliverAll([md] + others);
    ExceptKeeps(messages, d);
    DeliveredAll([me] + messages);
    DeliveredAll([md] + others);
    AcceptedAgain(messages, [me]);
    SameAccepted([md] + others, messages, d);
    assert d in sent;
    NewerFirst(fl, me, e, messages, md, d);
    WithdrawalFirst(fl, md, d, others);
    NeverRecorded(fl, b, Accepted(Arrived(fl, b)), sent, d);
    assert !SameOutcome(fl, a, b);
  }

  lemma {:induction false} SameAccepted(a: seq<Message>, b: seq<Message>, d: Dispatch)
    requires d in Accepted(a) && d in Accepted(b)
    requires forall m: Message :: Classify(m.content) != Ok(d) ==> (m in a <==> m in b)
    ensures Accepted(a) == Accepted(b)
  {
    forall e
      ensures e in Accepted(a) <==> e in Accepted(b)
    {
      if e in Accepted(a) && e != d {
        var m :| m in a && Classify(m.content).Ok? && Classify(m.content).value == e;
        assert m in b;
      }
      if e in Accepted(b) && e != d {
        var m :| m in b && Classify(m.content).Ok? && Classify(m.content).value == e;
        assert m in a;
      }
    }
  }

  /**
   The messages decide the inbox and the projections, whatever the interleaving, exactly when no message that
   withdraws a task which another table refers to is overtaken by a newer one that leaves the task queued.
   */
  lemma {:induction false} OutcomeConvergesExactly(fl: Floor, messages: seq<Message>)
    requires Fresh(fl) && Consistent(Accepted(messages))
    ensures OneOutcome(fl, Accepted(messages)) <==> NoneOvertaken(fl, Accepted(messages))
  {
    var sent := Accepted(messages);
    if NoneOvertaken(fl, sent) {
      NoneOvertakenMeansOne(fl, sent);
    } else {
      var d :| d in sent && HeldWithdrawal(fl, d) && Overtaken(sent, d);
      var e :| e in sent && e.payload.task == d.payload.task && e.status != "" && d.payload.version < e.payload.version;
      var md := Sender(messages, d);
      var me := Sender(messages, e);
      OvertakenMeansTwo(fl, messages, md, d, me, e);
    }
  }
}
