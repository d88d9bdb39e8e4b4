/** The acting operator and the event envelope that every workflow writes to the outbox (internal/platform/event). */
module Envelopes {
  import opened Text

  datatype Actor = Actor(operator: string, device: string, warehouse: string, correlation: string)

  /** An outbox row. `causation` is the command id; the event id is drawn afresh. */
  datatype Event = Event(eventType: string, aggregate: string, version: int, causation: string, actor: Actor)

  /** `Validate`: the command id "" stands for the nil uuid. */
  predicate EnvelopeValid(id: string, aggregate: string, version: int, actor: Actor) {
    && id != "" && 1 <= version && !Blank(aggregate)
    && !Blank(actor.correlation) && !Blank(actor.warehouse) && !Blank(actor.operator) && !Blank(actor.device)
  }

  /** Something other than white space. */
  predicate Filled(s: string) {
    exists c <- s :: c as int !in {32, 9, 10, 11, 12, 13}
  }

  /** An envelope needs a command id, a positive version, and something in each of its five names. */
  lemma {:induction false} EnvelopeExactly(id: string, aggregate: string, version: int, actor: Actor)
    ensures EnvelopeValid(id, aggregate, version, actor) <==>
              && id != "" && 0 < version && Filled(aggregate)
              && Filled(actor.correlation) && Filled(actor.warehouse) && Filled(actor.operator) && Filled(actor.device)
  {
    BlankExactly(aggregate);
    BlankExactly(actor.correlation);
    BlankExactly(actor.warehouse);
    BlankExactly(actor.operator);
    BlankExactly(actor.device);
  }

  lemma {:induction false} BlankExactly(s: string)
    ensures Blank(s) <==> !Filled(s)
  {
    forall c | c in s
      ensures IsSpace(c) <==> c as int in {32, 9, 10, 11, 12, 13}
    {
      SpaceExactly(c);
    }
  }
}
