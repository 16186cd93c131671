/** The Event value (include/EventManager/Event.hpp, src/EventManager/Event.cpp).
    The emitter is a handle of type P: the event refers to a participant without the
    event module depending on the participant class. */
module Events {
  import opened Outcomes

  /** Event types are std::uint32_t. */
  type EventType = t: nat | t < 0x1_0000_0000

  /** Event type 0 tells every participant that a shutdown is imminent; every participant
      is subscribed to it as soon as a manager is attached. */
  const SHUTDOWN: EventType := 0

  /** Event ids are drawn uniformly from [1, INT32_MAX]. */
  const MAX_EVENT_ID: nat := 0x7fff_ffff

  predicate IsEventId(id: nat) {
    1 <= id <= MAX_EVENT_ID
  }

  /** The fields of an event; `eventType`, `id`, `isResponse` and `emitter` are the
      accessors type(), id(), isResponse() and emitter(). */
  datatype Event<P> = Event(
    eventType: EventType,
    id: nat,
    responseId: nat,
    isResponse: bool,
    emitter: Option<P>)

  /** What every constructor establishes: an id in range, and a response id that is
      0 for a plain event and a valid id for a response. */
  predicate WellFormed<P>(e: Event<P>) {
    && IsEventId(e.id)
    && (if e.isResponse then IsEventId(e.responseId) else e.responseId == 0)
  }

  /** Event(type): the random draw is the caller-supplied `id`. */
  function NewEvent<P>(t: EventType, id: nat): (e: Event<P>)
    requires IsEventId(id)
    ensures WellFormed(e)
    ensures e.eventType == t && e.id == id
    ensures !e.isResponse && e.emitter == None
  {
    Event(t, id, 0, false, None)
  }

  /** Event(type, prior) and Event(type, shared_ptr prior): a response to `prior`, whose own
      id `id` is drawn independently through the plain constructor. */
  function NewResponse<P>(t: EventType, id: nat, prior: Event<P>): (e: Event<P>)
    requires IsEventId(id) && WellFormed(prior)
    ensures WellFormed(e)
    ensures e.eventType == t && e.id == id && e.emitter == None
    ensures e.isResponse && ResponseId(e) == Ok(prior.id)
  {
    var plain := NewEvent(t, id);
    plain.(responseId := prior.id, isResponse := true)
  }

  /** responseId(): fails on an event that is not a response. */
  function ResponseId<P>(e: Event<P>): (r: Result<nat>)
    ensures r.Ok? <==> e.isResponse
    ensures r.Ok? ==> r.value == e.responseId
    ensures r.Err? ==> r.error == NotAResponse
  {
    if e.isResponse then Ok(e.responseId) else Err(NotAResponse)
  }

  /** The setter emitter(p). The C++ object is updated in place; here the updated value is returned. */
  function WithEmitter<P>(e: Event<P>, p: P): (r: Event<P>)
    ensures r.emitter == Some(p)
    ensures r.(emitter := e.emitter) == e
    ensures WellFormed(e) ==> WellFormed(r)
  {
    e.(emitter := Some(p))
  }

  /** A plain event has no response id to read. */
  lemma PlainEventHasNoResponseId<P>(t: EventType, id: nat)
    requires IsEventId(id)
    ensures ResponseId(NewEvent<P>(t, id)) == Err(NotAResponse)
  {
  }
}
