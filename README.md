# EventManager: a verified model of the bus bookkeeping

EventManager is a thread-based publish/subscribe bus written in C++. A `Manager` keeps a routing
table (event type to an ordered list of subscribed participants), a FIFO queue of emitted events,
a FIFO queue of structural commands (CONNECT, DISCONNECT, ENABLE_SCHEDULING, DISABLE_SCHEDULING),
the list of participants it schedules, the registry of connected participants and a counter
that hands out participant IDs. A `Participant` has an inbound event queue guarded by a "locked"
flag, an optional manager, a "scheduled by manager" flag and two overridable hooks, `init_` and
`schedule_`. An `Event` carries a type, an id, an optional link to the event it answers, and its
emitter.

This project models the sequential layer under the threads:

- `outcomes.dfy`: the errors the source raises (`NoManager` for "no event manager set yet",
  `QueueNotLocked`, `NotAResponse`, `NotImplemented`) and the `Result`/`Outcome` values that
  carry them.
- `events.dfy`: the `Event` value, its two constructors, the `responseId()` guard and the
  emitter setter. The event is generic in the emitter handle.
- `routing.dfy`: the routing table as a value. It covers `subscribe`, both `unsubscribe`s and
  the fan-out of `processEvent`, with their ordering and no-duplicate properties.
- `commands.dfy`: the Manager's fields as a `ManagerState` value, its invariant, the command
  handlers as functions, and the drain of `processCommands_` (`Drain`), with lemmas about them.
- `event_manager.dfy`: the `Participant` and `Manager` classes. Their methods update fields in
  place. Every Manager method that changes the manager is proved to leave `Model()` (its
  fields as a `ManagerState`) equal to a function of the old state, and to keep the invariant
  `Valid()`. For the routing and command handlers that function is the one of
  `routing.dfy`/`commands.dfy`; for the queueing methods it appends to one queue. The
  read-only methods and `ProcessEvent` keep the manager through their frames.

The Manager invariant (`Commands.Valid`) says three things. No routing list, the scheduling
list or the registry holds a duplicate. Every registered participant has an ID. IDs are
distinct, at least 1 and below `nextParticipantID`.

The participant hooks are a `Hooks` value. `Unimplemented` is the base class, whose `init_` and
`schedule_` raise "not implemented". `TestParticipant(t)` is the participant of
`tests/test_basic.cpp`: its `init_` subscribes to `t` and enables scheduling, and its `schedule_`
fetches one event and unsubscribes from everything on SHUTDOWN. Event ids come from a random
draw in the source; here the caller supplies the id, and it must lie in [1, 2^31-1].

Where the code and its documentation disagree, the model follows the code:

- `processDisconnect_` (src/EventManager/Manager.cpp:404-405) calls `setManager(nullptr)` on a
  registered participant. `setManager` stores the null manager and then calls `_subscribe`
  (include/EventManager/Participant.hpp:154). That call raises "no event manager set yet"
  (src/EventManager/Participant.cpp:123-126). So the participant is unscheduled, unsubscribed
  and detached, but the exception leaves it in `participants_`, and the error ends
  `processCommands_`. The documentation describes disconnect as a clean detach and erase.
  `Commands.DisconnectStep` and `Manager.ProcessDisconnect` model the code as written.
  `schedulingProcess_` (src/EventManager/Manager.cpp:192-214) calls `processCommands_` without
  a handler, so in the running program this exception, like the NotImplemented that CONNECT
  raises through the base `init_`, leaves the scheduling thread's function and ends the
  program through `std::terminate`; the model stops the drain with the error as an outcome.
- `tests/test_basic.cpp:99` expects `empty()` to be false right after `connect` and before
  `start`. In the code, `empty()` first waits until the command queue is empty
  (src/EventManager/Manager.cpp:298-301), and only the scheduling thread drains that queue. The
  model states `empty()` for the state after that wait: it requires an empty command queue.
- `setID` is called by `processConnect_` (src/EventManager/Manager.cpp:383) but is not declared
  by the participant header. The ID is kept on the Manager's side, as the ghost map `ids`.

## Model

| member | source | states |
|---|---|---|
| Events.NewEvent | src/EventManager/Event.cpp:14-22 | a plain event has the given type, an id in [1, 2^31-1], is not a response, has response id 0 and no emitter |
| Events.NewResponse | src/EventManager/Event.cpp:24-34 | a response event is built like a plain one with its own id, is a response, and its `responseId()` yields the id of the event it answers |
| Events.ResponseId | include/EventManager/Event.hpp:70-76 | `responseId()` succeeds exactly when the event is a response, returning the stored id; otherwise it fails with "is not a response event" |
| Events.WithEmitter | include/EventManager/Event.hpp:91-96 | after setting the emitter to p, the getter returns p and every other field is unchanged |
| Events.PlainEventHasNoResponseId | src/EventManager/Event.cpp:14-22 | reading the response id of a freshly built plain event fails |
| Routing.Without | src/EventManager/Manager.cpp:253-258 | `erase(find(x))`: the result is the list without x and with all other members; absent x changes nothing; on a duplicate-free list x is gone and no duplicate appears |
| Routing.WithoutErasesFirst | src/EventManager/Manager.cpp:253-258 | the erase removes exactly the first occurrence of x and keeps the order of the rest |
| Routing.AppendIfAbsent | src/EventManager/Manager.cpp:227-232 | x ends up in the list; it is appended at the end only when it was absent, so no duplicate appears |
| Routing.Subscribe | src/EventManager/Manager.cpp:217-240 | subscribe adds t as a key, appends p to t's list if absent, gives an unknown type the list [p], leaves other types untouched and keeps lists duplicate-free |
| Routing.SubscribeIdempotent | src/EventManager/Manager.cpp:224-232 | subscribing twice equals subscribing once |
| Routing.SubscribeOnce | src/EventManager/Manager.cpp:217-240 | after subscribe(t, p), p occurs in t's list exactly once |
| Routing.Unsubscribe | src/EventManager/Manager.cpp:242-260 | unsubscribe removes p from t's list and keeps the key; an absent type or participant changes nothing; other types are untouched; p is no longer in t's list |
| Routing.UnsubscribeAll | src/EventManager/Manager.cpp:262-270 | unsubscribe(p) applies unsubscribe(t, p) to every key; the set of subscribers loses exactly p |
| Routing.RoutingEmptyIffNoSubscriber | src/EventManager/Manager.cpp:303-311 | the routing table counts as empty exactly when no list holds a subscriber; keys with empty lists count as empty |
| Routing.UnsubscribeBothEmpties | tests/test_basic.cpp:117-127 | when only two participants are subscribed and both unsubscribe from everything, the manager is empty |
| Routing.Recipients | src/EventManager/Manager.cpp:150-167 | the receivers of an event, taken from its type's list in list order: never more of them than subscribers; membership, order and uniqueness are the lemmas below |
| Routing.RecipientsMembers | src/EventManager/Manager.cpp:158-164 | q receives the event exactly when q is in the list and is not the emitter |
| Routing.RecipientsNoDup | src/EventManager/Manager.cpp:158-164 | a duplicate-free subscriber list gives duplicate-free receivers, so no participant gets one event twice |
| Routing.RecipientsStep | src/EventManager/Manager.cpp:158-164 | serving the subscriber at index i extends the receivers of the first i subscribers by it exactly when it is not the emitter |
| Routing.Delivers | src/EventManager/Manager.cpp:158-164 | an event reaches q exactly when q is in the list of the event's type and is not its emitter; only subscribers are ever reached |
| Routing.Inbox | src/EventManager/Manager.cpp:177-182 | what one dispatch pass gives a participant: exactly the queued events it is subscribed to and did not emit, so an event never returns to its emitter |
| Routing.InboxSnoc | src/EventManager/Manager.cpp:177-182 | one more queued event extends a participant's inbox by that event exactly when it is delivered to them |
| Routing.InboxDeliversAll | src/EventManager/Manager.cpp:158-164 | when every queued event has type t and q, a subscriber of t, emitted none of them, q's inbox is the whole queue, in emission order |
| Commands.Initial | include/EventManager/Manager.hpp:205-208 | a fresh manager has empty tables and queues, the ID counter at 1, and satisfies the invariant |
| Commands.Valid | include/EventManager/Manager.hpp:84-111 | the manager invariant: no duplicate in any routing list, the scheduling list or the registry; every registered participant has an ID in [1, nextParticipantID) and the IDs are distinct |
| Commands.Register | src/EventManager/Manager.cpp:382-386 | the registry gains p at its end, p gets ID nextParticipantID and every other ID is kept, the counter grows by one, the table becomes `Routing.Subscribe` of SHUTDOWN and p, so every other entry is kept, and the queues and the scheduling list are untouched |
| Commands.InitStep | include/EventManager/Participant.hpp:167 | `init()` runs the hook: the base hook fails with NotImplemented and changes nothing; the test participant of tests/test_basic.cpp:36-39 passes, its table becomes `Routing.Subscribe` of its type and p, so every other entry is kept, and it enqueues its own ENABLE_SCHEDULING; only the table and the command queue change, and the table stays duplicate-free |
| Commands.ConnectStep | src/EventManager/Manager.cpp:376-389 | CONNECT of a registered p passes and changes nothing; otherwise p ends registered with ID nextParticipantID, the event queue and scheduling list are kept, every existing subscription stays in the table, and the only possible error is NotImplemented from init |
| Commands.DisconnectStep | src/EventManager/Manager.cpp:392-407 | DISCONNECT changes only the scheduling list and the table: the scheduling list is that of `DisableStep` (p off it, everyone else kept) and the table is `Routing.UnsubscribeAll` of p, whose subscribers lose exactly p; it fails, with NoManager, exactly when p is registered |
| Commands.EnableStep | src/EventManager/Manager.cpp:410-419 | ENABLE_SCHEDULING changes only the scheduling list: p is on it afterwards, no one else joins or leaves, an already scheduled p changes nothing, and the list stays duplicate-free |
| Commands.DisableStep | src/EventManager/Manager.cpp:422-431 | DISABLE_SCHEDULING changes only the scheduling list: everyone else stays, an absent p changes nothing, and on a duplicate-free list p is off it afterwards and the list stays duplicate-free |
| Commands.Apply | src/EventManager/Manager.cpp:355-369 | each command kind goes to its own handler; no handler touches the event queue, and only CONNECT (through init) may enqueue one more command, an ENABLE_SCHEDULING |
| Commands.Drain | src/EventManager/Manager.cpp:347-373 | processCommands_ never changes the event queue; when it ends without error the command queue is empty, including commands enqueued during the drain; the only errors are NotImplemented and NoManager |
| Commands.RegisterPreservesValid | src/EventManager/Manager.cpp:380-387 | registering an unregistered participant keeps the invariant: the registry stays duplicate-free and the new ID is fresh |
| Commands.ApplyPreservesValid | src/EventManager/Manager.cpp:355-369 | every command handler keeps the invariant |
| Commands.DrainPreservesValid | src/EventManager/Manager.cpp:347-373 | processCommands_ keeps the invariant, whether it drains the queue or stops on an error |
| Commands.ConnectRegisters | src/EventManager/Manager.cpp:376-389 | CONNECT of an unregistered p appends it to the registry, gives it ID nextParticipantID (distinct from every other ID), increments the counter and subscribes p to SHUTDOWN; CONNECT of a registered p changes nothing |
| Commands.ConnectRunsInit | src/EventManager/Manager.cpp:382-387 | CONNECT runs init after registering: the base hook fails with NotImplemented; the test participant's init subscribes it and enqueues its ENABLE_SCHEDULING |
| Commands.DisconnectDetaches | src/EventManager/Manager.cpp:392-407 | DISCONNECT removes p from every routing list and from the scheduling list, registered or not; for a registered p it then raises NoManager and p stays in the registry |
| Commands.SchedulingOnce | src/EventManager/Manager.cpp:410-431 | ENABLE_SCHEDULING adds p once and is idempotent; DISABLE_SCHEDULING removes p and is a no-op when p is absent; the list stays duplicate-free |
| Commands.DrainRunsNestedCommands | src/EventManager/Manager.cpp:347-373 | draining [CONNECT p] for a test participant also runs the ENABLE_SCHEDULING that its init enqueues: p ends registered with the next ID, subscribed to SHUTDOWN and its type, and scheduled, with an empty queue |
| Commands.DrainRespectsOrder | src/EventManager/Manager.cpp:350-353 | commands apply in FIFO order: DISABLE then ENABLE leaves p scheduled; ENABLE then DISABLE leaves it unscheduled |
| Commands.Reschedule | src/EventManager/Manager.cpp:363-368 | applying a run of ENABLE/DISABLE_SCHEDULING commands in order changes only the scheduling list and keeps it duplicate-free |
| Commands.LastFor | src/EventManager/Manager.cpp:350-353 | the kind of the last command naming p in a queue: a reported kind is that of a command for p after which no command names p, and nothing is reported exactly when no command names p |
| Commands.RescheduleLastWins | src/EventManager/Manager.cpp:350-353 | for every run of scheduling commands, p ends scheduled exactly when the last command naming p is ENABLE_SCHEDULING, or, when none names p, exactly when it was scheduled before |
| Commands.DrainSchedulingCommands | src/EventManager/Manager.cpp:347-373 | draining a queue of scheduling commands passes and equals applying them one by one in FIFO order, leaving the queue empty |
| EventManager.Participant.constructor | src/EventManager/Participant.cpp:18-22 | a new participant has no manager, is not scheduled, has an unlocked and empty inbound queue |
| EventManager.Participant.Emit | src/EventManager/Participant.cpp:43-50 | emit appends the event at the back of the inbound queue and changes nothing else |
| EventManager.Participant.HasEvents | src/EventManager/Participant.cpp:52-63 | `_hasEvents()` is true exactly when the inbound queue is non-empty, and changes nothing |
| EventManager.Participant.IsScheduled | include/EventManager/Participant.hpp:136 | `isScheduledByManager()` reads the flag without changing state |
| EventManager.Participant.LockQueue | src/EventManager/Participant.cpp:65-69 | `_lockQueue` sets the locked flag |
| EventManager.Participant.UnlockQueue | src/EventManager/Participant.cpp:71-75 | `_unlockQueue` clears the locked flag |
| EventManager.Participant.FetchEvent | src/EventManager/Participant.cpp:77-88 | unlocked: fails with "queue not locked" and changes nothing; locked: returns the front event and removes exactly that one |
| EventManager.Participant.SubscribeTo | src/EventManager/Participant.cpp:121-128 | without a manager it fails with NoManager; otherwise the manager's table becomes subscribe(t, this) and nothing else of the manager changes |
| EventManager.Participant.UnsubscribeFrom | src/EventManager/Participant.cpp:130-137 | without a manager it fails with NoManager; otherwise the manager's table becomes unsubscribe(t, this) |
| EventManager.Participant.UnsubscribeFromAll | src/EventManager/Participant.cpp:139-146 | without a manager it fails with NoManager; otherwise the manager's table becomes unsubscribe(this) |
| EventManager.Participant.EmitEvent | src/EventManager/Participant.cpp:148-156 | without a manager it fails with NoManager; otherwise the event, with this participant as emitter, is appended to the manager's event queue |
| EventManager.Participant.EnableScheduling | src/EventManager/Participant.cpp:111-119 | without a manager it fails with NoManager and the flag is unchanged; otherwise ENABLE_SCHEDULING for this participant is enqueued and the flag is set at once |
| EventManager.Participant.ConnectPeer | src/EventManager/Participant.cpp:24-31 | without a manager it fails with NoManager; otherwise CONNECT for the peer is enqueued |
| EventManager.Participant.DisconnectPeer | src/EventManager/Participant.cpp:33-40 | without a manager it fails with NoManager; otherwise DISCONNECT for the peer is enqueued |
| EventManager.Participant.SetManager | include/EventManager/Participant.hpp:154 | the manager field becomes m; with a manager the participant is subscribed to SHUTDOWN; with null the field is already cleared when NoManager is raised |
| EventManager.Participant.Init | include/EventManager/Participant.hpp:167 | init delegates to the hook: the base hook fails with NotImplemented; the test participant's subscribes to its type and enables scheduling, with the manager-side effect of `Commands.InitStep` |
| EventManager.Participant.Schedule | tests/test_basic.cpp:41-63 | the base hook fails with NotImplemented; the test participant's locks, fetches the front event if any, unlocks, and unsubscribes from everything when that event is a SHUTDOWN |
| EventManager.DeliverToAll | src/EventManager/Manager.cpp:158-164 | the loop over one routing list appends the event once to the inbound queue of every listed participant except the emitter and changes only those inbound queues; the receivers, recorded in the order the loop serves them, are `Routing.Recipients` of the list |
| EventManager.Manager.constructor | include/EventManager/Manager.hpp:205-208 | a fresh manager is stopped, satisfies the invariant and equals `Commands.Initial` |
| EventManager.Manager.IsRunning | src/EventManager/Manager.cpp:283-292 | running exactly when both the main and the scheduling loop report running |
| EventManager.Manager.Subscribe | src/EventManager/Manager.cpp:217-240 | the table becomes `Routing.Subscribe` of the old one; everything else and the invariant are kept |
| EventManager.Manager.Unsubscribe | src/EventManager/Manager.cpp:242-260 | the table becomes `Routing.Unsubscribe` of the old one; everything else and the invariant are kept |
| EventManager.Manager.UnsubscribeAll | src/EventManager/Manager.cpp:262-270 | the loop over the keys leaves the table equal to `Routing.UnsubscribeAll` of the old one |
| EventManager.Manager.Emit | src/EventManager/Manager.cpp:273-281 | emit only appends the event to the event queue |
| EventManager.Manager.ProcessEvent | src/EventManager/Manager.cpp:150-167 | the loop serves exactly `Routing.Recipients` in list order: each subscriber of the type except the emitter gets the event appended once; an unknown type delivers nothing; only the `inbound` fields of that type's subscribers may change |
| EventManager.Manager.DispatchNext | src/EventManager/Manager.cpp:177-182 | pops the front event and appends it to the inbound queue of exactly the participants that `Routing.Delivers` names; the manager's flags and other fields and every other participant field are kept |
| EventManager.Manager.DrainEvents | src/EventManager/Manager.cpp:177-182 | the dispatch loop empties the event queue; every subscriber's inbound queue grows by its `Routing.Inbox` of the old queue, in emission order; only `inbound` fields of subscribers change, and the flags are kept |
| EventManager.Manager.Empty | src/EventManager/Manager.cpp:294-312 | once the command queue is empty, `empty()` is true exactly when no routing list holds a subscriber |
| EventManager.Manager.Schedule | src/EventManager/Manager.cpp:333-337 | schedule only enqueues ENABLE_SCHEDULING |
| EventManager.Manager.Unschedule | src/EventManager/Manager.cpp:340-344 | unschedule only enqueues DISABLE_SCHEDULING |
| EventManager.Manager.Connect | src/EventManager/Manager.cpp:434-438 | connect only enqueues CONNECT; init does not run |
| EventManager.Manager.Disconnect | src/EventManager/Manager.cpp:441-445 | disconnect only enqueues DISCONNECT |
| EventManager.Manager.ProcessEnableScheduling | src/EventManager/Manager.cpp:410-419 | the state becomes `Commands.EnableStep` of the old one |
| EventManager.Manager.ProcessDisableScheduling | src/EventManager/Manager.cpp:422-431 | the state becomes `Commands.DisableStep` of the old one |
| EventManager.Manager.ProcessConnect | src/EventManager/Manager.cpp:376-389 | outcome and state are `Commands.ConnectStep` of the old state; a newly registered participant gets this manager, and its scheduled flag is set by the test participant's init |
| EventManager.Manager.ProcessDisconnect | src/EventManager/Manager.cpp:392-407 | outcome and state are `Commands.DisconnectStep` of the old state; a registered participant's manager is cleared, an unregistered one's is untouched |
| EventManager.Manager.Dispatch | src/EventManager/Manager.cpp:355-369 | one command goes to its handler: outcome and state are `Commands.Apply` of the old state; only the named participant's `manager` and scheduled flag may change, and any command it enqueues names that participant |
| EventManager.Manager.DispatchFront | src/EventManager/Manager.cpp:350-369 | one turn of the drain loop: the drain from the old state is this step followed, unless it raised, by the drain from the new state; the queue weight strictly drops |
| EventManager.Manager.ProcessCommands | src/EventManager/Manager.cpp:347-373 | the drain loop ends with the outcome and state of `Commands.Drain` applied to the old state; it keeps the invariant and the flags, and changes only the `manager` and `isScheduledByManager` fields of participants named by queued commands |

## Left out

- Threads and timing: `start`, `stop`, `startMain_`, `stopMain_`, `startScheduling_`,
  `stopScheduling_` and the destructor poll with sleeps and a timeout. They are not modelled;
  the running and stop flags are plain fields that only the constructor sets; every other
  Manager and Participant method states that it keeps them (`Manager.Flags`).
- `mainProcess_` waits on a condition variable and `schedulingProcess_` sleeps between ticks.
  One dispatch pass of the main loop is `Manager.DrainEvents`. One tick of the scheduling
  loop, which calls `schedule()` on every scheduled participant and then `processCommands_`,
  is not modelled as a whole; its parts are `Participant.Schedule` and
  `Manager.ProcessCommands`.
- Mutexes, atomics and `notify_one`: the model is sequential. Lock state is only the
  `isQueueLocked` flag. `LockQueue` and `UnlockQueue` do not model blocking on the mutex.
- `_waitForEvent` and its timed variant wait on a condition variable and are not modelled.
- The busy-wait inside `empty()` and the polling loop of `waitEmpty` depend on wall-clock time.
- EventManager.Manager.Empty: requires an empty command queue instead of waiting for one.
- The random draw of event ids is a caller-supplied id in [1, 2^31-1].
- `shared_ptr` ownership and aliasing: participants are object references and events are
  values. `Participant.EmitEvent` queues a copy of the event with the emitter set; the C++
  `_emit` sets the emitter on the caller's shared event object.
- EventManager.Manager.ProcessConnect: `nextParticipantID` is an unbounded `nat`; the `uint32_t` counter of
  the source would wrap after 2^32-1 connections.
- EventManager.Manager.ProcessCommands: its contract states the manager's new state through
  `Commands.Drain` and frames the participants to the `manager` and `isScheduledByManager`
  fields of those named by queued commands; the values those fields take after a whole drain
  are stated per command, by `Dispatch`, `ProcessConnect` and `ProcessDisconnect`.
- EventManager.Participant.Schedule: the test participant's `receivedEvent_` flag is not a field; the
  fetched event is returned instead.
- EventManager.Participant.Init, EventManager.Participant.Schedule: only the base hooks and the test participant's hooks
  are modelled; other subclasses can override `init_` and `schedule_` arbitrarily.
- Commands.Apply, Commands.Drain: only the base hooks and the test participant's hooks are
  modelled, and that closed set is what makes CONNECT enqueue at most one ENABLE_SCHEDULING and
  what makes `Drain` terminate (its measure `Weight`). A general `init_` can enqueue any number
  of commands, for instance CONNECT of fresh participants, so `processCommands_`
  (src/EventManager/Manager.cpp:350-371) need not terminate in the source.
