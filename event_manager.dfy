/** The Participant (include/EventManager/Participant.hpp, src/EventManager/Participant.cpp)
    and the Manager (include/EventManager/Manager.hpp, src/EventManager/Manager.cpp) as classes
    whose methods update their fields in place. They refer to each other, so they share a module.
    Every Manager method that changes the manager is proved to leave its fields equal to a
    function of the old state: for the routing and command handlers the functions of Routing and
    Commands, whose promises are proved there; for the queueing methods one queue grows by one
    command or event. */
module EventManager {
  import opened Outcomes
  import opened Events
  import opened Routing
  import opened Commands

  /** Events on this bus name their emitter by reference. */
  type BusEvent = Event<Participant>

  /** The hooks of a participant, as a function value for Drain. */
  function HooksOf(p: Participant): Hooks {
    p.hooks
  }

  /** The participants a sequence holds. */
  ghost function Members(list: seq<Participant>): set<Participant> {
    set q | q in list
  }

  /** The loop of processEvent over one subscriber list: every listed participant except the
      event's emitter gets the event appended to its inbound queue, in list order. */
  method DeliverToAll(list: seq<Participant>, e: BusEvent) returns (ghost delivered: seq<Participant>)
    requires NoDup(list)
    modifies Members(list)`inbound
    ensures delivered == Recipients(list, e)
    ensures forall q :: q in list ==>
      q.inbound == old(q.inbound) + (if e.emitter != Some(q) then [e] else [])
  {
    delivered := [];
    var i := 0;
    while i < |list|
      invariant 0 <= i <= |list|
      invariant delivered == Recipients(list[..i], e)
      invariant forall j :: 0 <= j < |list| ==>
        list[j].inbound == old(list[j].inbound) + (if j < i && e.emitter != Some(list[j]) then [e] else [])
    {
      var q := list[i];
      RecipientsStep(list, i, e);
      if e.emitter != Some(q) {
        q.Emit(e);
        delivered := delivered + [q];
      }
      i := i + 1;
    }
    assert list[..|list|] == list;
    forall q | q in list
      ensures q.inbound == old(q.inbound) + (if e.emitter != Some(q) then [e] else [])
    {
      var j :| 0 <= j < |list| && list[j] == q;
    }
  }

  class Participant {
    /** Which init_/schedule_ overrides this participant has. */
    const hooks: Hooks
    var manager: Manager?
    var isScheduledByManager: bool
    /** The inbound eventQueue_, oldest event first. */
    var inbound: seq<BusEvent>
    var isQueueLocked: bool

    /** A manager this participant is attached to keeps its invariant. */
    ghost predicate Valid()
      reads this, manager
    {
      manager != null ==> manager.Valid()
    }

    /** Participant(): detached, not scheduled, queue unlocked and empty. */
    constructor (hooks: Hooks)
      ensures this.hooks == hooks
      ensures manager == null && !isScheduledByManager
      ensures inbound == [] && !isQueueLocked
    {
      this.hooks := hooks;
      manager := null;
      isScheduledByManager := false;
      inbound := [];
      isQueueLocked := false;
    }

    /** emit(event): the manager delivers an event to this participant. */
    method Emit(e: BusEvent)
      modifies this`inbound
      ensures inbound == old(inbound) + [e]
    {
      inbound := inbound + [e];
    }

    /** _hasEvents(): whether the inbound queue holds an event; it changes nothing. */
    method HasEvents() returns (has: bool)
      ensures has <==> |inbound| > 0
    {
      has := inbound != [];
    }

    /** isScheduledByManager(): a read of the flag. */
    method IsScheduled() returns (scheduled: bool)
      ensures scheduled == isScheduledByManager
    {
      scheduled := isScheduledByManager;
    }

    /** _lockQueue(). */
    method LockQueue()
      modifies this`isQueueLocked
      ensures isQueueLocked
    {
      isQueueLocked := true;
    }

    /** _unlockQueue(). */
    method UnlockQueue()
      modifies this`isQueueLocked
      ensures !isQueueLocked
    {
      isQueueLocked := false;
    }

    /** _fetchEvent(): with the queue locked, pop and return the oldest event; otherwise raise
        "queue not locked". Popping an empty std::queue is undefined, hence the requires. */
    method FetchEvent() returns (r: Result<BusEvent>)
      requires isQueueLocked ==> inbound != []
      modifies this`inbound
      ensures !isQueueLocked ==> r == Err(QueueNotLocked) && inbound == old(inbound)
      ensures isQueueLocked ==> r == Ok(old(inbound)[0]) && inbound == old(inbound)[1..]
    {
      if !isQueueLocked {
        r := Err(QueueNotLocked);
      } else {
        r := Ok(inbound[0]);
        inbound := inbound[1..];
      }
    }

    /** _subscribe(type). */
    method SubscribeTo(t: EventType) returns (r: Outcome)
      requires Valid()
      modifies manager
      ensures Valid()
      ensures manager != null ==> manager.Flags() == old(manager.Flags())
      ensures manager == null ==> r == Fail(NoManager)
      ensures manager != null ==>
        && r == Pass
        && manager.Model() == old(manager.Model()).(eventMap := Subscribe(old(manager.eventMap), t, this))
    {
      if manager == null {
        r := Fail(NoManager);
      } else {
        manager.Subscribe(t, this);
        r := Pass;
      }
    }

    /** _unsubscribe(type). */
    method UnsubscribeFrom(t: EventType) returns (r: Outcome)
      requires Valid()
      modifies manager
      ensures Valid()
      ensures manager != null ==> manager.Flags() == old(manager.Flags())
      ensures manager == null ==> r == Fail(NoManager)
      ensures manager != null ==>
        && r == Pass
        && manager.Model() == old(manager.Model()).(eventMap := Unsubscribe(old(manager.eventMap), t, this))
    {
      if manager == null {
        r := Fail(NoManager);
      } else {
        manager.Unsubscribe(t, this);
        r := Pass;
      }
    }

    /** _unsubscribe(). */
    method UnsubscribeFromAll() returns (r: Outcome)
      requires Valid()
      modifies manager
      ensures Valid()
      ensures manager != null ==> manager.Flags() == old(manager.Flags())
      ensures manager == null ==> r == Fail(NoManager)
      ensures manager != null ==>
        && r == Pass
        && manager.Model() == old(manager.Model()).(eventMap := UnsubscribeAll(old(manager.eventMap), this))
    {
      if manager == null {
        r := Fail(NoManager);
      } else {
        manager.UnsubscribeAll(this);
        r := Pass;
      }
    }

    /** _emit(event): mark this participant as the emitter, then queue the event at the manager. */
    method EmitEvent(e: BusEvent) returns (r: Outcome)
      requires Valid()
      modifies manager
      ensures Valid()
      ensures manager != null ==> manager.Flags() == old(manager.Flags())
      ensures manager == null ==> r == Fail(NoManager)
      ensures manager != null ==>
        && r == Pass
        && manager.Model() == old(manager.Model()).(eventQueue := old(manager.eventQueue) + [WithEmitter(e, this)])
    {
      if manager == null {
        r := Fail(NoManager);
      } else {
        manager.Emit(WithEmitter(e, this));
        r := Pass;
      }
    }

    /** _enableScheduling(): request ENABLE_SCHEDULING and set the flag at once, before the
        request is processed. */
    method EnableScheduling() returns (r: Outcome)
      requires Valid()
      modifies this`isScheduledByManager, manager
      ensures Valid()
      ensures manager != null ==> manager.Flags() == old(manager.Flags())
      ensures manager == null ==> r == Fail(NoManager) && isScheduledByManager == old(isScheduledByManager)
      ensures manager != null ==>
        && r == Pass
        && isScheduledByManager
        && manager.Model() == old(manager.Model()).(commandQueue := old(manager.commandQueue) + [Command(CommandKind.EnableScheduling, this)])
    {
      if manager == null {
        r := Fail(NoManager);
      } else {
        manager.Schedule(this);
        isScheduledByManager := true;
        r := Pass;
      }
    }

    /** connect(participant): request that another participant be connected. */
    method ConnectPeer(q: Participant) returns (r: Outcome)
      requires Valid()
      modifies manager
      ensures Valid()
      ensures manager != null ==> manager.Flags() == old(manager.Flags())
      ensures manager == null ==> r == Fail(NoManager)
      ensures manager != null ==>
        && r == Pass
        && manager.Model() == old(manager.Model()).(commandQueue := old(manager.commandQueue) + [Command(CommandKind.Connect, q)])
    {
      if manager == null {
        r := Fail(NoManager);
      } else {
        manager.Connect(q);
        r := Pass;
      }
    }

    /** disconnect(participant): request that another participant be disconnected. */
    method DisconnectPeer(q: Participant) returns (r: Outcome)
      requires Valid()
      modifies manager
      ensures Valid()
      ensures manager != null ==> manager.Flags() == old(manager.Flags())
      ensures manager == null ==> r == Fail(NoManager)
      ensures manager != null ==>
        && r == Pass
        && manager.Model() == old(manager.Model()).(commandQueue := old(manager.commandQueue) + [Command(CommandKind.Disconnect, q)])
    {
      if manager == null {
        r := Fail(NoManager);
      } else {
        manager.Disconnect(q);
        r := Pass;
      }
    }

    /** setManager(m): store m, then subscribe to SHUTDOWN through it. With a null m the field is
        cleared first and the subscription then raises NoManager. */
    method SetManager(m: Manager?) returns (r: Outcome)
      requires m != null ==> m.Valid()
      modifies this`manager, m
      ensures manager == m && Valid()
      ensures m != null ==> m.Flags() == old(m.Flags())
      ensures m == null ==> r == Fail(NoManager)
      ensures m != null ==>
        && r == Pass
        && m.Model() == old(m.Model()).(eventMap := Subscribe(old(m.eventMap), SHUTDOWN, this))
    {
      manager := m;
      r := SubscribeTo(SHUTDOWN);
    }

    /** init(): run the init_ hook. The base hook raises NotImplemented; the test participant's
        subscribes to its event type and enables scheduling. */
    method Init() returns (r: Outcome)
      requires Valid()
      modifies this`isScheduledByManager, manager
      ensures Valid()
      ensures manager != null ==> manager.Flags() == old(manager.Flags())
      ensures manager == null ==>
        && r == Fail(if hooks.Unimplemented? then NotImplemented else NoManager)
        && isScheduledByManager == old(isScheduledByManager)
      ensures manager != null ==>
        && InitStep(old(manager.Model()), this, hooks) == Step(r, manager.Model())
        && isScheduledByManager == (old(isScheduledByManager) || hooks.TestParticipant?)
    {
      match hooks
      case Unimplemented =>
        r := Fail(NotImplemented);
      case TestParticipant(t) =>
        r := SubscribeTo(t);
        if r.Pass? {
          r := EnableScheduling();
        }
    }

    /** schedule(): run the schedule_ hook. The base hook raises NotImplemented. The test
        participant's locks its queue, fetches the oldest event if there is one, unlocks, and
        unsubscribes from everything when that event is a SHUTDOWN; `fetched` is that event. */
    method Schedule() returns (r: Outcome, fetched: Option<BusEvent>)
      requires Valid()
      modifies this`inbound, this`isQueueLocked, manager
      ensures Valid()
      ensures manager != null ==> manager.Flags() == old(manager.Flags())
      ensures hooks.Unimplemented? ==>
        && r == Fail(NotImplemented) && fetched == None
        && inbound == old(inbound) && isQueueLocked == old(isQueueLocked)
        && (manager != null ==> manager.Model() == old(manager.Model()))
      ensures hooks.TestParticipant? ==>
        && !isQueueLocked
        && fetched == (if old(inbound) == [] then None else Some(old(inbound)[0]))
        && inbound == (if old(inbound) == [] then [] else old(inbound)[1..])
        && (if fetched.Some? && fetched.value.eventType == SHUTDOWN then
              && (manager == null ==> r == Fail(NoManager))
              && (manager != null ==>
                    && r == Pass
                    && manager.Model() == old(manager.Model()).(eventMap := UnsubscribeAll(old(manager.eventMap), this)))
            else
              && r == Pass
              && (manager != null ==> manager.Model() == old(manager.Model())))
    {
      match hooks
      case Unimplemented =>
        r, fetched := Fail(NotImplemented), None;
      case TestParticipant(_) =>
        LockQueue();
        var has := HasEvents();
        fetched := None;
        if has {
          var e := FetchEvent();
          fetched := Some(e.value);
        }
        UnlockQueue();
        r := Pass;
        if fetched.Some? && fetched.value.eventType == SHUTDOWN {
          r := UnsubscribeFromAll();
        }
    }
  }

  class Manager {
    var isMainThreadRunning: bool
    var stopMainThread: bool
    var isSchedulingThreadRunning: bool
    var stopSchedulingThread: bool
    /** eventMap_: event type to subscriber list. */
    var eventMap: Table<Participant>
    var eventQueue: seq<BusEvent>
    var schedulingParticipants: seq<Participant>
    /** participants_: the registry of connected participants. */
    var participants: seq<Participant>
    var nextParticipantID: nat
    var commandQueue: seq<Command<Participant>>
    /** The ID each participant received through setID. */
    ghost var ids: map<Participant, nat>

    /** The fields as a Commands.ManagerState value. */
    ghost function Model(): ManagerState<Participant>
      reads this
    {
      ManagerState(eventMap, eventQueue, commandQueue, schedulingParticipants, participants, nextParticipantID, ids)
    }

    ghost predicate Valid()
      reads this
    {
      Commands.Valid(Model())
    }

    /** The running and stop flags of the two loops, which no modelled operation changes. */
    ghost function Flags(): (bool, bool, bool, bool)
      reads this
    {
      (isMainThreadRunning, stopMainThread, isSchedulingThreadRunning, stopSchedulingThread)
    }

    /** The participants some routing list holds. */
    ghost function Subscribers(t: EventType): set<Participant>
      reads this
    {
      if t in eventMap then Members(eventMap[t]) else {}
    }

    /** The participants named by a queued command. */
    ghost function Targets(): set<Participant>
      reads this
    {
      set c | c in commandQueue :: c.participant
    }

    /** Manager(): both loops stopped, nothing subscribed or queued, the ID counter at 1. */
    constructor ()
      ensures Valid() && Model() == Initial()
      ensures !isMainThreadRunning && !stopMainThread
      ensures !isSchedulingThreadRunning && !stopSchedulingThread
    {
      isMainThreadRunning, stopMainThread := false, false;
      isSchedulingThreadRunning, stopSchedulingThread := false, false;
      eventMap := map[];
      eventQueue := [];
      schedulingParticipants := [];
      participants := [];
      nextParticipantID := 1;
      commandQueue := [];
      ids := map[];
    }

    /** isRunning(): both loops report running. */
    method IsRunning() returns (running: bool)
      ensures running <==> isMainThreadRunning && isSchedulingThreadRunning
    {
      running := isMainThreadRunning && isSchedulingThreadRunning;
    }

    /** subscribe(type, participant). */
    method Subscribe(t: EventType, p: Participant)
      requires Valid()
      modifies this
      ensures Valid()
      ensures Flags() == old(Flags())
      ensures Model() == old(Model()).(eventMap := Routing.Subscribe(old(eventMap), t, p))
    {
      if t in eventMap {
        if p !in eventMap[t] {
          eventMap := eventMap[t := eventMap[t] + [p]];
        }
      } else {
        eventMap := eventMap[t := [p]];
      }
    }

    /** unsubscribe(type, participant). */
    method Unsubscribe(t: EventType, p: Participant)
      requires Valid()
      modifies this
      ensures Valid()
      ensures Flags() == old(Flags())
      ensures Model() == old(Model()).(eventMap := Routing.Unsubscribe(old(eventMap), t, p))
    {
      if t !in eventMap {
        return;
      }
      if p in eventMap[t] {
        eventMap := eventMap[t := Without(eventMap[t], p)];
      }
    }

    /** unsubscribe(participant): unsubscribe(type, participant) for every key. */
    method UnsubscribeAll(p: Participant)
      requires Valid()
      modifies this
      ensures Valid()
      ensures Flags() == old(Flags())
      ensures Model() == old(Model()).(eventMap := Routing.UnsubscribeAll(old(eventMap), p))
    {
      var keys := eventMap.Keys;
      while keys != {}
        invariant Valid()
        invariant keys <= eventMap.Keys == old(eventMap).Keys
        invariant forall t :: t in eventMap ==>
          eventMap[t] == if t in keys then old(eventMap)[t] else Without(old(eventMap)[t], p)
        invariant Model() == old(Model()).(eventMap := eventMap)
        invariant Flags() == old(Flags())
        decreases keys
      {
        var t :| t in keys;
        Unsubscribe(t, p);
        keys := keys - {t};
      }
      assert eventMap == Routing.UnsubscribeAll(old(eventMap), p);
    }

    /** emit(event): queue the event for the dispatch loop. */
    method Emit(e: BusEvent)
      requires Valid()
      modifies this
      ensures Valid()
      ensures Flags() == old(Flags())
      ensures Model() == old(Model()).(eventQueue := old(eventQueue) + [e])
    {
      eventQueue := eventQueue + [e];
    }

    /** processEvent(event): hand the event to every subscriber of its type, in list order,
        except its emitter. `delivered` lists the receivers in the order they were served. */
    method ProcessEvent(e: BusEvent) returns (ghost delivered: seq<Participant>)
      requires Valid()
      modifies Subscribers(e.eventType)`inbound
      ensures e.eventType in eventMap ==> delivered == Recipients(eventMap[e.eventType], e)
      ensures e.eventType !in eventMap ==> delivered == []
      ensures forall q :: q in Subscribers(e.eventType) ==>
        q.inbound == old(q.inbound) + (if Delivers(eventMap, e, q) then [e] else [])
    {
      delivered := [];
      if e.eventType in eventMap {
        delivered := DeliverToAll(eventMap[e.eventType], e);
      }
    }

    /** One turn of the dispatch loop of mainProcess_: pop the oldest queued event and process it. */
    method DispatchNext() returns (e: BusEvent)
      requires Valid() && eventQueue != []
      modifies this, SubscriberSet(eventMap)`inbound
      ensures Valid()
      ensures Flags() == old(Flags())
      ensures e == old(eventQueue)[0]
      ensures Model() == old(Model()).(eventQueue := old(eventQueue)[1..])
      ensures forall q :: q in SubscriberSet(eventMap) ==>
        q.inbound == old(q.inbound) + (if Delivers(eventMap, e, q) then [e] else [])
    {
      e := eventQueue[0];
      eventQueue := eventQueue[1..];
      assert Subscribers(e.eventType) <= SubscriberSet(eventMap);
      ghost var delivered := ProcessEvent(e);
      forall q | q in SubscriberSet(eventMap) && q !in Subscribers(e.eventType)
        ensures !Delivers(eventMap, e, q)
      {
      }
    }

    /** The dispatch loop of mainProcess_ run until the event queue is empty: every subscriber
        receives, in emission order, the queued events addressed to it. */
    method DrainEvents()
      requires Valid()
      modifies this, SubscriberSet(eventMap)`inbound
      ensures Valid()
      ensures Flags() == old(Flags())
      ensures Model() == old(Model()).(eventQueue := [])
      ensures forall q :: q in SubscriberSet(eventMap) ==>
        q.inbound == old(q.inbound) + Inbox(eventMap, old(eventQueue), q)
    {
      ghost var table := eventMap;
      ghost var subs := SubscriberSet(eventMap);
      ghost var done: seq<BusEvent> := [];
      while eventQueue != []
        invariant Valid()
        invariant Model() == old(Model()).(eventQueue := eventQueue)
        invariant Flags() == old(Flags())
        invariant old(eventQueue) == done + eventQueue
        invariant forall q :: q in subs ==> q.inbound == old(q.inbound) + Inbox(table, done, q)
        decreases |eventQueue|
      {
        var e := DispatchNext();
        InboxSnoc(table, done, e);
        done := done + [e];
      }
      assert done + eventQueue == done;
    }

    /** empty(), once the command queue has drained: no routing list holds a subscriber. */
    method Empty() returns (isEmpty: bool)
      requires commandQueue == []
      ensures isEmpty <==> RoutingEmpty(eventMap)
    {
      isEmpty := true;
      var keys := eventMap.Keys;
      while keys != {}
        invariant keys <= eventMap.Keys
        invariant isEmpty <==> forall t :: t in eventMap && t !in keys ==> eventMap[t] == []
        decreases keys
      {
        var t :| t in keys;
        if eventMap[t] != [] {
          isEmpty := false;
        }
        keys := keys - {t};
      }
    }

    /** schedule(participant): only queues ENABLE_SCHEDULING. */
    method Schedule(p: Participant)
      requires Valid()
      modifies this
      ensures Valid()
      ensures Flags() == old(Flags())
      ensures Model() == old(Model()).(commandQueue := old(commandQueue) + [Command(CommandKind.EnableScheduling, p)])
    {
      commandQueue := commandQueue + [Command(CommandKind.EnableScheduling, p)];
    }

    /** unschedule(participant): only queues DISABLE_SCHEDULING. */
    method Unschedule(p: Participant)
      requires Valid()
      modifies this
      ensures Valid()
      ensures Flags() == old(Flags())
      ensures Model() == old(Model()).(commandQueue := old(commandQueue) + [Command(CommandKind.DisableScheduling, p)])
    {
      commandQueue := commandQueue + [Command(CommandKind.DisableScheduling, p)];
    }

    /** connect(participant): only queues CONNECT; init() does not run here. */
    method Connect(p: Participant)
      requires Valid()
      modifies this
      ensures Valid()
      ensures Flags() == old(Flags())
      ensures Model() == old(Model()).(commandQueue := old(commandQueue) + [Command(CommandKind.Connect, p)])
    {
      commandQueue := commandQueue + [Command(CommandKind.Connect, p)];
    }

    /** disconnect(participant): only queues DISCONNECT. */
    method Disconnect(p: Participant)
      requires Valid()
      modifies this
      ensures Valid()
      ensures Flags() == old(Flags())
      ensures Model() == old(Model()).(commandQueue := old(commandQueue) + [Command(CommandKind.Disconnect, p)])
    {
      commandQueue := commandQueue + [Command(CommandKind.Disconnect, p)];
    }

    /** processEnableScheduling_. */
    method ProcessEnableScheduling(p: Participant)
      requires Valid()
      modifies this
      ensures Valid()
      ensures Flags() == old(Flags())
      ensures Model() == EnableStep(old(Model()), p)
    {
      if p !in schedulingParticipants {
        schedulingParticipants := schedulingParticipants + [p];
      }
    }

    /** processDisableScheduling_. */
    method ProcessDisableScheduling(p: Participant)
      requires Valid()
      modifies this
      ensures Valid()
      ensures Flags() == old(Flags())
      ensures Model() == DisableStep(old(Model()), p)
    {
      if p in schedulingParticipants {
        schedulingParticipants := Without(schedulingParticipants, p);
      }
    }

    /** processConnect_: register an unregistered participant, attach it, then run its init(). */
    method ProcessConnect(p: Participant) returns (r: Outcome)
      requires Valid()
      modifies this, p`manager, p`isScheduledByManager
      ensures Valid()
      ensures Flags() == old(Flags())
      ensures ConnectStep(old(Model()), p, p.hooks) == Step(r, Model())
      ensures old(p in participants) ==>
        p.manager == old(p.manager) && p.isScheduledByManager == old(p.isScheduledByManager)
      ensures old(p !in participants) ==>
        p.manager == this && p.isScheduledByManager == (old(p.isScheduledByManager) || p.hooks.TestParticipant?)
    {
      r := Pass;
      if p !in participants {
        RegisterPreservesValid(Model(), p);
        var attached := p.SetManager(this);
        ids := ids[p := nextParticipantID];
        nextParticipantID := nextParticipantID + 1;
        participants := participants + [p];
        r := p.Init();
      }
    }

    /** processDisconnect_: unschedule, unsubscribe everywhere, then detach a registered
        participant; setManager(nullptr) raises before the participant is erased. */
    method ProcessDisconnect(p: Participant) returns (r: Outcome)
      requires Valid()
      modifies this, p`manager
      ensures Valid()
      ensures Flags() == old(Flags())
      ensures DisconnectStep(old(Model()), p) == Step(r, Model())
      ensures old(p in participants) ==> p.manager == null
      ensures old(p !in participants) ==> p.manager == old(p.manager)
    {
      ProcessDisableScheduling(p);
      UnsubscribeAll(p);
      r := Pass;
      if p in participants {
        // The erase from participants_ that follows in the source is not reached:
        // setManager(nullptr) raises when it resubscribes without a manager.
        r := p.SetManager(null);
      }
    }

    /** The switch of processCommands_: hand one popped command to its handler. */
    method Dispatch(c: Command<Participant>) returns (r: Outcome)
      requires Valid()
      modifies this, c.participant`manager, c.participant`isScheduledByManager
      ensures Valid()
      ensures Flags() == old(Flags())
      ensures Apply(old(Model()), c, HooksOf(c.participant)) == Step(r, Model())
      ensures forall d :: d in commandQueue ==> d in old(commandQueue) || d.participant == c.participant
    {
      r := Pass;
      match c.kind {
        case Connect =>
          r := ProcessConnect(c.participant);
        case Disconnect =>
          r := ProcessDisconnect(c.participant);
        case EnableScheduling =>
          ProcessEnableScheduling(c.participant);
        case DisableScheduling =>
          ProcessDisableScheduling(c.participant);
      }
    }

    /** One turn of the loop of processCommands_: pop the front command and dispatch it. The
        drain from the old state is the step taken, followed by the drain from the new state
        unless the handler raised. */
    method DispatchFront() returns (r: Outcome)
      requires Valid() && commandQueue != []
      modifies this, commandQueue[0].participant`manager, commandQueue[0].participant`isScheduledByManager
      ensures Valid()
      ensures Flags() == old(Flags())
      ensures Drain(old(Model()), HooksOf) == if r.Fail? then Step(r, Model()) else Drain(Model(), HooksOf)
      ensures Weight(commandQueue) < Weight(old(commandQueue))
      ensures forall d :: d in commandQueue ==> d in old(commandQueue)[1..] || d.participant == old(commandQueue)[0].participant
    {
      var c := commandQueue[0];
      DrainUnfold(Model(), HooksOf);
      commandQueue := commandQueue[1..];
      WeightAppend(commandQueue, [Command(CommandKind.EnableScheduling, c.participant)]);
      r := Dispatch(c);
    }

    /** processCommands_: drain the command queue in FIFO order, including commands that
        handlers enqueue meanwhile, stopping at the first handler that raises. */
    method ProcessCommands() returns (r: Outcome)
      requires Valid()
      modifies this, Targets()`manager, Targets()`isScheduledByManager
      ensures Valid()
      ensures Flags() == old(Flags())
      ensures Drain(old(Model()), HooksOf) == Step(r, Model())
    {
      ghost var targets := Targets();
      r := Pass;
      while commandQueue != []
        invariant Valid()
        invariant r == Pass
        invariant Flags() == old(Flags())
        invariant forall c :: c in commandQueue ==> c.participant in targets
        invariant Drain(Model(), HooksOf) == Drain(old(Model()), HooksOf)
        decreases Weight(commandQueue)
      {
        assert commandQueue[0] in commandQueue;
        ghost var rest := commandQueue[1..];
        assert forall d :: d in rest ==> d in commandQueue;
        r := DispatchFront();
        if r.Fail? {
          return;
        }
      }
    }
  }
}
