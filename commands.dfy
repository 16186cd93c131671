/** The Manager's bookkeeping as a value (include/EventManager/Manager.hpp) and the command
    handlers of src/EventManager/Manager.cpp as functions on it. The Manager class in
    event_manager.dfy is proved to update its fields exactly as these functions say. */
module Commands {
  import opened Outcomes
  import opened Events
  import opened Routing

  /** commandType: the four structural requests, each with its own handler. */
  datatype CommandKind = Connect | Disconnect | EnableScheduling | DisableScheduling

  /** One entry of commandQueue_: the request and the participant it is about. */
  datatype Command<P> = Command(kind: CommandKind, participant: P)

  /** The overridable hooks init_/schedule_ of a participant: the base class, whose hooks
      raise "not implemented", or the test participant of tests/test_basic.cpp, whose init_
      subscribes to its event type and enables scheduling. */
  datatype Hooks = Unimplemented | TestParticipant(eventType: EventType)

  /** The Manager's fields other than its thread flags; `ids` records the ID handed to each
      participant by setID, which the participant keeps. */
  datatype ManagerState<P(==)> = ManagerState(
    eventMap: Table<P>,
    eventQueue: seq<Event<P>>,
    commandQueue: seq<Command<P>>,
    scheduling: seq<P>,
    participants: seq<P>,
    nextParticipantID: nat,
    ids: map<P, nat>)

  /** A handler's completion together with the state it leaves. */
  datatype Step<P(==)> = Step(outcome: Outcome, state: ManagerState<P>)

  /** The Manager's invariant: no duplicates in any routing list, in the scheduling list or in
      the registry; every registered participant has an ID; IDs are distinct and below the counter. */
  ghost predicate Valid<P>(s: ManagerState<P>)
    ensures Valid(s) ==> forall p :: p in s.participants ==> p in s.ids && 1 <= s.ids[p] < s.nextParticipantID
  {
    && NoDupLists(s.eventMap)
    && NoDup(s.scheduling)
    && NoDup(s.participants)
    && 1 <= s.nextParticipantID
    && (forall p :: p in s.participants ==> p in s.ids)
    && (forall p :: p in s.ids ==> 1 <= s.ids[p] < s.nextParticipantID)
    && (forall p, q :: p in s.ids && q in s.ids && p != q ==> s.ids[p] != s.ids[q])
  }

  /** The constructor's state: empty tables and queues, counter at 1. */
  function Initial<P(==)>(): (s: ManagerState<P>)
    ensures Valid(s) && RoutingEmpty(s.eventMap)
    ensures s.commandQueue == [] && s.eventQueue == []
    ensures s.nextParticipantID == 1
  {
    ManagerState(map[], [], [], [], [], 1, map[])
  }

  /** Participant::init(): the hook's effect on the Manager, for a participant whose manager is set. */
  function InitStep<P(==)>(s: ManagerState<P>, p: P, h: Hooks): (st: Step<P>)
    ensures st.state.(eventMap := s.eventMap, commandQueue := s.commandQueue) == s
    ensures h.Unimplemented? ==> st == Step(Fail(NotImplemented), s)
    ensures h.TestParticipant? ==>
      && st.outcome == Pass
      && h.eventType in st.state.eventMap && p in st.state.eventMap[h.eventType]
      && st.state.commandQueue == s.commandQueue + [Command(EnableScheduling, p)]
    ensures h.TestParticipant? ==> st.state.eventMap == Subscribe(s.eventMap, h.eventType, p)
    ensures NoDupLists(s.eventMap) ==> NoDupLists(st.state.eventMap)
  {
    match h
    case Unimplemented => Step(Fail(NotImplemented), s)
    case TestParticipant(t) =>
      // _subscribe(eventType_) then _enableScheduling(), which only enqueues a command
      Step(Pass, s.(eventMap := Subscribe(s.eventMap, t, p),
                    commandQueue := s.commandQueue + [Command(EnableScheduling, p)]))
  }

  /** The part of processConnect_ before init(): setManager (which subscribes p to SHUTDOWN),
      setID with the counter, the increment, and push_back into participants_. */
  function Register<P(==)>(s: ManagerState<P>, p: P): (r: ManagerState<P>)
    ensures r.participants == s.participants + [p]
    ensures p in r.ids && r.ids[p] == s.nextParticipantID
    ensures forall q :: q in s.ids && q != p ==> q in r.ids && r.ids[q] == s.ids[q]
    ensures r.nextParticipantID == s.nextParticipantID + 1
    ensures SHUTDOWN in r.eventMap && p in r.eventMap[SHUTDOWN]
    ensures r.eventMap == Subscribe(s.eventMap, SHUTDOWN, p)
    ensures r.eventQueue == s.eventQueue && r.commandQueue == s.commandQueue && r.scheduling == s.scheduling
  {
    var attached := s.(eventMap := Subscribe(s.eventMap, SHUTDOWN, p));
    attached.(ids := attached.ids[p := attached.nextParticipantID],
              nextParticipantID := attached.nextParticipantID + 1,
              participants := attached.participants + [p])
  }

  /** processConnect_ (Manager.cpp:376-389): an unregistered p is registered, then init() runs;
      a registered p is left alone. */
  function ConnectStep<P(==)>(s: ManagerState<P>, p: P, h: Hooks): (st: Step<P>)
    ensures p in s.participants ==> st == Step(Pass, s)
    ensures p in st.state.participants
    ensures p !in s.participants ==> p in st.state.ids && st.state.ids[p] == s.nextParticipantID
    ensures st.state.eventQueue == s.eventQueue && st.state.scheduling == s.scheduling
    ensures st.outcome.Fail? ==> st.outcome.error == NotImplemented
    ensures p in s.participants ==> st.state.eventMap == s.eventMap
    ensures p !in s.participants ==> forall t, q :: t in s.eventMap && q in s.eventMap[t] ==>
      t in st.state.eventMap && q in st.state.eventMap[t]
  {
    if p in s.participants then Step(Pass, s)
    else InitStep(Register(s, p), p, h)
  }

  /** Registering a new participant keeps the Manager's invariant. */
  lemma RegisterPreservesValid<P>(s: ManagerState<P>, p: P)
    requires Valid(s) && p !in s.participants
    ensures Valid(Register(s, p))
  {
    var r := Register(s, p);
    assert NoDup(r.participants) by {
      forall i, j | 0 <= i < j < |r.participants|
        ensures r.participants[i] != r.participants[j]
      {
        if j == |s.participants| { assert r.participants[i] in s.participants; }
      }
    }
  }

  /** processDisconnect_ (Manager.cpp:392-407): unschedule and unsubscribe p everywhere; then, if p
      is registered, setManager(nullptr) raises NoManager (its resubscription finds no manager)
      before p is erased from the registry. */
  function DisconnectStep<P(==)>(s: ManagerState<P>, p: P): (st: Step<P>)
    ensures st.state.(scheduling := s.scheduling, eventMap := s.eventMap) == s
    ensures st.outcome.Fail? <==> p in s.participants
    ensures st.outcome.Fail? ==> st.outcome.error == NoManager
    ensures NoDup(s.scheduling) ==> p !in st.state.scheduling
    ensures NoDupLists(s.eventMap) ==> SubscriberSet(st.state.eventMap) == SubscriberSet(s.eventMap) - {p}
    ensures st.state.scheduling == DisableStep(s, p).scheduling
    ensures st.state.eventMap == UnsubscribeAll(s.eventMap, p)
  {
    var detached := s.(scheduling := Without(s.scheduling, p),
                       eventMap := UnsubscribeAll(s.eventMap, p));
    if p in detached.participants then Step(Fail(NoManager), detached)
    else Step(Pass, detached)
  }

  /** processEnableScheduling_ (Manager.cpp:410-419). */
  function EnableStep<P(==)>(s: ManagerState<P>, p: P): (r: ManagerState<P>)
    ensures r.(scheduling := s.scheduling) == s
    ensures p in r.scheduling
    ensures forall q :: q in r.scheduling ==> q in s.scheduling || q == p
    ensures forall q :: q in s.scheduling ==> q in r.scheduling
    ensures p in s.scheduling ==> r == s
    ensures NoDup(s.scheduling) ==> NoDup(r.scheduling)
  {
    s.(scheduling := AppendIfAbsent(s.scheduling, p))
  }

  /** processDisableScheduling_ (Manager.cpp:422-431). */
  function DisableStep<P(==)>(s: ManagerState<P>, p: P): (r: ManagerState<P>)
    ensures r.(scheduling := s.scheduling) == s
    ensures forall q :: q in r.scheduling ==> q in s.scheduling
    ensures forall q :: q in s.scheduling && q != p ==> q in r.scheduling
    ensures p !in s.scheduling ==> r == s
    ensures NoDup(s.scheduling) ==> p !in r.scheduling && NoDup(r.scheduling)
  {
    s.(scheduling := Without(s.scheduling, p))
  }

  /** The switch of processCommands_: one popped command to its handler. `h` are the hooks of
      the command's participant. */
  function Apply<P(==)>(s: ManagerState<P>, c: Command<P>, h: Hooks): (st: Step<P>)
    ensures st.state.eventQueue == s.eventQueue
    ensures st.outcome.Fail? ==>
      || (c.kind == Connect && st.outcome.error == NotImplemented)
      || (c.kind == Disconnect && st.outcome.error == NoManager)
    ensures || st.state.commandQueue == s.commandQueue
            || (c.kind == Connect && st.state.commandQueue == s.commandQueue + [Command(EnableScheduling, c.participant)])
  {
    match c.kind
    case Connect => ConnectStep(s, c.participant, h)
    case Disconnect => DisconnectStep(s, c.participant)
    case EnableScheduling => Step(Pass, EnableStep(s, c.participant))
    case DisableScheduling => Step(Pass, DisableStep(s, c.participant))
  }

  /** A bound on the work left in a queue: a CONNECT may enqueue one more command. */
  function Weight<P>(q: seq<Command<P>>): nat {
    if q == [] then 0
    else (if q[0].kind == Connect then 2 else 1) + Weight(q[1..])
  }

  lemma {:induction false} WeightAppend<P>(a: seq<Command<P>>, b: seq<Command<P>>)
    ensures Weight(a + b) == Weight(a) + Weight(b)
  {
    if a == [] {
      assert a + b == b;
    } else {
      assert (a + b)[1..] == a[1..] + b;
      WeightAppend(a[1..], b);
    }
  }

  /** processCommands_ (Manager.cpp:347-373): pop and apply commands in FIFO order, including the
      ones handlers enqueue meanwhile, until the queue is empty or a handler raises. */
  function Drain<P(==)>(s: ManagerState<P>, hooksOf: P -> Hooks): (st: Step<P>)
    ensures st.state.eventQueue == s.eventQueue
    ensures st.outcome.Pass? ==> st.state.commandQueue == []
    ensures st.outcome.Fail? ==> st.outcome.error == NotImplemented || st.outcome.error == NoManager
    decreases Weight(s.commandQueue)
  {
    if s.commandQueue == [] then Step(Pass, s)
    else
      var c := s.commandQueue[0];
      var rest := s.commandQueue[1..];
      var st := Apply(s.(commandQueue := rest), c, hooksOf(c.participant));
      WeightAppend(rest, [Command(EnableScheduling, c.participant)]);
      if st.outcome.Fail? then st else Drain(st.state, hooksOf)
  }

  /** One turn of processCommands_: pop the front command, apply it, and go on unless it raised. */
  lemma DrainUnfold<P>(s: ManagerState<P>, hooksOf: P -> Hooks)
    requires s.commandQueue != []
    ensures var c := s.commandQueue[0];
      var st := Apply(s.(commandQueue := s.commandQueue[1..]), c, hooksOf(c.participant));
      Drain(s, hooksOf) == if st.outcome.Fail? then st else Drain(st.state, hooksOf)
  {
  }

  /** Every handler keeps the Manager's invariant. */
  lemma ApplyPreservesValid<P>(s: ManagerState<P>, c: Command<P>, h: Hooks)
    requires Valid(s)
    ensures Valid(Apply(s, c, h).state)
  {
    if c.kind == Connect && c.participant !in s.participants {
      RegisterPreservesValid(s, c.participant);
    }
  }

  /** processCommands_ keeps the Manager's invariant, whether it finishes or stops on an error. */
  lemma {:induction false} DrainPreservesValid<P>(s: ManagerState<P>, hooksOf: P -> Hooks)
    requires Valid(s)
    ensures Valid(Drain(s, hooksOf).state)
    decreases Weight(s.commandQueue)
  {
    if s.commandQueue != [] {
      var c := s.commandQueue[0];
      var rest := s.commandQueue[1..];
      var st := Apply(s.(commandQueue := rest), c, hooksOf(c.participant));
      ApplyPreservesValid(s.(commandQueue := rest), c, hooksOf(c.participant));
      WeightAppend(rest, [Command(EnableScheduling, c.participant)]);
      if st.outcome.Pass? {
        DrainPreservesValid(st.state, hooksOf);
      }
    }
  }

  /** CONNECT of an unregistered participant registers it under a fresh ID (the counter's value,
      distinct from every other ID), bumps the counter, subscribes it to SHUTDOWN and runs init();
      CONNECT of a registered participant changes nothing. */
  lemma ConnectRegisters<P>(s: ManagerState<P>, p: P, h: Hooks)
    requires Valid(s)
    ensures p in s.participants ==> ConnectStep(s, p, h) == Step(Pass, s)
    ensures p !in s.participants ==>
      var r := ConnectStep(s, p, h).state;
      && r.participants == s.participants + [p]
      && r.ids[p] == s.nextParticipantID
      && r.nextParticipantID == s.nextParticipantID + 1
      && (forall q :: q in r.ids && q != p ==> r.ids[q] != r.ids[p])
      && SHUTDOWN in r.eventMap && p in r.eventMap[SHUTDOWN]
  {
  }

  /** init() of the base class raises NotImplemented, after the participant is registered; the
      test participant's init() subscribes it and enqueues its ENABLE_SCHEDULING. */
  lemma ConnectRunsInit<P>(s: ManagerState<P>, p: P, h: Hooks)
    requires p !in s.participants
    ensures h.Unimplemented? ==> ConnectStep(s, p, h).outcome == Fail(NotImplemented)
    ensures h.TestParticipant? ==>
      var st := ConnectStep(s, p, h);
      && st.outcome == Pass
      && h.eventType in st.state.eventMap && p in st.state.eventMap[h.eventType]
      && st.state.commandQueue == s.commandQueue + [Command(EnableScheduling, p)]
  {
  }

  /** DISCONNECT takes p out of every routing list and out of the scheduling list, registered or
      not. For a registered p it then raises NoManager and p stays in the registry. */
  lemma DisconnectDetaches<P>(s: ManagerState<P>, p: P)
    requires Valid(s)
    ensures var st := DisconnectStep(s, p);
      && p !in SubscriberSet(st.state.eventMap)
      && p !in st.state.scheduling
      && SubscriberSet(st.state.eventMap) == SubscriberSet(s.eventMap) - {p}
      && st.state.participants == s.participants
      && (st.outcome == Fail(NoManager) <==> p in s.participants)
      && (st.outcome == Pass <==> p !in s.participants)
  {
  }

  /** ENABLE_SCHEDULING adds p once; DISABLE_SCHEDULING removes it; neither adds a duplicate. */
  lemma SchedulingOnce<P>(s: ManagerState<P>, p: P)
    requires Valid(s)
    ensures p in EnableStep(s, p).scheduling && NoDup(EnableStep(s, p).scheduling)
    ensures EnableStep(EnableStep(s, p), p) == EnableStep(s, p)
    ensures p !in DisableStep(s, p).scheduling && NoDup(DisableStep(s, p).scheduling)
    ensures p !in s.scheduling ==> DisableStep(s, p) == s
  {
  }

  /** Connecting a test participant runs its init(), whose ENABLE_SCHEDULING request is picked
      up by the same drain: afterwards p is registered, subscribed and scheduled, and the
      queue is empty. */
  lemma DrainRunsNestedCommands<P>(s: ManagerState<P>, p: P, hooksOf: P -> Hooks, t: EventType)
    requires Valid(s)
    requires s.commandQueue == [Command(Connect, p)]
    requires p !in s.participants && hooksOf(p) == TestParticipant(t)
    ensures var st := Drain(s, hooksOf);
      && st.outcome == Pass
      && st.state.commandQueue == []
      && p in st.state.participants && p in st.state.ids && st.state.ids[p] == s.nextParticipantID
      && p in st.state.scheduling
      && SHUTDOWN in st.state.eventMap && p in st.state.eventMap[SHUTDOWN]
      && t in st.state.eventMap && p in st.state.eventMap[t]
  {
    var connected := ConnectStep(s.(commandQueue := []), p, TestParticipant(t));
    RegisterPreservesValid(s.(commandQueue := []), p);
    assert connected.state.commandQueue == [Command(EnableScheduling, p)];
    var enabled := EnableStep(connected.state.(commandQueue := []), p);
    assert Drain(connected.state, hooksOf) == Step(Pass, enabled);
  }

  /** Commands apply in FIFO order: DISABLE then ENABLE leaves p scheduled, ENABLE then DISABLE
      leaves it unscheduled. */
  lemma DrainRespectsOrder<P>(s: ManagerState<P>, p: P, hooksOf: P -> Hooks)
    requires Valid(s)
    ensures p in Drain(s.(commandQueue := [Command(DisableScheduling, p), Command(EnableScheduling, p)]), hooksOf).state.scheduling
    ensures p !in Drain(s.(commandQueue := [Command(EnableScheduling, p), Command(DisableScheduling, p)]), hooksOf).state.scheduling
  {
    var s1 := s.(commandQueue := [Command(DisableScheduling, p), Command(EnableScheduling, p)]);
    var a := DisableStep(s1.(commandQueue := [Command(EnableScheduling, p)]), p);
    assert Drain(a, hooksOf) == Step(Pass, EnableStep(a.(commandQueue := []), p));
    var s2 := s.(commandQueue := [Command(EnableScheduling, p), Command(DisableScheduling, p)]);
    var b := EnableStep(s2.(commandQueue := [Command(DisableScheduling, p)]), p);
    assert NoDup(b.scheduling);
    assert Drain(b, hooksOf) == Step(Pass, DisableStep(b.(commandQueue := []), p));
  }

  /** Whether a command only touches the scheduling list. */
  predicate IsSchedulingCommand<P>(c: Command<P>) {
    c.kind == EnableScheduling || c.kind == DisableScheduling
  }

  /** ENABLE_SCHEDULING and DISABLE_SCHEDULING commands applied one after the other, in queue order. */
  function Reschedule<P(==)>(s: ManagerState<P>, cmds: seq<Command<P>>): (r: ManagerState<P>)
    requires forall c :: c in cmds ==> IsSchedulingCommand(c)
    ensures r.(scheduling := s.scheduling) == s
    ensures NoDup(s.scheduling) ==> NoDup(r.scheduling)
    decreases |cmds|
  {
    if cmds == [] then s
    else
      var c := cmds[0];
      var next := if c.kind == EnableScheduling then EnableStep(s, c.participant) else DisableStep(s, c.participant);
      Reschedule(next, cmds[1..])
  }

  /** The kind of the last command about p in `cmds`, if there is one. */
  function LastFor<P(==)>(cmds: seq<Command<P>>, p: P): (k: Option<CommandKind>)
    ensures k.Some? ==> exists c :: c in cmds && c.participant == p && c.kind == k.value
    ensures k.None? ==> forall c :: c in cmds ==> c.participant != p
    ensures k.Some? ==> exists i :: 0 <= i < |cmds| && cmds[i] == Command(k.value, p) &&
                                    (forall j :: i < j < |cmds| ==> cmds[j].participant != p)
    decreases |cmds|
  {
    if cmds == [] then None
    else
      match LastFor(cmds[1..], p)
      case Some(k) => assert forall c :: c in cmds[1..] ==> c in cmds; Some(k)
      case None => if cmds[0].participant == p then Some(cmds[0].kind) else None
  }

  /** Scheduling commands apply in FIFO order: whether p ends up scheduled is decided by the last
      command about p, and by the starting list when there is none. */
  lemma {:induction false} RescheduleLastWins<P>(s: ManagerState<P>, cmds: seq<Command<P>>, p: P)
    requires NoDup(s.scheduling)
    requires forall c :: c in cmds ==> IsSchedulingCommand(c)
    ensures p in Reschedule(s, cmds).scheduling <==>
      if LastFor(cmds, p).Some? then LastFor(cmds, p).value == EnableScheduling else p in s.scheduling
    decreases |cmds|
  {
    if cmds != [] {
      var c := cmds[0];
      assert c in cmds;
      assert forall d :: d in cmds[1..] ==> d in cmds;
      var next := if c.kind == EnableScheduling then EnableStep(s, c.participant) else DisableStep(s, c.participant);
      RescheduleLastWins(next, cmds[1..], p);
    }
  }

  /** A queue of scheduling commands alone drains without error into the in-order application of
      its commands, however long it is. */
  lemma {:induction false} DrainSchedulingCommands<P>(s: ManagerState<P>, hooksOf: P -> Hooks)
    requires forall c :: c in s.commandQueue ==> IsSchedulingCommand(c)
    ensures Drain(s, hooksOf) == Step(Pass, Reschedule(s.(commandQueue := []), s.commandQueue))
    decreases |s.commandQueue|
  {
    if s.commandQueue != [] {
      var c := s.commandQueue[0];
      var rest := s.commandQueue[1..];
      assert c in s.commandQueue;
      assert forall d :: d in rest ==> d in s.commandQueue;
      var next := if c.kind == EnableScheduling then EnableStep(s.(commandQueue := rest), c.participant)
                  else DisableStep(s.(commandQueue := rest), c.participant);
      assert Apply(s.(commandQueue := rest), c, hooksOf(c.participant)) == Step(Pass, next);
      DrainSchedulingCommands(next, hooksOf);
      assert next.(commandQueue := []) ==
        if c.kind == EnableScheduling then EnableStep(s.(commandQueue := []), c.participant)
        else DisableStep(s.(commandQueue := []), c.participant);
    }
  }
}
