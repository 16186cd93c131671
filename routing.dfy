/** The list operations behind the Manager's routing table and scheduling list
    (src/EventManager/Manager.cpp), stated on values: a std::list becomes a `seq`,
    std::find/erase and push_back become the functions below. */
module Routing {
  import opened Outcomes
  import opened Events

  /** eventMap_: each event type maps to its ordered subscriber list. */
  type Table<P> = map<EventType, seq<P>>

  predicate NoDup<T(==)>(s: seq<T>) {
    forall i, j :: 0 <= i < j < |s| ==> s[i] != s[j]
  }

  /** Every subscriber list of the table is free of duplicates. */
  predicate NoDupLists<P(==)>(table: Table<P>) {
    forall t :: t in table ==> NoDup(table[t])
  }

  /** Everyone subscribed to some type. */
  function SubscriberSet<P(==)>(table: Table<P>): set<P> {
    set t, q | t in table && q in table[t] :: q
  }

  /** Quiescence: no list of the table holds a subscriber (keys with empty lists are allowed). */
  predicate RoutingEmpty<P>(table: Table<P>) {
    forall t :: t in table ==> table[t] == []
  }

  /** A list starting with a is duplicate-free iff its tail is and does not hold a. */
  lemma NoDupCons<T>(a: T, t: seq<T>)
    ensures NoDup([a] + t) <==> a !in t && NoDup(t)
  {
    var s := [a] + t;
    if NoDup(s) {
      forall i, j | 0 <= i < j < |t| ensures t[i] != t[j] {
        assert t[i] == s[i + 1] && t[j] == s[j + 1];
      }
      forall k | 0 <= k < |t| ensures t[k] != a {
        assert t[k] == s[k + 1] && s[0] == a;
        assert s[0] != s[k + 1];
      }
    }
    if a !in t && NoDup(t) {
      forall i, j | 0 <= i < j < |s| ensures s[i] != s[j] {
        if i == 0 { assert s[j] == t[j - 1]; } else { assert s[i] == t[i - 1] && s[j] == t[j - 1]; }
      }
    }
  }

  /** `erase(find(begin, end, x))`: the first occurrence of x removed (see WithoutErasesFirst);
      the list is returned unchanged when x is absent. */
  function Without<T(==)>(s: seq<T>, x: T): (r: seq<T>)
    ensures x !in s ==> r == s
    ensures forall y :: y in r ==> y in s
    ensures forall y :: y in s && y != x ==> y in r
    ensures |r| == if x in s then |s| - 1 else |s|
    ensures NoDup(s) ==> NoDup(r) && x !in r
  {
    if s == [] then []
    else
      NoDupCons(s[0], s[1..]);
      assert s == [s[0]] + s[1..];
      if s[0] == x then s[1..]
      else
        var rest := Without(s[1..], x);
        NoDupCons(s[0], rest);
        [s[0]] + rest
  }

  /** The position std::find reports: the first index holding x. */
  function FirstIndex<T(==)>(s: seq<T>, x: T): (i: nat)
    requires x in s
    ensures i < |s| && s[i] == x && x !in s[..i]
  {
    if s[0] == x then 0
    else
      var k := FirstIndex(s[1..], x);
      assert s[..k + 1] == [s[0]] + s[1..][..k];
      k + 1
  }

  /** Without cuts the list at the first occurrence of x and keeps both sides in order. */
  lemma {:induction false} WithoutErasesFirst<T>(s: seq<T>, x: T)
    requires x in s
    ensures Without(s, x) == s[..FirstIndex(s, x)] + s[FirstIndex(s, x) + 1..]
  {
    if s[0] != x {
      WithoutErasesFirst(s[1..], x);
      var k := FirstIndex(s[1..], x);
      assert s[..k + 1] == [s[0]] + s[1..][..k];
      assert s[k + 2..] == s[1..][k + 1..];
    }
  }

  /** `if (find(...) == end) push_back(x)`: x is appended only when it is absent. */
  function AppendIfAbsent<T(==)>(s: seq<T>, x: T): (r: seq<T>)
    ensures x in r
    ensures x in s ==> r == s
    ensures x !in s ==> r == s + [x]
    ensures NoDup(s) ==> NoDup(r)
  {
    if x in s then s else s + [x]
  }

  /** Manager::subscribe (Manager.cpp:217-240). */
  function Subscribe<P(==)>(table: Table<P>, t: EventType, p: P): (r: Table<P>)
    ensures r.Keys == table.Keys + {t}
    ensures forall u :: u in table && u != t ==> r[u] == table[u]
    ensures t in table ==> r[t] == AppendIfAbsent(table[t], p)
    ensures t !in table ==> r[t] == [p]
    ensures NoDupLists(table) ==> NoDupLists(r)
  {
    if t in table then table[t := AppendIfAbsent(table[t], p)]
    else table[t := [p]]
  }

  /** Manager::unsubscribe(type, p) (Manager.cpp:242-260). */
  function Unsubscribe<P(==)>(table: Table<P>, t: EventType, p: P): (r: Table<P>)
    ensures r.Keys == table.Keys
    ensures forall u :: u in table && u != t ==> r[u] == table[u]
    ensures t in table ==> r[t] == Without(table[t], p)
    ensures (t !in table || p !in table[t]) ==> r == table
    ensures NoDupLists(table) ==> NoDupLists(r) && (t in r ==> p !in r[t])
  {
    if t !in table then table
    else table[t := Without(table[t], p)]
  }

  /** Manager::unsubscribe(p): unsubscribe(type, p) for every key of the table (Manager.cpp:262-270). */
  function UnsubscribeAll<P(==)>(table: Table<P>, p: P): (r: Table<P>)
    ensures r.Keys == table.Keys
    ensures forall t :: t in table ==> r[t] == Unsubscribe(table, t, p)[t]
    ensures NoDupLists(table) ==> NoDupLists(r) && SubscriberSet(r) == SubscriberSet(table) - {p}
  {
    var r := map t | t in table :: Without(table[t], p);
    assert NoDupLists(table) ==> SubscriberSet(r) == SubscriberSet(table) - {p} by {
      if NoDupLists(table) {
        forall q | q in SubscriberSet(r) ensures q in SubscriberSet(table) - {p} {
          var t :| t in r && q in r[t];
        }
        forall q | q in SubscriberSet(table) - {p} ensures q in SubscriberSet(r) {
          var t :| t in table && q in table[t];
          assert q in r[t];
        }
      }
    }
    r
  }

  /** Subscribing twice is the same as subscribing once. */
  lemma SubscribeIdempotent<P>(table: Table<P>, t: EventType, p: P)
    ensures Subscribe(Subscribe(table, t, p), t, p) == Subscribe(table, t, p)
  {
  }

  /** After subscribe(t, p) on a duplicate-free table, p occurs exactly once in t's list. */
  lemma SubscribeOnce<P>(table: Table<P>, t: EventType, p: P)
    requires NoDupLists(table)
    ensures var r := Subscribe(table, t, p);
      t in r && p in r[t] && forall i, j :: 0 <= i < |r[t]| && 0 <= j < |r[t]| && r[t][i] == p && r[t][j] == p ==> i == j
  {
    var r := Subscribe(table, t, p);
    assert NoDup(r[t]);
  }

  /** The table is quiescent exactly when nobody is subscribed. */
  lemma RoutingEmptyIffNoSubscriber<P>(table: Table<P>)
    ensures RoutingEmpty(table) <==> SubscriberSet(table) == {}
  {
    if !RoutingEmpty(table) {
      var t :| t in table && table[t] != [];
      var q := table[t][0];
      assert q in table[t];
      assert q in SubscriberSet(table);
    }
  }

  /** Whether the dispatch of `e` hands it to `q`: q is subscribed to e's type and did not emit e. */
  predicate Delivers<P(==)>(table: Table<P>, e: Event<P>, q: P)
    ensures Delivers(table, e, q) ==> q in SubscriberSet(table)
  {
    e.eventType in table && q in table[e.eventType] && e.emitter != Some(q)
  }

  /** The participants that processEvent hands `e` to, in list order: every subscriber except the emitter. */
  function Recipients<P(==)>(subscribers: seq<P>, e: Event<P>): (r: seq<P>)
    ensures |r| <= |subscribers|
  {
    if subscribers == [] then []
    else
      var last := subscribers[|subscribers| - 1];
      var front := subscribers[..|subscribers| - 1];
      assert subscribers == front + [last];
      Recipients(front, e) + (if e.emitter == Some(last) then [] else [last])
  }

  /** The receivers of an event are exactly the subscribers other than its emitter. */
  lemma {:induction false} RecipientsMembers<P>(subscribers: seq<P>, e: Event<P>)
    ensures forall q :: q in Recipients(subscribers, e) <==> q in subscribers && e.emitter != Some(q)
    decreases |subscribers|
  {
    if subscribers != [] {
      var front := subscribers[..|subscribers| - 1];
      assert subscribers == front + [subscribers[|subscribers| - 1]];
      RecipientsMembers(front, e);
    }
  }

  /** Each subscriber is served at most once: a duplicate-free list gives duplicate-free receivers. */
  lemma {:induction false} RecipientsNoDup<P>(subscribers: seq<P>, e: Event<P>)
    requires NoDup(subscribers)
    ensures NoDup(Recipients(subscribers, e))
    decreases |subscribers|
  {
    if subscribers != [] {
      var last := subscribers[|subscribers| - 1];
      var front := subscribers[..|subscribers| - 1];
      assert subscribers == front + [last];
      assert NoDup(front) by {
        forall i, j | 0 <= i < j < |front| ensures front[i] != front[j] {
          assert front[i] == subscribers[i] && front[j] == subscribers[j];
        }
      }
      RecipientsNoDup(front, e);
      RecipientsMembers(front, e);
      assert last !in front by {
        forall k | 0 <= k < |front| ensures front[k] != last {
          assert front[k] == subscribers[k];
        }
      }
    }
  }

  /** Serving the subscriber at index i extends the receivers of the first i by it exactly
      when it is not the emitter. */
  lemma RecipientsStep<P>(subscribers: seq<P>, i: nat, e: Event<P>)
    requires i < |subscribers|
    ensures Recipients(subscribers[..i + 1], e)
      == Recipients(subscribers[..i], e) + (if e.emitter == Some(subscribers[i]) then [] else [subscribers[i]])
  {
    assert subscribers[..i + 1][..i] == subscribers[..i];
  }

  /** The events of `events` that a dispatch pass appends to q's inbound queue, in emission order. */
  function Inbox<P(==)>(table: Table<P>, events: seq<Event<P>>, q: P): (r: seq<Event<P>>)
    ensures forall e :: e in r ==> e in events && Delivers(table, e, q)
    ensures forall e :: e in events && Delivers(table, e, q) ==> e in r
    ensures |r| <= |events|
  {
    if events == [] then []
    else
      var last := events[|events| - 1];
      var front := events[..|events| - 1];
      assert events == front + [last];
      Inbox(table, front, q) + (if Delivers(table, last, q) then [last] else [])
  }

  /** Emitting one more event extends a participant's inbox by that event exactly when it is
      delivered to them. */
  lemma InboxSnoc<P>(table: Table<P>, events: seq<Event<P>>, e: Event<P>)
    ensures forall q :: Inbox(table, events + [e], q) == Inbox(table, events, q) + (if Delivers(table, e, q) then [e] else [])
  {
    assert (events + [e])[..|events|] == events;
  }

  /** A participant that subscribed to t and emitted none of a run of type-t events receives
      all of them, in the order they were emitted. */
  lemma {:induction false} InboxDeliversAll<P>(table: Table<P>, events: seq<Event<P>>, q: P, t: EventType)
    requires t in table && q in table[t]
    requires forall e :: e in events ==> e.eventType == t && e.emitter != Some(q)
    ensures Inbox(table, events, q) == events
  {
    if events != [] {
      var front := events[..|events| - 1];
      InboxDeliversAll(table, front, q, t);
      assert events == front + [events[|events| - 1]];
    }
  }

  /** When only p and p' are subscribed anywhere, unsubscribing both leaves the table quiescent. */
  lemma UnsubscribeBothEmpties<P>(table: Table<P>, p: P, p': P)
    requires NoDupLists(table)
    requires SubscriberSet(table) <= {p, p'}
    ensures RoutingEmpty(UnsubscribeAll(UnsubscribeAll(table, p), p'))
  {
    var r := UnsubscribeAll(UnsubscribeAll(table, p), p');
    RoutingEmptyIffNoSubscriber(r);
  }
}
