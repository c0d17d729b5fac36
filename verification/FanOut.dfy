// The subscription engine as a whole: sockets that open and close, handlers
// that subscribe and unsubscribe, the prefix-filtered bus, the persistent
// user_subscriptions table, and restarts, in any order.
module FanOut {
  import opened Prelude
  import opened Connections

  type Notice = (string, string) // topic, message

  datatype Hub = Hub(
    connections: Sockets, subscribers: Subscribers, // connection_manager.hpp
    filters: set<string>, queue: seq<Notice>,       // sub_manager.hpp
    persisted: set<(string, string)>,               // user_subscriptions: user, topic
    opened_: set<int>,                              // every socket so far
    awaiting: map<int, string>,                     // sockets whose restore is still to run, and their users
    restored: set<int>,                             // sockets whose restore has run
    accepted: seq<Notice>, broadcasts: seq<Notice>) // since the last restart

  const START := Hub(map[], map[], {}, [], {}, {}, map[], {}, [], [])

  datatype Step =
    | Open(user: string, socket: int)
    | Restore(socket: int)
    | CloseRemove(user: string, socket: int)
    | CloseForget(user: string)
    | Join(user: string, topic: string)
    | Leave(user: string, topic: string)
    | Publish(topic: string, message: string)
    | Deliver
    | Restart

  /** The topics the table holds for a user. */
  function Persisted(hub: Hub, user: string): set<string> {
    set row | row in hub.persisted && row.0 == user :: row.1
  }

  /** The topics memory holds for a user. */
  function Remembered(hub: Hub, user: string): set<string> {
    set t | t in hub.subscribers && user in hub.subscribers[t]
  }

  /** connection_manager.subscribe for each of some topics. */
  function Enrol(subscribers: Subscribers, topics: set<string>, user: string): Subscribers {
    map t | t in subscribers.Keys + topics :: if t in topics then Audience(subscribers, t) + {user} else subscribers[t]
  }

  /** The bus lets a topic through when some filter is a prefix of it. */
  predicate Passes(filters: set<string>, topic: string) {
    exists f :: f in filters && f <= topic
  }

  predicate Possible(hub: Hub, step: Step) {
    match step
    case Open(user, socket) => user != "" && socket !in hub.opened_
    case Restore(socket) => socket in hub.awaiting
    case Deliver => hub.queue != []
    case _ => true
  }

  function Move(hub: Hub, step: Step): Hub
    requires Possible(hub, step)
  {
    match step
    case Open(user, socket) =>
      hub.(connections := hub.connections[user := [socket] + SocketsOf(hub.connections, user)],
           opened_ := hub.opened_ + {socket}, awaiting := hub.awaiting[socket := user])
    case Restore(socket) =>
      var user := hub.awaiting[socket];
      var rows := Persisted(hub, user);
      hub.(filters := hub.filters + rows, subscribers := Enrol(hub.subscribers, rows, user), 
           awaiting := hub.awaiting - {socket}, restored := hub.restored + {socket})
    case CloseRemove(user, socket) =>
      if user in hub.connections
      then hub.(connections := hub.connections[user := Without(hub.connections[user], socket)]) else hub
    case CloseForget(user) =>
      if SocketsOf(hub.connections, user) != [] then hub
      else hub.(subscribers := Forgotten(hub.subscribers, hub.subscribers.Keys, user),
                connections := if hub.subscribers == map[] then hub.connections else hub.connections - {user})
    case Join(user, topic) =>
      hub.(filters := hub.filters + {topic}, subscribers := Enrol(hub.subscribers, {topic}, user),
           persisted := hub.persisted + {(user, topic)})
    case Leave(user, topic) =>
      hub.(subscribers := hub.subscribers[topic := Audience(hub.subscribers, topic) - {user}],
           persisted := hub.persisted - {(user, topic)})
    case Publish(topic, message) =>
      if Passes(hub.filters, topic)
      then hub.(queue := hub.queue + [(topic, message)], accepted := hub.accepted + [(topic, message)]) else hub
    case Deliver =>
      var topic := hub.queue[0].0;
      hub.(queue := hub.queue[1..], broadcasts := hub.broadcasts + [hub.queue[0]],
           subscribers := hub.subscribers[topic := Audience(hub.subscribers, topic)])
    case Restart =>
      START.(persisted := hub.persisted, opened_ := hub.opened_)
  }

  /** Only Join adds a row to the table and only Leave takes one away. */
  lemma RowsMove(hub: Hub, step: Step, user: string, topic: string)
    requires Possible(hub, step)
    ensures (user, topic) in Move(hub, step).persisted <==>
            step == Join(user, topic) || ((user, topic) in hub.persisted && step != Leave(user, topic))
  {
    hide Persisted, Enrol, Forgotten, Without, Audience, SocketsOf, Passes;
  }

  // ---- the invariant -------------------------------------------------------

  /** Memory never holds a subscription the table does not. */
  ghost predicate Backed(hub: Hub) {
    forall t, u :: Subscribed(hub.subscribers, t, u) ==> (u, t) in hub.persisted
  }

  /** Every subscribed topic passes the bus. */
  ghost predicate Filtered(hub: Hub) {
    forall t, u :: Subscribed(hub.subscribers, t, u) ==> t in hub.filters
  }

  /** The topics of a user with a restored open socket are all in memory. */
  ghost predicate Complete(hub: Hub) {
    forall u, s, t :: u in hub.connections && s in hub.connections[u] && s in hub.restored && (u, t) in hub.persisted
                      ==> Subscribed(hub.subscribers, t, u)
  }

  ghost predicate SocketsKnown(hub: Hub) {
    && Exclusive(hub.connections)
    && hub.awaiting.Keys <= hub.opened_ && hub.restored <= hub.opened_ && hub.awaiting.Keys !! hub.restored
    && forall u, s :: u in hub.connections && s in hub.connections[u] ==>
         s in hub.opened_ && (s in hub.awaiting ==> hub.awaiting[s] == u)
  }

  ghost predicate Inv(hub: Hub) {
    && SocketsKnown(hub) && Backed(hub) && Filtered(hub) && Complete(hub)
    && hub.accepted == hub.broadcasts + hub.queue
  }

  lemma SocketsMove(hub: Hub, step: Step)
    requires SocketsKnown(hub) && Possible(hub, step)
    ensures SocketsKnown(Move(hub, step))
  {
    match step
    case CloseRemove(user, socket) =>
      if user in hub.connections {
        WithoutDistinct(hub.connections[user], socket);
      }
    case Open(user, socket) => assert socket !in SocketsOf(hub.connections, user);
    case _ =>
  }

  lemma CacheMove(hub: Hub, step: Step)
    requires Inv(hub) && Possible(hub, step)
    ensures Backed(Move(hub, step)) && Filtered(Move(hub, step))
  {
    var hub' := Move(hub, step);
    forall t, u | Subscribed(hub'.subscribers, t, u)
      ensures (u, t) in hub'.persisted && t in hub'.filters
    {
      if Subscribed(hub.subscribers, t, u) {
        assert (u, t) in hub.persisted && t in hub.filters;
      }
    }
  }

  lemma CompleteMove(hub: Hub, step: Step)
    requires Inv(hub) && Possible(hub, step)
    ensures Complete(Move(hub, step))
  {
  }

  lemma MoveKeeps(hub: Hub, step: Step)
    requires Inv(hub) && Possible(hub, step)
    ensures Inv(Move(hub, step))
  {
    SocketsMove(hub, step);
    CacheMove(hub, step);
    CompleteMove(hub, step);
    var hub' := Move(hub, step);
    match step
    case Publish(topic, message) =>
      assert hub.broadcasts + (hub.queue + [(topic, message)]) == (hub.broadcasts + hub.queue) + [(topic, message)];
    case Deliver => assert hub.queue == [hub.queue[0]] + hub.queue[1..];
    case _ =>
  }

  ghost predicate Run(hub: Hub, steps: seq<Step>)
    decreases |steps|
  {
    steps == [] || (Possible(hub, steps[0]) && Run(Move(hub, steps[0]), steps[1..]))
  }

  ghost function After(hub: Hub, steps: seq<Step>): Hub
    requires Run(hub, steps)
    decreases |steps|
  {
    if steps == [] then hub else After(Move(hub, steps[0]), steps[1..])
  }

  lemma {:induction false} RunKeeps(hub: Hub, steps: seq<Step>)
    requires Inv(hub) && Run(hub, steps)
    ensures Inv(After(hub, steps))
    decreases |steps|
  {
    if steps != [] {
      MoveKeeps(hub, steps[0]);
      RunKeeps(Move(hub, steps[0]), steps[1..]);
    }
  }

  // ---- memory as a cache of the table ----------------------------------------

  predicate Connected(hub: Hub, user: string) {
    exists s :: s in SocketsOf(hub.connections, user) && s in hub.restored
  }

  /** In every run, memory holds at most the table's topics, and all of them for a user with a restored open socket. */
  lemma CacheFaithful(steps: seq<Step>, user: string)
    requires Run(START, steps)
    ensures var hub := After(START, steps);
            && Remembered(hub, user) <= Persisted(hub, user)
            && (Connected(hub, user) ==> Remembered(hub, user) == Persisted(hub, user))
  {
    RunKeeps(START, steps);
    CacheOf(After(START, steps), user);
  }

  lemma CacheOf(hub: Hub, user: string)
    requires Inv(hub)
    ensures Remembered(hub, user) <= Persisted(hub, user)
    ensures Connected(hub, user) ==> Remembered(hub, user) == Persisted(hub, user)
  {
    forall t | t in Remembered(hub, user)
      ensures t in Persisted(hub, user)
    {
      assert Subscribed(hub.subscribers, t, user);
      assert (user, t) in hub.persisted;
    }
    if Connected(hub, user) {
      var s :| s in SocketsOf(hub.connections, user) && s in hub.restored;
      forall t | t in Persisted(hub, user)
        ensures t in Remembered(hub, user)
      {
        assert (user, t) in hub.persisted;
        assert Subscribed(hub.subscribers, t, user);
      }
    }
  }

  /**
   * The two steps of a close, whatever happens between them: a user with an
   * open socket loses nothing, a user without one is forgotten everywhere, and
   * nobody else is touched.
   */
  lemma CloseForgetsExactly(hub: Hub, user: string, other: string)
    ensures var hub' := Move(hub, CloseForget(user));
            Remembered(hub', other) ==
              if other == user && SocketsOf(hub.connections, user) == [] then {} else Remembered(hub, other)
  {
  }

  lemma TwoSteps(hub: Hub, a: Step, b: Step)
    requires Possible(hub, a) && Possible(Move(hub, a), b)
    ensures Run(hub, [a, b]) && After(hub, [a, b]) == Move(Move(hub, a), b)
  {
    assert [a, b][1..] == [b] && [b][1..] == [];
    assert Run(Move(Move(hub, a), b), []);
    assert After(Move(hub, a), [b]) == After(Move(Move(hub, a), b), []);
  }

  /** Closing the last socket and opening another brings back exactly the same topics. */
  lemma Reconnect(hub: Hub, user: string, socket: int, next: int)
    requires Inv(hub) && user != "" && next !in hub.opened_
    requires SocketsOf(hub.connections, user) == [socket] && socket in hub.restored
    ensures var leaving, returning := [CloseRemove(user, socket), CloseForget(user)], [Open(user, next), Restore(next)];
            && Run(hub, leaving) && Remembered(After(hub, leaving), user) == {}
            && Run(After(hub, leaving), returning)
            && Remembered(After(After(hub, leaving), returning), user) == Remembered(hub, user)
  {
    var h1 := Move(hub, CloseRemove(user, socket));
    assert [socket][1..] == [] && Without([socket], socket) == Without([], socket);
    assert hub.connections[user] == [socket];
    assert h1.connections[user] == [];
    CloseForgetsExactly(h1, user, user);
    var h2 := Move(h1, CloseForget(user));
    TwoSteps(hub, CloseRemove(user, socket), CloseForget(user));
    var h3 := Move(h2, Open(user, next));
    var h4 := Move(h3, Restore(next));
    TwoSteps(h2, Open(user, next), Restore(next));
    MoveKeeps(hub, CloseRemove(user, socket));
    MoveKeeps(h1, CloseForget(user));
    MoveKeeps(h2, Open(user, next));
    MoveKeeps(h3, Restore(next));
    CacheOf(hub, user);
    CacheOf(h4, user);
    assert socket in SocketsOf(hub.connections, user);
    assert next in SocketsOf(h4.connections, user) && next in h4.restored;
  }

  /**
   * The restore reads the table before it subscribes. With rows read earlier,
   * memory stays within the table exactly when none was deleted meanwhile.
   */
  lemma StaleRestoreExactly(hub: Hub, user: string, rows: set<string>)
    requires Backed(hub)
    ensures Backed(hub.(subscribers := Enrol(hub.subscribers, rows, user))) <==> rows <= Persisted(hub, user)
  {
    var hub' := hub.(subscribers := Enrol(hub.subscribers, rows, user));
    if Backed(hub') {
      forall t | t in rows
        ensures t in Persisted(hub, user)
      {
        assert Subscribed(hub'.subscribers, t, user);
        assert (user, t) in hub.persisted;
      }
    }
    if rows <= Persisted(hub, user) {
      forall t, u | Subscribed(hub'.subscribers, t, u)
        ensures (u, t) in hub.persisted
      {
        assert Subscribed(hub.subscribers, t, u) || (t in rows && u == user);
        assert t in rows ==> t in Persisted(hub, user);
      }
    }
  }

  // ---- delivery --------------------------------------------------------------

  /**
   * What one delivery sends, in whatever order it visits the users: to each
   * open restored socket one copy if its user's subscription is in the table
   * and none otherwise; to a socket still waiting for its restore one copy or
   * none, and none if the table has no subscription; and nothing else.
   */
  lemma DeliverExactly(hub: Hub, order: seq<string>, user: string, socket: int)
    requires Inv(hub) && hub.queue != [] && Distinct(order)
    requires Elements(order) == Audience(hub.subscribers, hub.queue[0].0)
    requires socket in SocketsOf(hub.connections, user)
    ensures var copies := multiset(Copies(hub.connections, order, hub.queue[0].1))[Copy(socket, hub.queue[0].1)];
            && copies == (if Subscribed(hub.subscribers, hub.queue[0].0, user) then 1 else 0)
            && ((user, hub.queue[0].0) !in hub.persisted ==> copies == 0)
            && (socket in hub.restored ==> copies == if (user, hub.queue[0].0) in hub.persisted then 1 else 0)
  {
    CopiesBySocket(hub.connections, order, hub.queue[0].1, user, socket);
    RowsMatch(order, Audience(hub.subscribers, hub.queue[0].0));
    assert user in order <==> user in Elements(order);
  }

  lemma DeliverNothingElse(hub: Hub, order: seq<string>, copy: Copy)
    requires Inv(hub) && hub.queue != [] && Elements(order) == Audience(hub.subscribers, hub.queue[0].0)
    requires copy in Copies(hub.connections, order, hub.queue[0].1)
    ensures copy.message == hub.queue[0].1
    ensures exists u :: copy.socket in SocketsOf(hub.connections, u) && (u, hub.queue[0].0) in hub.persisted
  {
    NoStrayCopies(hub.connections, order, hub.queue[0].1, copy);
    var u :| u in order && copy.socket in SocketsOf(hub.connections, u);
    assert u in Elements(order);
    assert Subscribed(hub.subscribers, hub.queue[0].0, u);
  }

  /** A notice some user should receive always gets onto the bus. */
  lemma WantedPasses(hub: Hub, topic: string, message: string, user: string)
    requires Inv(hub) && Subscribed(hub.subscribers, topic, user)
    ensures Move(hub, Publish(topic, message)).queue == hub.queue + [(topic, message)]
  {
  }

  lemma MoveGrows(hub: Hub, step: Step)
    requires Inv(hub) && Possible(hub, step) && step != Restart
    ensures hub.accepted <= Move(hub, step).accepted && hub.broadcasts <= Move(hub, step).broadcasts
  {
    hide Inv, Passes;
  }

  lemma {:induction false} AcceptedGrows(hub: Hub, steps: seq<Step>)
    requires Inv(hub) && Run(hub, steps) && Restart !in steps
    ensures hub.accepted <= After(hub, steps).accepted && hub.broadcasts <= After(hub, steps).broadcasts
    decreases |steps|
  {
    hide Inv, Move, Possible;
    if steps != [] {
      MoveKeeps(hub, steps[0]);
      MoveGrows(hub, steps[0]);
      AcceptedGrows(Move(hub, steps[0]), steps[1..]);
    }
  }

  /**
   * End to end: a notice published while somebody subscribes to its topic is
   * broadcast once, in its turn, as soon as the bus has been drained that far,
   * however sockets and subscriptions change in between.
   */
  lemma PublishedReaches(hub: Hub, topic: string, message: string, user: string, steps: seq<Step>)
    requires Inv(hub) && Subscribed(hub.subscribers, topic, user)
    requires Run(Move(hub, Publish(topic, message)), steps) && Restart !in steps
    ensures var end := After(Move(hub, Publish(topic, message)), steps);
            && |end.accepted| > |hub.accepted| && end.accepted[|hub.accepted|] == (topic, message)
            && (|end.broadcasts| > |hub.accepted| ==> end.broadcasts[|hub.accepted|] == (topic, message))
            && (end.queue == [] ==> |end.broadcasts| > |hub.accepted|)
  {
    WantedPasses(hub, topic, message, user);
    var start := Move(hub, Publish(topic, message));
    MoveKeeps(hub, Publish(topic, message));
    AcceptedGrows(start, steps);
    RunKeeps(start, steps);
    var end := After(start, steps);
    assert start.accepted == hub.accepted + [(topic, message)];
    assert end.accepted[|hub.accepted|] == start.accepted[|hub.accepted|];
    assert end.accepted == end.broadcasts + end.queue;
  }

  lemma {:induction false} OnlyPublished(hub: Hub, steps: seq<Step>, topic: string, message: string)
    requires Inv(hub) && Run(hub, steps) && (topic, message) !in hub.accepted && Publish(topic, message) !in steps
    ensures (topic, message) !in After(hub, steps).accepted && (topic, message) !in After(hub, steps).broadcasts
    decreases |steps|
  {
    if steps != [] {
      MoveKeeps(hub, steps[0]);
      OnlyPublished(Move(hub, steps[0]), steps[1..], topic, message);
    }
  }

  /** A restart before a notice's turn loses it: unless published again, it is never broadcast. */
  lemma RestartLoses(hub: Hub, topic: string, message: string, later: seq<Step>)
    requires Inv(hub) && (topic, message) in hub.queue
    requires Run(Move(hub, Restart), later) && Publish(topic, message) !in later
    ensures (topic, message) !in After(Move(hub, Restart), later).queue
    ensures (topic, message) !in After(Move(hub, Restart), later).broadcasts
  {
    var start := Move(hub, Restart);
    MoveKeeps(hub, Restart);
    RunKeeps(start, later);
    OnlyPublished(start, later, topic, message);
    assert After(start, later).accepted == After(start, later).broadcasts + After(start, later).queue;
  }
}
