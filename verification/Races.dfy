// The subscription engine at the grain of its locks and queries. A restore
// reads its rows and enrols them one by one; a subscribe or unsubscribe request
// changes memory first and the table later. Which steps, and only which, can
// part memory from the table.
module Races {
  import opened Prelude
  import opened Connections
  import F = FanOut

  datatype Request = Joining(user: string, topic: string) | Leaving(user: string, topic: string)

  // A restore that has read its rows, and those it has still to enrol.
  datatype Restoring = Restoring(user: string, todo: set<string>)

  datatype Net = Net(hub: F.Hub, fetched: map<int, Restoring>, requests: map<int, Request>)

  const START := Net(F.START, map[], map[])

  datatype Step =
    | Coarse(step: F.Step)
    | Fetch(socket: int)
    | EnrolRow(socket: int, topic: string)
    | Finish(socket: int)
    | JoinMemory(request: int, user: string, topic: string)
    | JoinTable(request: int)
    | LeaveMemory(request: int, user: string, topic: string)
    | LeaveTable(request: int)

  predicate Possible(net: Net, step: Step) {
    match step
    case Coarse(s) => !s.Restore? && !s.Join? && !s.Leave? && F.Possible(net.hub, s)
    case Fetch(socket) => socket in net.hub.awaiting
    case EnrolRow(socket, topic) => socket in net.fetched && topic in net.fetched[socket].todo
    case Finish(socket) => socket in net.fetched && net.fetched[socket].todo == {}
    case JoinMemory(r, _, _) => r !in net.requests
    case JoinTable(r) => r in net.requests && net.requests[r].Joining?
    case LeaveMemory(r, _, _) => r !in net.requests
    case LeaveTable(r) => r in net.requests && net.requests[r].Leaving?
  }

  function Enrolled(hub: F.Hub, user: string, topic: string): F.Hub {
    hub.(filters := hub.filters + {topic}, subscribers := F.Enrol(hub.subscribers, {topic}, user))
  }

  function Move(net: Net, step: Step): Net
    requires Possible(net, step)
  {
    var hub := net.hub;
    match step
    case Coarse(s) =>
      if s.Restart? then Net(F.Move(hub, s), map[], map[]) else net.(hub := F.Move(hub, s))
    case Fetch(socket) =>
      var user := hub.awaiting[socket];
      net.(hub := hub.(awaiting := hub.awaiting - {socket}),
           fetched := net.fetched[socket := Restoring(user, F.Persisted(hub, user))])
    case EnrolRow(socket, topic) =>
      var r := net.fetched[socket];
      net.(hub := Enrolled(hub, r.user, topic), fetched := net.fetched[socket := r.(todo := r.todo - {topic})])
    case Finish(socket) =>
      net.(hub := hub.(restored := hub.restored + {socket}), fetched := net.fetched - {socket})
    case JoinMemory(r, user, topic) =>
      net.(hub := Enrolled(hub, user, topic), requests := net.requests[r := Joining(user, topic)])
    case JoinTable(r) =>
      var pair := (net.requests[r].user, net.requests[r].topic);
      net.(hub := hub.(persisted := hub.persisted + {pair}), requests := net.requests - {r})
    case LeaveMemory(r, user, topic) =>
      net.(hub := hub.(subscribers := hub.subscribers[topic := Audience(hub.subscribers, topic) - {user}]),
           requests := net.requests[r := Leaving(user, topic)])
    case LeaveTable(r) =>
      var pair := (net.requests[r].user, net.requests[r].topic);
      net.(hub := hub.(persisted := hub.persisted - {pair}), requests := net.requests - {r})
  }

  // ---- what no interleaving breaks --------------------------------------------

  ghost predicate SocketsKnown(net: Net) {
    && F.SocketsKnown(net.hub)
    && net.fetched.Keys <= net.hub.opened_ && net.fetched.Keys !! net.hub.awaiting.Keys + net.hub.restored
    && forall u, s :: u in net.hub.connections && s in net.hub.connections[u] && s in net.fetched ==>
         net.fetched[s].user == u
  }

  ghost predicate Sound(net: Net) {
    SocketsKnown(net) && F.Filtered(net.hub) && net.hub.accepted == net.hub.broadcasts + net.hub.queue
  }

  lemma CoarseSockets(net: Net, step: F.Step)
    requires SocketsKnown(net) && Possible(net, Coarse(step))
    ensures SocketsKnown(Move(net, Coarse(step)))
  {
    F.SocketsMove(net.hub, step);
  }

  lemma FineSockets(net: Net, step: Step)
    requires SocketsKnown(net) && Possible(net, step) && !step.Coarse?
    ensures SocketsKnown(Move(net, step))
  {
  }

  lemma FilteredMove(net: Net, step: Step)
    requires F.Filtered(net.hub) && Possible(net, step)
    ensures F.Filtered(Move(net, step).hub)
  {
    var hub' := Move(net, step).hub;
    forall t, u | Subscribed(hub'.subscribers, t, u)
      ensures t in hub'.filters
    {
      assert Subscribed(net.hub.subscribers, t, u) ==> t in net.hub.filters;
    }
  }

  lemma MoveSound(net: Net, step: Step)
    requires Sound(net) && Possible(net, step)
    ensures Sound(Move(net, step))
  {
    if step.Coarse? {
      CoarseSockets(net, step.step);
    } else {
      FineSockets(net, step);
    }
    FilteredMove(net, step);
    var hub := net.hub;
    match step
    case Coarse(Publish(topic, message)) =>
      assert hub.broadcasts + (hub.queue + [(topic, message)]) == (hub.broadcasts + hub.queue) + [(topic, message)];
    case Coarse(Deliver) => assert hub.queue == [hub.queue[0]] + hub.queue[1..];
    case _ =>
  }

  // ---- memory within the table --------------------------------------------------

  ghost predicate Asked(net: Net, request: Request) {
    exists r :: r in net.requests && net.requests[r] == request
  }

  /** A remembered subscription is in the table, or its request is about to put it there. */
  ghost predicate Backed(net: Net) {
    forall t, u :: Subscribed(net.hub.subscribers, t, u) ==> BackedPair(net, u, t)
  }

  ghost predicate BackedPair(net: Net, user: string, topic: string) {
    (user, topic) in net.hub.persisted || Asked(net, Joining(user, topic))
  }

  /** A restore enrols a row deleted since it was read, or a deletion finds the pair remembered again. */
  ghost predicate Unbacks(net: Net, step: Step)
    requires Possible(net, step)
  {
    match step
    case EnrolRow(socket, topic) => !BackedPair(net, net.fetched[socket].user, topic)
    case LeaveTable(r) =>
      var user, topic := net.requests[r].user, net.requests[r].topic;
      Subscribed(net.hub.subscribers, topic, user) && !Asked(net, Joining(user, topic))
    case _ => false
  }

  lemma BackedPairMove(net: Net, step: Step, user: string, topic: string)
    requires Possible(net, step) && !step.Coarse? && BackedPair(net, user, topic)
    ensures BackedPair(Move(net, step), user, topic) <==>
            !(step.LeaveTable? && net.requests[step.request] == Leaving(user, topic)
              && !Asked(net, Joining(user, topic)))
  {
    var net' := Move(net, step);
    if Asked(net, Joining(user, topic)) {
      var r :| r in net.requests && net.requests[r] == Joining(user, topic);
      assert (r in net'.requests && net'.requests[r] == Joining(user, topic)) || (user, topic) in net'.hub.persisted;
    }
  }

  /** Exactly these steps make memory hold what the table does not. */
  lemma BackedExactly(net: Net, step: Step)
    requires Sound(net) && Backed(net) && Possible(net, step)
    ensures Backed(Move(net, step)) <==> !Unbacks(net, step)
  {
    var net' := Move(net, step);
    forall t, u | Subscribed(net'.hub.subscribers, t, u) && !Unbacks(net, step)
      ensures BackedPair(net', u, t)
    {
      BackedAfter(net, step, u, t);
    }
    if Unbacks(net, step) {
      var user, topic := if step.EnrolRow? then net.fetched[step.socket].user else net.requests[step.request].user,
                         if step.EnrolRow? then step.topic else net.requests[step.request].topic;
      assert Subscribed(net'.hub.subscribers, topic, user);
      assert !BackedPair(net', user, topic);
    }
  }

  lemma BackedAfter(net: Net, step: Step, user: string, topic: string)
    requires Backed(net) && Possible(net, step) && !Unbacks(net, step)
    requires Subscribed(Move(net, step).hub.subscribers, topic, user)
    ensures BackedPair(Move(net, step), user, topic)
  {
    var net' := Move(net, step);
    if Subscribed(net.hub.subscribers, topic, user) {
      assert BackedPair(net, user, topic);
    }
    match step
    case Coarse(s) =>
      assert net'.hub.persisted == net.hub.persisted;
      assert !s.Restart? ==> Asked(net, Joining(user, topic)) == Asked(net', Joining(user, topic));
    case JoinMemory(r, u, t) =>
      if u == user && t == topic {
        assert net'.requests[r] == Joining(user, topic);
      } else {
        BackedPairMove(net, step, user, topic);
      }
    case _ => BackedPairMove(net, step, user, topic);
  }

  // ---- the table within memory, for connected users --------------------------------

  /** The socket's user has, or is about to have, the topic in memory; or is about to lose it. */
  ghost predicate Covered(net: Net, user: string, socket: int, topic: string) {
    || (user, topic) !in net.hub.persisted
    || Subscribed(net.hub.subscribers, topic, user)
    || Asked(net, Leaving(user, topic))
    || (socket in net.fetched && topic in net.fetched[socket].todo)
  }

  /** So it is for every open socket whose restore has read its rows. */
  ghost predicate Complete(net: Net) {
    forall u, s, t :: Reading(net, u, s) ==> Covered(net, u, s, t)
  }

  ghost predicate Reading(net: Net, user: string, socket: int) {
    socket in SocketsOf(net.hub.connections, user) && (socket in net.hub.restored || socket in net.fetched)
  }

  /** An insertion finds its pair gone from memory, with the user connected and the rows already read. */
  ghost predicate Uncovers(net: Net, step: Step)
    requires Possible(net, step)
  {
    && step.JoinTable?
    && var user, topic := net.requests[step.request].user, net.requests[step.request].topic;
       && !Subscribed(net.hub.subscribers, topic, user)
       && !Asked(net, Leaving(user, topic))
       && exists s :: Reading(net, user, s) && !(s in net.fetched && topic in net.fetched[s].todo)
  }

  /** Exactly these steps leave a connected user without a topic the table gives them. */
  lemma CompleteExactly(net: Net, step: Step)
    requires Sound(net) && Complete(net) && Possible(net, step)
    ensures Complete(Move(net, step)) <==> !Uncovers(net, step)
  {
    var net' := Move(net, step);
    forall u, s, t | Reading(net', u, s) && !Uncovers(net, step)
      ensures Covered(net', u, s, t)
    {
      CoveredAfter(net, step, u, s, t);
    }
    if Uncovers(net, step) {
      var user, topic := net.requests[step.request].user, net.requests[step.request].topic;
      var s :| Reading(net, user, s) && !(s in net.fetched && topic in net.fetched[s].todo);
      assert Reading(net', user, s);
      assert !Covered(net', user, s, topic);
    }
  }

  lemma LeavingAfter(net: Net, step: Step, user: string, topic: string)
    requires Possible(net, step) && !(step.Coarse? && step.step.Restart?) && Asked(net, Leaving(user, topic))
    ensures Asked(Move(net, step), Leaving(user, topic)) || (user, topic) !in Move(net, step).hub.persisted
  {
    var net' := Move(net, step);
    var r :| r in net.requests && net.requests[r] == Leaving(user, topic);
    assert (r in net'.requests && net'.requests[r] == Leaving(user, topic)) || (user, topic) !in net'.hub.persisted;
  }

  lemma ReadingBefore(net: Net, step: Step, user: string, socket: int)
    requires SocketsKnown(net) && Possible(net, step) && Reading(Move(net, step), user, socket)
    ensures !(step.Coarse? && step.step.Restart?)
    ensures Reading(net, user, socket) || (step == Fetch(socket) && net.hub.awaiting[socket] == user)
  {
  }

  lemma CoveredAfter(net: Net, step: Step, user: string, socket: int, topic: string)
    requires Sound(net) && Complete(net) && Possible(net, step) && !Uncovers(net, step)
    requires Reading(Move(net, step), user, socket)
    ensures Covered(Move(net, step), user, socket, topic)
  {
    var net' := Move(net, step);
    ReadingBefore(net, step, user, socket);
    if Reading(net, user, socket) {
      assert Covered(net, user, socket, topic);
      if Asked(net, Leaving(user, topic)) {
        LeavingAfter(net, step, user, topic);
      }
      if step.LeaveMemory? {
        assert net'.requests[step.request] == Leaving(step.user, step.topic);
      }
    }
  }

  // ---- runs -----------------------------------------------------------------------

  ghost predicate Run(net: Net, steps: seq<Step>)
    decreases |steps|
  {
    steps == [] || (Possible(net, steps[0]) && Run(Move(net, steps[0]), steps[1..]))
  }

  ghost function After(net: Net, steps: seq<Step>): Net
    requires Run(net, steps)
    decreases |steps|
  {
    if steps == [] then net else After(Move(net, steps[0]), steps[1..])
  }

  lemma {:induction false} RunSound(net: Net, steps: seq<Step>)
    requires Sound(net) && Run(net, steps)
    ensures Sound(After(net, steps))
    decreases |steps|
  {
    if steps != [] {
      MoveSound(net, steps[0]);
      RunSound(Move(net, steps[0]), steps[1..]);
    }
  }

  ghost predicate Clean(net: Net, steps: seq<Step>)
    requires Run(net, steps)
    decreases |steps|
  {
    steps == [] || (!Unbacks(net, steps[0]) && !Uncovers(net, steps[0]) && Clean(Move(net, steps[0]), steps[1..]))
  }

  ghost predicate Faithful(net: Net) {
    Sound(net) && Backed(net) && Complete(net)
  }

  lemma {:induction false} CleanRunFaithful(net: Net, steps: seq<Step>)
    requires Faithful(net) && Run(net, steps) && Clean(net, steps)
    ensures Faithful(After(net, steps))
    decreases |steps|
  {
    if steps != [] {
      MoveSound(net, steps[0]);
      BackedExactly(net, steps[0]);
      CompleteExactly(net, steps[0]);
      CleanRunFaithful(Move(net, steps[0]), steps[1..]);
    }
  }

  /**
   * After any run without such a step, once no request is between memory and
   * table, memory is again a cache of the table: within it for everybody, equal
   * to it for a user with a restored open socket.
   */
  lemma QuietCache(steps: seq<Step>, user: string)
    requires Run(START, steps) && Clean(START, steps) && After(START, steps).requests == map[]
    ensures var hub := After(START, steps).hub;
            && F.Remembered(hub, user) <= F.Persisted(hub, user)
            && ((exists s :: s in SocketsOf(hub.connections, user) && s in hub.restored)
                ==> F.Remembered(hub, user) == F.Persisted(hub, user))
  {
    var net := After(START, steps);
    CleanRunFaithful(START, steps);
    forall t | t in F.Remembered(net.hub, user)
      ensures t in F.Persisted(net.hub, user)
    {
      assert Subscribed(net.hub.subscribers, t, user);
      assert BackedPair(net, user, t);
    }
    if s :| s in SocketsOf(net.hub.connections, user) && s in net.hub.restored {
      forall t | t in F.Persisted(net.hub, user)
        ensures t in F.Remembered(net.hub, user)
      {
        assert Reading(net, user, s);
        assert Covered(net, user, s, t);
      }
    }
  }

  // ---- delivery ------------------------------------------------------------------

  /** With nothing under way a faithful state satisfies everything the coarse model keeps. */
  lemma QuietInv(net: Net)
    requires Faithful(net) && net.requests == map[]
    ensures F.Inv(net.hub)
  {
    forall t, u | Subscribed(net.hub.subscribers, t, u)
      ensures (u, t) in net.hub.persisted
    {
      assert BackedPair(net, u, t);
    }
    forall u, s, t | u in net.hub.connections && s in net.hub.connections[u] && s in net.hub.restored
                     && (u, t) in net.hub.persisted
      ensures Subscribed(net.hub.subscribers, t, u)
    {
      assert Reading(net, u, s) && Covered(net, u, s, t);
    }
  }

  /** After any clean run, once quiet, a delivery follows the table: one copy to each socket that wants it. */
  lemma QuietDelivery(steps: seq<Step>, order: seq<string>, user: string, socket: int)
    requires Run(START, steps) && Clean(START, steps) && After(START, steps).requests == map[]
    requires var hub := After(START, steps).hub;
             && hub.queue != [] && Distinct(order) && Elements(order) == Audience(hub.subscribers, hub.queue[0].0)
             && socket in SocketsOf(hub.connections, user) && socket in hub.restored
    ensures var hub := After(START, steps).hub;
            && multiset(Copies(hub.connections, order, hub.queue[0].1))[Copy(socket, hub.queue[0].1)] ==
                 (if (user, hub.queue[0].0) in hub.persisted then 1 else 0)
            && forall c :: c in Copies(hub.connections, order, hub.queue[0].1) ==>
                 exists u :: c.socket in SocketsOf(hub.connections, u) && (u, hub.queue[0].0) in hub.persisted
  {
    CleanRunFaithful(START, steps);
    var hub := After(START, steps).hub;
    QuietInv(After(START, steps));
    F.DeliverExactly(hub, order, user, socket);
    forall c | c in Copies(hub.connections, order, hub.queue[0].1)
      ensures exists u :: c.socket in SocketsOf(hub.connections, u) && (u, hub.queue[0].0) in hub.persisted
    {
      F.DeliverNothingElse(hub, order, c);
    }
  }

  /** After any run, a delivery follows memory: one copy to an open socket if memory subscribes its user, else none. */
  lemma DeliveryFollowsMemory(steps: seq<Step>, order: seq<string>, user: string, socket: int)
    requires Run(START, steps)
    requires var hub := After(START, steps).hub;
             && hub.queue != [] && Distinct(order) && Elements(order) == Audience(hub.subscribers, hub.queue[0].0)
             && socket in SocketsOf(hub.connections, user)
    ensures var hub := After(START, steps).hub;
            multiset(Copies(hub.connections, order, hub.queue[0].1))[Copy(socket, hub.queue[0].1)] ==
              if Subscribed(hub.subscribers, hub.queue[0].0, user) then 1 else 0
  {
    RunSound(START, steps);
    var hub := After(START, steps).hub;
    CopiesBySocket(hub.connections, order, hub.queue[0].1, user, socket);
    RowsMatch(order, Audience(hub.subscribers, hub.queue[0].0));
    assert user in order <==> user in Elements(order);
  }

  // ---- the coarse model is the fine one without interruptions ----------------------

  lemma JoinIsTwoSteps(net: Net, r: int, user: string, topic: string)
    requires r !in net.requests
    ensures var n1 := Move(net, JoinMemory(r, user, topic));
            && Possible(n1, JoinTable(r))
            && Move(n1, JoinTable(r)) == net.(hub := F.Move(net.hub, F.Join(user, topic)))
  {
  }

  lemma LeaveIsTwoSteps(net: Net, r: int, user: string, topic: string)
    requires r !in net.requests
    ensures var n1 := Move(net, LeaveMemory(r, user, topic));
            && Possible(n1, LeaveTable(r))
            && Move(n1, LeaveTable(r)) == net.(hub := F.Move(net.hub, F.Leave(user, topic)))
  {
  }

  function RowSteps(socket: int, rows: seq<string>): seq<Step> {
    if rows == [] then [Finish(socket)] else [EnrolRow(socket, rows[0])] + RowSteps(socket, rows[1..])
  }

  lemma {:induction false} RowsEnrol(net: Net, socket: int, rows: seq<string>)
    requires socket in net.fetched && Distinct(rows) && net.fetched[socket].todo == Elements(rows)
    ensures Run(net, RowSteps(socket, rows))
    ensures After(net, RowSteps(socket, rows)) ==
              net.(hub := net.hub.(filters := net.hub.filters + Elements(rows),
                                   subscribers :=
                                     F.Enrol(net.hub.subscribers, Elements(rows), net.fetched[socket].user),
                                   restored := net.hub.restored + {socket}),
                   fetched := net.fetched - {socket})
    decreases |rows|
  {
    if rows == [] {
      Prepend(net, Finish(socket), []);
      assert F.Enrol(net.hub.subscribers, {}, net.fetched[socket].user) == net.hub.subscribers;
    } else {
      assert rows[0] in Elements(rows);
      var net' := Move(net, EnrolRow(socket, rows[0]));
      assert Elements(rows[1..]) == Elements(rows) - {rows[0]} by {
        assert rows == [rows[0]] + rows[1..];
      }
      RowsEnrol(net', socket, rows[1..]);
      Prepend(net, EnrolRow(socket, rows[0]), RowSteps(socket, rows[1..]));
      EnrolTwice(net.hub.subscribers, {rows[0]}, Elements(rows[1..]), net.fetched[socket].user);
      assert {rows[0]} + Elements(rows[1..]) == Elements(rows);
      assert net'.fetched - {socket} == net.fetched - {socket};
      assert net.hub.filters + {rows[0]} + Elements(rows[1..]) == net.hub.filters + Elements(rows);
    }
  }

  lemma EnrolTwice(subscribers: Subscribers, a: set<string>, b: set<string>, user: string)
    ensures F.Enrol(F.Enrol(subscribers, a, user), b, user) == F.Enrol(subscribers, a + b, user)
  {
  }

  /** A restore that nothing interrupts, whatever order its rows come in. */
  lemma RestoreIsManySteps(net: Net, socket: int, rows: seq<string>)
    requires socket in net.hub.awaiting && socket !in net.fetched
    requires Distinct(rows) && Elements(rows) == F.Persisted(net.hub, net.hub.awaiting[socket])
    ensures var n1 := Move(net, Fetch(socket));
            && Run(n1, RowSteps(socket, rows))
            && After(n1, RowSteps(socket, rows)) == net.(hub := F.Move(net.hub, F.Restore(socket)))
  {
    var n1 := Move(net, Fetch(socket));
    RowsEnrol(n1, socket, rows);
    assert n1.fetched - {socket} == net.fetched;
  }

  // ---- how it happens -----------------------------------------------------------------

  lemma Prepend(net: Net, step: Step, rest: seq<Step>)
    requires Possible(net, step) && Run(Move(net, step), rest)
    ensures Run(net, [step] + rest) && After(net, [step] + rest) == After(Move(net, step), rest)
  {
  }

  /** The user unsubscribes between the reading of a row and its enrolment: memory keeps a topic the table has lost. */
  lemma StaleRow(net: Net, socket: int, topic: string, r: int) returns (steps: seq<Step>)
    requires socket in net.hub.awaiting && (net.hub.awaiting[socket], topic) in net.hub.persisted
    requires r !in net.requests && !Asked(net, Joining(net.hub.awaiting[socket], topic))
    ensures Run(net, steps) && After(net, steps).requests == net.requests
    ensures Subscribed(After(net, steps).hub.subscribers, topic, net.hub.awaiting[socket])
    ensures !BackedPair(After(net, steps), net.hub.awaiting[socket], topic)
  {
    var user := net.hub.awaiting[socket];
    var n1 := Move(net, Fetch(socket));
    var n2 := Move(n1, LeaveMemory(r, user, topic));
    var n3 := Move(n2, LeaveTable(r));
    assert topic in n3.fetched[socket].todo;
    assert n3.requests == net.requests;
    Prepend(n3, EnrolRow(socket, topic), []);
    Prepend(n2, LeaveTable(r), [EnrolRow(socket, topic)] + []);
    Prepend(n1, LeaveMemory(r, user, topic), [LeaveTable(r)] + ([EnrolRow(socket, topic)] + []));
    steps := [Fetch(socket)] + ([LeaveMemory(r, user, topic)] + ([LeaveTable(r)] + ([EnrolRow(socket, topic)] + [])));
    Prepend(net, Fetch(socket), [LeaveMemory(r, user, topic)] + ([LeaveTable(r)] + ([EnrolRow(socket, topic)] + [])));
  }

  /** A close forgets a subscription that is not in the table yet. */
  lemma JoinForgotten(net: Net, user: string, socket: int, topic: string, r: int) returns (end: Net)
    requires SocketsOf(net.hub.connections, user) == [socket] && r !in net.requests
    ensures var a, b, c := Coarse(F.CloseRemove(user, socket)), JoinMemory(r, user, topic), Coarse(F.CloseForget(user));
            && Possible(net, a) && Possible(Move(net, a), b) && Possible(Move(Move(net, a), b), c)
            && end == Move(Move(Move(net, a), b), c)
    ensures !Subscribed(end.hub.subscribers, topic, user) && SocketsOf(end.hub.connections, user) == []
    ensures end.requests == net.requests[r := Joining(user, topic)] && end.hub.persisted == net.hub.persisted
    ensures end.hub.opened_ == net.hub.opened_
  {
    assert [socket][1..] == [] && Without([socket], socket) == Without([], socket);
    var n1 := Move(net, Coarse(F.CloseRemove(user, socket)));
    assert n1.hub.connections[user] == [];
    end := Move(Move(n1, JoinMemory(r, user, topic)), Coarse(F.CloseForget(user)));
  }

  /** A new socket reads the table before the row gets there. */
  lemma ReadTooEarly(net: Net, user: string, next: int, topic: string, r: int) returns (end: Net)
    requires user != "" && next !in net.hub.opened_ && (user, topic) !in net.hub.persisted
    requires !Subscribed(net.hub.subscribers, topic, user) && !Asked(net, Leaving(user, topic))
    requires r in net.requests && net.requests[r] == Joining(user, topic)
    ensures var d, e, f := Coarse(F.Open(user, next)), Fetch(next), JoinTable(r);
            && Possible(net, d) && Possible(Move(net, d), e) && Possible(Move(Move(net, d), e), f)
            && end == Move(Move(Move(net, d), e), f)
    ensures end.requests == net.requests - {r}
    ensures Reading(end, user, next) && !Covered(end, user, next, topic)
  {
    var n1 := Move(net, Coarse(F.Open(user, next)));
    var n2 := Move(n1, Fetch(next));
    assert topic !in n2.fetched[next].todo;
    end := Move(n2, JoinTable(r));
    assert next in SocketsOf(end.hub.connections, user);
  }

  /**
   * The user reconnects while subscribing: the close forgets the subscription
   * just made and the new socket reads the table before it gets there. The table
   * has the topic, the user is connected, and memory is without it.
   */
  lemma LostJoin(net: Net, user: string, socket: int, next: int, topic: string, r: int) returns (steps: seq<Step>)
    requires user != "" && SocketsOf(net.hub.connections, user) == [socket] && next !in net.hub.opened_
    requires (user, topic) !in net.hub.persisted && r !in net.requests && !Asked(net, Leaving(user, topic))
    ensures Run(net, steps) && After(net, steps).requests == net.requests
    ensures Reading(After(net, steps), user, next) && !Covered(After(net, steps), user, next, topic)
  {
    var a, b, c := Coarse(F.CloseRemove(user, socket)), JoinMemory(r, user, topic), Coarse(F.CloseForget(user));
    var d, e, f := Coarse(F.Open(user, next)), Fetch(next), JoinTable(r);
    var n3 := JoinForgotten(net, user, socket, topic, r);
    var end := ReadTooEarly(n3, user, next, topic, r);
    assert end.requests == net.requests;
    Prepend(Move(Move(n3, d), e), f, []);
    hide Move, Possible, Run, After, Reading, Covered;
    Prepend(Move(n3, d), e, [f] + []);
    Prepend(n3, d, [e] + ([f] + []));
    var last := [d] + ([e] + ([f] + []));
    Prepend(Move(Move(net, a), b), c, last);
    Prepend(Move(net, a), b, [c] + last);
    Prepend(net, a, [b] + ([c] + last));
    steps := [a] + ([b] + ([c] + last));
  }
}
