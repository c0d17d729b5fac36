// services/subber/connection_manager.hpp: who is connected, who subscribes to
// what, and the broadcast of one message.
module Connections {
  import opened Prelude

  type Sockets = map<string, seq<int>>        // connections_: user to open sockets, newest first
  type Subscribers = map<string, set<string>> // subscribers_: topic to users

  datatype Copy = Copy(socket: int, message: string)

  function SocketsOf(connections: Sockets, user: string): seq<int> {
    if user in connections then connections[user] else []
  }

  predicate Subscribed(subscribers: Subscribers, topic: string, user: string) {
    topic in subscribers && user in subscribers[topic]
  }

  function Audience(subscribers: Subscribers, topic: string): set<string> {
    if topic in subscribers then subscribers[topic] else {}
  }

  function Without(sockets: seq<int>, gone: int): (left: seq<int>)
    ensures gone !in left && forall s :: s in left <==> s in sockets && s != gone
  {
    if sockets == [] then []
    else if sockets[0] == gone then Without(sockets[1..], gone)
    else [sockets[0]] + Without(sockets[1..], gone)
  }

  lemma {:induction false} WithoutDistinct(sockets: seq<int>, gone: int)
    requires Distinct(sockets)
    ensures Distinct(Without(sockets, gone))
  {
    if sockets != [] {
      var rest := sockets[1..];
      WithoutDistinct(rest, gone);
      assert forall i :: 0 <= i < |rest| ==> rest[i] == sockets[i + 1];
      assert sockets[0] !in rest;
    }
  }

  /** Each socket is listed once, under one user. */
  ghost predicate Exclusive(connections: Sockets) {
    && (forall u :: u in connections ==> Distinct(connections[u]))
    && (forall u, v, s :: u in connections && v in connections && s in connections[u] && s in connections[v] ==> u == v)
  }

  /** What a broadcast sends when it visits the users in this order. */
  function Copies(connections: Sockets, order: seq<string>, message: string): seq<Copy> {
    if order == [] then []
    else Copies(connections, order[..|order| - 1], message)
         + Each(SocketsOf(connections, order[|order| - 1]), message)
  }

  function Each(sockets: seq<int>, message: string): (copies: seq<Copy>)
    ensures |copies| == |sockets|
    ensures forall i :: 0 <= i < |sockets| ==> copies[i] == Copy(sockets[i], message)
  {
    seq(|sockets|, i requires 0 <= i < |sockets| => Copy(sockets[i], message))
  }

  /**
   * What a broadcast puts into the notifications table: a row for each visited
   * user with a connection entry, even an empty one.
   */
  function Kept(connections: Sockets, order: seq<string>, message: string): seq<(string, string)> {
    if order == [] then []
    else Kept(connections, order[..|order| - 1], message)
         + if order[|order| - 1] in connections then [(order[|order| - 1], message)] else []
  }

  /** Some topics without the user. */
  function Forgotten(subscribers: Subscribers, topics: set<string>, user: string): Subscribers {
    map t | t in subscribers :: if t in topics then subscribers[t] - {user} else subscribers[t]
  }

  lemma ForgetNothing(subscribers: Subscribers, topics: seq<string>, user: string)
    requires Elements(topics) == subscribers.Keys
    ensures topics == [] <==> subscribers == map[]
    ensures Forgotten(subscribers, Elements(topics[..0]), user) == subscribers
  {
    assert subscribers == map[] <==> subscribers.Keys == {};
    assert topics != [] ==> topics[0] in Elements(topics);
  }

  lemma ForgetOneMore(subscribers: Subscribers, topics: seq<string>, i: nat, user: string)
    requires i < |topics| && Distinct(topics) && topics[i] in subscribers
    ensures var part := Forgotten(subscribers, Elements(topics[..i]), user);
            && topics[i] in part && part[topics[i]] == subscribers[topics[i]]
            && part[topics[i] := part[topics[i]] - {user}] == Forgotten(subscribers, Elements(topics[..i + 1]), user)
  {
  }

  lemma OneMore(connections: Sockets, order: seq<string>, i: nat, message: string)
    requires i < |order|
    ensures Copies(connections, order[..i + 1], message)
         == Copies(connections, order[..i], message) + Each(SocketsOf(connections, order[i]), message)
    ensures Kept(connections, order[..i + 1], message)
         == Kept(connections, order[..i], message) + if order[i] in connections then [(order[i], message)] else []
  {
    assert order[..i + 1][..i] == order[..i];
  }

  class ConnectionManager {
    var connections: Sockets
    var subscribers: Subscribers
    var sent: seq<Copy>               // everything sent over the sockets
    var stored: seq<(string, string)> // everything put into the notifications table

    constructor ()
      ensures connections == map[] && subscribers == map[] && sent == [] && stored == []
    {
      connections, subscribers, sent, stored := map[], map[], [], [];
    }

    method AddConnection(user: string, socket: int)
      modifies this`connections
      ensures connections == old(connections)[user := [socket] + SocketsOf(old(connections), user)]
    {
      if user !in connections {
        connections := connections[user := []];
      }
      connections := connections[user := [socket] + connections[user]];
    }

    method RemoveConnection(user: string, socket: int)
      modifies this`connections
      ensures user !in old(connections) ==> connections == old(connections)
      ensures user in old(connections) ==>
                connections == old(connections)[user := Without(old(connections)[user], socket)]
    {
      if user in connections && connections[user] != [] {
        connections := connections[user := Without(connections[user], socket)];
      }
    }

    method Subscribe(topic: string, user: string)
      modifies this`subscribers
      ensures subscribers == old(subscribers)[topic := Audience(old(subscribers), topic) + {user}]
    {
      if topic !in subscribers {
        subscribers := subscribers[topic := {}];
      }
      subscribers := subscribers[topic := subscribers[topic] + {user}];
    }

    /**
     * The loop looks the user's connection entry up once per topic, creating
     * it when it is missing and erasing it when it is empty. All the same: a
     * user with an open socket keeps everything, a user without one loses
     * every topic and the entry.
     */
    method Unsubscribe(user: string)
      modifies this`subscribers, this`connections
      ensures SocketsOf(old(connections), user) != [] ==>
                subscribers == old(subscribers) && connections == old(connections)
      ensures SocketsOf(old(connections), user) == [] ==>
                && subscribers == Forgotten(old(subscribers), old(subscribers).Keys, user)
                && connections == if old(subscribers) == map[] then old(connections) else old(connections) - {user}
    {
      hide Elements, Distinct, Forgotten;
      ghost var before, held := subscribers, connections;
      var topics := Rows(subscribers.Keys);
      RowsMatch(topics, subscribers.Keys);
      ForgetNothing(before, topics, user);
      for i := 0 to |topics|
        invariant SocketsOf(held, user) != [] ==> subscribers == before && connections == held
        invariant SocketsOf(held, user) == [] ==> SocketsOf(connections, user) == []
        invariant SocketsOf(held, user) == [] ==> connections == if i == 0 then held else held - {user}
        invariant SocketsOf(held, user) == [] ==> subscribers == Forgotten(before, Elements(topics[..i]), user)
      {
        ForgetOneMore(before, topics, i, user);
        ForgetIfGone(topics[i], user);
      }
      assert topics[..|topics|] == topics;
    }

    /** The body of that loop. */
    method ForgetIfGone(topic: string, user: string)
      requires topic in subscribers
      modifies this`subscribers, this`connections
      ensures SocketsOf(old(connections), user) != [] ==>
                subscribers == old(subscribers) && connections == old(connections)
      ensures SocketsOf(old(connections), user) == [] ==>
                && subscribers == old(subscribers)[topic := old(subscribers)[topic] - {user}]
                && connections == old(connections) - {user}
    {
      if user !in connections {
        connections := connections[user := []];
      }
      if connections[user] == [] {
        subscribers := subscribers[topic := subscribers[topic] - {user}];
        connections := connections - {user};
      }
    }

    method UnsubscribeUserFromTopic(user: string, topic: string)
      modifies this`subscribers
      ensures subscribers == old(subscribers)[topic := Audience(old(subscribers), topic) - {user}]
    {
      if topic !in subscribers {
        subscribers := subscribers[topic := {}];
      }
      subscribers := subscribers[topic := subscribers[topic] - {user}];
    }

    method Broadcast(topic: string, message: string) returns (order: seq<string>)
      modifies this`subscribers, this`sent, this`stored
      ensures subscribers == old(subscribers)[topic := Audience(old(subscribers), topic)]
      ensures Distinct(order) && Elements(order) == Audience(old(subscribers), topic)
      ensures sent == old(sent) + Copies(connections, order, message)
      ensures stored == old(stored) + Kept(connections, order, message)
    {
      if topic !in subscribers {
        subscribers := subscribers[topic := {}];
      }
      order := Rows(subscribers[topic]);
      NotifyAll(order, message);
    }

    method NotifyAll(order: seq<string>, message: string)
      modifies this`sent, this`stored
      ensures sent == old(sent) + Copies(connections, order, message)
      ensures stored == old(stored) + Kept(connections, order, message)
    {
      assert Copies(connections, order[..0], message) == [] && Kept(connections, order[..0], message) == [];
      hide Copies, Kept, Each;
      for i := 0 to |order|
        invariant sent == old(sent) + Copies(connections, order[..i], message)
        invariant stored == old(stored) + Kept(connections, order[..i], message)
      {
        OneMore(connections, order, i, message);
        Assoc(old(sent), Copies(connections, order[..i], message), Each(SocketsOf(connections, order[i]), message));
        Assoc(old(stored), Kept(connections, order[..i], message),
              if order[i] in connections then [(order[i], message)] else []);
        Notify(order[i], message);
      }
      assert order[..|order|] == order;
    }

    /** The body of the broadcast loop. */
    method Notify(user: string, message: string)
      modifies this`sent, this`stored
      ensures sent == old(sent) + Each(SocketsOf(connections, user), message)
      ensures stored == old(stored) + if user in connections then [(user, message)] else []
    {
      if user in connections {
        stored := stored + [(user, message)];
        var sockets := connections[user];
        for i := 0 to |sockets|
          modifies this`sent
          invariant sent == old(sent) + Each(sockets[..i], message)
        {
          sent := sent + [Copy(sockets[i], message)];
        }
        assert sockets[..|sockets|] == sockets;
      }
    }
  }

  // ---- how many copies -----------------------------------------------------

  lemma {:induction false} CopiesBySocket(connections: Sockets, order: seq<string>, message: string, user: string,
                                          socket: int)
    requires Exclusive(connections) && Distinct(order)
    requires user in connections && socket in connections[user]
    ensures multiset(Copies(connections, order, message))[Copy(socket, message)] == if user in order then 1 else 0
  {
    hide Each;
    if order != [] {
      var init, last := order[..|order| - 1], order[|order| - 1];
      CopiesBySocket(connections, init, message, user, socket);
      CopiesOfOne(SocketsOf(connections, last), message, socket);
      assert order == init + [last];
      assert multiset(Copies(connections, order, message))
          == multiset(Copies(connections, init, message)) + multiset(Each(SocketsOf(connections, last), message));
    }
  }

  lemma {:induction false} CopiesOfOne(sockets: seq<int>, message: string, socket: int)
    requires Distinct(sockets)
    ensures multiset(Each(sockets, message))[Copy(socket, message)] == if socket in sockets then 1 else 0
  {
    if sockets != [] {
      var init, last := sockets[..|sockets| - 1], sockets[|sockets| - 1];
      CopiesOfOne(init, message, socket);
      assert sockets == init + [last];
      assert Each(sockets, message) == Each(init, message) + [Copy(last, message)];
    }
  }

  lemma {:induction false} NoStrayCopies(connections: Sockets, order: seq<string>, message: string, copy: Copy)
    requires copy in Copies(connections, order, message)
    ensures copy.message == message && exists u :: u in order && copy.socket in SocketsOf(connections, u)
  {
    var init, last := order[..|order| - 1], order[|order| - 1];
    if copy in Copies(connections, init, message) {
      NoStrayCopies(connections, init, message, copy);
      assert forall u :: u in init ==> u in order;
    } else {
      assert last in order && copy in Each(SocketsOf(connections, last), message);
    }
  }

  /** One notification row for each visited user with a connection entry, none for anyone else. */
  lemma {:induction false} KeptExactly(connections: Sockets, order: seq<string>, message: string, user: string)
    requires Distinct(order)
    ensures multiset(Kept(connections, order, message))[(user, message)] ==
              if user in order && user in connections then 1 else 0
  {
    if order != [] {
      var init, last := order[..|order| - 1], order[|order| - 1];
      KeptExactly(connections, init, message, user);
      assert order == init + [last];
      assert multiset(Kept(connections, order, message))
          == multiset(Kept(connections, init, message))
            + multiset(if last in connections then [(last, message)] else []);
    }
  }
}
