// The services the handlers share (services/service_manager.hpp), the
// user_subscriptions table and the handlers that work on them: those of
// controllers/notification_websocket.cpp and the subscription handlers of
// controllers/community.cc. Each is proved to make its step of FanOut.
module Services {
  import opened Prelude
  import opened Ids
  import opened Connections
  import opened FanOut
  import opened Bus
  import Handlers

  class ServiceManager {
    const subscriber: SubManager
    var table: set<(string, string)>          // user_subscriptions
    var postSubscriptions: set<(int, int)>    // post_subscriptions: user, post

    // The sockets and notices so far, as FanOut tells the story.
    ghost var opened_: set<int>
    ghost var awaiting: map<int, string>
    ghost var restored: set<int>
    ghost var accepted: seq<Notice>
    ghost var broadcasts: seq<Notice>

    ghost function Snapshot(): Hub
      reads this, subscriber, subscriber.manager
    {
      Hub(subscriber.manager.connections, subscriber.manager.subscribers, subscriber.filters, subscriber.inbox,
          table, opened_, awaiting, restored, accepted, broadcasts)
    }

    ghost predicate Valid()
      reads this, subscriber, subscriber.manager
    {
      Inv(Snapshot())
    }

    constructor ()
      ensures Valid() && Snapshot() == START && fresh(subscriber) && fresh(subscriber.manager)
    {
      var manager := new ConnectionManager();
      subscriber := new SubManager(manager);
      table, postSubscriptions := {}, {};
      opened_, awaiting, restored, accepted, broadcasts := {}, map[], {}, [], [];
    }

    // ---- controllers/notification_websocket.cpp ---------------------------------

    /** An unauthenticated socket is turned away; any other becomes its user's newest. */
    method HandleNewConnection(user: string, socket: int) returns (closed: bool)
      requires Valid() && socket !in opened_
      modifies this`opened_, this`awaiting, subscriber.manager`connections
      ensures Valid() && (closed <==> user == "")
      ensures Snapshot() == if closed then old(Snapshot()) else Move(old(Snapshot()), Open(user, socket))
    {
      ghost var before := Snapshot();
      if user == "" {
        return true;
      }
      subscriber.manager.AddConnection(user, socket);
      opened_, awaiting := opened_ + {socket}, awaiting[socket := user];
      MoveKeeps(before, Open(user, socket));
      closed := false;
    }

    /** The query of subscribe_user_to_existing_subs and its callback. */
    method SubscribeUserToExistingSubs(user: string, socket: int)
      requires Valid() && socket in awaiting && awaiting[socket] == user
      modifies this`awaiting, this`restored, subscriber`filters, subscriber.manager`subscribers
      ensures Valid() && Snapshot() == Move(old(Snapshot()), Restore(socket))
    {
      ghost var before := Snapshot();
      var topics := set row | row in table && row.0 == user :: row.1;
      var rows := Rows(topics);
      EnrolRows(user, rows);
      awaiting, restored := awaiting - {socket}, restored + {socket};
      MoveKeeps(before, Restore(socket));
    }

    method EnrolRows(user: string, rows: seq<string>)
      modifies subscriber`filters, subscriber.manager`subscribers
      ensures subscriber.filters == old(subscriber.filters) + Elements(rows)
      ensures subscriber.manager.subscribers == Enrol(old(subscriber.manager.subscribers), Elements(rows), user)
    {
      ghost var before := subscriber.manager.subscribers;
      assert before == Enrol(before, {}, user) && Elements(rows[..0]) == {};
      hide Enrol;
      for i := 0 to |rows|
        invariant subscriber.filters == old(subscriber.filters) + Elements(rows[..i])
        invariant subscriber.manager.subscribers == Enrol(before, Elements(rows[..i]), user)
      {
        assert Elements(rows[..i + 1]) == Elements(rows[..i]) + {rows[i]};
        EnrolNext(before, Elements(rows[..i]), rows[i], user);
        subscriber.Subscribe(rows[i]);
        subscriber.manager.Subscribe(rows[i], user);
      }
      assert rows[..|rows|] == rows;
    }

    /** Two locks, one after the other; a socket that is not registered any more is no different. */
    method HandleConnectionClosed(user: string, socket: int)
      requires Valid()
      modifies subscriber.manager`connections, subscriber.manager`subscribers
      ensures Valid() && Snapshot() == Move(Move(old(Snapshot()), CloseRemove(user, socket)), CloseForget(user))
    {
      ghost var before := Snapshot();
      MoveKeeps(before, CloseRemove(user, socket));
      subscriber.manager.RemoveConnection(user, socket);
      ghost var between := Snapshot();
      assert between == Move(before, CloseRemove(user, socket));
      MoveKeeps(between, CloseForget(user));
      subscriber.manager.Unsubscribe(user);
    }

    // ---- subscriptions (controllers/community.cc) ----------------------------------

    method SubscribeToEntity(user: string, name: string)
      requires Valid()
      modifies this`table, subscriber`filters, subscriber.manager`subscribers
      ensures Valid() && Snapshot() == Move(old(Snapshot()), Join(user, name))
    {
      MoveKeeps(Snapshot(), Join(user, name));
      EnrolOne(subscriber.manager.subscribers, name, user);
      subscriber.Subscribe(name);
      subscriber.manager.Subscribe(name, user);
      table := table + {(user, name)};
    }

    method UnsubscribeFromEntity(user: string, name: string)
      requires Valid()
      modifies this`table, subscriber.manager`subscribers
      ensures Valid() && Snapshot() == Move(old(Snapshot()), Leave(user, name))
    {
      MoveKeeps(Snapshot(), Leave(user, name));
      subscriber.manager.UnsubscribeUserFromTopic(user, name);
      table := table - {(user, name)};
    }

    /** The id is a foreign key; without such a post nothing is subscribed. */
    method SubscribeToPost(user: nat, id: string, posts: set<int>) returns (outcome: Handlers.Outcome, already: bool)
      requires Valid()
      modifies this`table, this`postSubscriptions, subscriber`filters, subscriber.manager`subscribers
      ensures Valid() && (outcome.Ok? <==> exists p :: p in posts && p >= 0 && StringToInt(id) == Some(p))
      ensures outcome.BadRequest? <==> StringToInt(id).None? || StringToInt(id).value < 0
      ensures !outcome.Ok? && !outcome.BadRequest? ==> outcome.ServerError?
      ensures Snapshot() ==
                if outcome.Ok? then Move(old(Snapshot()), Join(IntToString(user), CreateTopic("post", id)))
                else old(Snapshot())
      ensures postSubscriptions == old(postSubscriptions) + if outcome.Ok? then {(user, StringToInt(id).value)} else {}
      ensures already ==> postSubscriptions == old(postSubscriptions)
    {
      var ref := StringToInt(id);
      if ref.None? || ref.value < 0 {
        return Handlers.BadRequest, false;
      }
      if ref.value !in posts {
        return Handlers.ServerError, false;
      }
      already := (user, ref.value) in postSubscriptions;
      postSubscriptions := postSubscriptions + {(user, ref.value)};
      SubscribeToEntity(IntToString(user), CreateTopic("post", id));
      outcome := Handlers.Ok;
    }

    method UnsubscribeFromPost(user: nat, id: string) returns (outcome: Handlers.Outcome)
      requires Valid()
      modifies this`table, this`postSubscriptions, subscriber.manager`subscribers
      ensures Valid() && (outcome.Ok? <==> StringToInt(id).Some? && StringToInt(id).value >= 0)
      ensures Snapshot() ==
                if outcome.Ok? then Move(old(Snapshot()), Leave(IntToString(user), CreateTopic("post", id)))
                else old(Snapshot())
      ensures postSubscriptions == old(postSubscriptions) - if outcome.Ok? then {(user, StringToInt(id).value)} else {}
    {
      var ref := StringToInt(id);
      if ref.None? || ref.value < 0 {
        return Handlers.BadRequest;
      }
      postSubscriptions := postSubscriptions - {(user, ref.value)};
      UnsubscribeFromEntity(IntToString(user), CreateTopic("post", id));
      outcome := Handlers.Ok;
    }

    /** create_post and create_offer subscribe their author to the topic of the new row. */
    method AutoSubscribe(user: nat, kind: string, id: nat)
      requires Valid()
      modifies this`table, subscriber`filters, subscriber.manager`subscribers
      ensures Valid()
      ensures Snapshot() == Move(old(Snapshot()), Join(IntToString(user), CreateTopic(kind, IntToString(id))))
    {
      SubscribeToEntity(IntToString(user), CreateTopic(kind, IntToString(id)));
    }

    /** create_conversation subscribes both participants. */
    method SubscribeParties(user: nat, other: nat, conversation: nat)
      requires Valid()
      modifies this`table, subscriber`filters, subscriber.manager`subscribers
      ensures var topic := CreateTopic("chat", IntToString(conversation));
              && Valid()
              && Snapshot() ==
                   Move(Move(old(Snapshot()), Join(IntToString(user), topic)), Join(IntToString(other), topic))
    {
      AutoSubscribe(user, "chat", conversation);
      AutoSubscribe(other, "chat", conversation);
    }

    // ---- the bus ----------------------------------------------------------------------

    method PublishNotice(topic: string, message: string)
      requires Valid()
      modifies this`accepted, subscriber`inbox
      ensures Valid() && Snapshot() == Move(old(Snapshot()), Publish(topic, message))
    {
      MoveKeeps(Snapshot(), Publish(topic, message));
      if Passes(subscriber.filters, topic) {
        accepted := accepted + [(topic, message)];
      }
      subscriber.Receive(topic, message);
    }

    /**
     * One round of the receive loop: one copy to each restored socket of each
     * user the table wants it for, and no other.
     */
    method DeliverNext() returns (ghost order: seq<string>)
      requires Valid() && subscriber.inbox != []
      modifies this`broadcasts, subscriber`inbox
      modifies subscriber.manager`subscribers, subscriber.manager`sent, subscriber.manager`stored
      ensures Valid() && Snapshot() == Move(old(Snapshot()), Deliver)
      ensures subscriber.manager.sent
           == old(subscriber.manager.sent) + Copies(subscriber.manager.connections, order, old(subscriber.inbox)[0].1)
      ensures var topic, message := old(subscriber.inbox)[0].0, old(subscriber.inbox)[0].1;
              var copies := Copies(subscriber.manager.connections, order, message);
              && (forall u, s :: s in SocketsOf(subscriber.manager.connections, u) && s in restored ==>
                    multiset(copies)[Copy(s, message)] == if (u, topic) in table then 1 else 0)
              && (forall c :: c in copies ==>
                    exists u :: c.socket in SocketsOf(subscriber.manager.connections, u) && (u, topic) in table)
    {
      ghost var before := Snapshot();
      MoveKeeps(before, Deliver);
      broadcasts := broadcasts + [subscriber.inbox[0]];
      order := subscriber.Round();
      DeliverToAll(before, order);
    }
  }

  lemma DeliverToAll(hub: Hub, order: seq<string>)
    requires Inv(hub) && hub.queue != [] && Distinct(order)
    requires Elements(order) == Audience(hub.subscribers, hub.queue[0].0)
    ensures var topic, message := hub.queue[0].0, hub.queue[0].1;
            var copies := Copies(hub.connections, order, message);
            && (forall u, s :: s in SocketsOf(hub.connections, u) && s in hub.restored ==>
                  multiset(copies)[Copy(s, message)] == if (u, topic) in hub.persisted then 1 else 0)
            && (forall c :: c in copies ==>
                  exists u :: c.socket in SocketsOf(hub.connections, u) && (u, topic) in hub.persisted)
  {
    var topic, message := hub.queue[0].0, hub.queue[0].1;
    var copies := Copies(hub.connections, order, message);
    forall u, s | s in SocketsOf(hub.connections, u) && s in hub.restored
      ensures multiset(copies)[Copy(s, message)] == if (u, topic) in hub.persisted then 1 else 0
    {
      DeliverExactly(hub, order, u, s);
    }
    forall c | c in copies
      ensures exists u :: c.socket in SocketsOf(hub.connections, u) && (u, topic) in hub.persisted
    {
      DeliverNothingElse(hub, order, c);
    }
  }

  lemma EnrolNext(subscribers: Subscribers, topics: set<string>, topic: string, user: string)
    ensures var part := Enrol(subscribers, topics, user);
            part[topic := Audience(part, topic) + {user}] == Enrol(subscribers, topics + {topic}, user)
  {
  }

  lemma EnrolOne(subscribers: Subscribers, topic: string, user: string)
    ensures subscribers[topic := Audience(subscribers, topic) + {user}] == Enrol(subscribers, {topic}, user)
  {
  }
}
