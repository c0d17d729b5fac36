// services/subber/sub_manager.hpp: the prefix filters and the receive loop.
module Bus {
  import opened Prelude
  import opened Connections
  import opened FanOut

  /** What a series of broadcasts sends when each visits its users in the given order. */
  function AllCopies(connections: Sockets, notices: seq<Notice>, orders: seq<seq<string>>): seq<Copy>
    requires |notices| == |orders|
  {
    if notices == [] then []
    else AllCopies(connections, notices[..|notices| - 1], orders[..|orders| - 1])
         + Copies(connections, orders[|orders| - 1], notices[|notices| - 1].1)
  }

  lemma OneMoreNotice(connections: Sockets, notices: seq<Notice>, orders: seq<seq<string>>, notice: Notice,
                      order: seq<string>)
    requires |notices| == |orders|
    ensures AllCopies(connections, notices + [notice], orders + [order])
         == AllCopies(connections, notices, orders) + Copies(connections, order, notice.1)
  {
  }

  /** Each notice went once to each of its audience, in the order of the notices; nothing else was sent. */
  ghost predicate Broadcasted(connections: Sockets, subscribers: Subscribers, notices: seq<Notice>,
                              orders: seq<seq<string>>, before: seq<Copy>, sent: seq<Copy>)
  {
    && |orders| == |notices|
    && (forall i :: 0 <= i < |notices| ==>
          Distinct(orders[i]) && Elements(orders[i]) == Audience(subscribers, notices[i].0))
    && sent == before + AllCopies(connections, notices, orders)
  }

  lemma NothingBroadcast(connections: Sockets, subscribers: Subscribers, sent: seq<Copy>)
    ensures Broadcasted(connections, subscribers, [], [], sent, sent)
  {
  }

  lemma OneMoreBroadcast(connections: Sockets, subscribers: Subscribers, notices: seq<Notice>, orders: seq<seq<string>>,
                         before: seq<Copy>, sent: seq<Copy>, notice: Notice, order: seq<string>)
    requires Broadcasted(connections, subscribers, notices, orders, before, sent)
    requires Distinct(order) && Elements(order) == Audience(subscribers, notice.0)
    ensures Broadcasted(connections, subscribers, notices + [notice], orders + [order], before,
                        sent + Copies(connections, order, notice.1))
  {
    hide Distinct, Elements, Copies, AllCopies;
    OneMoreNotice(connections, notices, orders, notice, order);
    Assoc(before, AllCopies(connections, notices, orders), Copies(connections, order, notice.1));
  }

  /** The lookup of a broadcast may create an entry but changes no audience. */
  lemma AudienceStays(subscribers: Subscribers, topic: string)
    ensures forall t :: Audience(subscribers[topic := Audience(subscribers, topic)], t) == Audience(subscribers, t)
  {
  }

  class SubManager {
    const manager: ConnectionManager
    var filters: set<string>
    var inbox: seq<Notice>

    constructor (manager: ConnectionManager)
      ensures this.manager == manager && filters == {} && inbox == []
    {
      this.manager := manager;
      filters, inbox := {}, [];
    }

    method Subscribe(topic: string)
      modifies this`filters
      ensures filters == old(filters) + {topic}
    {
      filters := filters + {topic};
    }

    /** A publish arrives in the inbox when some filter is a prefix of its topic. */
    method Receive(topic: string, message: string)
      modifies this`inbox
      ensures inbox ==
                if exists f :: f in filters && f <= topic then old(inbox) + [(topic, message)] else old(inbox)
    {
      var all := Rows(filters);
      RowsMatch(all, filters);
      for i := 0 to |all|
        invariant inbox == old(inbox)
        invariant forall k :: 0 <= k < i ==> !(all[k] <= topic)
      {
        if all[i] <= topic {
          inbox := inbox + [(topic, message)];
          assert all[i] in filters && all[i] <= topic;
          return;
        }
      }
      assert forall f :: f in filters ==> f in all;
    }

    /** One round of the receive loop: take the oldest notice and broadcast it. */
    method Round() returns (order: seq<string>)
      requires inbox != []
      modifies this`inbox, manager`subscribers, manager`sent, manager`stored
      ensures inbox == old(inbox)[1..]
      ensures manager.subscribers ==
                old(manager.subscribers)[old(inbox)[0].0 := Audience(old(manager.subscribers), old(inbox)[0].0)]
      ensures Distinct(order) && Elements(order) == Audience(old(manager.subscribers), old(inbox)[0].0)
      ensures manager.sent == old(manager.sent) + Copies(manager.connections, order, old(inbox)[0].1)
      ensures manager.stored == old(manager.stored) + Kept(manager.connections, order, old(inbox)[0].1)
    {
      var topic, message := inbox[0].0, inbox[0].1;
      inbox := inbox[1..];
      order := manager.Broadcast(topic, message);
    }

    /**
     * The receive loop for a number of rounds, stopped after that; a round that
     * finds no notice does nothing.
     */
    method Run(rounds: nat) returns (taken: nat, ghost orders: seq<seq<string>>)
      modifies this`inbox, manager`subscribers, manager`sent, manager`stored
      ensures taken == if rounds < |old(inbox)| then rounds else |old(inbox)|
      ensures inbox == old(inbox)[taken..]
      ensures forall t :: Audience(manager.subscribers, t) == Audience(old(manager.subscribers), t)
      ensures Broadcasted(manager.connections, old(manager.subscribers), old(inbox)[..taken], orders,
                          old(manager.sent), manager.sent)
    {
      taken, orders := 0, [];
      ghost var start, before := inbox, manager.sent;
      hide Broadcasted, Elements, Distinct, Copies, Kept, Audience;
      NothingBroadcast(manager.connections, manager.subscribers, before);
      assert start[..0] == [];
      for round := 0 to rounds
        invariant taken == (if round < |start| then round else |start|) && inbox == start[taken..]
        invariant forall t :: Audience(manager.subscribers, t) == Audience(old(manager.subscribers), t)
        invariant Broadcasted(manager.connections, old(manager.subscribers), start[..taken], orders, before,
                              manager.sent)
      {
        if inbox == [] {
          continue;
        }
        ghost var sent := manager.sent;
        AudienceStays(manager.subscribers, start[taken].0);
        var order := Round();
        OneMoreBroadcast(manager.connections, old(manager.subscribers), start[..taken], orders, before, sent,
                         start[taken], order);
        assert start[..taken + 1] == start[..taken] + [start[taken]];
        orders := orders + [order];
        taken := taken + 1;
      }
    }
  }
}
