// The handlers as they run: statements and loops that update the tables in
// place, each proved against its effect in Handlers.
module Marketplaces {
  import opened Prelude
  import opened Ids
  import opened Tables
  import opened Handlers
  import opened Invariants
  import opened Closing
  import opened Safety
  import opened Notices
  import opened Unread

  /** The WHERE clause of update_message_metadata. */
  predicate Addressed(message: Message, id: string, isNegotiation: bool) {
    && message.body.Proposal?
    && if isNegotiation then StringToInt(id) == Some(message.body.negotiationId) else message.body.offerRef == id
  }

  /** The table after the UPDATE has come to some of its rows. */
  function Stamped(messages: Messages, done: set<int>, id: string, newStatus: Status, isNegotiation: bool): Messages {
    map m | m in messages ::
      if m in done && Addressed(messages[m], id, isNegotiation)
      then messages[m].(body := messages[m].body.(offerStatus := newStatus))
      else messages[m]
  }

  lemma StampedNone(messages: Messages, rows: seq<int>, id: string, newStatus: Status, isNegotiation: bool)
    ensures Stamped(messages, Elements(rows[..0]), id, newStatus, isNegotiation) == messages
  {
  }

  lemma StampedOneMore(messages: Messages, rows: seq<int>, i: nat, id: string, newStatus: Status, isNegotiation: bool)
    requires i < |rows| && rows[i] in messages && Distinct(rows)
    ensures var part := Stamped(messages, Elements(rows[..i]), id, newStatus, isNegotiation);
            && rows[i] in part && part[rows[i]] == messages[rows[i]]
            && Stamped(messages, Elements(rows[..i + 1]), id, newStatus, isNegotiation) ==
                 if Addressed(part[rows[i]], id, isNegotiation)
                 then part[rows[i] := part[rows[i]].(body := part[rows[i]].body.(offerStatus := newStatus))]
                 else part
  {
    assert rows[i] !in rows[..i];
    assert rows[..i + 1] == rows[..i] + [rows[i]];
    assert Elements(rows[..i + 1]) == Elements(rows[..i]) + {rows[i]};
  }

  lemma StampedAll(messages: Messages, id: string, newStatus: Status, isNegotiation: bool)
    requires isNegotiation ==> StringToInt(id).Some?
    ensures var all := Stamped(messages, messages.Keys, id, newStatus, isNegotiation);
            && all.Keys == messages.Keys
            && (forall m :: m in all ==>
                  if Addressed(messages[m], id, isNegotiation) then
                    && all[m].body.Proposal? && all[m].body.offerStatus == newStatus
                    && SameButStatus(messages[m], all[m])
                  else all[m] == messages[m])
            && (isNegotiation ==> all == StampNegotiations(messages, {StringToInt(id).value}, newStatus))
            && (!isNegotiation ==> all == StampOffers(messages, {id}, newStatus))
  {
    hide StringToInt;
  }

  class Marketplace {
    var users: set<int>
    var posts: Posts
    var offers: Offers
    var negotiations: Negotiations
    var conversations: Conversations
    var messages: Messages
    var next: Sequences
    var published: seq<Publication>

    function Snapshot(): Db
      reads this
    {
      Db(users, posts, offers, negotiations, conversations, messages, next)
    }

    ghost predicate Valid()
      reads this
    {
      Inv(Snapshot())
    }

    constructor ()
      ensures Valid() && Snapshot() == EMPTY && published == []
    {
      users, posts, offers, negotiations, conversations, messages := {}, map[], map[], map[], map[], map[];
      next, published := Sequences(1, 1, 1, 1, 1), [];
    }

    // ---- queries ---------------------------------------------------------

    /** SELECT ... WHERE offer_id = offer AND status = 'pending' ORDER BY created_at DESC LIMIT 1. */
    method SelectLatest(offer: int) returns (chosen: Option<int>)
      ensures LatestPending(negotiations, offer, chosen)
    {
      var pending := set n | n in negotiations && negotiations[n].offerId == offer && negotiations[n].status.Pending?;
      var rows := Rows(pending);
      RowsMatch(rows, pending);
      chosen := None;
      for i := 0 to |rows|
        invariant forall k :: 0 <= k < |rows| ==> rows[k] in pending
        invariant chosen.None? ==> i == 0
        invariant chosen.Some? ==> chosen.value in pending
                                   && forall k :: 0 <= k < i ==>
                                        negotiations[rows[k]].createdAt <= negotiations[chosen.value].createdAt
      {
        if chosen.None? || negotiations[chosen.value].createdAt < negotiations[rows[i]].createdAt {
          chosen := Some(rows[i]);
        }
      }
      forall n | n in negotiations && negotiations[n].offerId == offer && negotiations[n].status.Pending?
        ensures chosen.Some? && negotiations[n].createdAt <= negotiations[chosen.value].createdAt
      {
        assert n in pending;
        var k :| 0 <= k < |rows| && rows[k] == n;
      }
    }

    /** SELECT c.id ... WHERE cp1.user_id = u AND cp2.user_id = v LIMIT 1. */
    method SelectShared(u: int, v: int) returns (found: Option<int>)
      ensures SharedConversation(conversations, u, v, found)
    {
      var rows := Rows(conversations.Keys);
      found := None;
      for i := 0 to |rows|
        invariant found.None?
        invariant forall k :: 0 <= k < i ==> !({u, v} <= conversations[rows[k]].participants)
      {
        assert rows[i] in Elements(rows);
        if {u, v} <= conversations[rows[i]].participants {
          return Some(rows[i]);
        }
      }
      forall c | c in conversations
        ensures !({u, v} <= conversations[c].participants)
      {
        assert c in Elements(rows);
      }
    }

    // ---- update_message_metadata and the loops that call it ----------------

    /**
     * One UPDATE of messages: the status copy of every proposal the id
     * addresses is set, and nothing else changes in any row.
     */
    method UpdateMessageMetadata(id: string, newStatus: Status, isNegotiation: bool)
      requires isNegotiation ==> StringToInt(id).Some?
      modifies this`messages
      ensures messages.Keys == old(messages).Keys
      ensures forall m :: m in messages ==>
                if Addressed(old(messages)[m], id, isNegotiation) then
                  && messages[m].body.Proposal? && messages[m].body.offerStatus == newStatus
                  && SameButStatus(old(messages)[m], messages[m])
                else messages[m] == old(messages)[m]
      ensures isNegotiation ==> messages == StampNegotiations(old(messages), {StringToInt(id).value}, newStatus)
      ensures !isNegotiation ==> messages == StampOffers(old(messages), {id}, newStatus)
    {
      var rows := Rows(messages.Keys);
      RowsMatch(rows, messages.Keys);
      ghost var before := messages;
      StampedNone(before, rows, id, newStatus, isNegotiation);
      hide Elements, Distinct, Stamped;
      for i := 0 to |rows|
        invariant messages == Stamped(before, Elements(rows[..i]), id, newStatus, isNegotiation)
      {
        StampedOneMore(before, rows, i, id, newStatus, isNegotiation);
        var message := messages[rows[i]];
        if Addressed(message, id, isNegotiation) {
          messages := messages[rows[i] := message.(body := message.body.(offerStatus := newStatus))];
        }
      }
      assert rows[..|rows|] == rows;
      StampedAll(before, id, newStatus, isNegotiation);
    }

    method StampNegotiationRows(rows: seq<int>, newStatus: Status)
      requires forall i :: 0 <= i < |rows| ==> rows[i] >= 0
      modifies this`messages
      ensures messages == StampNegotiations(old(messages), Elements(rows), newStatus)
    {
      ghost var before := messages;
      for i := 0 to |rows|
        invariant messages == StampNegotiations(before, Elements(rows[..i]), newStatus)
      {
        RoundTrip(rows[i]);
        StampNegotiationsTwice(before, Elements(rows[..i]), {rows[i]}, newStatus);
        assert Elements(rows[..i + 1]) == Elements(rows[..i]) + {rows[i]};
        UpdateMessageMetadata(IntToString(rows[i]), newStatus, true);
      }
      assert rows[..|rows|] == rows;
    }

    method StampOfferRows(rows: seq<int>, newStatus: Status)
      requires forall i :: 0 <= i < |rows| ==> rows[i] >= 0
      modifies this`messages
      ensures messages == StampOffers(old(messages), Printed(Elements(rows)), newStatus)
    {
      ghost var before := messages;
      for i := 0 to |rows|
        invariant messages == StampOffers(before, Printed(Elements(rows[..i])), newStatus)
      {
        StampOffersTwice(before, Printed(Elements(rows[..i])), {IntToString(rows[i])}, newStatus);
        assert Elements(rows[..i + 1]) == Elements(rows[..i]) + {rows[i]};
        assert Printed(Elements(rows[..i + 1])) == Printed(Elements(rows[..i])) + {IntToString(rows[i])};
        UpdateMessageMetadata(IntToString(rows[i]), newStatus, false);
      }
      assert rows[..|rows|] == rows;
    }

    method PublishRejections(rows: seq<int>)
      requires forall i :: 0 <= i < |rows| ==> rows[i] >= 0
      modifies this`published
      ensures published == old(published) + Rejections(rows)
    {
      ghost var before := published;
      for i := 0 to |rows|
        invariant published == before + Rejections(rows[..i])
      {
        published := published + [OfferNotice(IntToString(rows[i]), OfferRejected)];
        assert rows[..i + 1][..i] == rows[..i];
      }
      assert rows[..|rows|] == rows;
    }

    // ---- the statements both accepting handlers share -----------------------

    ghost predicate Keyed()
      reads this`offers, this`negotiations
    {
      (forall o :: o in offers ==> o >= 0) && (forall n :: n in negotiations ==> n >= 0)
    }

    method SettleNegotiations(offer: int, chosen: int)
      requires Keyed() && chosen in negotiations
      modifies this`negotiations, this`messages
      ensures Keyed() && Snapshot() == Settle(old(Snapshot()), offer, chosen)
    {
      negotiations := Decide(negotiations, {chosen}, Accepted);
      RoundTrip(chosen);
      UpdateMessageMetadata(IntToString(chosen), Accepted, true);
      var others := Rows(Rivals(negotiations, offer, chosen));
      RowsMatch(others, Rivals(negotiations, offer, chosen));
      negotiations := Decide(negotiations, Elements(others), Rejected);
      StampNegotiationRows(others, Rejected);
    }

    method RejectLosers(post: int, offer: int, complete: bool) returns (rejected: seq<int>)
      requires Keyed()
      modifies this`offers, this`messages
      ensures Keyed() && Distinct(rejected) && Elements(rejected) == Losers(old(offers), post, offer)
      ensures offers == RejectOffers(old(offers), Losers(old(offers), post, offer), complete)
      ensures messages == StampOffers(old(messages), Printed(Losers(old(offers), post, offer)), Rejected)
      ensures forall i :: 0 <= i < |rejected| ==> rejected[i] >= 0
    {
      ghost var losers := Losers(offers, post, offer);
      rejected := Rows(Losers(offers, post, offer));
      RowsMatch(rejected, losers);
      offers := RejectOffers(offers, Elements(rejected), complete);
      StampOfferRows(rejected, Rejected);
    }

    method RejectFallout(post: int, offer: int)
      requires Keyed()
      modifies this`negotiations, this`messages
      ensures negotiations == Decide(old(negotiations), Fallout(old(negotiations), offers, post, offer), Rejected)
      ensures messages == StampNegotiations(old(messages), Fallout(old(negotiations), offers, post, offer), Rejected)
    {
      ghost var fallen := Fallout(negotiations, offers, post, offer);
      var fallout := Rows(Fallout(negotiations, offers, post, offer));
      RowsMatch(fallout, fallen);
      negotiations := Decide(negotiations, Elements(fallout), Rejected);
      StampNegotiationRows(fallout, Rejected);
    }

    method RejectOthers(post: int, offer: int, complete: bool) returns (rejected: seq<int>)
      requires Keyed()
      modifies this`offers, this`negotiations, this`messages, this`posts
      ensures Snapshot() == ClosePost(old(Snapshot()), post, offer, complete)
      ensures Distinct(rejected) && Elements(rejected) == Losers(old(offers), post, offer)
      ensures forall i :: 0 <= i < |rejected| ==> rejected[i] >= 0
    {
      rejected := RejectLosers(post, offer, complete);
      RejectFallout(post, offer);
      posts := Fulfil(posts, post);
    }

    method Announce(id: string, rejected: seq<int>)
      requires forall i :: 0 <= i < |rejected| ==> rejected[i] >= 0
      modifies this`published
      ensures published == old(published) + [OfferNotice(id, OfferAccepted)] + Rejections(rejected)
    {
      published := published + [OfferNotice(id, OfferAccepted)];
      PublishRejections(rejected);
    }

    // ---- users, posts --------------------------------------------------------

    method AddUser(user: int)
      requires Valid()
      modifies this`users
      ensures Valid() && users == old(users) + {user}
    {
      RegisterKeeps(Snapshot(), user);
      users := users + {user};
    }

    method CreatePost(user: int, content: string, isRequest: bool, tags: seq<string>, location: string, mediaOk: bool)
      returns (outcome: Outcome)
      requires Valid() && user in users
      modifies this
      ensures Valid() && (Snapshot(), outcome) ==
                Handlers.CreatePost(old(Snapshot()), user, content, isRequest, mediaOk)
      ensures published == if outcome.Ok? then old(published) + PostNotices(IntToString(old(next.post)), tags, location)
                           else old(published)
    {
      CreatePostKeeps(Snapshot(), user, content, isRequest, mediaOk);
      if content == "" {
        return BadRequest;
      }
      var before, post := posts, next.post;
      posts := posts[post := Post(user, content, if isRequest then Open else Blank)];
      next := next.(post := post + 1);
      if !mediaOk {
        posts := before;
        return BadRequest;
      }
      PublishPost(IntToString(post), tags, location);
      outcome := Ok;
    }

    method PublishPost(id: string, tags: seq<string>, location: string)
      modifies this`published
      ensures published == old(published) + PostNotices(id, tags, location)
    {
      for i := 0 to |tags|
        invariant published == old(published) + seq(i, k requires 0 <= k < i => Publication(tags[k], PostCreated, id))
      {
        published := published + [Publication(tags[i], PostCreated, id)];
      }
      if location != "" {
        published := published + [Publication(location, PostCreated, id)];
      }
    }

    // ---- controllers/offers.cc ---------------------------------------------

    method AcceptTransaction(id: string, offer: int, post: int, chosen: Option<int>) returns (rejected: seq<int>)
      requires Keyed() && offer in offers && (chosen.Some? ==> chosen.value in negotiations)
      modifies this
      ensures Snapshot() == AcceptWrite(old(Snapshot()), offer, post, chosen)
      ensures Distinct(rejected) && Elements(rejected) == Losers(old(offers), post, offer)
      ensures published == old(published) + [OfferNotice(id, OfferAccepted)] + Rejections(rejected)
    {
      OnlyPendingLose(offers, offer, post, None);
      offers := MarkAccepted(offers, offer, None);
      if chosen.Some? {
        SettleNegotiations(offer, chosen.value);
        rejected := RejectOthers(post, offer, true);
      } else {
        rejected := RejectOthers(post, offer, false);
      }
      Announce(id, rejected);
    }

    method AcceptOffer(user: int, id: string) returns (outcome: Outcome, chosen: Option<int>, rejected: seq<int>)
      requires Valid()
      modifies this
      ensures Valid() && ChosenFor(old(Snapshot()), id, chosen)
      ensures (Snapshot(), outcome) == Handlers.AcceptOffer(old(Snapshot()), user, id, chosen)
      ensures !outcome.Ok? ==> published == old(published)
      ensures outcome.Ok? ==> published == old(published) + [OfferNotice(id, OfferAccepted)] + Rejections(rejected)
      ensures outcome.Ok? ==> Distinct(rejected) && Elements(rejected) == NewlyRejected(old(offers), offers)
    {
      var ref := StringToInt(id);
      if ref.None? {
        return ServerError, None, [];
      }
      var offer := ref.value;
      chosen := SelectLatest(offer);
      AcceptKeeps(Snapshot(), user, id, chosen);
      if offer !in offers || offers[offer].postId !in posts {
        return NotFound, chosen, [];
      }
      var post := offers[offer].postId;
      if posts[post].owner != user {
        return Forbidden, chosen, [];
      }
      if offers[offer].status != Pending {
        return BadRequest, chosen, [];
      }
      AcceptCloses(Snapshot(), offer, post, chosen);
      LosersAreNew(Snapshot(), AcceptWrite(Snapshot(), offer, post, chosen), offer, post, chosen);
      rejected := AcceptTransaction(id, offer, post, chosen);
      outcome := Ok;
    }

    method CounterTransaction(id: string, offer: int, post: int, chosen: int) returns (rejected: seq<int>)
      requires Keyed() && offer in offers && chosen in negotiations
      modifies this
      ensures Snapshot() == CounterWrite(old(Snapshot()), id, offer, post, chosen)
      ensures Distinct(rejected) && Elements(rejected) == Losers(old(offers), post, offer)
      ensures published == old(published) + [OfferNotice(id, OfferAccepted)] + Rejections(rejected)
    {
      OnlyPendingLose(offers, offer, post, Some(negotiations[chosen].proposedPrice));
      offers := MarkAccepted(offers, offer, Some(negotiations[chosen].proposedPrice));
      UpdateMessageMetadata(id, Accepted, false);
      SettleNegotiations(offer, chosen);
      rejected := RejectOthers(post, offer, true);
      Announce(id, rejected);
    }

    method AcceptCounterOffer(user: int, id: string) returns (outcome: Outcome, chosen: Option<int>, rejected: seq<int>)
      requires Valid()
      modifies this
      ensures Valid() && ChosenFor(old(Snapshot()), id, chosen)
      ensures (Snapshot(), outcome) == AcceptCounter(old(Snapshot()), user, id, chosen)
      ensures !outcome.Ok? ==> published == old(published)
      ensures outcome.Ok? ==> published == old(published) + [OfferNotice(id, OfferAccepted)] + Rejections(rejected)
      ensures outcome.Ok? ==> Distinct(rejected) && Elements(rejected) == NewlyRejected(old(offers), offers)
    {
      var ref := StringToInt(id);
      if ref.None? {
        return ServerError, None, [];
      }
      var offer := ref.value;
      chosen := SelectLatest(offer);
      CounterKeeps(Snapshot(), user, id, chosen);
      if offer !in offers || offers[offer].postId !in posts {
        return NotFound, chosen, [];
      }
      var post := offers[offer].postId;
      if offers[offer].maker != user {
        return Forbidden, chosen, [];
      }
      if offers[offer].status != Pending {
        return BadRequest, chosen, [];
      }
      if chosen.None? {
        return BadRequest, chosen, [];
      }
      CounterCloses(Snapshot(), id, offer, post, chosen.value);
      LosersAreNew(Snapshot(), CounterWrite(Snapshot(), id, offer, post, chosen.value), offer, post, chosen);
      rejected := CounterTransaction(id, offer, post, chosen.value);
      outcome := Ok;
    }

    method RejectOffer(user: int, id: string) returns (outcome: Outcome)
      requires Valid()
      modifies this
      ensures Valid() && (Snapshot(), outcome) == Handlers.RejectOffer(old(Snapshot()), user, id)
      ensures published == if outcome.Ok? then old(published) + [OfferNotice(id, OfferRejected)] else old(published)
    {
      RejectKeeps(Snapshot(), user, id);
      var ref := StringToInt(id);
      if ref.None? {
        return ServerError;
      }
      var offer := ref.value;
      if offer !in offers || offers[offer].postId !in posts {
        return NotFound;
      }
      if posts[offers[offer].postId].owner != user {
        return Forbidden;
      }
      if offers[offer].status != Pending {
        return BadRequest;
      }
      offers := RejectOffers(offers, {offer}, true);
      published := published + [OfferNotice(id, OfferRejected)];
      outcome := Ok;
    }

    method CreateOffer(user: int, postRef: string, title: string, description: string, price: int, isPublic: bool,
                       mediaOk: bool)
      returns (outcome: Outcome)
      requires Valid() && user in users
      modifies this
      ensures Valid() && published == if outcome.Ok?
                then old(published)
                     + [Publication(CreateTopic("post", postRef), OfferCreated, IntToString(old(next.offer)))]
                else old(published)
      ensures (Snapshot(), outcome) ==
                Handlers.CreateOffer(old(Snapshot()), user, postRef, title, description, price, isPublic, mediaOk)
    {
      CreateOfferKeeps(Snapshot(), user, postRef, title, description, price, isPublic, mediaOk);
      var ref := StringToInt(postRef);
      if ref.None? || ref.value < 0 || title == "" || description == "" || price <= 0 {
        return BadRequest;
      }
      var post := ref.value;
      if post !in posts {
        return NotFound;
      }
      if posts[post].owner == user {
        return BadRequest;
      }
      var before := offers;
      offers := offers[next.offer := Offer(post, user, title, description, price, price, isPublic, Pending, Untouched)];
      next := next.(offer := next.offer + 1);
      if !mediaOk {
        offers := before;
        return BadRequest;
      }
      published := published + [Publication(CreateTopic("post", postRef), OfferCreated, IntToString(next.offer - 1))];
      outcome := Ok;
    }

    method UpdateOffer(user: int, id: string, changes: Changes, mediaOk: bool) returns (outcome: Outcome)
      requires Valid()
      modifies this
      ensures Valid()
      ensures published == if outcome.Ok? then old(published) + [OfferNotice(id, OfferUpdated)] else old(published)
      ensures (Snapshot(), outcome) == Handlers.UpdateOffer(old(Snapshot()), user, id, changes, mediaOk)
    {
      UpdateOfferKeeps(Snapshot(), user, id, changes, mediaOk);
      var ref := StringToInt(id);
      if ref.None? || ref.value < 0 {
        return BadRequest;
      }
      var offer := ref.value;
      if offer !in offers {
        return NotFound;
      }
      if offers[offer].maker != user {
        return Forbidden;
      }
      if offers[offer].status != Pending {
        return BadRequest;
      }
      offers := offers[offer := Amend(offers[offer], changes)];
      if !mediaOk {
        return BadRequest;
      }
      published := published + [OfferNotice(id, OfferUpdated)];
      outcome := Ok;
    }

    // ---- controllers/offers_negotiation.cc -----------------------------------

    method CreateOrGetConversation(user1: int, user2: int, id: string)
      returns (c: Option<int>, ghost found: Option<int>)
      modifies this`conversations, this`next
      ensures SharedConversation(old(conversations), user1, user2, found)
      ensures found.Some? ==> c == found && Snapshot() == old(Snapshot())
      ensures found.None? ==> Snapshot() == InsertConversation(old(Snapshot()), NegotiationName(id), user1, user2)
      ensures found.None? ==> c == if CanPair(users, user1, user2) then Some(old(next.conversation)) else None
    {
      c := SelectShared(user1, user2);
      found := c;
      if c.None? {
        var created := next.conversation;
        conversations := conversations[created := Conversation(NegotiationName(id), {})];
        next := next.(conversation := created + 1);
        if CanPair(users, user1, user2) {
          conversations := conversations[created := conversations[created].(participants := {user1, user2})];
          c := Some(created);
        }
      }
    }

    method NegotiateTransaction(user: int, id: string, offer: int, other: int, price: int, note: string, now: int)
      returns (outcome: Outcome, ghost found: Option<int>)
      requires offer in offers
      modifies this`offers, this`negotiations, this`conversations, this`messages, this`next
      ensures SharedConversation(old(conversations), user, other, found)
      ensures (Snapshot(), outcome) == NegotiateWrite(old(Snapshot()), user, id, offer, other, price, note, now, found)
    {
      var oldOffers, oldNegotiations, oldConversations := offers, negotiations, conversations;
      offers := offers[offer := offers[offer].(haggling := InProgress)];
      var negotiation := next.negotiation;
      negotiations := negotiations[negotiation := Negotiation(offer, user, price, note, Pending, now)];
      next := next.(negotiation := negotiation + 1);
      var c;
      c, found := CreateOrGetConversation(user, other, id);
      if c.None? {
        offers, negotiations, conversations := oldOffers, oldNegotiations, oldConversations;
        return ServerError, found;
      }
      messages := messages[next.message := Message(c.value, user, Proposal(negotiation, id, Pending), false)];
      next := next.(message := next.message + 1);
      outcome := Ok;
    }

    method NegotiateOffer(user: int, id: string, price: int, note: string, now: int)
      returns (outcome: Outcome, ghost found: Option<int>)
      requires Valid() && user in users
      modifies this
      ensures Valid() && FoundForOffer(old(Snapshot()), id, found)
      // The notice of a new negotiation carries the kind of an acceptance.
      ensures published == if outcome.Ok? then old(published) + [OfferNotice(id, OfferAccepted)] else old(published)
      ensures (Snapshot(), outcome) == Negotiate(old(Snapshot()), user, id, price, note, now, found)
    {
      ghost var before := Snapshot();
      found := SomeForOffer(before, id);
      if price < 0 {
        return BadRequest, found;
      }
      var ref := StringToInt(id);
      if ref.None? {
        return ServerError, found;
      }
      var offer := ref.value;
      if offer !in offers || offers[offer].postId !in posts {
        return NotFound, found;
      }
      var maker, owner := offers[offer].maker, posts[offers[offer].postId].owner;
      if user != maker && user != owner {
        return Forbidden, found;
      }
      var other := if user == maker then owner else maker;
      outcome, found := NegotiateTransaction(user, id, offer, other, price, note, now);
      SharedSymmetric(before, user, other, maker, owner, found);
      NegotiateKeeps(before, user, id, price, note, now, found);
      if outcome.Ok? {
        published := published + [OfferNotice(id, OfferAccepted)];
      }
    }

    // ---- controllers/chats.cc ------------------------------------------------

    method OpenConversation(name: string, user: int, other: int) returns (c: int, ok: bool)
      modifies this`conversations, this`next
      ensures Snapshot() == InsertConversation(old(Snapshot()), name, user, other)
      ensures c == old(next.conversation) && ok == CanPair(users, user, other)
    {
      c := next.conversation;
      conversations := conversations[c := Conversation(name, {})];
      next := next.(conversation := c + 1);
      ok := CanPair(users, user, other);
      if ok {
        conversations := conversations[c := conversations[c].(participants := {user, other})];
      }
    }

    method CreateConversation(user: int, other: int, name: string) returns (outcome: Outcome, found: Option<int>)
      requires Valid()
      modifies this
      ensures Valid() && SharedConversation(old(conversations), user, other, found)
      ensures (Snapshot(), outcome) == Handlers.CreateConversation(old(Snapshot()), user, other, name, found)
      ensures published == if outcome.Ok? && found.None?
                then old(published)
                     + [Publication(CreateTopic("chat", IntToString(old(next.conversation))), ChatCreated,
                                    IntToString(old(next.conversation)))]
                else old(published)
    {
      found := SelectShared(user, other);
      if name == "" || other < 0 {
        return BadRequest, found;
      }
      if found.Some? {
        return Ok, found;
      }
      InsertConversationKeeps(Snapshot(), name, user, other);
      var c, ok := OpenConversation(name, user, other);
      if !ok {
        return ServerError, found;
      }
      published := published + [Publication(CreateTopic("chat", IntToString(c)), ChatCreated, IntToString(c))];
      outcome := Ok;
    }

    method GetConversationByOffer(user: int, id: string)
      returns (outcome: Outcome, c: Option<int>, ghost found: Option<int>)
      requires Valid()
      modifies this
      ensures Valid() && published == old(published) && FoundForOffer(old(Snapshot()), id, found)
      ensures (Snapshot(), outcome) == ConversationByOffer(old(Snapshot()), user, id, found)
      ensures outcome.Ok? ==> c.Some? && c.value in conversations
                              && var o := StringToInt(id).value;
                                 conversations[c.value].participants == {offers[o].maker, posts[offers[o].postId].owner}
    {
      ghost var before := Snapshot();
      found := SomeForOffer(before, id);
      var ref := StringToInt(id);
      if ref.None? || ref.value < 0 {
        return BadRequest, None, found;
      }
      var offer := ref.value;
      if offer !in offers || offers[offer].postId !in posts {
        return NotFound, None, found;
      }
      var maker, owner := offers[offer].maker, posts[offers[offer].postId].owner;
      if user != maker && user != owner {
        return Forbidden, None, found;
      }
      var other := if user == maker then owner else maker;
      c := SelectShared(user, other);
      found := c;
      SharedSymmetric(before, user, other, maker, owner, found);
      ConversationByOfferKeeps(before, user, id, found);
      if c.None? {
        var created, ok := OpenConversation(ByOfferName(id), user, other);
        c := Some(created);
      } else {
        SharedIsExact(before, user, other, c.value);
      }
      outcome := Ok;
    }

    method SendMessage(user: int, conversationRef: string, content: Option<string>, attached: bool, mediaOk: bool)
      returns (outcome: Outcome)
      requires Valid()
      modifies this
      ensures Valid()
      ensures (Snapshot(), outcome) ==
                Handlers.SendMessage(old(Snapshot()), user, conversationRef, content, attached, mediaOk)
      ensures published == if outcome.Ok?
                then old(published) + [Publication(CreateTopic("chat", conversationRef), MessageSent, conversationRef)]
                else old(published)
    {
      SendMessageKeeps(Snapshot(), user, conversationRef, content, attached, mediaOk);
      var ref := StringToInt(conversationRef);
      if ref.None? || ref.value < 0 || (!attached && (content.None? || content.value == "")) {
        return BadRequest;
      }
      if ref.value !in conversations || user !in conversations[ref.value].participants {
        return Forbidden;
      }
      var before := messages;
      messages := messages[next.message := Message(ref.value, user, Text(Or(content, "")), false)];
      next := next.(message := next.message + 1);
      if attached && !mediaOk {
        messages := before;
        return BadRequest;
      }
      published := published + [Publication(CreateTopic("chat", conversationRef), MessageSent, conversationRef)];
      outcome := Ok;
    }

    method MarkMessagesAsRead(user: int, conversationRef: string) returns (outcome: Outcome, marked: nat)
      requires Valid()
      modifies this
      ensures Valid() && published == old(published)
      ensures (Snapshot(), outcome) == MarkRead(old(Snapshot()), user, conversationRef)
      ensures outcome.Ok? ==>
                && StringToInt(conversationRef).Some?
                && ReadIn(old(messages), messages, StringToInt(conversationRef).value, user)
                && marked == |Changed(old(messages), messages)|
                && |UnreadFor(Snapshot(), user)| == |UnreadFor(old(Snapshot()), user)| - marked
    {
      MarkReadKeeps(Snapshot(), user, conversationRef);
      marked := 0;
      var ref := StringToInt(conversationRef);
      if ref.None? || ref.value < 0 {
        return BadRequest, 0;
      }
      if ref.value !in conversations || user !in conversations[ref.value].participants {
        return Forbidden, 0;
      }
      MarkReadExactly(Snapshot(), user, conversationRef, user);
      var rows := Rows(UnreadIn(messages, ref.value, user));
      DistinctCount(rows);
      assert Changed(messages, SetRead(messages, Elements(rows))) == Elements(rows);
      messages := SetRead(messages, Elements(rows));
      return Ok, |rows|;
    }

    method GetUnreadCount(user: int) returns (count: nat)
      ensures count == |UnreadFor(Snapshot(), user)|
    {
      var rows := Rows(messages.Keys);
      RowsMatch(rows, messages.Keys);
      count := 0;
      ghost var counted: seq<int> := [];
      for i := 0 to |rows|
        invariant count == |counted| && Distinct(counted)
        invariant forall m :: m in counted <==> m in rows[..i] && m in UnreadFor(Snapshot(), user)
      {
        var row := messages[rows[i]];
        assert rows[..i + 1] == rows[..i] + [rows[i]];
        assert rows[i] !in rows[..i];
        if row.conversationId in conversations && user in conversations[row.conversationId].participants
           && row.sender != user && !row.isRead {
          count := count + 1;
          counted := counted + [rows[i]];
        }
      }
      assert rows[..|rows|] == rows;
      forall m
        ensures m in Elements(counted) <==> m in UnreadFor(Snapshot(), user)
      {
        assert m in UnreadFor(Snapshot(), user) ==> m in messages.Keys;
      }
      assert Elements(counted) == UnreadFor(Snapshot(), user);
      DistinctCount(counted);
    }
  }

  lemma SomeForOffer(db: Db, id: string) returns (found: Option<int>)
    ensures FoundForOffer(db, id, found)
  {
    found := None;
    var ref := StringToInt(id);
    if ref.Some? && ref.value in db.offers && db.offers[ref.value].postId in db.posts {
      found := SomeShared(db, db.offers[ref.value].maker, db.posts[db.offers[ref.value].postId].owner);
    }
  }

  /** The query has an answer. */
  lemma SomeShared(db: Db, u: int, v: int) returns (found: Option<int>)
    ensures SharedConversation(db.conversations, u, v, found)
  {
    if c :| c in db.conversations && {u, v} <= db.conversations[c].participants {
      found := Some(c);
    } else {
      found := None;
    }
  }

  lemma SharedSymmetric(db: Db, u: int, v: int, maker: int, owner: int, found: Option<int>)
    requires (u == maker && v == owner) || (u == owner && v == maker)
    requires SharedConversation(db.conversations, u, v, found)
    ensures SharedConversation(db.conversations, maker, owner, found)
  {
  }

  /** The offers a request turned from pending to rejected. */
  function NewlyRejected(offers: Offers, offers': Offers): set<int> {
    set o | o in offers && o in offers' && offers[o].status.Pending? && offers'[o].status.Rejected?
  }

  lemma OnlyPendingLose(offers: Offers, offer: int, post: int, price: Option<int>)
    requires offer in offers
    ensures Losers(MarkAccepted(offers, offer, price), post, offer) == Losers(offers, post, offer)
  {
  }

  lemma LosersAreNew(db: Db, db': Db, offer: int, post: int, chosen: Option<int>)
    requires Closed(db, db', offer, post, chosen) && offer in db.offers
    ensures NewlyRejected(db.offers, db'.offers) == Losers(db.offers, post, offer)
  {
    forall o
      ensures o in NewlyRejected(db.offers, db'.offers) <==> o in Losers(db.offers, post, offer)
    {
    }
  }
}
