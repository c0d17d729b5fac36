// Every request keeps the marketplace invariant, one lemma for each way the
// tables change, and every run of requests keeps it from empty tables on.
module Safety {
  import opened Prelude
  import opened Ids
  import opened Tables
  import opened Handlers
  import opened Invariants
  import opened Closing
  import opened Copies

  // ---- closing an offer ----------------------------------------------------

  lemma ClosedTidy(db: Db, db': Db, offer: int, post: int, chosen: Option<int>)
    requires Tidy(db) && Closed(db, db', offer, post, chosen)
    ensures Tidy(db')
  {
  }

  /** The part of the deal invariant that needs no guard: it survives late commits too. */
  ghost predicate OpenDeals(posts: Posts, offers: Offers, negotiations: Negotiations) {
    && PendingThroughout(offers, negotiations)
    && PendingNewer(offers)
    && AcceptedFulfils(posts, offers)
  }

  lemma ClosedOpenDeals(db: Db, db': Db, offer: int, post: int, chosen: Option<int>)
    requires Ready(db, offer, post, chosen) && Closed(db, db', offer, post, chosen)
    requires OpenDeals(db.posts, db.offers, db.negotiations)
    ensures OpenDeals(db'.posts, db'.offers, db'.negotiations)
  {
  }

  ghost predicate HasAccepted(negotiations: Negotiations, offer: int) {
    exists n :: n in negotiations && negotiations[n].offerId == offer && negotiations[n].status.Accepted?
  }

  ghost predicate OtherAccepted(offers: Offers, offer: int, post: int) {
    exists o :: o in offers && o != offer && offers[o].postId == post && offers[o].status.Accepted?
  }

  lemma ClosedOnce(db: Db, db': Db, offer: int, post: int, chosen: Option<int>)
    requires Ready(db, offer, post, chosen) && Closed(db, db', offer, post, chosen) && AcceptedOnce(db.negotiations)
    ensures AcceptedOnce(db'.negotiations) <==> !(chosen.Some? && HasAccepted(db.negotiations, offer))
  {
    if chosen.Some? && HasAccepted(db.negotiations, offer) {
      var n :| n in db.negotiations && db.negotiations[n].offerId == offer && db.negotiations[n].status.Accepted?;
      assert n != chosen.value && db'.negotiations[n].status.Accepted?
             && db'.negotiations[chosen.value].status.Accepted?;
    }
  }

  lemma ClosedBelow(db: Db, db': Db, offer: int, post: int, chosen: Option<int>)
    requires Ready(db, offer, post, chosen) && Closed(db, db', offer, post, chosen)
    requires AcceptedBelow(db.offers, db.negotiations)
    ensures AcceptedBelow(db'.offers, db'.negotiations)
  {
  }

  lemma RejectBelow(db: Db, offer: int)
    requires offer in db.offers && AcceptedBelow(db.offers, db.negotiations)
    ensures AcceptedBelow(RejectWrite(db, offer).offers, db.negotiations) <==> !HasAccepted(db.negotiations, offer)
  {
    var offers' := RejectWrite(db, offer).offers;
    assert offers'[offer].status.Rejected?;
  }

  lemma ClosedFulfilled(db: Db, db': Db, offer: int, post: int, chosen: Option<int>)
    requires Ready(db, offer, post, chosen) && Closed(db, db', offer, post, chosen)
    requires FulfilledByAccepted(db.posts, db.offers)
    ensures FulfilledByAccepted(db'.posts, db'.offers)
  {
    forall p | p in db'.posts && db'.posts[p].requestStatus.Fulfilled?
      ensures exists o :: o in db'.offers && db'.offers[o].postId == p && db'.offers[o].status.Accepted?
    {
      if p == post {
        assert db'.offers[offer].status.Accepted?;
      } else {
        var o :| o in db.offers && db.offers[o].postId == p && db.offers[o].status.Accepted?;
        assert db'.offers[o].status.Accepted?;
      }
    }
  }

  lemma RejectFulfilled(db: Db, offer: int)
    requires FulfilledByAccepted(db.posts, db.offers) && offer in db.offers
    requires db.offers[offer].status.Accepted? ==> OtherAccepted(db.offers, offer, db.offers[offer].postId)
    ensures FulfilledByAccepted(db.posts, RejectWrite(db, offer).offers)
  {
    var offers', post := RejectWrite(db, offer).offers, db.offers[offer].postId;
    forall p | p in db.posts && db.posts[p].requestStatus.Fulfilled?
      ensures exists o :: o in offers' && offers'[o].postId == p && offers'[o].status.Accepted?
    {
      var o :| o in db.offers && db.offers[o].postId == p && db.offers[o].status.Accepted?;
      if o == offer {
        o :| o in db.offers && o != offer && db.offers[o].postId == post && db.offers[o].status.Accepted?;
      }
      assert offers'[o] == db.offers[o];
    }
  }

  /** A pending offer has no accepted negotiation. */
  lemma NoneAccepted(db: Db, offer: int)
    requires PendingThroughout(db.offers, db.negotiations) && offer in db.offers && db.offers[offer].status.Pending?
    ensures !HasAccepted(db.negotiations, offer)
  {
  }

  lemma ClosedDeals(db: Db, db': Db, offer: int, post: int, chosen: Option<int>)
    requires Ready(db, offer, post, chosen) && Closed(db, db', offer, post, chosen)
    requires Deals(db) && db.offers[offer].status.Pending?
    ensures Deals(db')
  {
    NoneAccepted(db, offer);
    hide Ready, Closed, PendingThroughout, AcceptedOnce, AcceptedBelow;
    hide FulfilledByAccepted, PendingNewer, AcceptedFulfils;
    ClosedOpenDeals(db, db', offer, post, chosen);
    ClosedOnce(db, db', offer, post, chosen);
    ClosedBelow(db, db', offer, post, chosen);
    ClosedFulfilled(db, db', offer, post, chosen);
  }

  lemma RejectDeals(db: Db, offer: int)
    requires Tidy(db) && Deals(db) && offer in db.offers && db.offers[offer].status.Pending?
    ensures Deals(RejectWrite(db, offer)) && Tidy(RejectWrite(db, offer))
  {
    NoneAccepted(db, offer);
    RejectBelow(db, offer);
    RejectFulfilled(db, offer);
    hide AcceptedBelow, FulfilledByAccepted, AcceptedOnce, HasAccepted;
  }

  lemma StampedRooms(db: Db, db': Db)
    requires Tidy(db) && Rooms(db)
    requires OnlyStamped(db.messages, db'.messages)
    requires db'.users == db.users && db'.conversations == db.conversations && db'.next == db.next
    requires SameParties(db, db')
    ensures Rooms(db')
  {
    assert forall m :: m in db.messages ==> SameButStatus(db.messages[m], db'.messages[m]);
  }

  /** Nobody's role in an existing deal changes. */
  ghost predicate SameParties(db: Db, db': Db) {
    && (forall p :: p in db.posts ==> p in db'.posts && db'.posts[p].owner == db.posts[p].owner)
    && (forall o :: o in db.offers ==>
          && o in db'.offers
          && db'.offers[o].postId == db.offers[o].postId && db'.offers[o].maker == db.offers[o].maker)
    && (forall n :: n in db.negotiations ==>
          n in db'.negotiations && db'.negotiations[n].offerId == db.negotiations[n].offerId)
  }

  lemma AcceptKeeps(db: Db, user: int, id: string, chosen: Option<int>)
    requires Inv(db) && ChosenFor(db, id, chosen)
    ensures Inv(AcceptOffer(db, user, id, chosen).0)
  {
    if CloseGuard(db, user, id, false).Ok? {
      var offer := StringToInt(id).value;
      var post := db.offers[offer].postId;
      var db' := AcceptWrite(db, offer, post, chosen);
      AcceptCloses(db, offer, post, chosen);
      AcceptCopies(db, offer, post, chosen);
      ClosedKeeps(db, db', offer, post, chosen);
    }
  }

  lemma CounterKeeps(db: Db, user: int, id: string, chosen: Option<int>)
    requires Inv(db) && ChosenFor(db, id, chosen)
    ensures Inv(AcceptCounter(db, user, id, chosen).0)
  {
    if CloseGuard(db, user, id, true).Ok? && chosen.Some? {
      var offer := StringToInt(id).value;
      var post := db.offers[offer].postId;
      var db' := CounterWrite(db, id, offer, post, chosen.value);
      CounterCloses(db, id, offer, post, chosen.value);
      CounterCopies(db, id, offer, post, chosen.value);
      ClosedKeeps(db, db', offer, post, chosen);
    }
  }

  lemma ClosedKeeps(db: Db, db': Db, offer: int, post: int, chosen: Option<int>)
    requires Inv(db) && Ready(db, offer, post, chosen) && Closed(db, db', offer, post, chosen)
    requires db.offers[offer].status.Pending? && CopiesAgree(db'.messages, db'.negotiations)
    ensures Inv(db')
  {
    ClosedTidy(db, db', offer, post, chosen);
    ClosedDeals(db, db', offer, post, chosen);
    StampedRooms(db, db');
  }

  lemma RejectKeeps(db: Db, user: int, id: string)
    requires Inv(db)
    ensures Inv(RejectOffer(db, user, id).0)
  {
    if CloseGuard(db, user, id, false).Ok? {
      var db' := RejectWrite(db, StringToInt(id).value);
      RejectDeals(db, StringToInt(id).value);
      StampedRooms(db, db');
      hide StringToInt, Tidy, Deals, Rooms;
    }
  }

  // ---- posts and offers ------------------------------------------------------

  /** A failed request may burn sequence values; nothing else remains of it. */
  lemma RollbackKeeps(db: Db, during: Db)
    requires Inv(db)
    requires during.next.post >= db.next.post && during.next.offer >= db.next.offer
    requires during.next.negotiation >= db.next.negotiation
    requires during.next.conversation >= db.next.conversation && during.next.message >= db.next.message
    ensures Inv(RolledBack(db, during))
  {
  }

  lemma RegisterKeeps(db: Db, user: int)
    requires Inv(db)
    ensures Inv(db.(users := db.users + {user}))
  {
  }

  lemma CreatePostKeeps(db: Db, user: int, content: string, isRequest: bool, mediaOk: bool)
    requires Inv(db) && user in db.users
    ensures Inv(CreatePost(db, user, content, isRequest, mediaOk).0)
  {
  }

  lemma CreateOfferKeeps(db: Db, user: int, postRef: string, title: string, description: string, price: int,
                         isPublic: bool, mediaOk: bool)
    requires Inv(db) && user in db.users
    ensures Inv(CreateOffer(db, user, postRef, title, description, price, isPublic, mediaOk).0)
  {
    if CreateOfferGuard(db, user, postRef, title, description, price).Ok? {
      var db' := InsertOffer(db, StringToInt(postRef).value, user, title, description, price, isPublic);
      RollbackKeeps(db, db');
      FulfilmentKept(db, db');
      UntouchedRooms(db, db');
      assert Inv(db');
    }
  }

  /** Accepted offers stay, so do the posts they fulfil. */
  lemma FulfilmentKept(db: Db, db': Db)
    requires FulfilledByAccepted(db.posts, db.offers) && db'.posts == db.posts
    requires forall o :: o in db.offers ==>
               && o in db'.offers && db'.offers[o].postId == db.offers[o].postId
               && db'.offers[o].status == db.offers[o].status
    ensures FulfilledByAccepted(db'.posts, db'.offers)
  {
  }

  lemma UntouchedRooms(db: Db, db': Db)
    requires Tidy(db) && Rooms(db)
    requires db'.users == db.users && db'.conversations == db.conversations && db'.messages == db.messages
    requires db'.next.conversation == db.next.conversation && db'.next.message == db.next.message
    requires SameParties(db, db')
    ensures Rooms(db')
  {
  }

  lemma UpdateOfferKeeps(db: Db, user: int, id: string, changes: Changes, mediaOk: bool)
    requires Inv(db)
    ensures Inv(UpdateOffer(db, user, id, changes, mediaOk).0)
  {
    if UpdateOfferGuard(db, user, id).Ok? {
      var offer := StringToInt(id).value;
      var db' := db.(offers := db.offers[offer := Amend(db.offers[offer], changes)]);
      FulfilmentKept(db, db');
      UntouchedRooms(db, db');
      assert Deals(db');
    }
  }

  // ---- negotiations and chats ------------------------------------------------

  ghost predicate ConversationsStay(db: Db, db': Db) {
    forall c :: c in db.conversations ==> c in db'.conversations && db'.conversations[c] == db.conversations[c]
  }

  lemma InsertConversationRooms(db: Db, name: string, u: int, v: int)
    requires Rooms(db)
    ensures Rooms(InsertConversation(db, name, u, v)) && ConversationsStay(db, InsertConversation(db, name, u, v))
  {
  }

  lemma InsertMessageRooms(db: Db, c: int, sender: int, body: Body)
    requires Rooms(db) && c in db.conversations && sender in db.conversations[c].participants
    requires body.Proposal? ==>
               AtHome(db.posts, db.offers, db.negotiations, db.conversations, Message(c, sender, body, false))
    ensures Rooms(InsertMessage(db, c, sender, body))
  {
  }

  lemma InsertNegotiationDeals(db: Db, offer: int, user: int, price: int, note: string, now: int)
    requires Tidy(db) && Deals(db) && offer in db.offers
    ensures Deals(InsertNegotiation(db, offer, user, price, note, now))
  {
    var db' := InsertNegotiation(db, offer, user, price, note, now);
    FulfilmentKept(db, db');
    hide FulfilledByAccepted, ProposalKeys, PostKeys;
  }

  lemma InsertNegotiationKeeps(db: Db, offer: int, user: int, price: int, note: string, now: int)
    requires Inv(db) && offer in db.offers
    ensures Inv(InsertNegotiation(db, offer, user, price, note, now))
  {
    var db' := InsertNegotiation(db, offer, user, price, note, now);
    InsertNegotiationDeals(db, offer, user, price, note, now);
    UntouchedRooms(db, db');
    hide Deals, Rooms;
  }

  lemma InsertConversationKeeps(db: Db, name: string, u: int, v: int)
    requires Inv(db) && SharedConversation(db.conversations, u, v, None)
    ensures Inv(InsertConversation(db, name, u, v))
  {
  }

  lemma InsertMessageKeeps(db: Db, c: int, sender: int, body: Body)
    requires Inv(db) && c in db.conversations && sender in db.conversations[c].participants
    requires body.Proposal? ==>
               && AtHome(db.posts, db.offers, db.negotiations, db.conversations, Message(c, sender, body, false))
               && body.offerStatus == db.negotiations[body.negotiationId].status
               && StringToInt(body.offerRef) == Some(db.negotiations[body.negotiationId].offerId)
    ensures Inv(InsertMessage(db, c, sender, body))
  {
  }

  /** A conversation shared by two different users is theirs alone. */
  lemma SharedIsExact(db: Db, u: int, v: int, c: int)
    requires Pairs(db.users, db.conversations, db.next.conversation)
    requires u != v && SharedConversation(db.conversations, u, v, Some(c))
    ensures db.conversations[c].participants == {u, v}
  {
    var all := db.conversations[c].participants;
    assert u in all;
    var rest := all - {u, v};
    assert all == rest + {u, v} && |all| == |rest| + 2;
  }

  lemma NegotiateKeeps(db: Db, user: int, id: string, price: int, note: string, now: int, found: Option<int>)
    requires Inv(db) && user in db.users && FoundForOffer(db, id, found)
    ensures Inv(Negotiate(db, user, id, price, note, now, found).0)
  {
    if price >= 0 && PartyGuard(db, user, id, ServerError).Ok? {
      var offer := StringToInt(id).value;
      var other := Counterparty(db, offer, user);
      var maker, owner := db.offers[offer].maker, db.posts[db.offers[offer].postId].owner;
      InsertNegotiationKeeps(db, offer, user, price, note, now);
      var proposed := InsertNegotiation(db, offer, user, price, note, now);
      var body := Proposal(db.next.negotiation, id, Pending);
      match found {
        case Some(c) =>
          SharedIsExact(db, maker, owner, c);
          InsertMessageKeeps(proposed, c, user, body);
        case None =>
          assert SharedConversation(proposed.conversations, user, other, None);
          InsertConversationKeeps(proposed, NegotiationName(id), user, other);
          var started := InsertConversation(proposed, NegotiationName(id), user, other);
          InsertMessageKeeps(started, db.next.conversation, user, body);
      }
    }
  }

  lemma NoteWriteKeeps(db: Db, user: int, other: int, name: string, note: Body, found: Option<int>)
    requires Inv(db) && note.Note? && SharedConversation(db.conversations, user, other, found)
    ensures Inv(NoteWrite(db, user, other, name, note, found).0)
  {
    match found
    case Some(c) => InsertMessageKeeps(db, c, user, note);
    case None =>
      InsertConversationKeeps(db, name, user, other);
      hide Inv;
      if CanPair(db.users, user, other) {
        InsertMessageKeeps(InsertConversation(db, name, user, other), db.next.conversation, user, note);
      }
  }

  lemma PostNoteKeeps(db: Db, user: int, id: string, kind: NoteKind, contextId: int, rowFound: bool, found: Option<int>)
    requires Inv(db) && user in db.users && FoundForOffer(db, id, found)
    ensures Inv(PostNote(db, user, id, kind, contextId, rowFound, found).0)
  {
    if NoteGuard(db, user, id, kind, rowFound).Ok? {
      hide Inv, StringToInt, NoteWrite;
      var offer := StringToInt(id).value;
      var other := Counterparty(db, offer, user);
      NoteWriteKeeps(db, user, other, NegotiationName(id), NoteBody(kind, offer, contextId), found);
    }
  }

  lemma ConversationByOfferKeeps(db: Db, user: int, id: string, found: Option<int>)
    requires Inv(db) && FoundForOffer(db, id, found)
    ensures Inv(ConversationByOffer(db, user, id, found).0)
  {
    if found.None? && PartyGuard(db, user, id, BadRequest).Ok? {
      var other := Counterparty(db, StringToInt(id).value, user);
      assert SharedConversation(db.conversations, user, other, None);
      InsertConversationKeeps(db, ByOfferName(id), user, other);
    }
  }

  lemma SendMessageKeeps(db: Db, user: int, ref: string, content: Option<string>, attached: bool, mediaOk: bool)
    requires Inv(db)
    ensures Inv(SendMessage(db, user, ref, content, attached, mediaOk).0)
  {
    if MemberGuard(db, user, ref).Ok? {
      var body := Text(Or(content, ""));
      InsertMessageKeeps(db, StringToInt(ref).value, user, body);
      RollbackKeeps(db, InsertMessage(db, StringToInt(ref).value, user, body));
    }
  }

  lemma MarkReadKeeps(db: Db, user: int, ref: string)
    requires Inv(db)
    ensures Inv(MarkRead(db, user, ref).0)
  {
    var db' := MarkRead(db, user, ref).0;
    assert Chats(db');
  }

  // ---- every run --------------------------------------------------------------

  lemma NextKeeps(db: Db, ev: Event)
    requires Inv(db) && Enabled(db, ev)
    ensures Inv(Next(db, ev))
  {
    match ev
    case Register(user) => RegisterKeeps(db, user);
    case EvCreatePost(user, content, isRequest, mediaOk) => CreatePostKeeps(db, user, content, isRequest, mediaOk);
    case EvCreateOffer(user, ref, title, description, price, isPublic, mediaOk) =>
      CreateOfferKeeps(db, user, ref, title, description, price, isPublic, mediaOk);
    case EvUpdateOffer(user, ref, changes, mediaOk) => UpdateOfferKeeps(db, user, ref, changes, mediaOk);
    case EvAccept(user, ref, chosen) => AcceptKeeps(db, user, ref, chosen);
    case EvAcceptCounter(user, ref, chosen) => CounterKeeps(db, user, ref, chosen);
    case EvReject(user, ref) => RejectKeeps(db, user, ref);
    case EvNegotiate(user, ref, price, note, now, found) => NegotiateKeeps(db, user, ref, price, note, now, found);
    case EvPostNote(user, ref, kind, contextId, rowFound, found) =>
      PostNoteKeeps(db, user, ref, kind, contextId, rowFound, found);
    case EvCreateConversation(user, other, name, found) =>
      if found.None? { InsertConversationKeeps(db, name, user, other); }
    case EvConversationByOffer(user, ref, found) => ConversationByOfferKeeps(db, user, ref, found);
    case EvSendMessage(user, ref, content, attached, mediaOk) =>
      SendMessageKeeps(db, user, ref, content, attached, mediaOk);
    case EvMarkRead(user, ref) => MarkReadKeeps(db, user, ref);
  }

  lemma {:induction false} RunKeeps(db: Db, evs: seq<Event>)
    requires Inv(db) && Run(db, evs)
    ensures Inv(After(db, evs))
    decreases |evs|
  {
    if evs != [] {
      NextKeeps(db, evs[0]);
      RunKeeps(Next(db, evs[0]), evs[1..]);
    }
  }

  /** Every state reached from empty tables satisfies the invariant. */
  lemma Reachable(evs: seq<Event>)
    requires Run(EMPTY, evs)
    ensures Inv(After(EMPTY, evs))
  {
    RunKeeps(EMPTY, evs);
  }
}
