// What single requests leave behind: refused ones nothing, with two exceptions;
// offers, proposals and messages exactly the rows they stand for.
module Effects {
  import opened Prelude
  import opened Ids
  import opened Tables
  import opened Handlers
  import opened Invariants
  import opened Closing
  import opened Safety

  /** All tables the same; sequences may have advanced. */
  predicate SameTables(db: Db, db': Db) {
    db' == db.(next := db'.next)
  }

  /**
   * The refusals that are not undone: an update whose media fail, because its
   * row is written outside the transaction, and a conversation whose
   * participants cannot be inserted, because there is no transaction.
   */
  predicate Leaves(db: Db, ev: Event) {
    match ev
    case EvUpdateOffer(user, ref, changes, mediaOk) =>
      && !mediaOk && UpdateOfferGuard(db, user, ref).Ok?
      && var offer := db.offers[StringToInt(ref).value];
         Amend(offer, changes) != offer
    case EvCreateConversation(user, other, name, found) =>
      name != "" && other >= 0 && found.None? && !CanPair(db.users, user, other)
    case _ => false
  }

  /** The two parties of an offer can always be put into a conversation. */
  lemma PartiesPair(db: Db, user: int, id: string)
    requires Inv(db) && PartyGuard(db, user, id, ServerError).Ok?
    ensures CanPair(db.users, user, Counterparty(db, StringToInt(id).value, user))
  {
  }

  /** A refused request leaves the tables alone exactly when it is none of those. */
  lemma RefusedExactly(db: Db, ev: Event)
    requires Inv(db) && Enabled(db, ev) && !Handle(db, ev).1.Ok?
    ensures SameTables(db, Next(db, ev)) <==> !Leaves(db, ev)
  {
    match ev
    case EvUpdateOffer(user, ref, changes, mediaOk) =>
      if UpdateOfferGuard(db, user, ref).Ok? {
        var o := StringToInt(ref).value;
        assert Next(db, ev).offers[o] == Amend(db.offers[o], changes);
        if Amend(db.offers[o], changes) == db.offers[o] {
          assert Next(db, ev).offers == db.offers;
        }
      }
    case EvCreateConversation(user, other, name, found) =>
      if Leaves(db, ev) {
        assert db.next.conversation in Next(db, ev).conversations && db.next.conversation !in db.conversations;
      }
    case EvNegotiate(user, ref, price, note, now, found) =>
      if PartyGuard(db, user, ref, ServerError).Ok? {
        PartiesPair(db, user, ref);
      }
    case EvConversationByOffer(user, ref, found) =>
      if PartyGuard(db, user, ref, ServerError).Ok? {
        PartiesPair(db, user, ref);
      }
    case EvPostNote(user, ref, kind, contextId, rowFound, found) =>
      if PartyGuard(db, user, ref, ServerError).Ok? {
        PartiesPair(db, user, ref);
      }
    case _ =>
  }

  // ---- posts and offers --------------------------------------------------------

  /** The text of a request names this offer. */
  predicate Names(db: Db, id: string, offer: int) {
    offer in db.offers && StringToInt(id) == Some(offer)
  }

  /** The text of a request is a number that no offer has. */
  predicate NamesNone(db: Db, id: string) {
    StringToInt(id).Some? && StringToInt(id).value !in db.offers
  }

  /** What a post becomes, and when. */
  lemma CreatePostExactly(db: Db, user: int, content: string, isRequest: bool, mediaOk: bool)
    requires Inv(db)
    ensures var (db', outcome) := CreatePost(db, user, content, isRequest, mediaOk);
            && (outcome.Ok? <==> content != "" && mediaOk) && (!outcome.Ok? ==> outcome.BadRequest?)
            && (outcome.Ok? ==>
                  var p := db.next.post;
                  && p !in db.posts && db'.posts.Keys == db.posts.Keys + {p}
                  && (forall k :: k in db.posts ==> db'.posts[k] == db.posts[k])
                  && db'.posts[p].owner == user && db'.posts[p].content == content
                  && (db'.posts[p].requestStatus.Open? <==> isRequest)
                  && (db'.posts[p].requestStatus.Blank? <==> !isRequest)
                  && db' == db.(posts := db'.posts, next := db.next.(post := p + 1)))
  {
  }

  /** Who can make which offer, and what row it becomes: as worded, pending, at one price, on another user's post. */
  lemma CreateOfferExactly(db: Db, user: int, ref: string, title: string, description: string, price: int,
                           isPublic: bool, mediaOk: bool)
    requires Inv(db)
    ensures var (db', outcome) := CreateOffer(db, user, ref, title, description, price, isPublic, mediaOk);
            && (outcome.Ok? <==>
                  && mediaOk && title != "" && description != "" && price > 0
                  && exists p :: p in db.posts && StringToInt(ref) == Some(p) && db.posts[p].owner != user)
            && (outcome.NotFound? <==>
                  && title != "" && description != "" && price > 0
                  && StringToInt(ref).Some? && StringToInt(ref).value >= 0 && StringToInt(ref).value !in db.posts)
            && (!outcome.Ok? && !outcome.NotFound? ==> outcome.BadRequest?)
            && (outcome.Ok? ==> Offered(db, db', user, ref, title, description, price, isPublic))
  {
    if StringToInt(ref).Some? && StringToInt(ref).value in db.posts {
      assert StringToInt(ref).value >= 0;
    }
  }

  ghost predicate Offered(db: Db, db': Db, user: int, ref: string, title: string, description: string, price: int,
                          isPublic: bool) {
    && var o := db.next.offer;
       && o !in db.offers && db'.offers.Keys == db.offers.Keys + {o}
       && (forall k :: k in db.offers ==> db'.offers[k] == db.offers[k])
       && StringToInt(ref) == Some(db'.offers[o].postId) && db'.offers[o].maker == user
       && db'.offers[o].title == title && db'.offers[o].description == description
       && db'.offers[o].isPublic == isPublic
       && db'.offers[o].price == price && db'.offers[o].originalPrice == price
       && db'.offers[o].status.Pending? && db'.offers[o].haggling.Untouched?
       && db' == db.(offers := db'.offers, next := db.next.(offer := o + 1))
  }

  /**
   * Who can update which offer: its maker, while it is pending. Every wish of the
   * request takes the place of the old value, and nothing else changes. The row
   * is written even when the request then fails for its media.
   */
  lemma UpdateExactly(db: Db, user: int, id: string, changes: Changes, mediaOk: bool)
    requires Inv(db)
    ensures var (db', outcome) := UpdateOffer(db, user, id, changes, mediaOk);
            var allowed := exists o :: Names(db, id, o) && db.offers[o].maker == user && db.offers[o].status.Pending?;
            && (outcome.Ok? <==> allowed && mediaOk)
            && (outcome.Forbidden? <==> exists o :: Names(db, id, o) && db.offers[o].maker != user)
            && (outcome.NotFound? <==> NamesNone(db, id) && StringToInt(id).value >= 0)
            && !outcome.ServerError?
            && if allowed then Updated(db, db', StringToInt(id).value, changes) else db' == db
  {
    hide StringToInt;
    if StringToInt(id).Some? && StringToInt(id).value in db.offers {
      assert Names(db, id, StringToInt(id).value) && StringToInt(id).value >= 0;
    }
  }

  ghost predicate Updated(db: Db, db': Db, o: int, changes: Changes) {
    && o in db.offers && db'.offers.Keys == db.offers.Keys
    && (forall k :: k in db.offers && k != o ==> db'.offers[k] == db.offers[k])
    && db'.offers[o].title == (if changes.title.Some? then changes.title.value else db.offers[o].title)
    && db'.offers[o].description ==
         (if changes.description.Some? then changes.description.value else db.offers[o].description)
    && db'.offers[o].price == (if changes.price.Some? then changes.price.value else db.offers[o].price)
    && db'.offers[o].isPublic == (if changes.isPublic.Some? then changes.isPublic.value else db.offers[o].isPublic)
    && db'.offers[o].(title := db.offers[o].title, description := db.offers[o].description,
                      price := db.offers[o].price, isPublic := db.offers[o].isPublic) == db.offers[o]
    && db' == db.(offers := db'.offers)
  }

  // ---- accept, accept-counter, reject --------------------------------------------

  /** How a request to close an offer is refused, when the allowed user is not the caller. */
  ghost predicate Refusals(db: Db, id: string, outcome: Outcome, foreign: bool) {
    && (outcome.ServerError? <==> StringToInt(id).None?)
    && (outcome.NotFound? <==> NamesNone(db, id))
    && (outcome.Forbidden? <==> foreign)
  }

  lemma CloseGuardExactly(db: Db, user: int, id: string, byMaker: bool)
    requires Inv(db)
    ensures var outcome := CloseGuard(db, user, id, byMaker);
            && (outcome.Ok? <==> exists o :: Names(db, id, o) && db.offers[o].status.Pending?
                                             && MayClose(db, user, o, byMaker))
            && Refusals(db, id, outcome, exists o :: Names(db, id, o) && !MayClose(db, user, o, byMaker))
  {
    if StringToInt(id).Some? && StringToInt(id).value in db.offers {
      assert Names(db, id, StringToInt(id).value);
    }
  }

  ghost predicate MayClose(db: Db, user: int, o: int, byMaker: bool)
    requires o in db.offers
  {
    if byMaker then db.offers[o].maker == user
    else db.offers[o].postId in db.posts && db.posts[db.offers[o].postId].owner == user
  }

  /** Who can accept which offer, and what comes of it. */
  lemma AcceptExactly(db: Db, user: int, id: string, chosen: Option<int>)
    requires Inv(db) && ChosenFor(db, id, chosen)
    ensures var (db', outcome) := AcceptOffer(db, user, id, chosen);
            && (outcome.Ok? <==>
                  exists o :: o in db.offers && StringToInt(id) == Some(o) && db.offers[o].status.Pending?
                              && db.posts[db.offers[o].postId].owner == user)
            && Refusals(db, id, outcome,
                        exists o :: Names(db, id, o) && db.posts[db.offers[o].postId].owner != user)
            && (outcome.Ok? ==>
                  var o := StringToInt(id).value;
                  && Closed(db, db', o, db.offers[o].postId, chosen) && db'.offers[o].price == db.offers[o].price)
  {
    hide AcceptWrite, Closed;
    CloseGuardExactly(db, user, id, false);
    if CloseGuard(db, user, id, false).Ok? {
      var o := StringToInt(id).value;
      assert Names(db, id, o);
      AcceptCloses(db, o, db.offers[o].postId, chosen);
    }
  }

  /** Who can accept a counter-offer: the offer's maker, while some negotiation is pending. */
  lemma AcceptCounterExactly(db: Db, user: int, id: string, chosen: Option<int>)
    requires Inv(db) && ChosenFor(db, id, chosen)
    ensures var (db', outcome) := AcceptCounter(db, user, id, chosen);
            && (outcome.Ok? <==>
                  exists o, n :: o in db.offers && StringToInt(id) == Some(o) && db.offers[o].status.Pending?
                                 && db.offers[o].maker == user
                                 && n in db.negotiations && db.negotiations[n].offerId == o)
            && Refusals(db, id, outcome, exists o :: Names(db, id, o) && db.offers[o].maker != user)
            && (outcome.Ok? ==>
                  var o := StringToInt(id).value;
                  && chosen.Some? && Closed(db, db', o, db.offers[o].postId, chosen)
                  && db'.offers[o].price == db.negotiations[chosen.value].proposedPrice)
  {
    hide CounterWrite, Closed;
    CloseGuardExactly(db, user, id, true);
    if CloseGuard(db, user, id, true).Ok? && chosen.Some? {
      var o := StringToInt(id).value;
      assert Names(db, id, o);
      CounterCloses(db, id, o, db.offers[o].postId, chosen.value);
    }
  }

  /** Who can reject which offer; its negotiations and its post stay as they are. */
  lemma RejectExactly(db: Db, user: int, id: string)
    requires Inv(db)
    ensures var (db', outcome) := RejectOffer(db, user, id);
            && (outcome.Ok? <==>
                  exists o :: o in db.offers && StringToInt(id) == Some(o) && db.offers[o].status.Pending?
                              && db.posts[db.offers[o].postId].owner == user)
            && Refusals(db, id, outcome,
                        exists o :: Names(db, id, o) && db.posts[db.offers[o].postId].owner != user)
            && (outcome.Ok? ==> RejectedAlone(db, db', StringToInt(id).value))
  {
    CloseGuardExactly(db, user, id, false);
    if StringToInt(id).Some? && StringToInt(id).value in db.offers {
      assert Names(db, id, StringToInt(id).value);
    }
  }

  ghost predicate RejectedAlone(db: Db, db': Db, offer: int) {
    && offer in db.offers && db'.offers.Keys == db.offers.Keys
    && db'.offers[offer] == db.offers[offer].(status := Rejected, haggling := Completed)
    && (forall k :: k in db.offers && k != offer ==> db'.offers[k] == db.offers[k])
    && db' == db.(offers := db'.offers)
  }

  /**
   * Who can propose which price, and what it becomes: one pending negotiation,
   * and one message of the proposer in the parties' conversation with the same
   * negotiation, offer text and status.
   */
  lemma NegotiateExactly(db: Db, user: int, id: string, price: int, note: string, now: int, found: Option<int>)
    requires Inv(db) && user in db.users && FoundForOffer(db, id, found)
    ensures var (db', outcome) := Negotiate(db, user, id, price, note, now, found);
            && (outcome.Ok? <==>
                  price >= 0 && exists o :: o in db.offers && StringToInt(id) == Some(o)
                                            && (user == db.offers[o].maker
                                                || user == db.posts[db.offers[o].postId].owner))
            && (outcome.Ok? ==> Proposed(db, db', user, id, StringToInt(id).value, price, note, now, found))
  {
    if price >= 0 && PartyGuard(db, user, id, ServerError).Ok? {
      PartiesPair(db, user, id);
      var o := StringToInt(id).value;
      var maker, owner := db.offers[o].maker, db.posts[db.offers[o].postId].owner;
      if found.Some? {
        SharedIsExact(db, maker, owner, found.value);
      }
      var db' := Negotiate(db, user, id, price, note, now, found).0;
      assert db'.messages[db.next.message].body == Proposal(db.next.negotiation, id, Pending);
    }
  }

  ghost predicate Proposed(db: Db, db': Db, user: int, id: string, offer: int, price: int, note: string, now: int,
                           found: Option<int>) {
    && var n, m := db.next.negotiation, db.next.message;
       && offer in db.offers && db.offers[offer].postId in db.posts
       && n !in db.negotiations && db'.negotiations.Keys == db.negotiations.Keys + {n}
       && (forall k :: k in db.negotiations ==> db'.negotiations[k] == db.negotiations[k])
       && db'.negotiations[n].offerId == offer && db'.negotiations[n].proposer == user
       && db'.negotiations[n].proposedPrice == price && db'.negotiations[n].status.Pending?
       && db'.negotiations[n].note == note && db'.negotiations[n].createdAt == now
       && m !in db.messages && db'.messages.Keys == db.messages.Keys + {m}
       && (forall k :: k in db.messages ==> db'.messages[k] == db.messages[k])
       && db'.messages[m].sender == user && !db'.messages[m].isRead
       && db'.messages[m].body == Proposal(n, id, Pending)
       && db'.messages[m].conversationId in db'.conversations
       && db'.conversations[db'.messages[m].conversationId].participants
            == {db.offers[offer].maker, db.posts[db.offers[offer].postId].owner}
       && (if found.Some? then db'.messages[m].conversationId == found.value && db'.conversations == db.conversations
           else OpenedFor(db, db', db'.messages[m].conversationId, "Offer #" + id + " Negotiation"))
       && db'.users == db.users && db'.posts == db.posts
       && db'.offers == db.offers[offer := db.offers[offer].(haggling := InProgress)]
  }

  /**
   * Proposing and then accepting the counter-offer: the newest proposal is the
   * one that is taken, whatever was proposed before, and its price with it.
   */
  lemma NewestIsTaken(db: Db, user: int, id: string, price: int, note: string, now: int, found: Option<int>,
                      chosen: Option<int>)
    requires Inv(db) && user in db.users && FoundForOffer(db, id, found)
    requires Negotiate(db, user, id, price, note, now, found).1.Ok? && Names(db, id, StringToInt(id).value)
    requires forall n :: n in db.negotiations && db.negotiations[n].offerId == StringToInt(id).value
                         ==> db.negotiations[n].createdAt < now
    requires ChosenFor(Negotiate(db, user, id, price, note, now, found).0, id, chosen)
    requires db.offers[StringToInt(id).value].status.Pending?
    ensures var db' := Negotiate(db, user, id, price, note, now, found).0;
            var o, n := StringToInt(id).value, db.next.negotiation;
            && chosen == Some(n)
            && var (end, outcome) := AcceptCounter(db', db.offers[o].maker, id, chosen);
               && outcome.Ok? && o in end.offers && end.offers[o].status.Accepted? && end.offers[o].price == price
               && n in end.negotiations && end.negotiations[n].status.Accepted?
  {
    NegotiateExactly(db, user, id, price, note, now, found);
    NegotiateKeeps(db, user, id, price, note, now, found);
    var db' := Negotiate(db, user, id, price, note, now, found).0;
    var o, n := StringToInt(id).value, db.next.negotiation;
    hide Negotiate, AcceptCounter, Inv, StringToInt, FoundForOffer;
    assert db'.negotiations[n].offerId == o && db'.negotiations[n].status.Pending?;
    assert chosen == Some(n);
    assert db'.offers[o].status.Pending? && db'.offers[o].maker == db.offers[o].maker;
    AcceptCounterExactly(db', db.offers[o].maker, id, chosen);
  }

  /** One more conversation, of this name. */
  ghost predicate OpenedFor(db: Db, db': Db, c: int, name: string) {
    && c !in db.conversations && db'.conversations.Keys == db.conversations.Keys + {c}
    && (forall k :: k in db.conversations ==> db'.conversations[k] == db.conversations[k])
    && db'.conversations[c].name == name
  }

  /**
   * The lookup of a shared conversation and the insertion are separate
   * statements. Insertion keeps one conversation for each pair exactly when
   * there is still none when it happens.
   */
  lemma LateInsertExactly(db: Db, name: string, u: int, v: int)
    requires Rooms(db) && PairsOnce(db.conversations)
    ensures PairsOnce(InsertConversation(db, name, u, v).conversations) <==>
            !(CanPair(db.users, u, v) && exists c :: c in db.conversations && Share(db.conversations[c], u, v))
  {
    var db' := InsertConversation(db, name, u, v);
    var d := db.next.conversation;
    if CanPair(db.users, u, v) {
      assert Share(db'.conversations[d], u, v);
      if c :| c in db.conversations && Share(db.conversations[c], u, v) {
        assert Share(db'.conversations[c], u, v) && c != d;
      } else {
        forall a, b, c | c in db.conversations && a != b && Share(db'.conversations[d], a, b)
          ensures !Share(db.conversations[c], a, b)
        {
          assert {a, b} == {u, v};
        }
      }
    }
  }
}
