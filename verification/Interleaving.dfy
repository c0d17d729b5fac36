// The handlers of controllers/offers.cc read their guard outside the write
// transaction, and those that open a conversation look for one before they
// insert it. Here the two are separate steps and any number of requests may be
// in flight between them. What survives; Breaking.dfy has what does not.
module Interleaving {
  import opened Prelude
  import opened Ids
  import opened Tables
  import opened Handlers
  import opened Invariants
  import opened Closing
  import opened Copies
  import opened Safety
  import opened History

  /** What a handler remembers from its guard until it writes. */
  datatype Ticket =
    | Accepting(id: string, offer: int, post: int)
    | Countering(id: string, offer: int, post: int)
    | Rejecting(offer: int)
    | Updating(offer: int, changes: Changes)
    | Creating(post: int, user: int, title: string, description: string, price: int, isPublic: bool)
    | Conversing(user: int, other: int, name: string)
    | Noting(user: int, other: int, name: string, note: Body, found: Option<int>)
    | Proposing(user: int, other: int, id: string, offer: int, price: int, text: string, now: int, found: Option<int>)

  datatype World = World(db: Db, flights: map<int, Ticket>)

  datatype Step =
    | Begin(flight: int, ev: Event)
    | Commit(flight: int, chosen: Option<int>, mediaOk: bool)
    | Whole(ev: Event)

  predicate Split(ev: Event) {
    || ev.EvAccept? || ev.EvAcceptCounter? || ev.EvReject? || ev.EvUpdateOffer? || ev.EvCreateOffer?
    || ev.EvCreateConversation? || ev.EvConversationByOffer? || ev.EvPostNote? || ev.EvNegotiate?
  }

  /**
   * The guard of a request passes on the tables as they are now, and leaves
   * something to write: a request that finds its conversation has nothing to.
   */
  ghost predicate Passes(db: Db, ev: Event)
    requires Split(ev)
  {
    match ev
    case EvAccept(user, ref, _) => CloseGuard(db, user, ref, false).Ok?
    case EvAcceptCounter(user, ref, _) => CloseGuard(db, user, ref, true).Ok?
    case EvReject(user, ref) => CloseGuard(db, user, ref, false).Ok?
    case EvUpdateOffer(user, ref, _, _) => UpdateOfferGuard(db, user, ref).Ok?
    case EvCreateOffer(user, ref, title, description, price, _, _) =>
      CreateOfferGuard(db, user, ref, title, description, price).Ok?
    case EvCreateConversation(user, other, name, found) =>
      name != "" && other >= 0 && found.None? && SharedConversation(db.conversations, user, other, None)
    case EvConversationByOffer(user, ref, found) =>
      ByOfferGuard(db, user, ref).Ok? && found.None? && FoundForOffer(db, ref, None)
    case EvPostNote(user, ref, kind, _, rowFound, found) =>
      NoteGuard(db, user, ref, kind, rowFound).Ok? && FoundForOffer(db, ref, found)
    case EvNegotiate(user, ref, price, _, _, found) =>
      price >= 0 && PartyGuard(db, user, ref, ServerError).Ok? && FoundForOffer(db, ref, found)
  }

  ghost function TicketFor(db: Db, ev: Event): Ticket
    requires Split(ev) && Passes(db, ev)
  {
    match ev
    case EvAccept(_, ref, _) => var o := StringToInt(ref).value; Accepting(ref, o, db.offers[o].postId)
    case EvAcceptCounter(_, ref, _) => var o := StringToInt(ref).value; Countering(ref, o, db.offers[o].postId)
    case EvReject(_, ref) => Rejecting(StringToInt(ref).value)
    case EvUpdateOffer(_, ref, changes, _) => Updating(StringToInt(ref).value, changes)
    case EvCreateOffer(user, ref, title, description, price, isPublic, _) =>
      Creating(StringToInt(ref).value, user, title, description, price, isPublic)
    case EvCreateConversation(user, other, name, _) => Conversing(user, other, name)
    case EvConversationByOffer(user, ref, _) =>
      Conversing(user, Counterparty(db, StringToInt(ref).value, user), ByOfferName(ref))
    case EvPostNote(user, ref, kind, contextId, _, found) =>
      var o := StringToInt(ref).value;
      Noting(user, Counterparty(db, o, user), NegotiationName(ref), NoteBody(kind, o, contextId), found)
    case EvNegotiate(user, ref, price, note, now, found) =>
      var o := StringToInt(ref).value;
      Proposing(user, Counterparty(db, o, user), ref, o, price, note, now, found)
  }

  /** The write of a request, on whatever the tables have become. */
  function Write(db: Db, ticket: Ticket, chosen: Option<int>, mediaOk: bool): Db {
    match ticket
    case Accepting(_, offer, post) =>
      if offer in db.offers then AcceptWrite(db, offer, post, chosen) else db
    case Countering(id, offer, post) =>
      if offer in db.offers && chosen.Some? && chosen.value in db.negotiations
      then CounterWrite(db, id, offer, post, chosen.value) else db
    case Rejecting(offer) => RejectWrite(db, offer)
    case Updating(offer, changes) =>
      if offer in db.offers then db.(offers := db.offers[offer := Amend(db.offers[offer], changes)]) else db
    case Creating(post, user, title, description, price, isPublic) =>
      var inserted := InsertOffer(db, post, user, title, description, price, isPublic);
      if mediaOk then inserted else RolledBack(db, inserted)
    case Conversing(user, other, name) => InsertConversation(db, name, user, other)
    case Noting(user, other, name, note, found) => NoteWrite(db, user, other, name, note, found).0
    case Proposing(user, other, id, offer, price, note, now, found) =>
      if offer in db.offers then NegotiateWrite(db, user, id, offer, other, price, note, now, found).0 else db
  }

  ghost predicate Possible(w: World, step: Step) {
    match step
    case Begin(f, ev) => f !in w.flights && Split(ev) && ev.user in w.db.users && Passes(w.db, ev)
    case Commit(f, chosen, _) =>
      && f in w.flights
      && (w.flights[f].Accepting? || w.flights[f].Countering? ==>
           LatestPending(w.db.negotiations, w.flights[f].offer, chosen))
    case Whole(ev) => !Split(ev) && Enabled(w.db, ev)
  }

  ghost function Move(w: World, step: Step): World
    requires Possible(w, step)
  {
    match step
    case Begin(f, ev) => w.(flights := w.flights[f := TicketFor(w.db, ev)])
    case Commit(f, chosen, mediaOk) => World(Write(w.db, w.flights[f], chosen, mediaOk), w.flights - {f})
    case Whole(ev) => w.(db := Next(w.db, ev))
  }

  ghost predicate Interleaved(w: World, steps: seq<Step>)
    decreases |steps|
  {
    steps == [] || (Possible(w, steps[0]) && Interleaved(Move(w, steps[0]), steps[1..]))
  }

  ghost function Reached(w: World, steps: seq<Step>): World
    requires Interleaved(w, steps)
    decreases |steps|
  {
    if steps == [] then w else Reached(Move(w, steps[0]), steps[1..])
  }

  /** The choices a request makes when it writes. */
  function ChosenBy(ev: Event): Option<int> {
    if ev.EvAccept? || ev.EvAcceptCounter? then ev.chosen else None
  }

  function MediaOf(ev: Event): bool {
    (ev.EvCreateOffer? || ev.EvUpdateOffer?) ==> ev.mediaOk
  }

  /** A request that is not interrupted is the request of one piece; one that does not pass changes nothing. */
  lemma SplitIsWhole(w: World, f: int, ev: Event)
    requires f !in w.flights && Split(ev) && Enabled(w.db, ev)
    ensures if Passes(w.db, ev) then
              var begin, commit := Begin(f, ev), Commit(f, ChosenBy(ev), MediaOf(ev));
              && Possible(w, begin) && Possible(Move(w, begin), commit)
              && Move(Move(w, begin), commit) == World(Next(w.db, ev), w.flights)
            else Next(w.db, ev) == w.db
  {
    hide StringToInt, AcceptWrite, CounterWrite, RejectWrite, Amend, InsertOffer, NegotiateWrite, NoteWrite;
    if Passes(w.db, ev) {
      assert w.flights[f := TicketFor(w.db, ev)] - {f} == w.flights;
    }
  }

  const IDLE := World(EMPTY, map[])

  // ---- what survives -----------------------------------------------------

  ghost predicate Holds(db: Db, ticket: Ticket) {
    match ticket
    case Accepting(id, offer, post) =>
      StringToInt(id) == Some(offer) && offer in db.offers && db.offers[offer].postId == post
    case Countering(id, offer, post) =>
      StringToInt(id) == Some(offer) && offer in db.offers && db.offers[offer].postId == post
    case Rejecting(offer) => offer in db.offers
    case Updating(offer, _) => offer in db.offers
    case Creating(post, user, _, _, _, _) => post in db.posts && db.posts[post].owner != user && user in db.users
    case Conversing(user, _, _) => user in db.users
    case Noting(user, _, _, note, _) => user in db.users && note.Note?
    case Proposing(user, other, id, offer, _, _, _, _) =>
      && StringToInt(id) == Some(offer) && offer in db.offers && db.offers[offer].postId in db.posts
      && {user, other} == {db.offers[offer].maker, db.posts[db.offers[offer].postId].owner} && user != other
      && {user, other} <= db.users
  }

  ghost predicate Sound(w: World) {
    && Tidy(w.db)
    && OpenDeals(w.db.posts, w.db.offers, w.db.negotiations)
    && forall f :: f in w.flights ==> Holds(w.db, w.flights[f])
  }

  /** No offer becomes pending again, no original price changes, a decided negotiation and a fulfilled post stay. */
  ghost predicate Survives(db: Db, db': Db) {
    && db.users <= db'.users
    && (forall p :: p in db.posts ==> p in db'.posts && db'.posts[p].owner == db.posts[p].owner
                                      && (db.posts[p].requestStatus.Fulfilled? ==>
                                           db'.posts[p].requestStatus.Fulfilled?))
    && (forall o :: o in db.offers ==> o in db'.offers && OfferSurvives(db.offers[o], db'.offers[o]))
    && (forall n :: n in db.negotiations ==>
         n in db'.negotiations && NegotiationKept(db.negotiations[n], db'.negotiations[n]))
  }

  ghost predicate OfferSurvives(a: Offer, b: Offer) {
    && b.postId == a.postId && b.maker == a.maker && b.originalPrice == a.originalPrice
    && (b.status.Pending? ==> a.status.Pending?)
  }

  lemma SurvivesAgain(a: Db, b: Db, c: Db)
    requires Survives(a, b) && Survives(b, c)
    ensures Survives(a, c)
  {
  }

  lemma ClosedSound(db: Db, db': Db, offer: int, post: int, chosen: Option<int>)
    requires Ready(db, offer, post, chosen) && OpenDeals(db.posts, db.offers, db.negotiations)
    requires Closed(db, db', offer, post, chosen)
    ensures Tidy(db') && OpenDeals(db'.posts, db'.offers, db'.negotiations) && Survives(db, db')
  {
    ClosedTidy(db, db', offer, post, chosen);
    ClosedOpenDeals(db, db', offer, post, chosen);
  }

  predicate Closes(ticket: Ticket, chosen: Option<int>) {
    ticket.Accepting? || (ticket.Countering? && chosen.Some?)
  }

  /**
   * However late an accept or accept-counter writes, it does what is promised;
   * without a negotiation to counter, nothing.
   */
  lemma ClosingWrite(db: Db, ticket: Ticket, chosen: Option<int>, mediaOk: bool)
    requires ticket.Accepting? || ticket.Countering?
    requires Ready(db, ticket.offer, ticket.post, chosen)
    ensures var db' := Write(db, ticket, chosen, mediaOk);
            if Closes(ticket, chosen) then
              && Closed(db, db', ticket.offer, ticket.post, chosen)
              && db'.offers[ticket.offer].price ==
                   (if ticket.Accepting? then db.offers[ticket.offer].price
                    else db.negotiations[chosen.value].proposedPrice)
            else db' == db
  {
    if ticket.Accepting? {
      AcceptCloses(db, ticket.offer, ticket.post, chosen);
    } else if chosen.Some? {
      CounterCloses(db, ticket.id, ticket.offer, ticket.post, chosen.value);
    }
  }

  lemma WriteSound(db: Db, ticket: Ticket, chosen: Option<int>, mediaOk: bool)
    requires Tidy(db) && OpenDeals(db.posts, db.offers, db.negotiations) && Holds(db, ticket)
    requires ticket.Accepting? || ticket.Countering? ==> LatestPending(db.negotiations, ticket.offer, chosen)
    ensures var db' := Write(db, ticket, chosen, mediaOk);
            Tidy(db') && OpenDeals(db'.posts, db'.offers, db'.negotiations) && Survives(db, db')
  {
    if ticket.Accepting? || ticket.Countering? {
      hide Write;
      ClosingWrite(db, ticket, chosen, mediaOk);
      if Closes(ticket, chosen) {
        ClosedSound(db, Write(db, ticket, chosen, mediaOk), ticket.offer, ticket.post, chosen);
      }
    } else if ticket.Creating? {
      InsertSound(db, ticket.post, ticket.user, ticket.title, ticket.description, ticket.price, ticket.isPublic);
    } else if ticket.Conversing? || ticket.Noting? {
      ChatWrite(db, ticket, chosen, mediaOk);
      ChatSound(db, Write(db, ticket, chosen, mediaOk));
    } else if ticket.Rejecting? {
      RejectSound(db, ticket.offer);
    } else if ticket.Proposing? {
      ProposalSound(db, ticket);
    } else {
      AmendSound(db, ticket.offer, ticket.changes);
    }
  }

  lemma ChatWrite(db: Db, ticket: Ticket, chosen: Option<int>, mediaOk: bool)
    requires ticket.Conversing? || (ticket.Noting? && ticket.note.Note?)
    ensures ChatOnly(db, Write(db, ticket, chosen, mediaOk))
  {
    hide StringToInt;
  }

  lemma RejectSound(db: Db, offer: int)
    requires Tidy(db) && OpenDeals(db.posts, db.offers, db.negotiations) && offer in db.offers
    ensures var db' := RejectWrite(db, offer);
            Tidy(db') && OpenDeals(db'.posts, db'.offers, db'.negotiations) && Survives(db, db')
  {
    hide StringToInt;
  }

  lemma AmendSound(db: Db, offer: int, changes: Changes)
    requires Tidy(db) && OpenDeals(db.posts, db.offers, db.negotiations) && offer in db.offers
    ensures var db' := db.(offers := db.offers[offer := Amend(db.offers[offer], changes)]);
            Tidy(db') && OpenDeals(db'.posts, db'.offers, db'.negotiations) && Survives(db, db')
  {
    hide StringToInt;
  }

  lemma InsertSound(db: Db, post: int, user: int, title: string, description: string, price: int, isPublic: bool)
    requires Tidy(db) && OpenDeals(db.posts, db.offers, db.negotiations)
    requires post in db.posts && db.posts[post].owner != user && user in db.users
    ensures var db' := InsertOffer(db, post, user, title, description, price, isPublic);
            Tidy(db') && OpenDeals(db'.posts, db'.offers, db'.negotiations) && Survives(db, db')
  {
  }

  lemma InsertNegotiationSound(db: Db, offer: int, user: int, price: int, note: string, now: int)
    requires Tidy(db) && OpenDeals(db.posts, db.offers, db.negotiations) && offer in db.offers
    ensures var db' := InsertNegotiation(db, offer, user, price, note, now);
            Tidy(db') && OpenDeals(db'.posts, db'.offers, db'.negotiations) && Survives(db, db')
  {
  }

  lemma InsertProposalTidy(db: Db, c: int, sender: int, n: int, id: string)
    requires Tidy(db) && n in db.negotiations && StringToInt(id) == Some(db.negotiations[n].offerId)
    ensures Tidy(InsertMessage(db, c, sender, Proposal(n, id, Pending)))
  {
  }

  lemma ProposalSound(db: Db, ticket: Ticket)
    requires Tidy(db) && OpenDeals(db.posts, db.offers, db.negotiations) && ticket.Proposing? && Holds(db, ticket)
    ensures var db' := Write(db, ticket, None, true);
            Tidy(db') && OpenDeals(db'.posts, db'.offers, db'.negotiations) && Survives(db, db')
  {
    var Proposing(user, other, id, offer, price, note, now, found) := ticket;
    hide StringToInt;
    InsertNegotiationSound(db, offer, user, price, note, now);
    var proposed := InsertNegotiation(db, offer, user, price, note, now);
    match found {
      case Some(c) => InsertProposalTidy(proposed, c, user, db.next.negotiation, id);
      case None =>
        var started := InsertConversation(proposed, NegotiationName(id), user, other);
        InsertProposalTidy(started, db.next.conversation, user, db.next.negotiation, id);
    }
  }

  lemma CreatePostSound(db: Db, user: int, content: string, isRequest: bool, mediaOk: bool)
    requires Tidy(db) && OpenDeals(db.posts, db.offers, db.negotiations) && user in db.users
    ensures var db' := CreatePost(db, user, content, isRequest, mediaOk).0;
            Tidy(db') && OpenDeals(db'.posts, db'.offers, db'.negotiations) && Survives(db, db')
  {
    hide StringToInt;
  }

  lemma ChatSound(db: Db, db': Db)
    requires Tidy(db) && OpenDeals(db.posts, db.offers, db.negotiations) && ChatOnly(db, db')
    ensures Tidy(db') && OpenDeals(db'.posts, db'.offers, db'.negotiations) && Survives(db, db')
    ensures Agree(db) ==> Agree(db')
  {
  }

  ghost predicate Agree(db: Db) { CopiesAgree(db.messages, db.negotiations) }

  lemma WholeSound(db: Db, ev: Event)
    requires Tidy(db) && OpenDeals(db.posts, db.offers, db.negotiations) && Enabled(db, ev) && !Split(ev)
    ensures var db' := Next(db, ev);
            Tidy(db') && OpenDeals(db'.posts, db'.offers, db'.negotiations) && Survives(db, db')
  {
    var db' := Next(db, ev);
    match ev
    case EvCreatePost(user, content, isRequest, mediaOk) => CreatePostSound(db, user, content, isRequest, mediaOk);
    case _ =>
      ChatEvents(db, ev);
      ChatSound(db, db');
  }

  lemma BeginHolds(db: Db, ev: Event)
    requires Tidy(db) && Split(ev) && ev.user in db.users && Passes(db, ev)
    ensures Holds(db, TicketFor(db, ev)) && Survives(db, db)
  {
  }

  lemma MoveSound(w: World, step: Step)
    requires Sound(w) && Possible(w, step)
    ensures Sound(Move(w, step)) && Survives(w.db, Move(w, step).db)
  {
    var w' := Move(w, step);
    hide Write, Next, Tidy, OpenDeals, Survives, Holds, Passes, TicketFor, LatestPending, Enabled;
    match step {
      case Begin(f, ev) => BeginHolds(w.db, ev);
      case Commit(f, chosen, mediaOk) => WriteSound(w.db, w.flights[f], chosen, mediaOk);
      case Whole(ev) => WholeSound(w.db, ev);
    }
    TicketsHold(w, w');
  }

  lemma TicketsHold(w: World, w': World)
    requires Survives(w.db, w'.db)
    requires forall f :: f in w.flights ==> Holds(w.db, w.flights[f])
    ensures forall f :: f in w.flights ==> Holds(w'.db, w.flights[f])
  {
  }

  /** Over any interleaving, from any point to any later one. */
  lemma {:induction false} RunSurvives(w: World, steps: seq<Step>)
    requires Sound(w) && Interleaved(w, steps)
    ensures Sound(Reached(w, steps)) && Survives(w.db, Reached(w, steps).db)
    decreases |steps|
  {
    if steps != [] {
      MoveSound(w, steps[0]);
      RunSurvives(Move(w, steps[0]), steps[1..]);
      SurvivesAgain(w.db, Move(w, steps[0]).db, Reached(w, steps).db);
    }
  }

  // ---- conversations and messages -----------------------------------------

  /** A note goes to a conversation its sender takes part in, a proposal to one of exactly the two parties. */
  ghost predicate Placed(db: Db, ticket: Ticket) {
    (ticket.Noting? || ticket.Proposing?) && ticket.found.Some? ==>
      && ticket.found.value in db.conversations
      && ticket.user in db.conversations[ticket.found.value].participants
      && (ticket.Proposing? ==> db.conversations[ticket.found.value].participants == {ticket.user, ticket.other})
  }

  ghost predicate Housed(w: World) {
    Rooms(w.db) && forall f :: f in w.flights ==> Placed(w.db, w.flights[f])
  }

  lemma NoteRooms(db: Db, user: int, other: int, name: string, note: Body, found: Option<int>)
    requires Rooms(db) && note.Note? && Placed(db, Noting(user, other, name, note, found))
    ensures var db' := NoteWrite(db, user, other, name, note, found).0; Rooms(db') && ConversationsStay(db, db')
  {
    match found
    case Some(c) => InsertMessageRooms(db, c, user, note);
    case None =>
      InsertConversationRooms(db, name, user, other);
      if CanPair(db.users, user, other) {
        InsertMessageRooms(InsertConversation(db, name, user, other), db.next.conversation, user, note);
      }
  }

  lemma ProposalRooms(db: Db, ticket: Ticket)
    requires Tidy(db) && Rooms(db) && ticket.Proposing? && Holds(db, ticket) && Placed(db, ticket)
    ensures var db' := Write(db, ticket, None, true); Rooms(db') && ConversationsStay(db, db')
  {
    var Proposing(user, other, id, offer, price, note, now, found) := ticket;
    hide StringToInt;
    var proposed := InsertNegotiation(db, offer, user, price, note, now);
    UntouchedRooms(db, proposed);
    match found {
      case Some(c) => InsertMessageRooms(proposed, c, user, Proposal(db.next.negotiation, id, Pending));
      case None =>
        InsertConversationRooms(proposed, NegotiationName(id), user, other);
        var started := InsertConversation(proposed, NegotiationName(id), user, other);
        InsertMessageRooms(started, db.next.conversation, user, Proposal(db.next.negotiation, id, Pending));
    }
  }

  lemma ClosingRooms(db: Db, ticket: Ticket, chosen: Option<int>, mediaOk: bool)
    requires Rooms(db) && (ticket.Accepting? || ticket.Countering?) && Ready(db, ticket.offer, ticket.post, chosen)
    ensures var db' := Write(db, ticket, chosen, mediaOk); Rooms(db') && ConversationsStay(db, db')
  {
    var db' := Write(db, ticket, chosen, mediaOk);
    hide Write, StringToInt, Rooms;
    ClosingWrite(db, ticket, chosen, mediaOk);
    if Closes(ticket, chosen) {
      StampedRooms(db, db');
    }
  }

  lemma WriteRooms(db: Db, ticket: Ticket, chosen: Option<int>, mediaOk: bool)
    requires Tidy(db) && OpenDeals(db.posts, db.offers, db.negotiations) && Rooms(db)
    requires Holds(db, ticket) && Placed(db, ticket)
    requires ticket.Accepting? || ticket.Countering? ==> LatestPending(db.negotiations, ticket.offer, chosen)
    ensures var db' := Write(db, ticket, chosen, mediaOk); Rooms(db') && ConversationsStay(db, db')
  {
    hide Rooms, Tidy, LatestPending, ConversationsStay, StringToInt;
    if ticket.Accepting? || ticket.Countering? {
      ClosingRooms(db, ticket, chosen, mediaOk);
    } else if ticket.Conversing? {
      InsertConversationRooms(db, ticket.name, ticket.user, ticket.other);
    } else if ticket.Noting? {
      NoteRooms(db, ticket.user, ticket.other, ticket.name, ticket.note, ticket.found);
    } else if ticket.Proposing? {
      ProposalRooms(db, ticket);
    } else {
      AmendRooms(db, ticket, chosen, mediaOk);
    }
  }

  lemma AmendRooms(db: Db, ticket: Ticket, chosen: Option<int>, mediaOk: bool)
    requires Tidy(db) && Rooms(db) && (ticket.Rejecting? || ticket.Updating? || ticket.Creating?)
    ensures var db' := Write(db, ticket, chosen, mediaOk); Rooms(db') && ConversationsStay(db, db')
  {
    hide StringToInt;
    UntouchedRooms(db, Write(db, ticket, chosen, mediaOk));
  }

  lemma SendMessageRooms(db: Db, user: int, ref: string, content: Option<string>, attached: bool, mediaOk: bool)
    requires Rooms(db)
    ensures var db' := SendMessage(db, user, ref, content, attached, mediaOk).0;
            Rooms(db') && ConversationsStay(db, db')
  {
    if MemberGuard(db, user, ref).Ok? {
      InsertMessageRooms(db, StringToInt(ref).value, user, Text(Or(content, "")));
    }
  }

  lemma MarkReadRooms(db: Db, user: int, ref: string)
    requires Rooms(db)
    ensures var db' := MarkRead(db, user, ref).0; Rooms(db') && ConversationsStay(db, db')
  {
  }

  lemma WholeRooms(db: Db, ev: Event)
    requires Tidy(db) && Rooms(db) && Enabled(db, ev) && !Split(ev)
    ensures Rooms(Next(db, ev)) && ConversationsStay(db, Next(db, ev))
  {
    match ev
    case Register(_) =>
    case EvCreatePost(user, content, isRequest, mediaOk) => UntouchedRooms(db, Next(db, ev));
    case EvSendMessage(user, ref, content, attached, mediaOk) =>
      SendMessageRooms(db, user, ref, content, attached, mediaOk);
    case EvMarkRead(user, ref) => MarkReadRooms(db, user, ref);
  }

  lemma PlacedStays(db: Db, db': Db, ticket: Ticket)
    requires ConversationsStay(db, db') && Placed(db, ticket)
    ensures Placed(db', ticket)
  {
    if (ticket.Noting? || ticket.Proposing?) && ticket.found.Some? {
      var c := ticket.found.value;
      assert c in db'.conversations && db'.conversations[c] == db.conversations[c];
    }
  }

  lemma TicketsPlaced(w: World, db': Db)
    requires ConversationsStay(w.db, db') && forall f :: f in w.flights ==> Placed(w.db, w.flights[f])
    ensures forall f :: f in w.flights ==> Placed(db', w.flights[f])
  {
    forall f | f in w.flights
      ensures Placed(db', w.flights[f])
    {
      PlacedStays(w.db, db', w.flights[f]);
    }
  }

  lemma BeginPlaced(db: Db, ev: Event)
    requires Tidy(db) && Rooms(db) && Split(ev) && Passes(db, ev)
    ensures Placed(db, TicketFor(db, ev))
  {
    if ev.EvNegotiate? && ev.found.Some? {
      var offer := db.offers[StringToInt(ev.ref).value];
      SharedIsExact(db, offer.maker, db.posts[offer.postId].owner, ev.found.value);
    }
  }

  /** Every step keeps conversations of none or two, senders inside, and proposals at home. */
  lemma MoveHoused(w: World, step: Step)
    requires Sound(w) && Housed(w) && Possible(w, step)
    ensures Housed(Move(w, step))
  {
    match step
    case Begin(f, ev) => BeginPlaced(w.db, ev);
    case Commit(f, chosen, mediaOk) =>
      var db' := Write(w.db, w.flights[f], chosen, mediaOk);
      hide Write, Rooms, Tidy, Placed;
      WriteRooms(w.db, w.flights[f], chosen, mediaOk);
      TicketsPlaced(w, db');
    case Whole(ev) =>
      var db' := Next(w.db, ev);
      hide Next, Rooms, Tidy, Placed;
      WholeRooms(w.db, ev);
      TicketsPlaced(w, db');
  }

  lemma {:induction false} RunHoused(w: World, steps: seq<Step>)
    requires Sound(w) && Housed(w) && Interleaved(w, steps)
    ensures Housed(Reached(w, steps))
    decreases |steps|
  {
    if steps != [] {
      MoveSound(w, steps[0]);
      MoveHoused(w, steps[0]);
      RunHoused(Move(w, steps[0]), steps[1..]);
    }
  }
}
