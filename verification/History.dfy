// What later requests never undo: two-state facts of one request, then of
// every run between any two of its points.
module History {
  import opened Prelude
  import opened Ids
  import opened Tables
  import opened Handlers
  import opened Invariants
  import opened Closing
  import opened Safety

  ghost predicate OfferKept(a: Offer, b: Offer) {
    && b.postId == a.postId && b.maker == a.maker && b.originalPrice == a.originalPrice
    && (!a.status.Pending? ==>
          && b.status == a.status && b.price == a.price
          && b.title == a.title && b.description == a.description && b.isPublic == a.isPublic)
  }

  ghost predicate NegotiationKept(a: Negotiation, b: Negotiation) {
    && b.offerId == a.offerId && b.proposer == a.proposer && b.proposedPrice == a.proposedPrice
    && (!a.status.Pending? ==> b.status == a.status)
  }

  /** Rows stay, identities stay, original prices stay, and a closed offer or negotiation stays as it is. */
  ghost predicate Preserved(db: Db, db': Db) {
    && (forall p :: p in db.posts ==> p in db'.posts && db'.posts[p].owner == db.posts[p].owner
                                      && (db.posts[p].requestStatus.Fulfilled? ==>
                                           db'.posts[p].requestStatus.Fulfilled?))
    && (forall o :: o in db.offers ==> o in db'.offers && OfferKept(db.offers[o], db'.offers[o]))
    && (forall n :: n in db.negotiations ==>
         n in db'.negotiations && NegotiationKept(db.negotiations[n], db'.negotiations[n]))
  }

  lemma PreservedAgain(a: Db, b: Db, c: Db)
    requires Preserved(a, b) && Preserved(b, c)
    ensures Preserved(a, c)
  {
  }

  lemma ClosedPreserves(db: Db, db': Db, offer: int, post: int, chosen: Option<int>)
    requires Ready(db, offer, post, chosen) && Closed(db, db', offer, post, chosen) && db.offers[offer].status.Pending?
    ensures Preserved(db, db')
  {
  }

  lemma AcceptPreserves(db: Db, user: int, id: string, chosen: Option<int>)
    requires Inv(db) && ChosenFor(db, id, chosen)
    ensures Preserved(db, AcceptOffer(db, user, id, chosen).0)
  {
    hide AcceptWrite;
    if CloseGuard(db, user, id, false).Ok? {
      var offer := StringToInt(id).value;
      AcceptCloses(db, offer, db.offers[offer].postId, chosen);
      ClosedPreserves(db, AcceptOffer(db, user, id, chosen).0, offer, db.offers[offer].postId, chosen);
    }
  }

  lemma CounterPreserves(db: Db, user: int, id: string, chosen: Option<int>)
    requires Inv(db) && ChosenFor(db, id, chosen)
    ensures Preserved(db, AcceptCounter(db, user, id, chosen).0)
  {
    hide CounterWrite;
    if CloseGuard(db, user, id, true).Ok? && chosen.Some? {
      var offer := StringToInt(id).value;
      CounterCloses(db, id, offer, db.offers[offer].postId, chosen.value);
      ClosedPreserves(db, AcceptCounter(db, user, id, chosen).0, offer, db.offers[offer].postId, chosen);
    }
  }

  lemma CreatePostPreserves(db: Db, user: int, content: string, isRequest: bool, mediaOk: bool)
    requires Inv(db)
    ensures Preserved(db, CreatePost(db, user, content, isRequest, mediaOk).0)
  {
  }

  lemma CreateOfferPreserves(db: Db, user: int, ref: string, title: string, description: string, price: int,
                             isPublic: bool, mediaOk: bool)
    requires Inv(db)
    ensures Preserved(db, CreateOffer(db, user, ref, title, description, price, isPublic, mediaOk).0)
  {
  }

  lemma InsertPreserves(db: Db, offer: int, user: int, price: int, note: string, now: int)
    requires NegotiationKeys(db.offers, db.negotiations, db.next.negotiation) && offer in db.offers
    ensures Preserved(db, InsertNegotiation(db, offer, user, price, note, now))
  {
  }

  lemma PreservedSame(db: Db, a: Db, b: Db)
    requires Preserved(db, a) && b.posts == a.posts && b.offers == a.offers && b.negotiations == a.negotiations
    ensures Preserved(db, b)
  {
  }

  lemma NegotiatePreserves(db: Db, user: int, id: string, price: int, note: string, now: int, found: Option<int>)
    requires Inv(db)
    ensures Preserved(db, Negotiate(db, user, id, price, note, now, found).0)
  {
    assert Preserved(db, db);
    var db' := Negotiate(db, user, id, price, note, now, found).0;
    if price >= 0 && PartyGuard(db, user, id, ServerError).Ok? {
      var offer := StringToInt(id).value;
      hide StringToInt, Preserved;
      InsertPreserves(db, offer, user, price, note, now);
      PreservedSame(db, if db'.offers == db.offers && db'.negotiations == db.negotiations then db
                        else InsertNegotiation(db, offer, user, price, note, now), db');
    }
  }

  lemma NextPreserves(db: Db, ev: Event)
    requires Inv(db) && Enabled(db, ev)
    ensures Preserved(db, Next(db, ev))
  {
    match ev
    case EvCreatePost(user, content, isRequest, mediaOk) =>
      CreatePostPreserves(db, user, content, isRequest, mediaOk);
    case EvCreateOffer(user, ref, title, description, price, isPublic, mediaOk) =>
      CreateOfferPreserves(db, user, ref, title, description, price, isPublic, mediaOk);
    case EvUpdateOffer(user, ref, changes, mediaOk) => UpdatePreserves(db, user, ref, changes, mediaOk);
    case EvAccept(user, ref, chosen) => AcceptPreserves(db, user, ref, chosen);
    case EvAcceptCounter(user, ref, chosen) => CounterPreserves(db, user, ref, chosen);
    case EvReject(user, ref) => RejectPreserves(db, user, ref);
    case EvNegotiate(user, ref, price, note, now, found) => NegotiatePreserves(db, user, ref, price, note, now, found);
    case _ => ChatEvents(db, ev);
  }

  lemma UpdatePreserves(db: Db, user: int, id: string, changes: Changes, mediaOk: bool)
    ensures Preserved(db, UpdateOffer(db, user, id, changes, mediaOk).0)
  {
  }

  lemma RejectPreserves(db: Db, user: int, id: string)
    ensures Preserved(db, RejectOffer(db, user, id).0)
  {
  }

  /** The remaining requests touch no post, offer or negotiation and add or restamp no proposal. */
  ghost predicate ChatOnly(db: Db, db': Db) {
    && db.users <= db'.users && db'.posts == db.posts && db'.offers == db.offers && db'.negotiations == db.negotiations
    && db'.next.post == db.next.post && db'.next.offer == db.next.offer && db'.next.negotiation == db.next.negotiation
    && forall m :: m in db'.messages && db'.messages[m].body.Proposal? ==>
         m in db.messages && db'.messages[m].body == db.messages[m].body
  }

  lemma PostNoteChats(db: Db, user: int, id: string, kind: NoteKind, contextId: int, rowFound: bool, found: Option<int>)
    ensures ChatOnly(db, PostNote(db, user, id, kind, contextId, rowFound, found).0)
  {
    hide StringToInt;
  }

  lemma SendMessageChats(db: Db, user: int, ref: string, content: Option<string>, attached: bool, mediaOk: bool)
    ensures ChatOnly(db, SendMessage(db, user, ref, content, attached, mediaOk).0)
    ensures ChatOnly(db, MarkRead(db, user, ref).0)
  {
    hide StringToInt;
  }

  lemma ConversationChats(db: Db, user: int, other: int, name: string, id: string, found: Option<int>)
    ensures ChatOnly(db, CreateConversation(db, user, other, name, found).0)
    ensures ChatOnly(db, ConversationByOffer(db, user, id, found).0)
  {
    hide StringToInt;
  }

  predicate Chatting(ev: Event) {
    || ev.Register? || ev.EvPostNote? || ev.EvCreateConversation? || ev.EvConversationByOffer?
    || ev.EvSendMessage? || ev.EvMarkRead?
  }

  lemma ChatEvents(db: Db, ev: Event)
    requires Enabled(db, ev) && Chatting(ev)
    ensures ChatOnly(db, Next(db, ev))
  {
    match ev
    case EvPostNote(user, ref, kind, contextId, rowFound, found) =>
      PostNoteChats(db, user, ref, kind, contextId, rowFound, found);
    case EvCreateConversation(user, other, name, found) => ConversationChats(db, user, other, name, "", found);
    case EvConversationByOffer(user, ref, found) => ConversationChats(db, user, 0, "", ref, found);
    case EvSendMessage(user, ref, content, attached, mediaOk) =>
      SendMessageChats(db, user, ref, content, attached, mediaOk);
    case EvMarkRead(user, ref) => SendMessageChats(db, user, ref, None, false, false);
    case _ =>
  }

  lemma ClosingOffers(db: Db, user: int, id: string, chosen: Option<int>)
    ensures AcceptOffer(db, user, id, chosen).0.offers.Keys == db.offers.Keys
    ensures RejectOffer(db, user, id).0.offers.Keys == db.offers.Keys
    ensures (chosen.Some? ==> chosen.value in db.negotiations) ==>
              AcceptCounter(db, user, id, chosen).0.offers.Keys == db.offers.Keys
  {
    hide StringToInt, Decide, Rivals, StampNegotiations, StampOffers, Losers, Fallout, Fulfil, Printed;
  }

  lemma UpdateOffers(db: Db, user: int, id: string, changes: Changes, mediaOk: bool)
    ensures UpdateOffer(db, user, id, changes, mediaOk).0.offers.Keys == db.offers.Keys
  {
    hide StringToInt, Amend;
  }

  lemma NegotiateOffers(db: Db, user: int, id: string, price: int, note: string, now: int, found: Option<int>)
    ensures Negotiate(db, user, id, price, note, now, found).0.offers.Keys == db.offers.Keys
  {
    hide StringToInt, CanPair;
  }

  /** No other request adds an offer. */
  lemma SameOffers(db: Db, ev: Event)
    requires Enabled(db, ev) && !ev.EvCreateOffer?
    ensures Next(db, ev).offers.Keys == db.offers.Keys
  {
    hide AcceptOffer, AcceptCounter, RejectOffer, UpdateOffer, Negotiate;
    hide PostNote, CreateConversation, ConversationByOffer, SendMessage, MarkRead;
    match ev
    case EvAccept(user, id, chosen) => ClosingOffers(db, user, id, chosen);
    case EvAcceptCounter(user, id, chosen) => ClosingOffers(db, user, id, chosen);
    case EvReject(user, id) => ClosingOffers(db, user, id, None);
    case EvUpdateOffer(user, id, changes, mediaOk) => UpdateOffers(db, user, id, changes, mediaOk);
    case EvNegotiate(user, id, price, note, now, found) => NegotiateOffers(db, user, id, price, note, now, found);
    case EvCreatePost(_, _, _, _) =>
    case _ => ChatEvents(db, ev);
  }

  /** Only create_offer adds an offer: the caller's, under the next id. */
  lemma NewOffers(db: Db, ev: Event, offer: int)
    requires Enabled(db, ev) && offer in Next(db, ev).offers && offer !in db.offers
    ensures ev.EvCreateOffer? && Handle(db, ev).1.Ok? && offer == db.next.offer
    ensures Next(db, ev).offers[offer].maker == ev.user
  {
    if !ev.EvCreateOffer? {
      hide Handle;
      SameOffers(db, ev);
    }
  }

  // ---- the sequences ----------------------------------------------------------

  ghost predicate Grows(next: Sequences, next': Sequences) {
    && next.post <= next'.post && next.offer <= next'.offer && next.message <= next'.message
    && next.negotiation <= next'.negotiation && next.conversation <= next'.conversation
  }

  lemma ClosingSequences(db: Db, user: int, id: string, chosen: Option<int>)
    ensures AcceptOffer(db, user, id, chosen).0.next == db.next
    ensures RejectOffer(db, user, id).0.next == db.next
    ensures (chosen.Some? ==> chosen.value in db.negotiations) ==>
              AcceptCounter(db, user, id, chosen).0.next == db.next
  {
    hide StringToInt, Decide, Rivals, StampNegotiations, StampOffers, Losers, Fallout, Fulfil, RejectOffers;
  }

  lemma NegotiateSequences(db: Db, user: int, id: string, price: int, note: string, now: int, found: Option<int>)
    ensures Grows(db.next, Negotiate(db, user, id, price, note, now, found).0.next)
  {
    hide StringToInt, CanPair;
  }

  lemma NoteSequences(db: Db, user: int, id: string, kind: NoteKind, contextId: int, rowFound: bool, found: Option<int>)
    ensures Grows(db.next, PostNote(db, user, id, kind, contextId, rowFound, found).0.next)
  {
    hide StringToInt, CanPair;
  }

  lemma ConversationSequences(db: Db, user: int, other: int, name: string, id: string, found: Option<int>)
    ensures Grows(db.next, CreateConversation(db, user, other, name, found).0.next)
    ensures Grows(db.next, ConversationByOffer(db, user, id, found).0.next)
  {
    hide StringToInt, CanPair;
  }

  lemma SendSequences(db: Db, user: int, ref: string, content: Option<string>, attached: bool, mediaOk: bool)
    ensures Grows(db.next, SendMessage(db, user, ref, content, attached, mediaOk).0.next)
    ensures MarkRead(db, user, ref).0.next == db.next
  {
    hide StringToInt, UnreadIn, SetRead;
  }

  /** No sequence runs backwards. */
  lemma SequencesGrow(db: Db, ev: Event)
    requires Enabled(db, ev)
    ensures Grows(db.next, Next(db, ev).next)
  {
    hide StringToInt, Amend, AcceptOffer, AcceptCounter, RejectOffer, SendMessage, MarkRead;
    hide Negotiate, PostNote, CreateConversation, ConversationByOffer;
    match ev
    case EvAccept(user, id, chosen) => ClosingSequences(db, user, id, chosen);
    case EvAcceptCounter(user, id, chosen) => ClosingSequences(db, user, id, chosen);
    case EvReject(user, id) => ClosingSequences(db, user, id, None);
    case EvNegotiate(user, id, price, note, now, found) => NegotiateSequences(db, user, id, price, note, now, found);
    case EvPostNote(user, id, kind, contextId, rowFound, found) =>
      NoteSequences(db, user, id, kind, contextId, rowFound, found);
    case EvCreateConversation(user, other, name, found) => ConversationSequences(db, user, other, name, "", found);
    case EvConversationByOffer(user, id, found) => ConversationSequences(db, user, 0, "", id, found);
    case EvSendMessage(user, ref, content, attached, mediaOk) =>
      SendSequences(db, user, ref, content, attached, mediaOk);
    case EvMarkRead(user, ref) => SendSequences(db, user, ref, None, false, false);
    case _ =>
  }

  // ---- any later point of a run -----------------------------------------------

  lemma {:induction false} RunPreserves(db: Db, evs: seq<Event>)
    requires Inv(db) && Run(db, evs)
    ensures Preserved(db, After(db, evs))
    decreases |evs|
  {
    if evs != [] {
      NextPreserves(db, evs[0]);
      NextKeeps(db, evs[0]);
      RunPreserves(Next(db, evs[0]), evs[1..]);
      PreservedAgain(db, Next(db, evs[0]), After(db, evs));
    }
  }

  // ---- the negotiated price --------------------------------------------------

  /** The offer is accepted at the price of its one accepted negotiation. */
  ghost predicate SettledAt(db: Db, offer: int, chosen: int) {
    && offer in db.offers && db.offers[offer].status.Accepted?
    && chosen in db.negotiations && db.negotiations[chosen].offerId == offer && db.negotiations[chosen].status.Accepted?
    && db.offers[offer].price == db.negotiations[chosen].proposedPrice
    && forall n :: n in db.negotiations && db.negotiations[n].offerId == offer && db.negotiations[n].status.Accepted?
                   ==> n == chosen
  }

  /** A successful accept-counter fixes the price for good, whatever is requested afterwards. */
  lemma CounterPriceForever(db: Db, user: int, id: string, chosen: Option<int>, later: seq<Event>)
    requires Inv(db) && Enabled(db, EvAcceptCounter(user, id, chosen))
    requires AcceptCounter(db, user, id, chosen).1.Ok?
    requires Run(AcceptCounter(db, user, id, chosen).0, later)
    ensures chosen.Some?
            && SettledAt(After(AcceptCounter(db, user, id, chosen).0, later), StringToInt(id).value, chosen.value)
  {
    var db' := AcceptCounter(db, user, id, chosen).0;
    var offer := StringToInt(id).value;
    CounterCloses(db, id, offer, db.offers[offer].postId, chosen.value);
    CounterKeeps(db, user, id, chosen);
    assert OfferKept(db'.offers[offer], db'.offers[offer]);
    RunPreserves(db', later);
    RunKeeps(db', later);
    var end := After(db', later);
    assert OfferKept(db'.offers[offer], end.offers[offer]);
    assert NegotiationKept(db'.negotiations[chosen.value], end.negotiations[chosen.value]);
  }

  /**
   * accept_offer accepts a negotiation too but leaves the price alone, so there
   * the two agree exactly when they agreed already.
   */
  lemma AcceptPriceExactly(db: Db, user: int, id: string, chosen: Option<int>)
    requires Inv(db) && Enabled(db, EvAccept(user, id, chosen)) && chosen.Some?
    requires AcceptOffer(db, user, id, chosen).1.Ok?
    ensures var offer := StringToInt(id).value;
            SettledAt(AcceptOffer(db, user, id, chosen).0, offer, chosen.value) <==>
            db.offers[offer].price == db.negotiations[chosen.value].proposedPrice
  {
  }
}
