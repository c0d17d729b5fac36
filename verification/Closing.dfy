// The write transactions of accept_offer and accept_counter_offer, row by row,
// in whatever state they find the tables.
module Closing {
  import opened Prelude
  import opened Ids
  import opened Tables
  import opened Handlers
  import opened Invariants

  // ---- what the request promises, with no reference to how it is done -------

  /**
   * The chosen offer is accepted, at whatever price, and its negotiation
   * completed; the post's other pending offers are rejected, and their
   * negotiation completed too if there was one to settle. No other offer changes.
   */
  ghost predicate OffersClosed(offers: Offers, offers': Offers, offer: int, post: int, complete: bool) {
    && offers'.Keys == offers.Keys
    && forall o :: o in offers ==>
         offers'[o] ==
           if o == offer then offers[o].(status := Accepted, price := offers'[o].price, haggling := Completed)
           else if offers[o].postId == post && offers[o].status.Pending? then
             offers[o].(status := Rejected, haggling := if complete then Completed else offers[o].haggling)
           else offers[o]
  }

  /** The chosen negotiation is accepted, every other pending one on the post is rejected. */
  ghost predicate NegotiationsClosed(offers: Offers, negotiations: Negotiations, negotiations': Negotiations,
                                     post: int, chosen: Option<int>) {
    && negotiations'.Keys == negotiations.Keys
    && forall n :: n in negotiations ==>
         && var row := negotiations[n];
            negotiations'[n] == row.(status :=
              if chosen == Some(n) then Accepted
              else if row.status.Pending? && row.offerId in offers && offers[row.offerId].postId == post then Rejected
              else row.status)
  }

  ghost predicate PostsClosed(posts: Posts, posts': Posts, post: int) {
    && posts'.Keys == posts.Keys
    && forall p :: p in posts ==>
         posts'[p] == if p == post then posts[p].(requestStatus := Fulfilled) else posts[p]
  }

  /** Messages differ in the status copy of proposals at most. */
  ghost predicate OnlyStamped(messages: Messages, messages': Messages) {
    && messages'.Keys == messages.Keys
    && forall m :: m in messages ==> SameButStatus(messages[m], messages'[m])
  }

  ghost predicate SameButStatus(a: Message, b: Message) {
    && b.conversationId == a.conversationId && b.sender == a.sender && b.isRead == a.isRead
    && if a.body.Proposal?
       then b.body.Proposal? && b.body == a.body.(offerStatus := b.body.offerStatus)
       else b.body == a.body
  }

  ghost predicate Closed(db: Db, db': Db, offer: int, post: int, chosen: Option<int>) {
    && OffersClosed(db.offers, db'.offers, offer, post, chosen.Some?)
    && NegotiationsClosed(db.offers, db.negotiations, db'.negotiations, post, chosen)
    && PostsClosed(db.posts, db'.posts, post)
    && OnlyStamped(db.messages, db'.messages)
    && db'.users == db.users && db'.conversations == db.conversations && db'.next == db.next
  }

  /** What a transaction needs from the state it starts in; holds in any interleaving. */
  ghost predicate Ready(db: Db, offer: int, post: int, chosen: Option<int>) {
    && Tidy(db)
    && PendingThroughout(db.offers, db.negotiations)
    && offer in db.offers && db.offers[offer].postId == post
    && LatestPending(db.negotiations, offer, chosen)
  }

  // ---- the statements deliver it --------------------------------------------

  lemma OfferStatements(offers: Offers, offer: int, post: int, price: Option<int>, complete: bool)
    requires offer in offers
    ensures var marked := MarkAccepted(offers, offer, price);
            var offers' := RejectOffers(marked, Losers(marked, post, offer), complete);
            && OffersClosed(offers, offers', offer, post, complete)
            && offers'[offer].price == Or(price, offers[offer].price)
            && Losers(marked, post, offer) == Losers(offers, post, offer)
  {
  }

  lemma NegotiationStatements(offers: Offers, offers': Offers, negotiations: Negotiations,
                              offer: int, post: int, chosen: int)
    requires offer in offers && offers[offer].postId == post && OffersClosed(offers, offers', offer, post, true)
    requires LatestPending(negotiations, offer, Some(chosen))
    ensures var accepted := Decide(negotiations, {chosen}, Accepted);
            var settled := Decide(accepted, Rivals(accepted, offer, chosen), Rejected);
            var closed := Decide(settled, Fallout(settled, offers', post, offer), Rejected);
            NegotiationsClosed(offers, negotiations, closed, post, Some(chosen))
  {
  }

  lemma NoNegotiationStatements(offers: Offers, offers': Offers, negotiations: Negotiations, offer: int, post: int)
    requires offer in offers && OffersClosed(offers, offers', offer, post, false)
    requires LatestPending(negotiations, offer, None)
    ensures var closed := Decide(negotiations, Fallout(negotiations, offers', post, offer), Rejected);
            NegotiationsClosed(offers, negotiations, closed, post, None)
  {
  }

  lemma StampsOnly(messages: Messages, a: set<int>, refs: set<string>, status: Status)
    ensures OnlyStamped(messages, StampNegotiations(messages, a, status))
    ensures OnlyStamped(messages, StampOffers(messages, refs, status))
  {
  }

  lemma StampedAgain(a: Messages, b: Messages, c: Messages)
    requires OnlyStamped(a, b) && OnlyStamped(b, c)
    ensures OnlyStamped(a, c)
  {
  }

  lemma SettleStamps(db: Db, offer: int, chosen: int)
    ensures OnlyStamped(db.messages, Settle(db, offer, chosen).messages)
  {
    var accepted := Decide(db.negotiations, {chosen}, Accepted);
    var first := StampNegotiations(db.messages, {chosen}, Accepted);
    StampsOnly(db.messages, {chosen}, {}, Accepted);
    StampsOnly(first, Rivals(accepted, offer, chosen), {}, Rejected);
    StampedAgain(db.messages, first, Settle(db, offer, chosen).messages);
  }

  lemma ClosePostStamps(db: Db, post: int, offer: int, complete: bool)
    ensures OnlyStamped(db.messages, ClosePost(db, post, offer, complete).messages)
  {
    var losers := Losers(db.offers, post, offer);
    var first := StampOffers(db.messages, Printed(losers), Rejected);
    StampsOnly(db.messages, {}, Printed(losers), Rejected);
    StampsOnly(first, Fallout(db.negotiations, RejectOffers(db.offers, losers, complete), post, offer), {}, Rejected);
    StampedAgain(db.messages, first, ClosePost(db, post, offer, complete).messages);
  }

  /** Both branches of accept_offer do what is promised. */
  lemma AcceptCloses(db: Db, offer: int, post: int, chosen: Option<int>)
    requires Ready(db, offer, post, chosen)
    ensures var db' := AcceptWrite(db, offer, post, chosen);
            Closed(db, db', offer, post, chosen) && db'.offers[offer].price == db.offers[offer].price
  {
    OfferStatements(db.offers, offer, post, None, chosen.Some?);
    var marked := db.(offers := MarkAccepted(db.offers, offer, None));
    var offers' := AcceptWrite(db, offer, post, chosen).offers;
    match chosen
    case Some(c) =>
      NegotiationStatements(db.offers, offers', db.negotiations, offer, post, c);
      SettleStamps(marked, offer, c);
      ClosePostStamps(Settle(marked, offer, c), post, offer, true);
      StampedAgain(db.messages, Settle(marked, offer, c).messages, AcceptWrite(db, offer, post, chosen).messages);
    case None =>
      NoNegotiationStatements(db.offers, offers', db.negotiations, offer, post);
      ClosePostStamps(marked, post, offer, false);
  }

  /** accept_counter_offer does the same, and takes the negotiated price. */
  lemma CounterCloses(db: Db, id: string, offer: int, post: int, chosen: int)
    requires Ready(db, offer, post, Some(chosen))
    ensures var db' := CounterWrite(db, id, offer, post, chosen);
            && Closed(db, db', offer, post, Some(chosen))
            && db'.offers[offer].price == db.negotiations[chosen].proposedPrice
  {
    var price := Some(db.negotiations[chosen].proposedPrice);
    OfferStatements(db.offers, offer, post, price, true);
    var db' := CounterWrite(db, id, offer, post, chosen);
    NegotiationStatements(db.offers, db'.offers, db.negotiations, offer, post, chosen);
    var marked :=
      db.(offers := MarkAccepted(db.offers, offer, price), messages := StampOffers(db.messages, {id}, Accepted));
    StampsOnly(db.messages, {}, {id}, Accepted);
    SettleStamps(marked, offer, chosen);
    ClosePostStamps(Settle(marked, offer, chosen), post, offer, true);
    StampedAgain(db.messages, marked.messages, Settle(marked, offer, chosen).messages);
    StampedAgain(db.messages, Settle(marked, offer, chosen).messages, db'.messages);
  }
}
