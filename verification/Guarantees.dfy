// What the marketplace promises, said of its tables alone: in every state that
// requests lead to from empty tables.
module Guarantees {
  import opened Prelude
  import opened Ids
  import opened Tables
  import opened Handlers
  import opened Invariants
  import opened Safety
  import opened History
  import opened Interleaving
  import opened Breaking
  import opened Unread

  /** Every proposal in a chat shows the current status of its negotiation, and belongs to that negotiation's offer. */
  lemma ProposalsShowStatus(evs: seq<Event>, m: int)
    requires Run(EMPTY, evs) && m in After(EMPTY, evs).messages && After(EMPTY, evs).messages[m].body.Proposal?
    ensures var db := After(EMPTY, evs);
            var body := db.messages[m].body;
            && body.negotiationId in db.negotiations
            && body.offerStatus == db.negotiations[body.negotiationId].status
            && StringToInt(body.offerRef) == Some(db.negotiations[body.negotiationId].offerId)
  {
    Reachable(evs);
  }

  /** ... and lies in the conversation of exactly the offer's maker and the post's owner, who are two people. */
  lemma ProposalsStayPrivate(evs: seq<Event>, m: int)
    requires Run(EMPTY, evs) && m in After(EMPTY, evs).messages && After(EMPTY, evs).messages[m].body.Proposal?
    ensures var db := After(EMPTY, evs);
            var n := db.messages[m].body.negotiationId;
            && n in db.negotiations && db.negotiations[n].offerId in db.offers
            && var offer := db.offers[db.negotiations[n].offerId];
               && offer.postId in db.posts && offer.maker != db.posts[offer.postId].owner
               && db.messages[m].conversationId in db.conversations
               && db.conversations[db.messages[m].conversationId].participants ==
                    {offer.maker, db.posts[offer.postId].owner}
  {
    Reachable(evs);
    assert AtHome(After(EMPTY, evs).posts, After(EMPTY, evs).offers, After(EMPTY, evs).negotiations,
                  After(EMPTY, evs).conversations, After(EMPTY, evs).messages[m]);
  }

  /** A post is fulfilled exactly when one of its offers is accepted. */
  lemma FulfilledExactly(evs: seq<Event>, post: int)
    requires Run(EMPTY, evs) && post in After(EMPTY, evs).posts
    ensures var db := After(EMPTY, evs);
            db.posts[post].requestStatus.Fulfilled? <==>
            exists o :: o in db.offers && db.offers[o].postId == post && db.offers[o].status.Accepted?
  {
    Reachable(evs);
  }

  /** The negotiations of one offer: all pending while it is; one accepted at most, and then the offer is. */
  lemma NegotiationsFollowOffer(evs: seq<Event>, m: int, n: int)
    requires Run(EMPTY, evs) && m in After(EMPTY, evs).negotiations && n in After(EMPTY, evs).negotiations
    requires After(EMPTY, evs).negotiations[m].offerId == After(EMPTY, evs).negotiations[n].offerId
    ensures var db := After(EMPTY, evs);
            var offer := db.negotiations[m].offerId;
            && offer in db.offers
            && (db.offers[offer].status.Pending? ==> db.negotiations[m].status.Pending?)
            && (db.negotiations[m].status.Accepted? ==> db.offers[offer].status.Accepted?)
            && (db.negotiations[m].status.Accepted? && db.negotiations[n].status.Accepted? ==> m == n)
  {
    Reachable(evs);
  }

  /** Offers still open on a post came after every offer accepted on it. */
  lemma OpenOffersAreNewer(evs: seq<Event>, i: int, j: int)
    requires Run(EMPTY, evs) && i in After(EMPTY, evs).offers && j in After(EMPTY, evs).offers
    requires After(EMPTY, evs).offers[i].postId == After(EMPTY, evs).offers[j].postId
    requires After(EMPTY, evs).offers[i].status.Accepted? && After(EMPTY, evs).offers[j].status.Pending?
    ensures i < j
  {
    Reachable(evs);
  }

  /** Two different people share one conversation at most, and only participants speak. */
  lemma OneChatEach(evs: seq<Event>, c: int, d: int, u: int, v: int)
    requires Run(EMPTY, evs) && u != v && c in After(EMPTY, evs).conversations && d in After(EMPTY, evs).conversations
    requires {u, v} <= After(EMPTY, evs).conversations[c].participants
             && {u, v} <= After(EMPTY, evs).conversations[d].participants
    ensures c == d && After(EMPTY, evs).conversations[c].participants == {u, v}
    ensures forall m :: m in After(EMPTY, evs).messages && After(EMPTY, evs).messages[m].conversationId == c
                        ==> After(EMPTY, evs).messages[m].sender in {u, v}
  {
    Reachable(evs);
    var db := After(EMPTY, evs);
    assert Share(db.conversations[c], u, v) && Share(db.conversations[d], u, v);
    SharedIsExact(db, u, v, c);
  }

  /** Between any two points of a run a closed offer keeps its status and price, a decided negotiation its status. */
  lemma DecidedForGood(evs: seq<Event>, later: seq<Event>, o: int, n: int)
    requires Run(EMPTY, evs) && Run(After(EMPTY, evs), later)
    requires o in After(EMPTY, evs).offers && n in After(EMPTY, evs).negotiations
    ensures var db, end := After(EMPTY, evs), After(After(EMPTY, evs), later);
            && o in end.offers && end.offers[o].originalPrice == db.offers[o].originalPrice
            && (!db.offers[o].status.Pending? ==>
                  end.offers[o].status == db.offers[o].status && end.offers[o].price == db.offers[o].price)
            && n in end.negotiations
            && (!db.negotiations[n].status.Pending? ==> end.negotiations[n].status == db.negotiations[n].status)
  {
    Reachable(evs);
    RunPreserves(After(EMPTY, evs), later);
    assert OfferKept(After(EMPTY, evs).offers[o], After(After(EMPTY, evs), later).offers[o]);
    assert NegotiationKept(After(EMPTY, evs).negotiations[n], After(After(EMPTY, evs), later).negotiations[n]);
  }

  /**
   * However guards and writes of any number of requests interleave: no offer
   * becomes pending again, its original price stays, a fulfilled post stays so,
   * and an accepted offer's post is fulfilled.
   */
  lemma InterleavedSafety(steps: seq<Step>, later: seq<Step>, o: int, p: int)
    requires Interleaved(IDLE, steps) && Interleaved(Reached(IDLE, steps), later)
    requires o in Reached(IDLE, steps).db.offers && p in Reached(IDLE, steps).db.posts
    ensures var db, end := Reached(IDLE, steps).db, Reached(Reached(IDLE, steps), later).db;
            && o in end.offers && end.offers[o].originalPrice == db.offers[o].originalPrice
            && (!db.offers[o].status.Pending? ==> !end.offers[o].status.Pending?)
            && (end.offers[o].status.Accepted? ==>
                  end.offers[o].postId in end.posts && end.posts[end.offers[o].postId].requestStatus.Fulfilled?)
            && p in end.posts
            && (db.posts[p].requestStatus.Fulfilled? ==> end.posts[p].requestStatus.Fulfilled?)
  {
    RunSurvives(IDLE, steps);
    RunSurvives(Reached(IDLE, steps), later);
    assert OfferSurvives(Reached(IDLE, steps).db.offers[o], Reached(Reached(IDLE, steps), later).db.offers[o]);
  }

  /**
   * And of the chats, with lookups and insertions of conversations interleaved
   * too: a conversation has no participants or two, only they send to it, a
   * proposal lies with exactly the offer's parties, and however the users are
   * listed, their unread counts add up to the unread messages.
   */
  lemma InterleavedChats(steps: seq<Step>, c: int, m: int, listed: seq<int>)
    requires Interleaved(IDLE, steps)
    requires Distinct(listed) && Elements(listed) == Reached(IDLE, steps).db.users
    ensures var db := Reached(IDLE, steps).db;
            && (c in db.conversations ==> |db.conversations[c].participants| in {0, 2})
            && (m in db.messages ==>
                  && db.messages[m].conversationId in db.conversations
                  && db.messages[m].sender in db.conversations[db.messages[m].conversationId].participants
                  && (db.messages[m].body.Proposal? ==>
                        AtHome(db.posts, db.offers, db.negotiations, db.conversations, db.messages[m])))
            && TotalUnread(db, listed) == |AllUnread(db)|
  {
    RunHoused(IDLE, steps);
    Conservation(Reached(IDLE, steps).db, listed);
  }

  /** An interleaving without one of the five breaking steps ends with everything one-at-a-time requests keep. */
  lemma InterleavedIntact(steps: seq<Step>)
    requires Interleaved(IDLE, steps) && Intact(IDLE, steps)
    ensures Inv(Reached(IDLE, steps).db)
  {
    IntactRun(IDLE, steps);
  }
}
