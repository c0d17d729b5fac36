// What every reachable state of the marketplace satisfies when handlers run
// one at a time, and what no request ever undoes.
module Invariants {
  import opened Prelude
  import opened Ids
  import opened Tables
  import opened Handlers

  // ---- table shapes ------------------------------------------------------

  ghost predicate PostKeys(users: set<int>, posts: Posts, next: int) {
    1 <= next && forall p :: p in posts ==> 1 <= p < next && posts[p].owner in users
  }

  /** Every offer names a post of somebody else. */
  ghost predicate OfferKeys(users: set<int>, posts: Posts, offers: Offers, next: int) {
    1 <= next && forall o :: o in offers ==>
      && 1 <= o < next
      && offers[o].maker in users
      && offers[o].postId in posts
      && offers[o].maker != posts[offers[o].postId].owner
  }

  ghost predicate NegotiationKeys(offers: Offers, negotiations: Negotiations, next: int) {
    1 <= next && forall n :: n in negotiations ==> 1 <= n < next && negotiations[n].offerId in offers
  }

  // ---- deals -------------------------------------------------------------

  /** A pending offer has only pending negotiations. */
  ghost predicate PendingThroughout(offers: Offers, negotiations: Negotiations) {
    forall n :: n in negotiations && negotiations[n].offerId in offers
                && offers[negotiations[n].offerId].status.Pending?
                ==> negotiations[n].status.Pending?
  }

  /** An accepted negotiation belongs to an accepted offer. */
  ghost predicate AcceptedBelow(offers: Offers, negotiations: Negotiations) {
    forall n :: n in negotiations && negotiations[n].status.Accepted?
                ==> negotiations[n].offerId in offers && offers[negotiations[n].offerId].status.Accepted?
  }

  /** No offer has two accepted negotiations. */
  ghost predicate AcceptedOnce(negotiations: Negotiations) {
    forall m, n | m in negotiations && n in negotiations
         && negotiations[m].offerId == negotiations[n].offerId
         && negotiations[m].status.Accepted? && negotiations[n].status.Accepted?
      :: m == n
  }

  /** On one post, every pending offer is newer than every accepted one. */
  ghost predicate PendingNewer(offers: Offers) {
    forall i, j | i in offers && j in offers
      :: offers[i].postId == offers[j].postId && offers[i].status.Accepted? && offers[j].status.Pending? ==> i < j
  }

  /** An accepted offer's post is fulfilled. */
  ghost predicate AcceptedFulfils(posts: Posts, offers: Offers) {
    forall o :: o in offers && offers[o].status.Accepted? && offers[o].postId in posts
                ==> posts[offers[o].postId].requestStatus.Fulfilled?
  }

  /** A fulfilled post has an accepted offer. */
  ghost predicate FulfilledByAccepted(posts: Posts, offers: Offers) {
    forall p :: p in posts && posts[p].requestStatus.Fulfilled?
                ==> exists o :: o in offers && offers[o].postId == p && offers[o].status.Accepted?
  }

  // ---- the two copies of a negotiation's status -----------------------------

  /** A proposal message names a negotiation, and its metadata names that negotiation's offer. */
  ghost predicate ProposalKeys(messages: Messages, negotiations: Negotiations) {
    forall m :: m in messages && messages[m].body.Proposal? ==>
      && messages[m].body.negotiationId in negotiations
      && StringToInt(messages[m].body.offerRef) == Some(negotiations[messages[m].body.negotiationId].offerId)
  }

  /** The metadata copy of every negotiation status is the status itself. */
  ghost predicate CopiesAgree(messages: Messages, negotiations: Negotiations) {
    forall m :: m in messages && messages[m].body.Proposal? && messages[m].body.negotiationId in negotiations ==>
      messages[m].body.offerStatus == negotiations[messages[m].body.negotiationId].status
  }

  // ---- chats -------------------------------------------------------------

  /** Every conversation has no participants or two different ones. */
  ghost predicate Pairs(users: set<int>, conversations: Conversations, next: int) {
    1 <= next && forall c :: c in conversations ==>
      && 1 <= c < next
      && conversations[c].participants <= users
      && (conversations[c].participants == {} || |conversations[c].participants| == 2)
  }

  /** Two different users share at most one conversation. */
  ghost predicate PairsOnce(conversations: Conversations) {
    forall c, d, u, v | c in conversations && d in conversations && u != v
      :: Share(conversations[c], u, v) && Share(conversations[d], u, v) ==> c == d
  }

  predicate Share(conversation: Conversation, u: int, v: int) {
    {u, v} <= conversation.participants
  }

  /** Every sender is a participant. */
  ghost predicate SendersInside(conversations: Conversations, messages: Messages, next: int) {
    1 <= next && forall m :: m in messages ==>
      && 1 <= m < next
      && messages[m].conversationId in conversations
      && messages[m].sender in conversations[messages[m].conversationId].participants
  }

  /** A proposal lies in the conversation of exactly the offer's maker and the post's owner. */
  ghost predicate ProposalsAtHome(posts: Posts, offers: Offers, negotiations: Negotiations,
                                  conversations: Conversations, messages: Messages) {
    forall m :: m in messages && messages[m].body.Proposal? ==>
      AtHome(posts, offers, negotiations, conversations, messages[m])
  }

  ghost predicate AtHome(posts: Posts, offers: Offers, negotiations: Negotiations,
                         conversations: Conversations, message: Message)
    requires message.body.Proposal?
  {
    && message.body.negotiationId in negotiations
    && message.conversationId in conversations
    && var o := negotiations[message.body.negotiationId].offerId;
       && o in offers
       && offers[o].postId in posts
       && conversations[message.conversationId].participants == {offers[o].maker, posts[offers[o].postId].owner}
  }

  ghost predicate Tidy(db: Db) {
    && PostKeys(db.users, db.posts, db.next.post)
    && OfferKeys(db.users, db.posts, db.offers, db.next.offer)
    && NegotiationKeys(db.offers, db.negotiations, db.next.negotiation)
    && ProposalKeys(db.messages, db.negotiations)
  }

  ghost predicate Deals(db: Db) {
    && PendingThroughout(db.offers, db.negotiations)
    && AcceptedBelow(db.offers, db.negotiations)
    && AcceptedOnce(db.negotiations)
    && PendingNewer(db.offers)
    && AcceptedFulfils(db.posts, db.offers)
    && FulfilledByAccepted(db.posts, db.offers)
  }

  /** Conversations and messages, apart from how many conversations a pair has. */
  ghost predicate Rooms(db: Db) {
    && Pairs(db.users, db.conversations, db.next.conversation)
    && SendersInside(db.conversations, db.messages, db.next.message)
    && ProposalsAtHome(db.posts, db.offers, db.negotiations, db.conversations, db.messages)
  }

  ghost predicate Chats(db: Db) {
    Rooms(db) && PairsOnce(db.conversations)
  }

  ghost predicate Inv(db: Db) {
    Tidy(db) && Deals(db) && CopiesAgree(db.messages, db.negotiations) && Chats(db)
  }
}
