// The metadata copy of a negotiation's status under the write transactions:
// the pass by negotiation id repairs what the pass by offer id overwrites,
// except on an offer that was closed before the transaction began.
module Copies {
  import opened Prelude
  import opened Ids
  import opened Tables
  import opened Handlers
  import opened Invariants
  import opened Closing

  /** The copy in one proposal is the status of its negotiation. */
  ghost predicate CopyAgrees(db: Db, m: int) {
    m in db.messages && db.messages[m].body.Proposal? && db.messages[m].body.negotiationId in db.negotiations ==>
      db.messages[m].body.offerStatus == db.negotiations[db.messages[m].body.negotiationId].status
  }

  /** No closed negotiation, other than an accepted one, is addressed by the text `id`. */
  ghost predicate Undisturbed(db: Db, id: string) {
    forall m :: m in db.messages && db.messages[m].body.Proposal? && db.messages[m].body.offerRef == id
                && db.messages[m].body.negotiationId in db.negotiations
                ==> !db.negotiations[db.messages[m].body.negotiationId].status.Rejected?
  }

  /** A printed id addresses the proposals of that very offer and no other. */
  lemma PrintedAddresses(ids: set<int>, ref: string, offer: int)
    requires StringToInt(ref) == Some(offer)
    ensures ref in Printed(ids) ==> offer in ids
  {
    if ref in Printed(ids) {
      var i :| i in ids && i >= 0 && ref == IntToString(i);
      RoundTrip(i);
    }
  }

  /** ClosePost leaves a proposal's copy right if it was right before. */
  lemma ClosePostCopy(db: Db, post: int, offer: int, complete: bool, m: int)
    requires OfferKeys(db.users, db.posts, db.offers, db.next.offer)
    requires m in db.messages && db.messages[m].body.Proposal?
    requires var body := db.messages[m].body;
             && body.negotiationId in db.negotiations
             && var row := db.negotiations[body.negotiationId];
                && StringToInt(body.offerRef) == Some(row.offerId)
                && (row.offerId in db.offers && db.offers[row.offerId].status.Pending? ==> row.status.Pending?)
    ensures CopyAgrees(ClosePost(db, post, offer, complete), m) <==>
            CopyAgrees(db, m) || db.messages[m].body.negotiationId in
              Fallout(db.negotiations, RejectOffers(db.offers, Losers(db.offers, post, offer), complete), post, offer)
  {
    var body := db.messages[m].body;
    PrintedAddresses(Losers(db.offers, post, offer), body.offerRef, db.negotiations[body.negotiationId].offerId);
  }

  /** So does Settle, for every negotiation it does not itself decide. */
  lemma SettleCopy(db: Db, offer: int, chosen: int, m: int)
    requires m in db.messages && db.messages[m].body.Proposal? && db.messages[m].body.negotiationId in db.negotiations
    ensures var n := db.messages[m].body.negotiationId;
            CopyAgrees(Settle(db, offer, chosen), m) <==>
            CopyAgrees(db, m) || n == chosen || n in Rivals(db.negotiations, offer, chosen)
  {
  }

  lemma AcceptCopy(db: Db, offer: int, post: int, chosen: Option<int>, m: int)
    requires Ready(db, offer, post, chosen) && m in db.messages && db.messages[m].body.Proposal? && CopyAgrees(db, m)
    ensures CopyAgrees(AcceptWrite(db, offer, post, chosen), m)
  {
    var marked := db.(offers := MarkAccepted(db.offers, offer, None));
    match chosen
    case Some(c) =>
      SettleCopy(marked, offer, c, m);
      ClosePostCopy(Settle(marked, offer, c), post, offer, true, m);
    case None =>
      ClosePostCopy(marked, post, offer, false, m);
  }

  /** accept_offer never makes the copies disagree, whenever it runs. */
  lemma AcceptCopies(db: Db, offer: int, post: int, chosen: Option<int>)
    requires Ready(db, offer, post, chosen) && CopiesAgree(db.messages, db.negotiations)
    ensures var db' := AcceptWrite(db, offer, post, chosen);
            CopiesAgree(db'.messages, db'.negotiations)
  {
    var db' := AcceptWrite(db, offer, post, chosen);
    AcceptCloses(db, offer, post, chosen);
    forall m | m in db'.messages && db'.messages[m].body.Proposal?
               && db'.messages[m].body.negotiationId in db'.negotiations
      ensures db'.messages[m].body.offerStatus == db'.negotiations[db'.messages[m].body.negotiationId].status
    {
      assert SameButStatus(db.messages[m], db'.messages[m]);
      AcceptCopy(db, offer, post, chosen, m);
    }
  }

  /** The stamp by offer id makes a copy say accepted; deciding the offer's negotiations puts the pending ones right. */
  lemma StampedThenSettled(db: Db, id: string, offer: int, chosen: int, m: int)
    requires LatestPending(db.negotiations, offer, Some(chosen))
    requires m in db.messages && db.messages[m].body.Proposal? && db.messages[m].body.negotiationId in db.negotiations
    requires db.messages[m].body.offerRef == id ==> db.negotiations[db.messages[m].body.negotiationId].offerId == offer
    requires CopyAgrees(db, m)
    ensures CopyAgrees(Settle(db.(messages := StampOffers(db.messages, {id}, Accepted)), offer, chosen), m) <==>
            db.messages[m].body.offerRef != id || !db.negotiations[db.messages[m].body.negotiationId].status.Rejected?
  {
    SettleCopy(db.(messages := StampOffers(db.messages, {id}, Accepted)), offer, chosen, m);
  }

  lemma CounterCopy(db: Db, id: string, offer: int, post: int, chosen: int, m: int)
    requires Ready(db, offer, post, Some(chosen)) && StringToInt(id) == Some(offer)
    requires m in db.messages && db.messages[m].body.Proposal? && CopyAgrees(db, m)
    ensures CopyAgrees(CounterWrite(db, id, offer, post, chosen), m) <==>
            db.messages[m].body.offerRef != id || !db.negotiations[db.messages[m].body.negotiationId].status.Rejected?
  {
    hide StringToInt;
    var price := Some(db.negotiations[chosen].proposedPrice);
    var marked := db.(offers := MarkAccepted(db.offers, offer, price));
    StampedThenSettled(marked, id, offer, chosen, m);
    var settled := Settle(marked.(messages := StampOffers(db.messages, {id}, Accepted)), offer, chosen);
    ClosePostCopy(settled, post, offer, true, m);
  }

  lemma MessageByMessage(db: Db, db': Db, id: string)
    requires ProposalKeys(db.messages, db.negotiations)
    requires OnlyStamped(db.messages, db'.messages) && db'.negotiations.Keys == db.negotiations.Keys
    requires forall m | m in db.messages && db.messages[m].body.Proposal? ::
               CopyAgrees(db', m) <==>
               || db.messages[m].body.offerRef != id
               || !db.negotiations[db.messages[m].body.negotiationId].status.Rejected?
    ensures CopiesAgree(db'.messages, db'.negotiations) <==> Undisturbed(db, id)
  {
  }

  /**
   * accept_counter_offer stamps every message of the offer before it corrects
   * them one negotiation at a time. The copies still agree afterwards exactly
   * when no rejected negotiation was addressed by that text.
   */
  lemma CounterCopiesExactly(db: Db, id: string, offer: int, post: int, chosen: int)
    requires Ready(db, offer, post, Some(chosen)) && StringToInt(id) == Some(offer)
    requires CopiesAgree(db.messages, db.negotiations)
    ensures var db' := CounterWrite(db, id, offer, post, chosen);
            CopiesAgree(db'.messages, db'.negotiations) <==> Undisturbed(db, id)
  {
    var db' := CounterWrite(db, id, offer, post, chosen);
    CounterCloses(db, id, offer, post, chosen);
    forall m | m in db.messages && db.messages[m].body.Proposal?
      ensures CopyAgrees(db', m) <==>
              db.messages[m].body.offerRef != id || !db.negotiations[db.messages[m].body.negotiationId].status.Rejected?
    {
      CounterCopy(db, id, offer, post, chosen, m);
    }
    MessageByMessage(db, db', id);
  }

  /** In particular they agree whenever the offer is still pending, as the handler's guard demands. */
  lemma CounterCopies(db: Db, id: string, offer: int, post: int, chosen: int)
    requires Ready(db, offer, post, Some(chosen)) && StringToInt(id) == Some(offer)
    requires CopiesAgree(db.messages, db.negotiations) && db.offers[offer].status.Pending?
    ensures var db' := CounterWrite(db, id, offer, post, chosen);
            CopiesAgree(db'.messages, db'.negotiations)
  {
    CounterCopiesExactly(db, id, offer, post, chosen);
  }
}
