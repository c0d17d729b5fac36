// The tables of migrations/001_complete_schema.sql that the offer, negotiation
// and chat handlers touch, and one function per SQL statement they issue.
module Tables {
  import opened Prelude
  import opened Ids

  datatype Status = Pending | Accepted | Rejected

  // offers.negotiation_status: 'none', 'in_progress', 'completed'
  datatype Haggling = Untouched | InProgress | Completed

  // posts.request_status: '', 'open', 'fulfilled'
  datatype RequestStatus = Blank | Open | Fulfilled

  datatype Post = Post(owner: int, content: string, requestStatus: RequestStatus)

  datatype Offer = Offer(postId: int, maker: int, title: string, description: string,
                         price: int, originalPrice: int, isPublic: bool,
                         status: Status, haggling: Haggling)

  datatype Negotiation = Negotiation(offerId: int, proposer: int, proposedPrice: int,
                                     note: string, status: Status, createdAt: int)

  // A conversations row with its conversation_participants rows.
  datatype Conversation = Conversation(name: string, participants: set<int>)

  datatype NoteKind = ProofRequest | ProofSubmission | ProofApproval | ProofRejection | Escrow

  // The context and metadata columns of a message. Only context 'negotiation'
  // carries metadata: the offer id as text and a second copy of the status.
  datatype Body =
    | Text(content: string)
    | Note(kind: NoteKind, contextId: int)
    | Proposal(negotiationId: int, offerRef: string, offerStatus: Status)

  datatype Message = Message(conversationId: int, sender: int, body: Body, isRead: bool)

  // The next value of each table's SERIAL sequence; never handed back on rollback.
  datatype Sequences = Sequences(post: int, offer: int, negotiation: int, conversation: int, message: int)

  type Posts = map<int, Post>
  type Offers = map<int, Offer>
  type Negotiations = map<int, Negotiation>
  type Conversations = map<int, Conversation>
  type Messages = map<int, Message>

  datatype Db = Db(users: set<int>, posts: Posts, offers: Offers, negotiations: Negotiations,
                   conversations: Conversations, messages: Messages, next: Sequences)

  const EMPTY := Db({}, map[], map[], map[], map[], map[], Sequences(1, 1, 1, 1, 1))

  /** The tables as they were before the transaction, the sequences as they are. */
  function RolledBack(before: Db, during: Db): Db { before.(next := during.next) }

  // ---- price_negotiations ------------------------------------------------

  /** UPDATE price_negotiations SET status = verdict WHERE id in the given set. */
  function Decide(negotiations: Negotiations, ids: set<int>, verdict: Status): Negotiations {
    map n | n in negotiations ::
      if n in ids then negotiations[n].(status := verdict) else negotiations[n]
  }

  /** Matches of: offer_id = offer AND id != chosen AND status = 'pending'. */
  function Rivals(negotiations: Negotiations, offer: int, chosen: int): set<int> {
    set n | n in negotiations && negotiations[n].offerId == offer && n != chosen
            && negotiations[n].status.Pending?
  }

  /** Matches of: the negotiation's offer is another offer of the post, status = 'pending'. */
  function Fallout(negotiations: Negotiations, offers: Offers, post: int, offer: int): set<int> {
    set n | n in negotiations && negotiations[n].offerId in offers
            && offers[negotiations[n].offerId].postId == post
            && negotiations[n].offerId != offer && negotiations[n].status.Pending?
  }

  /** What ORDER BY created_at DESC LIMIT 1 may return among an offer's pending negotiations. */
  ghost predicate LatestPending(negotiations: Negotiations, offer: int, chosen: Option<int>) {
    match chosen
    case None => forall n :: n in negotiations && negotiations[n].offerId == offer ==> !negotiations[n].status.Pending?
    case Some(c) =>
      && c in negotiations && negotiations[c].offerId == offer && negotiations[c].status.Pending?
      && forall n :: n in negotiations && negotiations[n].offerId == offer && negotiations[n].status.Pending?
                 ==> negotiations[n].createdAt <= negotiations[c].createdAt
  }

  // ---- offers and posts --------------------------------------------------

  /** Matches of: post_id = post AND id != offer AND status = 'pending'. */
  function Losers(offers: Offers, post: int, offer: int): set<int> {
    set o | o in offers && offers[o].postId == post && o != offer && offers[o].status.Pending?
  }

  /** UPDATE offers SET status = 'rejected' [, negotiation_status = 'completed']. */
  function RejectOffers(offers: Offers, ids: set<int>, complete: bool): Offers {
    map o | o in offers ::
      if o !in ids then offers[o]
      else if complete then offers[o].(status := Rejected, haggling := Completed)
      else offers[o].(status := Rejected)
  }

  /** UPDATE posts SET request_status = 'fulfilled' WHERE id = post. */
  function Fulfil(posts: Posts, post: int): Posts {
    if post in posts then posts[post := posts[post].(requestStatus := Fulfilled)] else posts
  }

  // ---- messages ----------------------------------------------------------

  /** jsonb_set(metadata, '{offer_status}', status) on every proposal of these negotiations. */
  function StampNegotiations(messages: Messages, ids: set<int>, status: Status): Messages {
    map m | m in messages ::
      var body := messages[m].body;
      if body.Proposal? && body.negotiationId in ids
      then messages[m].(body := body.(offerStatus := status))
      else messages[m]
  }

  /** The same on every proposal whose metadata offer_id is one of these texts. */
  function StampOffers(messages: Messages, refs: set<string>, status: Status): Messages {
    map m | m in messages ::
      var body := messages[m].body;
      if body.Proposal? && body.offerRef in refs
      then messages[m].(body := body.(offerStatus := status))
      else messages[m]
  }

  /** The printed forms of a set of ids. */
  function Printed(ids: set<int>): set<string> {
    set i | i in ids && i >= 0 :: IntToString(i)
  }

  lemma StampNegotiationsTwice(messages: Messages, a: set<int>, b: set<int>, status: Status)
    ensures StampNegotiations(StampNegotiations(messages, a, status), b, status)
         == StampNegotiations(messages, a + b, status)
  {
  }

  lemma StampOffersTwice(messages: Messages, a: set<string>, b: set<string>, status: Status)
    ensures StampOffers(StampOffers(messages, a, status), b, status)
         == StampOffers(messages, a + b, status)
  {
  }

  // ---- conversations -----------------------------------------------------

  /** What the LIMIT 1 join of participants may return for two users. */
  ghost predicate SharedConversation(conversations: Conversations, u: int, v: int, found: Option<int>) {
    match found
    case None => forall c :: c in conversations ==> !({u, v} <= conversations[c].participants)
    case Some(c) => c in conversations && {u, v} <= conversations[c].participants
  }

  /** Matches of: conversation_id = c AND sender_id != user AND is_read = false. */
  function UnreadIn(messages: Messages, c: int, user: int): set<int> {
    set m | m in messages && messages[m].conversationId == c && messages[m].sender != user && !messages[m].isRead
  }

  /** UPDATE messages SET is_read = true WHERE id in the given set. */
  function SetRead(messages: Messages, ids: set<int>): Messages {
    map m | m in messages :: if m in ids then messages[m].(isRead := true) else messages[m]
  }
}
