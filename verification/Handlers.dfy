// What one request of each handler does to the tables, statement by statement,
// when it runs alone. Choices that SQL leaves open (which of several equal
// rows LIMIT 1 returns) are arguments.
module Handlers {
  import opened Prelude
  import opened Ids
  import opened Tables

  datatype Outcome = Ok | BadRequest | Forbidden | NotFound | ServerError

  // ---- posts and offers (controllers/community.cc, controllers/offers.cc) ---

  function CreatePost(db: Db, user: int, content: string, isRequest: bool, mediaOk: bool): (Db, Outcome) {
    if content == "" then (db, BadRequest)
    else
      var post := Post(user, content, if isRequest then Open else Blank);
      var inserted := db.(posts := db.posts[db.next.post := post], next := db.next.(post := db.next.post + 1));
      if mediaOk then (inserted, Ok) else (RolledBack(db, inserted), BadRequest)
  }

  function InsertOffer(db: Db, post: int, user: int, title: string, description: string, price: int,
                       isPublic: bool): Db {
    var offer := Offer(post, user, title, description, price, price, isPublic, Pending, Untouched);
    db.(offers := db.offers[db.next.offer := offer], next := db.next.(offer := db.next.offer + 1))
  }

  function CreateOfferGuard(db: Db, user: int, postRef: string, title: string, description: string,
                            price: int): Outcome {
    match StringToInt(postRef)
    case None => BadRequest
    case Some(post) =>
      if post < 0 || title == "" || description == "" || price <= 0 then BadRequest
      else if post !in db.posts then NotFound
      else if db.posts[post].owner == user then BadRequest
      else Ok
  }

  function CreateOffer(db: Db, user: int, postRef: string, title: string, description: string, price: int,
                       isPublic: bool, mediaOk: bool): (Db, Outcome) {
    var guard := CreateOfferGuard(db, user, postRef, title, description, price);
    if guard != Ok then (db, guard)
    else
      var inserted := InsertOffer(db, StringToInt(postRef).value, user, title, description, price, isPublic);
      if mediaOk then (inserted, Ok) else (RolledBack(db, inserted), BadRequest)
  }

  datatype Changes = Changes(title: Option<string>, description: Option<string>, price: Option<int>,
                             isPublic: Option<bool>)

  function Or<T>(wanted: Option<T>, current: T): T {
    match wanted case None => current case Some(v) => v
  }

  function Amend(offer: Offer, changes: Changes): Offer {
    offer.(title := Or(changes.title, offer.title),
           description := Or(changes.description, offer.description),
           price := Or(changes.price, offer.price),
           isPublic := Or(changes.isPublic, offer.isPublic))
  }

  function UpdateOfferGuard(db: Db, user: int, id: string): Outcome {
    match StringToInt(id)
    case None => BadRequest
    case Some(offer) =>
      if offer < 0 then BadRequest
      else if offer !in db.offers then NotFound
      else if db.offers[offer].maker != user then Forbidden
      else if !db.offers[offer].status.Pending? then BadRequest
      else Ok
  }

  /** The row is updated outside the transaction, so a media failure does not undo it. */
  function UpdateOffer(db: Db, user: int, id: string, changes: Changes, mediaOk: bool): (Db, Outcome) {
    var guard := UpdateOfferGuard(db, user, id);
    if guard != Ok then (db, guard)
    else
      var offer := StringToInt(id).value;
      (db.(offers := db.offers[offer := Amend(db.offers[offer], changes)]), if mediaOk then Ok else BadRequest)
  }

  // ---- accept, accept-counter, reject ---------------------------------------

  // Who may close an offer: the post's owner, or for accept-counter its maker.
  function CloseGuard(db: Db, user: int, id: string, byMaker: bool): Outcome {
    match StringToInt(id)
    case None => ServerError
    case Some(offer) =>
      if offer !in db.offers || db.offers[offer].postId !in db.posts then NotFound
      else if user != (if byMaker then db.offers[offer].maker else db.posts[db.offers[offer].postId].owner)
      then Forbidden
      else if !db.offers[offer].status.Pending? then BadRequest
      else Ok
  }

  /** Mark one offer accepted, at its present price or at a negotiated one. */
  function MarkAccepted(offers: Offers, offer: int, price: Option<int>): Offers
    requires offer in offers
  {
    offers[offer := offers[offer].(status := Accepted, price := Or(price, offers[offer].price), haggling := Completed)]
  }

  /** Accept one negotiation of the offer and reject its pending rivals, stamping their messages. */
  function Settle(db: Db, offer: int, chosen: int): Db {
    var accepted := Decide(db.negotiations, {chosen}, Accepted);
    var rivals := Rivals(accepted, offer, chosen);
    db.(negotiations := Decide(accepted, rivals, Rejected),
        messages := StampNegotiations(StampNegotiations(db.messages, {chosen}, Accepted), rivals, Rejected))
  }

  /** Reject the post's other pending offers and their pending negotiations; fulfil the post. */
  function ClosePost(db: Db, post: int, offer: int, complete: bool): Db {
    var losers := Losers(db.offers, post, offer);
    var offers := RejectOffers(db.offers, losers, complete);
    var stamped := StampOffers(db.messages, Printed(losers), Rejected);
    var fallout := Fallout(db.negotiations, offers, post, offer);
    db.(offers := offers,
        negotiations := Decide(db.negotiations, fallout, Rejected),
        messages := StampNegotiations(stamped, fallout, Rejected),
        posts := Fulfil(db.posts, post))
  }

  /** The write transaction of accept_offer. */
  function AcceptWrite(db: Db, offer: int, post: int, chosen: Option<int>): Db
    requires offer in db.offers
  {
    var marked := db.(offers := MarkAccepted(db.offers, offer, None));
    match chosen
    case Some(c) => ClosePost(Settle(marked, offer, c), post, offer, true)
    case None => ClosePost(marked, post, offer, false)
  }

  /** The write transaction of accept_counter_offer; `id` is the offer id as the request spelt it. */
  function CounterWrite(db: Db, id: string, offer: int, post: int, chosen: int): Db
    requires offer in db.offers && chosen in db.negotiations
  {
    var price := Some(db.negotiations[chosen].proposedPrice);
    var marked := db.(offers := MarkAccepted(db.offers, offer, price),
                      messages := StampOffers(db.messages, {id}, Accepted));
    ClosePost(Settle(marked, offer, chosen), post, offer, true)
  }

  /** The single statement of reject_offer. */
  function RejectWrite(db: Db, offer: int): Db {
    db.(offers := RejectOffers(db.offers, {offer}, true))
  }

  ghost predicate ChosenFor(db: Db, id: string, chosen: Option<int>) {
    match StringToInt(id)
    case None => chosen.None?
    case Some(offer) => LatestPending(db.negotiations, offer, chosen)
  }

  function AcceptOffer(db: Db, user: int, id: string, chosen: Option<int>): (Db, Outcome) {
    var guard := CloseGuard(db, user, id, false);
    if guard != Ok then (db, guard)
    else
      var offer := StringToInt(id).value;
      (AcceptWrite(db, offer, db.offers[offer].postId, chosen), Ok)
  }

  function AcceptCounter(db: Db, user: int, id: string, chosen: Option<int>): (Db, Outcome)
    requires chosen.Some? ==> chosen.value in db.negotiations
  {
    var guard := CloseGuard(db, user, id, true);
    if guard != Ok then (db, guard)
    else if chosen.None? then (db, BadRequest)
    else
      var offer := StringToInt(id).value;
      (CounterWrite(db, id, offer, db.offers[offer].postId, chosen.value), Ok)
  }

  function RejectOffer(db: Db, user: int, id: string): (Db, Outcome) {
    var guard := CloseGuard(db, user, id, false);
    if guard != Ok then (db, guard) else (RejectWrite(db, StringToInt(id).value), Ok)
  }

  // ---- negotiations (controllers/offers_negotiation.cc) ---------------------

  // An INSERT of two participants violates the primary key when they are one
  // user, and a foreign key when either does not exist.
  predicate CanPair(users: set<int>, u: int, v: int) { u != v && {u, v} <= users }

  /** A fresh conversation; it stays empty when its participants cannot be inserted. */
  function InsertConversation(db: Db, name: string, u: int, v: int): Db {
    var participants := if CanPair(db.users, u, v) then {u, v} else {};
    db.(conversations := db.conversations[db.next.conversation := Conversation(name, participants)],
        next := db.next.(conversation := db.next.conversation + 1))
  }

  function InsertMessage(db: Db, conversation: int, sender: int, body: Body): Db {
    db.(messages := db.messages[db.next.message := Message(conversation, sender, body, false)],
        next := db.next.(message := db.next.message + 1))
  }

  predicate Party(db: Db, offer: int, user: int)
    requires offer in db.offers && db.offers[offer].postId in db.posts
  {
    user == db.offers[offer].maker || user == db.posts[db.offers[offer].postId].owner
  }

  function Counterparty(db: Db, offer: int, user: int): int
    requires offer in db.offers && db.offers[offer].postId in db.posts
  {
    if user == db.offers[offer].maker then db.posts[db.offers[offer].postId].owner else db.offers[offer].maker
  }

  /** Offer exists and the user is its maker or the post's owner. */
  function PartyGuard(db: Db, user: int, id: string, malformed: Outcome): Outcome {
    match StringToInt(id)
    case None => malformed
    case Some(offer) =>
      if offer !in db.offers || db.offers[offer].postId !in db.posts then NotFound
      else if !Party(db, offer, user) then Forbidden
      else Ok
  }

  function InsertNegotiation(db: Db, offer: int, user: int, price: int, note: string, now: int): Db
    requires offer in db.offers
  {
    db.(offers := db.offers[offer := db.offers[offer].(haggling := InProgress)],
        negotiations := db.negotiations[db.next.negotiation := Negotiation(offer, user, price, note, Pending, now)],
        next := db.next.(negotiation := db.next.negotiation + 1))
  }

  function NegotiationName(id: string): string {
    "Offer #" + id + " Negotiation"
  }

  /** The transaction of negotiate_offer once the guard has passed. */
  function NegotiateWrite(db: Db, user: int, id: string, offer: int, other: int, price: int, note: string, now: int,
                          found: Option<int>): (Db, Outcome)
    requires offer in db.offers
  {
    var proposed := InsertNegotiation(db, offer, user, price, note, now);
    var body := Proposal(db.next.negotiation, id, Pending);
    match found
    case Some(c) => (InsertMessage(proposed, c, user, body), Ok)
    case None =>
      var started := InsertConversation(proposed, NegotiationName(id), user, other);
      if CanPair(db.users, user, other)
      then (InsertMessage(started, db.next.conversation, user, body), Ok)
      else (RolledBack(db, started), ServerError)
  }

  function Negotiate(db: Db, user: int, id: string, price: int, note: string, now: int,
                     found: Option<int>): (Db, Outcome) {
    if price < 0 then (db, BadRequest)
    else
      var guard := PartyGuard(db, user, id, ServerError);
      if guard != Ok then (db, guard)
      else
        var offer := StringToInt(id).value;
        NegotiateWrite(db, user, id, offer, Counterparty(db, offer, user), price, note, now, found)
  }

  // The proof and escrow handlers post a note into the parties' conversation;
  // only the offer's maker submits proof, only the post's owner does the rest.
  // An approval or rejection first needs its product_proofs row.
  function NoteGuard(db: Db, user: int, id: string, kind: NoteKind, rowFound: bool): Outcome {
    match StringToInt(id)
    case None => ServerError
    case Some(offer) =>
      if offer !in db.offers || db.offers[offer].postId !in db.posts then NotFound
      else
        var maker, owner := db.offers[offer].maker, db.posts[db.offers[offer].postId].owner;
        if user != (if kind.ProofSubmission? then maker else owner) then Forbidden
        else if (kind.ProofApproval? || kind.ProofRejection?) && !rowFound then NotFound
        else Ok
  }

  /** Outside a transaction: a conversation that stays empty is not taken back. */
  function NoteWrite(db: Db, user: int, other: int, name: string, note: Body, found: Option<int>): (Db, Outcome) {
    match found
    case Some(c) => (InsertMessage(db, c, user, note), Ok)
    case None =>
      var started := InsertConversation(db, name, user, other);
      if CanPair(db.users, user, other)
      then (InsertMessage(started, db.next.conversation, user, note), Ok)
      else (started, ServerError)
  }

  function PostNote(db: Db, user: int, id: string, kind: NoteKind, contextId: int, rowFound: bool,
                    found: Option<int>): (Db, Outcome) {
    var guard := NoteGuard(db, user, id, kind, rowFound);
    if guard != Ok then (db, guard)
    else
      var offer := StringToInt(id).value;
      NoteWrite(db, user, Counterparty(db, offer, user), NegotiationName(id), NoteBody(kind, offer, contextId), found)
  }

  function NoteBody(kind: NoteKind, offer: int, contextId: int): Body {
    Note(kind, if kind.ProofRequest? then offer else contextId)
  }

  // ---- chats (controllers/chats.cc) -----------------------------------------

  function CreateConversation(db: Db, user: int, other: int, name: string, found: Option<int>): (Db, Outcome) {
    if name == "" || other < 0 then (db, BadRequest)
    else if found.Some? then (db, Ok)
    else (InsertConversation(db, name, user, other), if CanPair(db.users, user, other) then Ok else ServerError)
  }

  function ByOfferGuard(db: Db, user: int, id: string): Outcome {
    var ref := StringToInt(id);
    if ref.None? || ref.value < 0 then BadRequest else PartyGuard(db, user, id, BadRequest)
  }

  function ByOfferName(id: string): string {
    "Offer #" + id + " Conversation"
  }

  function ConversationByOffer(db: Db, user: int, id: string, found: Option<int>): (Db, Outcome) {
    var guard := ByOfferGuard(db, user, id);
    if guard != Ok then (db, guard)
    else if found.Some? then (db, Ok)
    else
      var other := Counterparty(db, StringToInt(id).value, user);
      (InsertConversation(db, ByOfferName(id), user, other), if CanPair(db.users, user, other) then Ok else ServerError)
  }

  function MemberGuard(db: Db, user: int, conversationRef: string): Outcome {
    match StringToInt(conversationRef)
    case None => BadRequest
    case Some(c) =>
      if c < 0 then BadRequest
      else if c !in db.conversations || user !in db.conversations[c].participants then Forbidden
      else Ok
  }

  function SendMessage(db: Db, user: int, conversationRef: string, content: Option<string>, attached: bool,
                       mediaOk: bool): (Db, Outcome) {
    var ref := StringToInt(conversationRef);
    if ref.None? || ref.value < 0 || (!attached && (content.None? || content.value == "")) then (db, BadRequest)
    else
      var guard := MemberGuard(db, user, conversationRef);
      if guard != Ok then (db, guard)
      else
        var sent := InsertMessage(db, ref.value, user, Text(Or(content, "")));
        if attached && !mediaOk then (RolledBack(db, sent), BadRequest) else (sent, Ok)
  }

  function MarkRead(db: Db, user: int, conversationRef: string): (Db, Outcome) {
    var guard := MemberGuard(db, user, conversationRef);
    if guard != Ok then (db, guard)
    else
      var unread := UnreadIn(db.messages, StringToInt(conversationRef).value, user);
      (db.(messages := SetRead(db.messages, unread)), Ok)
  }

  // ---- runs ------------------------------------------------------------------

  datatype Event =
    | Register(user: int)
    | EvCreatePost(user: int, content: string, isRequest: bool, mediaOk: bool)
    | EvCreateOffer(user: int, ref: string, title: string, description: string, price: int, isPublic: bool,
                    mediaOk: bool)
    | EvUpdateOffer(user: int, ref: string, changes: Changes, mediaOk: bool)
    | EvAccept(user: int, ref: string, chosen: Option<int>)
    | EvAcceptCounter(user: int, ref: string, chosen: Option<int>)
    | EvReject(user: int, ref: string)
    | EvNegotiate(user: int, ref: string, price: int, note: string, now: int, found: Option<int>)
    | EvPostNote(user: int, ref: string, kind: NoteKind, contextId: int, rowFound: bool, found: Option<int>)
    | EvCreateConversation(user: int, other: int, name: string, found: Option<int>)
    | EvConversationByOffer(user: int, ref: string, found: Option<int>)
    | EvSendMessage(user: int, ref: string, typed: Option<string>, attached: bool, mediaOk: bool)
    | EvMarkRead(user: int, ref: string)

  /** The SELECT for a conversation of the offer's two parties may return `found`. */
  ghost predicate FoundForOffer(db: Db, id: string, found: Option<int>) {
    match StringToInt(id)
    case None => true
    case Some(offer) =>
      offer in db.offers && db.offers[offer].postId in db.posts ==>
        SharedConversation(db.conversations, db.offers[offer].maker, db.posts[db.offers[offer].postId].owner, found)
  }

  /** The caller is authenticated and every open choice is one the query allows. */
  ghost predicate Enabled(db: Db, ev: Event) {
    && (!ev.Register? ==> ev.user in db.users)
    && match ev
       case EvAccept(_, ref, chosen) => ChosenFor(db, ref, chosen)
       case EvAcceptCounter(_, ref, chosen) => ChosenFor(db, ref, chosen)
       case EvNegotiate(_, ref, _, _, _, found) => FoundForOffer(db, ref, found)
       case EvPostNote(_, ref, _, _, _, found) => FoundForOffer(db, ref, found)
       case EvCreateConversation(user, other, _, found) => SharedConversation(db.conversations, user, other, found)
       case EvConversationByOffer(_, ref, found) => FoundForOffer(db, ref, found)
       case _ => true
  }

  ghost function Handle(db: Db, ev: Event): (Db, Outcome)
    requires Enabled(db, ev)
  {
    match ev
    case Register(user) => (db.(users := db.users + {user}), Ok)
    case EvCreatePost(user, content, isRequest, mediaOk) => CreatePost(db, user, content, isRequest, mediaOk)
    case EvCreateOffer(user, ref, title, description, price, isPublic, mediaOk) =>
      CreateOffer(db, user, ref, title, description, price, isPublic, mediaOk)
    case EvUpdateOffer(user, ref, changes, mediaOk) => UpdateOffer(db, user, ref, changes, mediaOk)
    case EvAccept(user, ref, chosen) => AcceptOffer(db, user, ref, chosen)
    case EvAcceptCounter(user, ref, chosen) => AcceptCounter(db, user, ref, chosen)
    case EvReject(user, ref) => RejectOffer(db, user, ref)
    case EvNegotiate(user, ref, price, note, now, found) => Negotiate(db, user, ref, price, note, now, found)
    case EvPostNote(user, ref, kind, contextId, rowFound, found) =>
      PostNote(db, user, ref, kind, contextId, rowFound, found)
    case EvCreateConversation(user, other, name, found) => CreateConversation(db, user, other, name, found)
    case EvConversationByOffer(user, ref, found) => ConversationByOffer(db, user, ref, found)
    case EvSendMessage(user, ref, content, attached, mediaOk) => SendMessage(db, user, ref, content, attached, mediaOk)
    case EvMarkRead(user, ref) => MarkRead(db, user, ref)
  }

  ghost function Next(db: Db, ev: Event): Db
    requires Enabled(db, ev)
  {
    Handle(db, ev).0
  }

  /** A sequence of requests, each allowed where it arrives. */
  ghost predicate Run(db: Db, evs: seq<Event>)
    decreases |evs|
  {
    evs == [] || (Enabled(db, evs[0]) && Run(Next(db, evs[0]), evs[1..]))
  }

  ghost function After(db: Db, evs: seq<Event>): Db
    requires Run(db, evs)
    decreases |evs|
  {
    if evs == [] then db else After(Next(db, evs[0]), evs[1..])
  }
}
