// Who may do what in the chats, and which rows it leaves: conversations opened,
// messages and notes sent, messages read.
module Chats {
  import opened Prelude
  import opened Ids
  import opened Tables
  import opened Handlers
  import opened Invariants
  import opened Safety
  import opened Effects
  import opened Unread

  /** The text of a request names this conversation, and the user takes part in it. */
  predicate Inside(db: Db, ref: string, c: int, user: int) {
    c in db.conversations && StringToInt(ref) == Some(c) && user in db.conversations[c].participants
  }

  lemma MemberExactly(db: Db, user: int, ref: string)
    requires Inv(db)
    ensures var outcome := MemberGuard(db, user, ref);
            && (outcome.Ok? <==> exists c :: Inside(db, ref, c, user))
            && (outcome.Ok? ==> StringToInt(ref).Some? && Inside(db, ref, StringToInt(ref).value, user))
            && (outcome.BadRequest? <==> StringToInt(ref).None? || StringToInt(ref).value < 0)
            && (!outcome.Ok? && !outcome.BadRequest? ==> outcome.Forbidden?)
  {
    hide StringToInt;
    if MemberGuard(db, user, ref).Ok? {
      assert Inside(db, ref, StringToInt(ref).value, user);
    }
  }

  /** One more message, unread, and nothing else. */
  ghost predicate Sent(db: Db, db': Db, c: int, sender: int, body: Body) {
    && var m := db.next.message;
       && m !in db.messages && db'.messages.Keys == db.messages.Keys + {m}
       && (forall k :: k in db.messages ==> db'.messages[k] == db.messages[k])
       && db'.messages[m].conversationId == c && db'.messages[m].sender == sender
       && db'.messages[m].body == body && !db'.messages[m].isRead
       && db'.users == db.users && db'.posts == db.posts && db'.offers == db.offers
       && db'.negotiations == db.negotiations
  }

  /** Who can send what where: a member, some text or attachment; what is stored is that text. */
  lemma SendExactly(db: Db, user: int, ref: string, content: Option<string>, attached: bool, mediaOk: bool)
    requires Inv(db)
    ensures var (db', outcome) := SendMessage(db, user, ref, content, attached, mediaOk);
            var worded := content.Some? && content.value != "";
            && (outcome.Ok? <==>
                  (worded || attached) && (attached ==> mediaOk) && exists c :: Inside(db, ref, c, user))
            && (outcome.Forbidden? <==>
                  && (worded || attached) && StringToInt(ref).Some? && StringToInt(ref).value >= 0
                  && !exists c :: Inside(db, ref, c, user))
            && (!outcome.Ok? && !outcome.Forbidden? ==> outcome.BadRequest?)
            && (outcome.Ok? ==>
                  && Sent(db, db', StringToInt(ref).value, user, Text(if content.Some? then content.value else ""))
                  && db'.conversations == db.conversations)
            && (!outcome.Ok? ==> SameTables(db, db'))
  {
    hide StringToInt, MemberGuard, Inside;
    MemberExactly(db, user, ref);
  }

  /** Who can mark a conversation read, and which messages that changes. */
  lemma ReadExactly(db: Db, user: int, ref: string)
    requires Inv(db)
    ensures var (db', outcome) := MarkRead(db, user, ref);
            && (outcome.Ok? <==> exists c :: Inside(db, ref, c, user))
            && (outcome.Forbidden? <==>
                  StringToInt(ref).Some? && StringToInt(ref).value >= 0 && !exists c :: Inside(db, ref, c, user))
            && (!outcome.Ok? && !outcome.Forbidden? ==> outcome.BadRequest?)
            && (outcome.Ok? ==> ReadIn(db.messages, db'.messages, StringToInt(ref).value, user))
            && db' == db.(messages := if outcome.Ok? then db'.messages else db.messages)
  {
    hide StringToInt, MemberGuard, Inside;
    MemberExactly(db, user, ref);
  }

  // ---- conversations ---------------------------------------------------------------

  /** One more conversation of exactly these two, and nothing else. */
  ghost predicate Opened(db: Db, db': Db, name: string, u: int, v: int) {
    && var c := db.next.conversation;
       && OpenedFor(db, db', c, name) && db'.conversations[c].participants == {u, v}
       && db' == db.(conversations := db'.conversations, next := db.next.(conversation := c + 1))
  }

  /** Who can open a conversation with whom; two who share one keep it. */
  lemma ConversationExactly(db: Db, user: int, other: int, name: string, found: Option<int>)
    requires Inv(db) && user in db.users && SharedConversation(db.conversations, user, other, found)
    ensures var (db', outcome) := CreateConversation(db, user, other, name, found);
            && (outcome.Ok? <==>
                  && name != "" && other >= 0
                  && ((exists c :: c in db.conversations && {user, other} <= db.conversations[c].participants)
                      || (other in db.users && other != user)))
            && (outcome.BadRequest? <==> name == "" || other < 0)
            && (!outcome.Ok? && !outcome.BadRequest? ==> outcome.ServerError?)
            && (outcome.Ok? ==>
                  if exists c :: c in db.conversations && {user, other} <= db.conversations[c].participants
                  then db' == db else Opened(db, db', name, user, other))
  {
    if found.None? && CanPair(db.users, user, other) {
      assert db.next.conversation !in db.conversations;
    }
  }

  /** The user is the offer's maker or the owner of its post. */
  ghost predicate PartyOf(db: Db, o: int, user: int) {
    && o in db.offers && db.offers[o].postId in db.posts
    && (user == db.offers[o].maker || user == db.posts[db.offers[o].postId].owner)
  }

  /** Who can look up the conversation of an offer: its two parties, who get theirs opened if they have none. */
  lemma ByOfferExactly(db: Db, user: int, id: string, found: Option<int>)
    requires Inv(db) && user in db.users && FoundForOffer(db, id, found)
    ensures var (db', outcome) := ConversationByOffer(db, user, id, found);
            && (outcome.Ok? <==> exists o :: Names(db, id, o) && PartyOf(db, o, user))
            && (outcome.Forbidden? <==> exists o :: Names(db, id, o) && !PartyOf(db, o, user))
            && (outcome.NotFound? <==> NamesNone(db, id) && StringToInt(id).value >= 0)
            && (!outcome.Ok? && !outcome.Forbidden? && !outcome.NotFound? ==> outcome.BadRequest?)
            && (outcome.Ok? ==>
                  var o := db.offers[StringToInt(id).value];
                  if found.Some? then db' == db
                  else Opened(db, db', "Offer #" + id + " Conversation", o.maker, db.posts[o.postId].owner))
  {
    hide StringToInt;
    if StringToInt(id).Some? && StringToInt(id).value in db.offers {
      var o := StringToInt(id).value;
      assert Names(db, id, o) && o >= 0;
      if PartyGuard(db, user, id, ServerError).Ok? {
        PartiesPair(db, user, id);
      }
    }
  }

  // ---- proof and escrow notes -----------------------------------------------------

  /** Only the maker submits proof; only the owner asks for it, judges it and pays; a judgement needs its row. */
  ghost predicate MayNote(db: Db, o: int, user: int, kind: NoteKind, rowFound: bool) {
    && Authors(db, o, user, kind)
    && ((kind.ProofApproval? || kind.ProofRejection?) ==> rowFound)
  }

  ghost predicate Authors(db: Db, o: int, user: int, kind: NoteKind) {
    && PartyOf(db, o, user)
    && user == if kind.ProofSubmission? then db.offers[o].maker else db.posts[db.offers[o].postId].owner
  }

  lemma NoteGuardExactly(db: Db, user: int, id: string, kind: NoteKind, rowFound: bool)
    requires Inv(db)
    ensures var outcome := NoteGuard(db, user, id, kind, rowFound);
            && (outcome.Ok? <==> exists o :: Names(db, id, o) && MayNote(db, o, user, kind, rowFound))
            && (outcome.Ok? ==>
                  StringToInt(id).Some? && Names(db, id, StringToInt(id).value)
                  && MayNote(db, StringToInt(id).value, user, kind, rowFound))
            && (outcome.Forbidden? <==> exists o :: Names(db, id, o) && !Authors(db, o, user, kind))
            && (outcome.ServerError? <==> StringToInt(id).None?) && !outcome.BadRequest?
  {
    hide StringToInt;
    if StringToInt(id).Some? && StringToInt(id).value in db.offers {
      assert Names(db, id, StringToInt(id).value);
    }
  }

  /** Who can post which note, and what it becomes: one message in the conversation of exactly the two parties. */
  lemma NoteExactly(db: Db, user: int, id: string, kind: NoteKind, contextId: int, rowFound: bool, found: Option<int>)
    requires Inv(db) && user in db.users && FoundForOffer(db, id, found)
    ensures var (db', outcome) := PostNote(db, user, id, kind, contextId, rowFound, found);
            && (outcome.Ok? <==> exists o :: Names(db, id, o) && MayNote(db, o, user, kind, rowFound))
            && (outcome.Forbidden? <==> exists o :: Names(db, id, o) && !Authors(db, o, user, kind))
            && (outcome.ServerError? <==> StringToInt(id).None?) && !outcome.BadRequest?
            && (outcome.Ok? ==> Noted(db, db', user, id, kind, contextId, found))
            && (!outcome.Ok? ==> db' == db)
  {
    hide StringToInt, NoteGuard, MayNote, Authors, NoteWrite, Noted, Inv;
    NoteGuardExactly(db, user, id, kind, rowFound);
    if NoteGuard(db, user, id, kind, rowFound).Ok? {
      NoteRows(db, user, id, kind, contextId, rowFound, found);
    }
  }

  lemma NoteRows(db: Db, user: int, id: string, kind: NoteKind, contextId: int, rowFound: bool, found: Option<int>)
    requires Inv(db) && user in db.users && FoundForOffer(db, id, found)
    requires StringToInt(id).Some? && Names(db, id, StringToInt(id).value)
    requires MayNote(db, StringToInt(id).value, user, kind, rowFound)
    ensures var o := StringToInt(id).value;
            var (db', outcome) := NoteWrite(db, user, Counterparty(db, o, user), NegotiationName(id),
                                            NoteBody(kind, o, contextId), found);
            outcome.Ok? && Noted(db, db', user, id, kind, contextId, found)
  {
    hide StringToInt, FoundForOffer;
    var o := StringToInt(id).value;
    PartiesPair(db, user, id);
    FoundExactly(db, id, o, found);
  }

  lemma FoundExactly(db: Db, id: string, o: int, found: Option<int>)
    requires Inv(db) && FoundForOffer(db, id, found) && Names(db, id, o)
    ensures db.offers[o].postId in db.posts
    ensures found.Some? ==>
              && found.value in db.conversations
              && db.conversations[found.value].participants == {db.offers[o].maker, db.posts[db.offers[o].postId].owner}
  {
    if found.Some? {
      SharedIsExact(db, db.offers[o].maker, db.posts[db.offers[o].postId].owner, found.value);
    }
  }

  ghost predicate Noted(db: Db, db': Db, user: int, id: string, kind: NoteKind, contextId: int, found: Option<int>) {
    && StringToInt(id).Some? && Names(db, id, StringToInt(id).value)
    && db.offers[StringToInt(id).value].postId in db.posts
    && var o := StringToInt(id).value;
       var c := if found.Some? then found.value else db.next.conversation;
       && Sent(db, db', c, user, Note(kind, if kind.ProofRequest? then o else contextId))
       && (if found.Some? then db'.conversations == db.conversations
           else OpenedFor(db, db', c, "Offer #" + id + " Negotiation"))
       && c in db'.conversations
       && db'.conversations[c].participants == {db.offers[o].maker, db.posts[db.offers[o].postId].owner}
  }
}
