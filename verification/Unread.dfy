// Unread counts: every unread message is counted for exactly one user.
module Unread {
  import opened Prelude
  import opened Ids
  import opened Tables
  import opened Handlers
  import opened Invariants
  import opened Safety

  /** What get_unread_count counts for a user. */
  function UnreadFor(db: Db, user: int): set<int> {
    set m | m in db.messages && db.messages[m].conversationId in db.conversations
            && user in db.conversations[db.messages[m].conversationId].participants
            && db.messages[m].sender != user && !db.messages[m].isRead
  }

  function AllUnread(db: Db): set<int> {
    set m | m in db.messages && !db.messages[m].isRead
  }

  /** The sum of the counts of the listed users. */
  function TotalUnread(db: Db, listed: seq<int>): nat {
    if listed == [] then 0
    else TotalUnread(db, listed[..|listed| - 1]) + |UnreadFor(db, listed[|listed| - 1])|
  }

  function UnreadForAny(db: Db, listed: seq<int>): set<int> {
    if listed == [] then {}
    else UnreadForAny(db, listed[..|listed| - 1]) + UnreadFor(db, listed[|listed| - 1])
  }

  lemma {:induction false} InUnreadForAny(db: Db, listed: seq<int>, m: int)
    ensures m in UnreadForAny(db, listed) <==> exists i :: 0 <= i < |listed| && m in UnreadFor(db, listed[i])
  {
    if listed != [] {
      var init := listed[..|listed| - 1];
      InUnreadForAny(db, init, m);
      if i :| 0 <= i < |listed| && m in UnreadFor(db, listed[i]) && i < |listed| - 1 {
        assert m in UnreadFor(db, init[i]);
      }
      if i :| 0 <= i < |init| && m in UnreadFor(db, init[i]) {
        assert m in UnreadFor(db, listed[i]);
      }
    }
  }

  /** A message has one reader besides its sender. */
  lemma OneReader(db: Db, m: int, u: int, v: int)
    requires Rooms(db) && m in UnreadFor(db, u) && m in UnreadFor(db, v)
    ensures u == v
  {
    var all := db.conversations[db.messages[m].conversationId].participants;
    var sender := db.messages[m].sender;
    assert all == (all - {u, v, sender}) + {u, v, sender};
    assert |all| == |all - {u, v, sender}| + |{u, v, sender}|;
    assert u != v ==> |{u, v, sender}| == 3;
  }

  lemma SomeReader(db: Db, m: int) returns (u: int)
    requires Rooms(db) && m in AllUnread(db)
    ensures u in db.users && m in UnreadFor(db, u)
  {
    var all := db.conversations[db.messages[m].conversationId].participants;
    var sender := db.messages[m].sender;
    var others := all - {sender};
    assert all == others + {sender} && |others| == 1;
    u := Member(others);
  }

  lemma {:induction false} TotalIsCount(db: Db, listed: seq<int>)
    requires Rooms(db) && Distinct(listed)
    ensures TotalUnread(db, listed) == |UnreadForAny(db, listed)|
  {
    if listed != [] {
      var init, last := listed[..|listed| - 1], listed[|listed| - 1];
      TotalIsCount(db, init);
      forall m | m in UnreadForAny(db, init)
        ensures m !in UnreadFor(db, last)
      {
        InUnreadForAny(db, init, m);
        var i :| 0 <= i < |init| && m in UnreadFor(db, init[i]);
        if m in UnreadFor(db, last) {
          OneReader(db, m, init[i], last);
        }
      }
      assert UnreadForAny(db, init) !! UnreadFor(db, last);
    }
  }

  /** However the users are listed, their unread counts add up to the number of unread messages. */
  lemma Conservation(db: Db, listed: seq<int>)
    requires Rooms(db) && Distinct(listed) && Elements(listed) == db.users
    ensures TotalUnread(db, listed) == |AllUnread(db)|
  {
    TotalIsCount(db, listed);
    RowsMatch(listed, db.users);
    forall m
      ensures m in UnreadForAny(db, listed) <==> m in AllUnread(db)
    {
      InUnreadForAny(db, listed, m);
      if m in AllUnread(db) {
        var u := SomeReader(db, m);
        var i :| 0 <= i < |listed| && listed[i] == u;
        assert m in UnreadFor(db, listed[i]);
      }
    }
    assert UnreadForAny(db, listed) == AllUnread(db);
  }

  /** Messages from others in one conversation are read now; everything else is as before. */
  ghost predicate ReadIn(messages: Messages, messages': Messages, c: int, user: int) {
    && messages'.Keys == messages.Keys
    && forall m :: m in messages ==>
         && messages'[m].conversationId == messages[m].conversationId && messages'[m].sender == messages[m].sender
         && messages'[m].body == messages[m].body
         && (messages'[m].isRead <==>
               messages[m].isRead || (messages[m].conversationId == c && messages[m].sender != user))
  }

  /** The messages that differ. */
  function Changed(messages: Messages, messages': Messages): set<int>
    requires messages'.Keys == messages.Keys
  {
    set m | m in messages && messages'[m] != messages[m]
  }

  lemma MarkedRows(db: Db, user: int, ref: string)
    requires MarkRead(db, user, ref).1.Ok?
    ensures StringToInt(ref).Some?
    ensures ReadIn(db.messages, MarkRead(db, user, ref).0.messages, StringToInt(ref).value, user)
  {
    hide StringToInt;
  }

  lemma MarkedForReader(db: Db, user: int, ref: string)
    requires MarkRead(db, user, ref).1.Ok?
    ensures var db' := MarkRead(db, user, ref).0;
            && db'.messages.Keys == db.messages.Keys
            && var marked := Changed(db.messages, db'.messages);
               UnreadFor(db, user) == UnreadFor(db', user) + marked && UnreadFor(db', user) !! marked
  {
    hide StringToInt;
  }

  lemma MarkedForOther(db: Db, user: int, ref: string, other: int)
    requires Rooms(db) && MarkRead(db, user, ref).1.Ok? && other != user
    ensures UnreadFor(MarkRead(db, user, ref).0, other) == UnreadFor(db, other)
  {
    hide StringToInt, Rooms;
    var marked := UnreadIn(db.messages, StringToInt(ref).value, user);
    forall m | m in UnreadFor(db, other)
      ensures m !in marked
    {
      if m in marked {
        assert m in UnreadFor(db, user);
        OneReader(db, m, user, other);
      }
    }
  }

  /**
   * Marking a conversation read changes exactly the unread messages of others in
   * it, and takes as many off the reader's count as it changes and off no other.
   */
  lemma MarkReadExactly(db: Db, user: int, ref: string, other: int)
    requires Rooms(db) && MarkRead(db, user, ref).1.Ok?
    ensures var db' := MarkRead(db, user, ref).0;
            && StringToInt(ref).Some? && ReadIn(db.messages, db'.messages, StringToInt(ref).value, user)
            && |UnreadFor(db', user)| == |UnreadFor(db, user)| - |Changed(db.messages, db'.messages)|
            && (other != user ==> UnreadFor(db', other) == UnreadFor(db, other))
  {
    MarkedRows(db, user, ref);
    hide StringToInt, Rooms, UnreadFor, UnreadIn, MarkRead, Changed;
    MarkedForReader(db, user, ref);
    if other != user {
      MarkedForOther(db, user, ref, other);
    }
  }

  lemma InsertedUnread(db: Db, c: int, sender: int, body: Body, u: int)
    requires SendersInside(db.conversations, db.messages, db.next.message)
    ensures var db' := InsertMessage(db, c, sender, body);
            && UnreadFor(db', u) ==
                 UnreadFor(db, u) + (if db.next.message in UnreadFor(db', u) then {db.next.message} else {})
            && db.next.message !in UnreadFor(db, u)
  {
  }

  /** A message sent raises the count of exactly one user, by one: the other participant. */
  lemma SentExactly(db: Db, c: int, sender: int, body: Body) returns (reader: int)
    requires Rooms(db) && c in db.conversations && sender in db.conversations[c].participants
    requires body.Proposal? ==>
               AtHome(db.posts, db.offers, db.negotiations, db.conversations, Message(c, sender, body, false))
    ensures reader in db.conversations[c].participants && reader != sender
    ensures var db' := InsertMessage(db, c, sender, body);
            forall u :: |UnreadFor(db', u)| == |UnreadFor(db, u)| + if u == reader then 1 else 0
  {
    var db' := InsertMessage(db, c, sender, body);
    InsertMessageRooms(db, c, sender, body);
    assert db.next.message in AllUnread(db');
    reader := SomeReader(db', db.next.message);
    forall u
      ensures |UnreadFor(db', u)| == |UnreadFor(db, u)| + if u == reader then 1 else 0
    {
      InsertedUnread(db, c, sender, body, u);
      if db.next.message in UnreadFor(db', u) {
        OneReader(db', db.next.message, u, reader);
      }
    }
  }
}
