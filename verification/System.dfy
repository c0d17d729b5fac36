// The deal tables and the subscription engine as one system: requests change
// both, sockets and subscriptions come and go between them. What requests say
// and whom they subscribe, word for word and row by row.
module Systems {
  import opened Prelude
  import opened Ids
  import opened Tables
  import opened Handlers
  import opened Notices
  import opened Connections
  import opened Marketplaces
  import opened Closing
  import Invariants
  import Safety
  import History
  import F = FanOut

  // The type strings of NotificationMessage.
  function KindName(kind: NoticeKind): string {
    match kind
    case PostCreated => "post_created"
    case OfferCreated => "offer_created"
    case OfferUpdated => "offer_updated"
    case OfferAccepted => "offer_accepted"
    case OfferRejected => "offer_rejected"
    case ChatCreated => "chat_created"
    case MessageSent => "message_sent"
  }

  /** What travels over the bus: of the JSON text, the type and the id. */
  function Payload(notice: Publication): string {
    KindName(notice.kind) + ":" + notice.id
  }

  function Publishing(notice: Publication): F.Step {
    F.Publish(notice.topic, Payload(notice))
  }

  /** The engine after publishing some notices in order. */
  function Published(hub: F.Hub, notices: seq<Publication>): F.Hub {
    if notices == [] then hub
    else F.Move(Published(hub, notices[..|notices| - 1]), Publishing(notices[|notices| - 1]))
  }

  function ChatNotice(conversation: int): Publication {
    Publication(CreateTopic("chat", IdText(conversation)), ChatCreated, IdText(conversation))
  }

  /** The engine after two participants have joined a new conversation and it was announced. */
  function Conversed(hub: F.Hub, user: int, other: int, conversation: int): F.Hub {
    var topic := CreateTopic("chat", IdText(conversation));
    Published(F.Move(F.Move(hub, F.Join(IdText(user), topic)), F.Join(IdText(other), topic)),
              [ChatNotice(conversation)])
  }

  /** The engine after the owner has joined a new post and its notices went out. */
  function Posted(hub: F.Hub, owner: int, post: int, tags: seq<string>, location: string): F.Hub {
    Published(F.Move(hub, F.Join(IdText(owner), CreateTopic("post", IdText(post)))),
              PostNotices(IdText(post), tags, location))
  }

  function OfferTopic(offer: int): string {
    CreateTopic("offer", IdText(offer))
  }

  function Joining(maker: int, offer: int): F.Step {
    F.Join(IdText(maker), OfferTopic(offer))
  }

  function Leaving(maker: int, offer: int): F.Step {
    F.Leave(IdText(maker), OfferTopic(offer))
  }

  // ---- the system ----------------------------------------------------------------

  datatype System = System(db: Db, hub: F.Hub)

  // A request comes with the rows its rejections return, in some order. Notices
  // to the tags and location of a post are engine steps of their own.
  datatype Step = Request(ev: Event, rejected: seq<int>) | Engine(step: F.Step)

  const START := System(EMPTY, F.START)

  /** What a successful request does to the engine. */
  function Effect(hub: F.Hub, next: Sequences, ev: Event, rejected: seq<int>): F.Hub {
    match ev
    case EvCreatePost(user, _, _, _) => F.Move(hub, F.Join(IdText(user), CreateTopic("post", IdText(next.post))))
    case EvCreateOffer(user, ref, _, _, _, _, _) =>
      Published(F.Move(hub, Joining(user, next.offer)),
                [Publication(CreateTopic("post", ref), OfferCreated, IdText(next.offer))])
    case EvUpdateOffer(_, ref, _, _) => Published(hub, [OfferNotice(ref, OfferUpdated)])
    case EvAccept(_, ref, _) => Published(hub, [OfferNotice(ref, OfferAccepted)] + Rejections(rejected))
    case EvAcceptCounter(_, ref, _) => Published(hub, [OfferNotice(ref, OfferAccepted)] + Rejections(rejected))
    case EvReject(_, ref) => Published(hub, [OfferNotice(ref, OfferRejected)])
    case EvNegotiate(_, ref, _, _, _, _) => Published(hub, [OfferNotice(ref, OfferAccepted)])
    case EvCreateConversation(user, other, _, found) =>
      if found.None? then Conversed(hub, user, other, next.conversation) else hub
    case EvSendMessage(_, ref, _, _, _) => Published(hub, [Publication(CreateTopic("chat", ref), MessageSent, ref)])
    case _ => hub
  }

  ghost predicate Possible(sys: System, step: Step) {
    match step
    case Request(ev, rejected) =>
      && Enabled(sys.db, ev)
      && (Handle(sys.db, ev).1.Ok? && (ev.EvAccept? || ev.EvAcceptCounter?) ==>
            Distinct(rejected) && Elements(rejected) == NewlyRejected(sys.db.offers, Next(sys.db, ev).offers))
    case Engine(s) => F.Possible(sys.hub, s)
  }

  ghost function Move(sys: System, step: Step): System
    requires Possible(sys, step)
  {
    match step
    case Request(ev, rejected) =>
      System(Next(sys.db, ev), if Handle(sys.db, ev).1.Ok? then Effect(sys.hub, sys.db.next, ev, rejected) else sys.hub)
    case Engine(s) => sys.(hub := F.Move(sys.hub, s))
  }

  /** A request was allowed, met with this outcome and took the system from one state to the other. */
  ghost predicate Answered(sys: System, ev: Event, rejected: seq<int>, sys': System, outcome: Outcome) {
    && Possible(sys, Request(ev, rejected)) && sys' == Move(sys, Request(ev, rejected))
    && outcome == Handle(sys.db, ev).1
  }

  ghost predicate Run(sys: System, steps: seq<Step>)
    decreases |steps|
  {
    steps == [] || (Possible(sys, steps[0]) && Run(Move(sys, steps[0]), steps[1..]))
  }

  ghost function After(sys: System, steps: seq<Step>): System
    requires Run(sys, steps)
    decreases |steps|
  {
    if steps == [] then sys else After(Move(sys, steps[0]), steps[1..])
  }

  ghost predicate Inv(sys: System) {
    Invariants.Inv(sys.db) && F.Inv(sys.hub)
  }

  lemma StartKeeps()
    ensures Inv(START)
  {
  }

  lemma {:induction false} PublishedKeeps(hub: F.Hub, notices: seq<Publication>)
    requires F.Inv(hub)
    ensures var hub' := Published(hub, notices);
            && F.Inv(hub') && hub.accepted <= hub'.accepted && hub'.broadcasts == hub.broadcasts
            && hub'.persisted == hub.persisted
    decreases |notices|
  {
    if notices != [] {
      var init := notices[..|notices| - 1];
      PublishedKeeps(hub, init);
      F.MoveKeeps(Published(hub, init), Publishing(notices[|notices| - 1]));
    }
  }

  lemma {:induction false} PublishedFirst(hub: F.Hub, first: Publication, rest: seq<Publication>)
    ensures Published(hub, [first] + rest) == Published(F.Move(hub, Publishing(first)), rest)
    decreases |rest|
  {
    var all := [first] + rest;
    if rest == [] {
      assert all[..0] == [];
    } else {
      PublishedFirst(hub, first, rest[..|rest| - 1]);
      assert all[..|all| - 1] == [first] + rest[..|rest| - 1];
    }
  }

  ghost predicate Grown(hub: F.Hub, hub': F.Hub) {
    && F.Inv(hub') && hub.accepted <= hub'.accepted && hub.broadcasts <= hub'.broadcasts
    && hub.persisted <= hub'.persisted
  }

  lemma JoinGrows(hub: F.Hub, user: string, topic: string)
    requires F.Inv(hub)
    ensures Grown(hub, F.Move(hub, F.Join(user, topic)))
  {
    F.MoveKeeps(hub, F.Join(user, topic));
  }

  lemma EffectGrows(hub: F.Hub, next: Sequences, ev: Event, rejected: seq<int>)
    requires F.Inv(hub)
    ensures Grown(hub, Effect(hub, next, ev, rejected))
  {
    hide F.Inv, F.Move, Published;
    match ev
    case EvCreatePost(user, _, _, _) => JoinGrows(hub, IdText(user), CreateTopic("post", IdText(next.post)));
    case EvCreateOffer(user, ref, _, _, _, _, _) =>
      JoinGrows(hub, IdText(user), OfferTopic(next.offer));
      PublishedKeeps(F.Move(hub, Joining(user, next.offer)),
                     [Publication(CreateTopic("post", ref), OfferCreated, IdText(next.offer))]);
    case EvUpdateOffer(_, ref, _, _) => PublishedKeeps(hub, [OfferNotice(ref, OfferUpdated)]);
    case EvAccept(_, ref, _) => PublishedKeeps(hub, [OfferNotice(ref, OfferAccepted)] + Rejections(rejected));
    case EvAcceptCounter(_, ref, _) => PublishedKeeps(hub, [OfferNotice(ref, OfferAccepted)] + Rejections(rejected));
    case EvReject(_, ref) => PublishedKeeps(hub, [OfferNotice(ref, OfferRejected)]);
    case EvNegotiate(_, ref, _, _, _, _) => PublishedKeeps(hub, [OfferNotice(ref, OfferAccepted)]);
    case EvCreateConversation(user, other, _, found) =>
      var topic := CreateTopic("chat", IdText(next.conversation));
      JoinGrows(hub, IdText(user), topic);
      var one := F.Move(hub, F.Join(IdText(user), topic));
      JoinGrows(one, IdText(other), topic);
      PublishedKeeps(F.Move(one, F.Join(IdText(other), topic)), [ChatNotice(next.conversation)]);
    case EvSendMessage(_, ref, _, _, _) =>
      PublishedKeeps(hub, [Publication(CreateTopic("chat", ref), MessageSent, ref)]);
    case _ =>
  }

  // ---- what a request says and whom it subscribes ----------------------------------

  function Texts(notices: seq<Publication>): seq<F.Notice> {
    seq(|notices|, i requires 0 <= i < |notices| => (notices[i].topic, Payload(notices[i])))
  }

  /** What the bus takes of some notices: those whose topic some filter lets through, in order. */
  function Passing(filters: set<string>, words: seq<F.Notice>): seq<F.Notice> {
    if words == [] then []
    else
      var last := words[|words| - 1];
      Passing(filters, words[..|words| - 1]) + if F.Passes(filters, last.0) then [last] else []
  }

  lemma {:induction false} PublishedExactly(hub: F.Hub, notices: seq<Publication>)
    ensures var words := Passing(hub.filters, Texts(notices));
            Published(hub, notices) == hub.(queue := hub.queue + words, accepted := hub.accepted + words)
    decreases |notices|
  {
    hide F.Passes, Payload;
    if notices != [] {
      var init := notices[..|notices| - 1];
      PublishedExactly(hub, init);
      assert Texts(notices)[..|notices| - 1] == Texts(init);
      var words := Passing(hub.filters, Texts(init));
      var more := Passing(hub.filters, Texts(notices))[|words|..];
      Assoc(hub.queue, words, more);
      Assoc(hub.accepted, words, more);
    }
  }

  /** The rejections of one acceptance, each to its own offer's topic. */
  function RejectionWords(rejected: seq<int>): seq<F.Notice> {
    seq(|rejected|, i requires 0 <= i < |rejected| =>
      ("offer:" + IdText(rejected[i]), "offer_rejected:" + IdText(rejected[i])))
  }

  /** Everything a successful request says, topic and text, in order. */
  function Words(next: Sequences, ev: Event, rejected: seq<int>): seq<F.Notice> {
    match ev
    case EvCreateOffer(_, ref, _, _, _, _, _) => [("post:" + ref, "offer_created:" + IdText(next.offer))]
    case EvUpdateOffer(_, ref, _, _) => [("offer:" + ref, "offer_updated:" + ref)]
    case EvAccept(_, ref, _) => [("offer:" + ref, "offer_accepted:" + ref)] + RejectionWords(rejected)
    case EvAcceptCounter(_, ref, _) => [("offer:" + ref, "offer_accepted:" + ref)] + RejectionWords(rejected)
    case EvReject(_, ref) => [("offer:" + ref, "offer_rejected:" + ref)]
    case EvNegotiate(_, ref, _, _, _, _) => [("offer:" + ref, "offer_accepted:" + ref)]
    case EvCreateConversation(_, _, _, found) =>
      var c := IdText(next.conversation);
      if found.None? then [("chat:" + c, "chat_created:" + c)] else []
    case EvSendMessage(_, ref, _, _, _) => [("chat:" + ref, "message_sent:" + ref)]
    case _ => []
  }

  /** The words of a new post to its tags and its location. */
  function PostWords(post: int, tags: seq<string>, location: string): seq<F.Notice> {
    seq(|tags|, i requires 0 <= i < |tags| => (tags[i], "post_created:" + IdText(post)))
    + if location == "" then [] else [(location, "post_created:" + IdText(post))]
  }

  /** The rows a successful request adds to the subscription table. */
  function NewRows(next: Sequences, ev: Event): set<(string, string)> {
    match ev
    case EvCreatePost(user, _, _, _) => {(IdText(user), "post:" + IdText(next.post))}
    case EvCreateOffer(user, _, _, _, _, _, _) => {(IdText(user), "offer:" + IdText(next.offer))}
    case EvCreateConversation(user, other, _, found) =>
      var topic := "chat:" + IdText(next.conversation);
      if found.None? then {(IdText(user), topic), (IdText(other), topic)} else {}
    case _ => {}
  }

  /** From one state of the engine to the other these rows were subscribed and these words went out, and no others. */
  ghost predicate Told(hub: F.Hub, hub': F.Hub, rows: set<(string, string)>, words: seq<F.Notice>) {
    && hub'.persisted == hub.persisted + rows
    && hub'.filters == hub.filters + (set r | r in rows :: r.1)
    && (forall t, u :: Subscribed(hub'.subscribers, t, u) <==> Subscribed(hub.subscribers, t, u) || (u, t) in rows)
    && hub'.queue == hub.queue + Passing(hub'.filters, words)
    && hub'.accepted == hub.accepted + Passing(hub'.filters, words)
    && hub' == hub.(persisted := hub'.persisted, filters := hub'.filters, subscribers := hub'.subscribers,
                    queue := hub'.queue, accepted := hub'.accepted)
  }

  lemma Spelt(kind: string, id: string)
    ensures CreateTopic("post", id) == "post:" + id && CreateTopic("offer", id) == "offer:" + id
    ensures CreateTopic("chat", id) == "chat:" + id
    ensures Payload(Publication(kind, PostCreated, id)) == "post_created:" + id
    ensures Payload(Publication(kind, OfferCreated, id)) == "offer_created:" + id
    ensures Payload(Publication(kind, OfferUpdated, id)) == "offer_updated:" + id
    ensures Payload(Publication(kind, OfferAccepted, id)) == "offer_accepted:" + id
    ensures Payload(Publication(kind, OfferRejected, id)) == "offer_rejected:" + id
    ensures Payload(Publication(kind, ChatCreated, id)) == "chat_created:" + id
    ensures Payload(Publication(kind, MessageSent, id)) == "message_sent:" + id
  {
  }

  lemma RejectionsSpelt(rejected: seq<int>)
    ensures Texts(Rejections(rejected)) == RejectionWords(rejected)
  {
    hide IdText;
    forall i | 0 <= i < |rejected|
      ensures Texts(Rejections(rejected))[i] == RejectionWords(rejected)[i]
    {
      Spelt(CreateTopic("offer", IdText(rejected[i])), IdText(rejected[i]));
    }
  }

  lemma PublishingTells(hub: F.Hub, notices: seq<Publication>, words: seq<F.Notice>)
    requires Texts(notices) == words
    ensures Told(hub, Published(hub, notices), {}, words)
  {
    PublishedExactly(hub, notices);
  }

  lemma JoiningTells(hub: F.Hub, user: string, topic: string)
    ensures Told(hub, F.Move(hub, F.Join(user, topic)), {(user, topic)}, [])
  {
    assert (set r | r in {(user, topic)} :: r.1) == {topic};
  }

  /** First rows, then words: no word comes before the last row. */
  lemma ToldAgain(a: F.Hub, b: F.Hub, c: F.Hub, rows: set<(string, string)>, more: set<(string, string)>,
                  words: seq<F.Notice>)
    requires Told(a, b, rows, []) && Told(b, c, more, words)
    ensures Told(a, c, rows + more, words)
  {
    assert (set r | r in rows + more :: r.1) == (set r | r in rows :: r.1) + (set r | r in more :: r.1);
    assert a.queue + [] == a.queue && a.accepted + [] == a.accepted;
  }

  lemma ConversedTells(hub: F.Hub, user: int, other: int, conversation: int)
    ensures var c := IdText(conversation);
            Told(hub, Conversed(hub, user, other, conversation),
                 {(IdText(user), "chat:" + c), (IdText(other), "chat:" + c)}, [("chat:" + c, "chat_created:" + c)])
  {
    hide F.Move, Published, Told, IdText;
    var c := IdText(conversation);
    var topic := CreateTopic("chat", c);
    Spelt(topic, c);
    var one := F.Move(hub, F.Join(IdText(user), topic));
    var two := F.Move(one, F.Join(IdText(other), topic));
    JoiningTells(hub, IdText(user), topic);
    JoiningTells(one, IdText(other), topic);
    ToldAgain(hub, one, two, {(IdText(user), topic)}, {(IdText(other), topic)}, []);
    PublishingTells(two, [ChatNotice(conversation)], [("chat:" + c, "chat_created:" + c)]);
    var rows := {(IdText(user), topic)} + {(IdText(other), topic)};
    ToldAgain(hub, two, Conversed(hub, user, other, conversation), rows, {}, [("chat:" + c, "chat_created:" + c)]);
    assert rows + {} == {(IdText(user), "chat:" + c), (IdText(other), "chat:" + c)};
  }

  lemma ConversedRows(hub: F.Hub, user: int, other: int, conversation: int)
    ensures var topic := "chat:" + IdText(conversation);
            Conversed(hub, user, other, conversation).persisted
            == hub.persisted + {(IdText(user), topic), (IdText(other), topic)}
  {
    hide Conversed;
    ConversedTells(hub, user, other, conversation);
  }

  lemma PostedTells(hub: F.Hub, owner: int, post: int, tags: seq<string>, location: string)
    ensures Told(hub, Posted(hub, owner, post, tags, location), {(IdText(owner), "post:" + IdText(post))},
                 PostWords(post, tags, location))
  {
    hide F.Move, Published, Told, IdText;
    var topic := CreateTopic("post", IdText(post));
    Spelt(topic, IdText(post));
    var joined := F.Move(hub, F.Join(IdText(owner), topic));
    JoiningTells(hub, IdText(owner), topic);
    var notices := PostNotices(IdText(post), tags, location);
    assert Texts(notices) == PostWords(post, tags, location) by {
      forall i | 0 <= i < |notices|
        ensures Texts(notices)[i] == PostWords(post, tags, location)[i]
      {
        Spelt(notices[i].topic, IdText(post));
      }
    }
    PublishingTells(joined, notices, PostWords(post, tags, location));
    ToldAgain(hub, joined, Posted(hub, owner, post, tags, location), {(IdText(owner), topic)}, {},
              PostWords(post, tags, location));
    assert {(IdText(owner), topic)} + {} == {(IdText(owner), "post:" + IdText(post))};
  }

  lemma OfferingTells(hub: F.Hub, maker: int, offer: int, ref: string)
    ensures var topic, o := CreateTopic("post", ref), IdText(offer);
            Told(hub, Published(F.Move(hub, Joining(maker, offer)), [Publication(topic, OfferCreated, o)]),
                 {(IdText(maker), "offer:" + o)}, [("post:" + ref, "offer_created:" + o)])
  {
    hide F.Move, Published, Told, IdText;
    var topic, o := CreateTopic("post", ref), IdText(offer);
    Spelt(topic, ref);
    Spelt(topic, o);
    var joined := F.Move(hub, Joining(maker, offer));
    var notices, words := [Publication(topic, OfferCreated, o)], [("post:" + ref, "offer_created:" + o)];
    JoiningTells(hub, IdText(maker), OfferTopic(offer));
    PublishingTells(joined, notices, words);
    ToldAgain(hub, joined, Published(joined, notices), {(IdText(maker), OfferTopic(offer))}, {}, words);
    assert {(IdText(maker), OfferTopic(offer))} + {} == {(IdText(maker), "offer:" + o)};
  }

  lemma AcceptingTells(hub: F.Hub, id: string, rejected: seq<int>)
    ensures Told(hub, Published(hub, [OfferNotice(id, OfferAccepted)] + Rejections(rejected)), {},
                 [("offer:" + id, "offer_accepted:" + id)] + RejectionWords(rejected))
  {
    hide Published, Told, IdText, Rejections;
    var topic := CreateTopic("offer", id);
    Spelt(topic, id);
    RejectionsSpelt(rejected);
    var notices := [OfferNotice(id, OfferAccepted)] + Rejections(rejected);
    var words := [("offer:" + id, "offer_accepted:" + id)] + RejectionWords(rejected);
    assert Texts(notices) == words by {
      assert Texts(notices)[1..] == Texts(Rejections(rejected));
      assert Texts(notices) == [Texts(notices)[0]] + Texts(notices)[1..];
    }
    PublishingTells(hub, notices, words);
  }

  lemma OneTells(hub: F.Hub, notice: Publication, word: F.Notice)
    requires (notice.topic, Payload(notice)) == word
    ensures Told(hub, Published(hub, [notice]), {}, [word])
  {
    PublishingTells(hub, [notice], [word]);
  }

  lemma NothingTold(hub: F.Hub)
    ensures Told(hub, hub, {}, [])
  {
  }

  /** A successful request says exactly these words, and subscribes exactly these rows. */
  lemma EffectExactly(hub: F.Hub, next: Sequences, ev: Event, rejected: seq<int>)
    ensures Told(hub, Effect(hub, next, ev, rejected), NewRows(next, ev), Words(next, ev, rejected))
  {
    hide F.Move, Published, Told, IdText, Payload, CreateTopic, Conversed, RejectionWords, Rejections;
    match ev
    case EvCreatePost(user, _, _, _) =>
      Spelt("", IdText(next.post));
      JoiningTells(hub, IdText(user), CreateTopic("post", IdText(next.post)));
    case EvCreateOffer(user, ref, _, _, _, _, _) => OfferingTells(hub, user, next.offer, ref);
    case EvUpdateOffer(_, ref, _, _) =>
      Spelt(CreateTopic("offer", ref), ref);
      OneTells(hub, OfferNotice(ref, OfferUpdated), ("offer:" + ref, "offer_updated:" + ref));
    case EvAccept(_, ref, _) => AcceptingTells(hub, ref, rejected);
    case EvAcceptCounter(_, ref, _) => AcceptingTells(hub, ref, rejected);
    case EvReject(_, ref) =>
      Spelt(CreateTopic("offer", ref), ref);
      OneTells(hub, OfferNotice(ref, OfferRejected), ("offer:" + ref, "offer_rejected:" + ref));
    case EvNegotiate(_, ref, _, _, _, _) =>
      Spelt(CreateTopic("offer", ref), ref);
      OneTells(hub, OfferNotice(ref, OfferAccepted), ("offer:" + ref, "offer_accepted:" + ref));
    case EvCreateConversation(user, other, _, found) =>
      if found.None? {
        ConversedTells(hub, user, other, next.conversation);
      } else {
        NothingTold(hub);
      }
    case EvSendMessage(_, ref, _, _, _) =>
      Spelt(CreateTopic("chat", ref), ref);
      OneTells(hub, Publication(CreateTopic("chat", ref), MessageSent, ref), ("chat:" + ref, "message_sent:" + ref));
    case _ => NothingTold(hub);
  }

  lemma EffectRows(hub: F.Hub, next: Sequences, ev: Event, rejected: seq<int>)
    ensures Effect(hub, next, ev, rejected).persisted == hub.persisted + NewRows(next, ev)
  {
    hide Effect, NewRows, Words;
    EffectExactly(hub, next, ev, rejected);
  }

  /** Texts of different kinds, or about different ids, differ. */
  lemma TextsDiffer(a: Publication, b: Publication)
    requires Payload(a) == Payload(b)
    ensures a.kind == b.kind && a.id == b.id
  {
    TopicInjective(KindName(a.kind), a.id, KindName(b.kind), b.id);
  }

  lemma MoveKeeps(sys: System, step: Step)
    requires Inv(sys) && Possible(sys, step)
    ensures Inv(Move(sys, step))
    ensures step != Engine(F.Restart) ==>
              && sys.hub.accepted <= Move(sys, step).hub.accepted
              && sys.hub.broadcasts <= Move(sys, step).hub.broadcasts
  {
    match step
    case Request(ev, rejected) =>
      Safety.NextKeeps(sys.db, ev);
      hide Effect, Next, Handle, F.Inv;
      EffectGrows(sys.hub, sys.db.next, ev, rejected);
    case Engine(s) => F.MoveKeeps(sys.hub, s);
  }

  lemma {:induction false} RunKeeps(sys: System, steps: seq<Step>)
    requires Inv(sys) && Run(sys, steps)
    ensures Inv(After(sys, steps))
    ensures Engine(F.Restart) !in steps ==>
              && sys.hub.accepted <= After(sys, steps).hub.accepted
              && sys.hub.broadcasts <= After(sys, steps).hub.broadcasts
    decreases |steps|
  {
    if steps != [] {
      MoveKeeps(sys, steps[0]);
      RunKeeps(Move(sys, steps[0]), steps[1..]);
    }
  }

  // ---- the subscription table -------------------------------------------------------

  /** A step that subscribes: a successful request of an author or founder, or one to subscribe. */
  ghost predicate Brings(sys: System, step: Step, row: (string, string))
    requires Possible(sys, step)
  {
    match step
    case Request(ev, _) => Handle(sys.db, ev).1.Ok? && row in NewRows(sys.db.next, ev)
    case Engine(s) => s == F.Join(row.0, row.1)
  }

  function Dropping(row: (string, string)): Step {
    Engine(F.Leave(row.0, row.1))
  }

  lemma StepTable(sys: System, step: Step, row: (string, string))
    requires Possible(sys, step)
    ensures row in Move(sys, step).hub.persisted <==>
            Brings(sys, step, row) || (row in sys.hub.persisted && step != Dropping(row))
  {
    hide Effect, Next, Handle, Words, NewRows, F.Move, F.Possible;
    match step
    case Request(ev, rejected) => EffectRows(sys.hub, sys.db.next, ev, rejected);
    case Engine(s) => F.RowsMove(sys.hub, s, row.0, row.1);
  }

  ghost predicate BroughtAt(sys: System, steps: seq<Step>, i: nat, row: (string, string))
    requires Run(sys, steps) && i < |steps|
    decreases |steps|
  {
    if i == 0 then Brings(sys, steps[0], row) else BroughtAt(Move(sys, steps[0]), steps[1..], i - 1, row)
  }

  /** The row was subscribed at this step and not dropped since. */
  ghost predicate KeptSince(sys: System, steps: seq<Step>, i: nat, row: (string, string))
    requires Run(sys, steps) && i < |steps|
  {
    BroughtAt(sys, steps, i, row) && Dropping(row) !in steps[i + 1..]
  }

  lemma KeptShift(sys: System, steps: seq<Step>, i: nat, row: (string, string))
    requires Run(sys, steps) && i < |steps|
    ensures KeptSince(sys, steps, i, row) <==>
            if i == 0 then Brings(sys, steps[0], row) && Dropping(row) !in steps[1..]
            else KeptSince(Move(sys, steps[0]), steps[1..], i - 1, row)
  {
    hide Move, Possible, Brings;
    assert i > 0 ==> steps[1..][i..] == steps[i + 1..];
  }

  ghost predicate KeptSinceSome(sys: System, steps: seq<Step>, row: (string, string))
    requires Run(sys, steps)
  {
    exists i :: 0 <= i < |steps| && KeptSince(sys, steps, i, row)
  }

  lemma KeptByFirst(sys: System, steps: seq<Step>, row: (string, string))
    requires Run(sys, steps) && steps != []
    ensures KeptSinceSome(sys, steps, row) <==>
            || (Brings(sys, steps[0], row) && Dropping(row) !in steps[1..])
            || KeptSinceSome(Move(sys, steps[0]), steps[1..], row)
  {
    hide Move, Possible, Brings, KeptSince;
    KeptShift(sys, steps, 0, row);
    forall i | 0 < i < |steps|
      ensures KeptSince(sys, steps, i, row) <==> KeptSince(Move(sys, steps[0]), steps[1..], i - 1, row)
    {
      KeptShift(sys, steps, i, row);
    }
    if j :| 0 <= j < |steps| - 1 && KeptSince(Move(sys, steps[0]), steps[1..], j, row) {
      assert KeptSince(sys, steps, j + 1, row);
    }
  }

  /**
   * At the end of any run, restarts included, the table has exactly the rows
   * that some step subscribed, or that were there, and nobody dropped since.
   */
  lemma {:induction false} TableExactly(sys: System, steps: seq<Step>, row: (string, string))
    requires Run(sys, steps)
    ensures row in After(sys, steps).hub.persisted <==>
            (row in sys.hub.persisted && Dropping(row) !in steps) || KeptSinceSome(sys, steps, row)
    decreases |steps|
  {
    hide Move, Possible, Brings, KeptSince;
    if steps != [] {
      StepTable(sys, steps[0], row);
      TableExactly(Move(sys, steps[0]), steps[1..], row);
      KeptByFirst(sys, steps, row);
      hide KeptSinceSome;
      assert Dropping(row) in steps <==> steps[0] == Dropping(row) || Dropping(row) in steps[1..];
    }
  }

  // ---- makers stay subscribed to their offers --------------------------------------

  ghost predicate Listed(sys: System, offer: int) {
    offer in sys.db.offers && (IdText(sys.db.offers[offer].maker), OfferTopic(offer)) in sys.hub.persisted
  }

  lemma StepListed(sys: System, step: Step, offer: int)
    requires Inv(sys) && Possible(sys, step) && offer in Move(sys, step).db.offers
    requires offer in sys.db.offers ==> Listed(sys, offer)
    requires step != Engine(Leaving(Move(sys, step).db.offers[offer].maker, offer))
    ensures Listed(Move(sys, step), offer)
    ensures offer in sys.db.offers ==> Move(sys, step).db.offers[offer].maker == sys.db.offers[offer].maker
  {
    var row := (IdText(Move(sys, step).db.offers[offer].maker), OfferTopic(offer));
    StepTable(sys, step, row);
    if offer in sys.db.offers {
      OffersStay(sys, step, offer);
    } else {
      History.NewOffers(sys.db, step.ev, offer);
      Spelt("", IdText(offer));
    }
  }

  /** Through requests, restarts and everything else a maker stays subscribed to an offer, but for leaving its topic. */
  lemma {:induction false} RunListed(sys: System, steps: seq<Step>, offer: int)
    requires Inv(sys) && Run(sys, steps) && offer in After(sys, steps).db.offers
    requires offer in sys.db.offers ==> Listed(sys, offer)
    requires Engine(Leaving(After(sys, steps).db.offers[offer].maker, offer)) !in steps
    ensures Listed(After(sys, steps), offer)
    ensures offer in sys.db.offers ==> After(sys, steps).db.offers[offer].maker == sys.db.offers[offer].maker
    decreases |steps|
  {
    if steps != [] {
      var sys' := Move(sys, steps[0]);
      MoveKeeps(sys, steps[0]);
      if offer in sys'.db.offers {
        MakerStays(sys', steps[1..], offer);
        StepListed(sys, steps[0], offer);
      } else if offer in sys.db.offers {
        OffersStay(sys, steps[0], offer);
      }
      RunListed(sys', steps[1..], offer);
    }
  }

  lemma OffersStay(sys: System, step: Step, offer: int)
    requires Inv(sys) && Possible(sys, step) && offer in sys.db.offers
    ensures offer in Move(sys, step).db.offers && Move(sys, step).db.offers[offer].maker == sys.db.offers[offer].maker
  {
    if step.Request? {
      History.NextPreserves(sys.db, step.ev);
      assert History.OfferKept(sys.db.offers[offer], Next(sys.db, step.ev).offers[offer]);
    }
  }

  lemma {:induction false} MakerStays(sys: System, steps: seq<Step>, offer: int)
    requires Inv(sys) && Run(sys, steps) && offer in sys.db.offers
    ensures offer in After(sys, steps).db.offers
    ensures After(sys, steps).db.offers[offer].maker == sys.db.offers[offer].maker
    decreases |steps|
  {
    if steps != [] {
      MoveKeeps(sys, steps[0]);
      OffersStay(sys, steps[0], offer);
      MakerStays(Move(sys, steps[0]), steps[1..], offer);
    }
  }
}
