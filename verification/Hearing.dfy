// From what is said to the sockets that hear it: acceptances to the offer's
// maker, messages to the two who opened the conversation.
module Hearing {
  import opened Prelude
  import opened Ids
  import opened Tables
  import H = Handlers
  import opened Notices
  import opened Connections
  import opened Marketplaces
  import opened Systems
  import F = FanOut

  /** A connected user's own subscription lets its topic through. */
  lemma ConnectedHears(hub: F.Hub, user: string, topic: string)
    requires F.Inv(hub) && (user, topic) in hub.persisted && F.Connected(hub, user)
    ensures F.Passes(hub.filters, topic)
  {
    F.CacheOf(hub, user);
    assert topic in F.Persisted(hub, user);
    assert topic in F.Remembered(hub, user);
    assert Subscribed(hub.subscribers, topic, user);
    assert topic in hub.filters && topic <= topic;
  }

  lemma {:induction false} PassingFirst(filters: set<string>, first: F.Notice, rest: seq<F.Notice>)
    ensures Passing(filters, [first] + rest)
         == (if F.Passes(filters, first.0) then [first] else []) + Passing(filters, rest)
    decreases |rest|
  {
    hide F.Passes;
    var all := [first] + rest;
    if rest == [] {
      assert all[..0] == [];
    } else {
      var init, last := rest[..|rest| - 1], rest[|rest| - 1];
      PassingFirst(filters, first, init);
      assert all[..|all| - 1] == [first] + init;
      Assoc(if F.Passes(filters, first.0) then [first] else [], Passing(filters, init),
            if F.Passes(filters, last.0) then [last] else []);
    }
  }

  lemma {:induction false} PassingExactly(filters: set<string>, words: seq<F.Notice>, word: F.Notice)
    ensures word in Passing(filters, words) <==> word in words && F.Passes(filters, word.0)
    decreases |words|
  {
    hide F.Passes;
    if words != [] {
      PassingExactly(filters, words[..|words| - 1], word);
      assert words == words[..|words| - 1] + [words[|words| - 1]];
    }
  }

  /** What a successful request puts on the bus: of its words, those whose topic passes. */
  lemma QueuedExactly(sys: System, step: Step, word: F.Notice)
    requires Possible(sys, step) && step.Request? && H.Handle(sys.db, step.ev).1.Ok?
    ensures var hub, hub' := sys.hub, Move(sys, step).hub;
            && hub.accepted <= hub'.accepted
            && (word in hub'.accepted[|hub.accepted|..] <==>
                  word in Words(sys.db.next, step.ev, step.rejected) && F.Passes(hub'.filters, word.0))
  {
    hide F.Passes, Effect, Passing, Words, NewRows;
    var hub, hub' := sys.hub, Move(sys, step).hub;
    var words := Words(sys.db.next, step.ev, step.rejected);
    EffectExactly(hub, sys.db.next, step.ev, step.rejected);
    PassingExactly(hub'.filters, words, word);
    assert hub'.accepted[|hub.accepted|..] == Passing(hub'.filters, words);
  }

  /** All notices before this one have been broadcast, and this socket of the user's is open and restored. */
  ghost predicate Due(turn: nat, end: System, who: string, order: seq<string>, socket: int) {
    && end.hub.queue != [] && |end.hub.broadcasts| == turn
    && socket in SocketsOf(end.hub.connections, who) && socket in end.hub.restored
    && Distinct(order) && Elements(order) == Audience(end.hub.subscribers, end.hub.queue[0].0)
  }

  /** A delivery takes this word next and sends exactly one copy of it to this socket. */
  ghost predicate Reaches(hub: F.Hub, word: F.Notice, order: seq<string>, socket: int) {
    && hub.queue != [] && hub.queue[0] == word
    && multiset(Copies(hub.connections, order, word.1))[Copy(socket, word.1)] == 1
  }

  /** A word on the bus reaches whoever stays subscribed to its topic, whatever goes on meanwhile but a restart. */
  lemma HeardInTurn(sys: System, turn: nat, later: seq<Step>, who: string, word: F.Notice, order: seq<string>,
                    socket: int)
    requires Inv(sys) && Run(sys, later) && Engine(F.Restart) !in later
    requires (who, word.0) in sys.hub.persisted && Dropping((who, word.0)) !in later
    requires turn < |sys.hub.accepted| && sys.hub.accepted[turn] == word
    requires Due(turn, After(sys, later), who, order, socket)
    ensures Reaches(After(sys, later).hub, word, order, socket)
  {
    RunKeeps(sys, later);
    TableExactly(sys, later, (who, word.0));
    hide Run, After, Move, F.Inv;
    var end := After(sys, later).hub;
    NextInTurn(end, turn);
    assert end.accepted[turn] == sys.hub.accepted[turn];
    F.DeliverExactly(end, order, who, socket);
  }

  lemma NextInTurn(hub: F.Hub, turn: nat)
    requires F.Inv(hub) && hub.queue != [] && |hub.broadcasts| == turn
    ensures turn < |hub.accepted| && hub.queue[0] == hub.accepted[turn]
  {
    assert hub.accepted == hub.broadcasts + hub.queue;
  }

  // ---- acceptances ----------------------------------------------------------------

  /** A successful accept or accept-counter of the offer that the text names. */
  ghost predicate Accepts(sys: System, step: Step, id: string) {
    && step.Request? && (step.ev.EvAccept? || step.ev.EvAcceptCounter?) && step.ev.ref == id
    && Possible(sys, step) && H.Handle(sys.db, step.ev).1.Ok?
  }

  lemma AcceptsOffer(sys: System, step: Step, id: string)
    requires Accepts(sys, step, id)
    ensures Possible(sys, step) && step.Request?
    ensures StringToInt(id).Some? && StringToInt(id).value in sys.db.offers
  {
  }

  /**
   * The acceptance is the next word the bus takes if some filter is a prefix of
   * the topic it is spelt with; otherwise it is lost, and only the rejections
   * are heard.
   */
  lemma AcceptanceQueuedExactly(sys: System, step: Step, id: string)
    requires Accepts(sys, step, id)
    ensures Move(sys, step).hub.accepted
         == sys.hub.accepted
            + (if F.Passes(sys.hub.filters, "offer:" + id) then [("offer:" + id, "offer_accepted:" + id)] else [])
            + Passing(sys.hub.filters, RejectionWords(step.rejected))
  {
    hide F.Passes, Effect, RejectionWords, Passing;
    var hub, hub' := sys.hub, Move(sys, step).hub;
    EffectExactly(hub, sys.db.next, step.ev, step.rejected);
    assert (set r | r in NewRows(sys.db.next, step.ev) :: r.1) == {};
    assert hub'.filters == hub.filters;
    var first, rest := ("offer:" + id, "offer_accepted:" + id), RejectionWords(step.rejected);
    PassingFirst(hub.filters, first, rest);
    Assoc(hub.accepted, if F.Passes(hub.filters, first.0) then [first] else [], Passing(hub.filters, rest));
  }

  lemma PlainTopic(id: string, offer: int)
    requires StringToInt(id) == Some(offer) && Plain(id)
    ensures offer >= 0 && id == IntToString(offer) && OfferTopic(offer) == "offer:" + id
  {
    PrintedExactly(id, offer);
    Spelt("", id);
  }

  /** The maker of the offer never left its topic, and it is this turn on one of his sockets. */
  ghost predicate MakerWaits(sys: System, turn: nat, end: System, offer: int, steps: seq<Step>, order: seq<string>,
                             socket: int) {
    && offer in sys.db.offers
    && Engine(Leaving(sys.db.offers[offer].maker, offer)) !in steps
    && Due(turn, end, IdText(sys.db.offers[offer].maker), order, socket)
  }

  /** A word to an offer's topic reaches its maker. */
  lemma MakerHears(before: seq<Step>, step: Step, offer: int, word: F.Notice, turn: nat, later: seq<Step>,
                   order: seq<string>, socket: int)
    requires Run(START, before) && Possible(After(START, before), step) && step.Request?
    requires word.0 == OfferTopic(offer)
    requires var sys' := Move(After(START, before), step);
             && turn < |sys'.hub.accepted| && sys'.hub.accepted[turn] == word
             && Run(sys', later) && Engine(F.Restart) !in later
             && MakerWaits(After(START, before), turn, After(sys', later), offer, before + later, order, socket)
    ensures Reaches(After(Move(After(START, before), step), later).hub, word, order, socket)
  {
    hide Possible, Move, Due, Listed, Inv, OfferTopic, Reaches;
    var sys := After(START, before);
    StartKeeps();
    RunKeeps(START, before);
    RunListed(START, before, offer);
    MoveKeeps(sys, step);
    OffersStay(sys, step, offer);
    StepListed(sys, step, offer);
    MakerRow(Move(sys, step), offer);
    HeardInTurn(Move(sys, step), turn, later, IdText(sys.db.offers[offer].maker), word, order, socket);
  }

  /**
   * End to end, from empty tables and an idle engine. An offer is accepted under
   * its printed id while its topic passes the filters; its maker never left that
   * topic. However requests, sockets and subscriptions go on, without a restart,
   * the notice gets its turn as the next one taken, and then each restored socket
   * of the maker gets exactly one copy of it.
   */
  lemma AcceptanceReachesMaker(before: seq<Step>, step: Step, id: string, later: seq<Step>,
                               order: seq<string>, socket: int)
    requires Run(START, before) && Accepts(After(START, before), step, id) && Plain(id)
    requires F.Passes(After(START, before).hub.filters, "offer:" + id)
    requires Run(Move(After(START, before), step), later) && Engine(F.Restart) !in later
    requires StringToInt(id).Some?
    requires MakerWaits(After(START, before), |After(START, before).hub.accepted|,
                        After(Move(After(START, before), step), later), StringToInt(id).value, before + later,
                        order, socket)
    ensures var offer := StringToInt(id).value;
            && offer >= 0
            && Reaches(After(Move(After(START, before), step), later).hub,
                       ("offer:" + IntToString(offer), "offer_accepted:" + IntToString(offer)), order, socket)
  {
    hide Accepts, Possible, Move, MakerWaits, Plain, StringToInt, F.Passes, OfferTopic, Reaches, Passing;
    var sys := After(START, before);
    AcceptsOffer(sys, step, id);
    var offer := StringToInt(id).value;
    PlainTopic(id, offer);
    AcceptanceQueuedExactly(sys, step, id);
    MakerHears(before, step, offer, ("offer:" + id, "offer_accepted:" + id), |sys.hub.accepted|, later, order, socket);
  }

  /** A pending offer that an acceptance rejects. */
  ghost predicate Loses(sys: System, sys': System, loser: int) {
    && loser in sys.db.offers && sys.db.offers[loser].status.Pending?
    && loser in sys'.db.offers && sys'.db.offers[loser].status.Rejected?
  }

  function Rejection(loser: int): F.Notice {
    ("offer:" + IdText(loser), "offer_rejected:" + IdText(loser))
  }

  lemma LoserSaid(sys: System, step: Step, id: string, loser: int)
    requires Accepts(sys, step, id) && Loses(sys, Move(sys, step), loser)
    ensures Possible(sys, step) && step.Request? && H.Handle(sys.db, step.ev).1.Ok?
    ensures Rejection(loser) in Words(sys.db.next, step.ev, step.rejected)
  {
    hide H.AcceptOffer, H.AcceptCounter;
    assert loser in NewlyRejected(sys.db.offers, H.Next(sys.db, step.ev).offers);
    assert loser in step.rejected;
    var i :| 0 <= i < |step.rejected| && step.rejected[i] == loser;
    assert RejectionWords(step.rejected)[i] == Rejection(loser);
  }

  /** The rejection of each offer that loses is on the bus exactly if some filter is a prefix of its topic. */
  lemma RejectionQueuedExactly(sys: System, step: Step, id: string, loser: int)
    requires Accepts(sys, step, id) && Loses(sys, Move(sys, step), loser)
    ensures Possible(sys, step)
    ensures var hub, hub' := sys.hub, Move(sys, step).hub;
            && hub.accepted <= hub'.accepted
            && (Rejection(loser) in hub'.accepted[|hub.accepted|..] <==>
                  F.Passes(hub'.filters, "offer:" + IdText(loser)))
  {
    LoserSaid(sys, step, id, loser);
    hide F.Passes, Words, H.Handle, Accepts, Move;
    QueuedExactly(sys, step, Rejection(loser));
  }

  /** Each offer that loses by an acceptance is rejected on its own maker's sockets, when that notice's turn comes. */
  lemma RejectionReachesMaker(before: seq<Step>, step: Step, loser: int, turn: nat, later: seq<Step>,
                              order: seq<string>, socket: int)
    requires Run(START, before) && Possible(After(START, before), step) && step.Request?
    requires var sys' := Move(After(START, before), step);
             && turn < |sys'.hub.accepted| && sys'.hub.accepted[turn] == Rejection(loser)
             && Run(sys', later) && Engine(F.Restart) !in later
             && MakerWaits(After(START, before), turn, After(sys', later), loser, before + later, order, socket)
    ensures Reaches(After(Move(After(START, before), step), later).hub,
                    ("offer:" + IdText(loser), "offer_rejected:" + IdText(loser)), order, socket)
  {
    hide Possible, Move, MakerWaits, Reaches, Run, After;
    Spelt("", IdText(loser));
    MakerHears(before, step, loser, Rejection(loser), turn, later, order, socket);
  }

  lemma MakerRow(sys: System, offer: int)
    requires Listed(sys, offer)
    ensures offer in sys.db.offers && (IdText(sys.db.offers[offer].maker), OfferTopic(offer)) in sys.hub.persisted
    ensures Engine(Leaving(sys.db.offers[offer].maker, offer))
         == Dropping((IdText(sys.db.offers[offer].maker), OfferTopic(offer)))
  {
  }

  // ---- messages -----------------------------------------------------------------

  /** A request that opens a conversation between two users, under the next id. */
  ghost predicate Opens(sys: System, step: Step, user: int, other: int) {
    && Possible(sys, step) && step.Request? && step.ev.EvCreateConversation? && step.ev.found.None?
    && step.ev.user == user && step.ev.other == other && H.Handle(sys.db, step.ev).1.Ok?
  }

  /** A message sent to a conversation as the text spells it. */
  ghost predicate Says(sys: System, step: Step, ref: string) {
    && Possible(sys, step) && step.Request? && step.ev.EvSendMessage? && step.ev.ref == ref
    && H.Handle(sys.db, step.ev).1.Ok?
  }

  /** Both who open a conversation are in the table for its topic, under their printed ids and its own. */
  lemma OpeningSubscribes(sys: System, step: Step, user: int, other: int)
    requires Opens(sys, step, user, other)
    ensures var topic := "chat:" + IdText(sys.db.next.conversation);
            && Move(sys, step).hub.persisted
                 == sys.hub.persisted + {(IdText(user), topic), (IdText(other), topic)}
  {
    hide F.Passes, Effect, Passing, IdText, H.CreateConversation;
    EffectExactly(sys.hub, sys.db.next, step.ev, step.rejected);
  }

  /** They stay so, whatever goes on, restarts included, until they leave. */
  lemma MembersStay(sys: System, step: Step, user: int, other: int, member: int, later: seq<Step>)
    requires Opens(sys, step, user, other) && member in {user, other}
    requires Run(Move(sys, step), later)
    requires Dropping((IdText(member), "chat:" + IdText(sys.db.next.conversation))) !in later
    ensures (IdText(member), "chat:" + IdText(sys.db.next.conversation)) in After(Move(sys, step), later).hub.persisted
  {
    hide Opens, IdText, Move, Possible;
    OpensPossible(sys, step, user, other);
    OpeningSubscribes(sys, step, user, other);
    TableExactly(Move(sys, step), later, (IdText(member), "chat:" + IdText(sys.db.next.conversation)));
  }

  lemma OpensPossible(sys: System, step: Step, user: int, other: int)
    requires Opens(sys, step, user, other)
    ensures Possible(sys, step)
  {
  }

  /** A message is on the bus exactly if some filter is a prefix of the topic it is spelt with. */
  lemma MessageQueuedExactly(sys: System, step: Step, ref: string)
    requires Says(sys, step, ref)
    ensures Possible(sys, step)
    ensures var hub, hub' := sys.hub, Move(sys, step).hub;
            && hub'.accepted == hub.accepted +
                 (if F.Passes(hub.filters, "chat:" + ref) then [("chat:" + ref, "message_sent:" + ref)] else [])
            && hub'.persisted == hub.persisted
  {
    hide F.Passes, Effect, H.SendMessage;
    var hub, hub' := sys.hub, Move(sys, step).hub;
    EffectExactly(hub, sys.db.next, step.ev, step.rejected);
    assert (set r | r in NewRows(sys.db.next, step.ev) :: r.1) == {};
    assert hub'.filters == hub.filters && hub'.persisted == hub.persisted;
    PassingFirst(hub.filters, ("chat:" + ref, "message_sent:" + ref), []);
  }

  /**
   * End to end for chats, from any good state: one user opens a conversation with
   * another, and some time later somebody in it sends a message under its printed
   * id. Whatever goes on before and after, restarts before included, the message
   * gets its turn as the next one taken, and then each restored socket of either
   * of the two who has not left gets exactly one copy.
   */
  lemma MessageReachesMembers(sys: System, opening: Step, user: int, other: int, member: int, between: seq<Step>,
                              saying: Step, later: seq<Step>, order: seq<string>, socket: int)
    requires Inv(sys) && Opens(sys, opening, user, other) && member in {user, other}
    requires Run(Move(sys, opening), between)
    requires var mid, id := After(Move(sys, opening), between), IdText(sys.db.next.conversation);
             && Says(mid, saying, id) && F.Passes(mid.hub.filters, "chat:" + id)
             && Run(Move(mid, saying), later) && Engine(F.Restart) !in later
             && Dropping((IdText(member), "chat:" + id)) !in between + later
             && Due(|mid.hub.accepted|, After(Move(mid, saying), later), IdText(member), order, socket)
    ensures var mid, id := After(Move(sys, opening), between), IdText(sys.db.next.conversation);
            Reaches(After(Move(mid, saying), later).hub, ("chat:" + id, "message_sent:" + id), order, socket)
  {
    hide Opens, Says, Possible, Move, Inv, Due, Reaches, F.Passes, IdText;
    OpensPossible(sys, opening, user, other);
    var mid, id := After(Move(sys, opening), between), IdText(sys.db.next.conversation);
    MembersStay(sys, opening, user, other, member, between);
    MoveKeeps(sys, opening);
    RunKeeps(Move(sys, opening), between);
    MessageQueuedExactly(mid, saying, id);
    MoveKeeps(mid, saying);
    HeardInTurn(Move(mid, saying), |mid.hub.accepted|, later, IdText(member), ("chat:" + id, "message_sent:" + id),
                order, socket);
  }

  /**
   * A conversation that a proposal, a note or a look-up opens subscribes nobody:
   * its members hear what is said there only if they join by themselves.
   */
  lemma OpenedUnheard(sys: System, step: Step, row: (string, string))
    requires Possible(sys, step) && step.Request?
    requires step.ev.EvNegotiate? || step.ev.EvPostNote? || step.ev.EvConversationByOffer?
    ensures row in Move(sys, step).hub.persisted <==> row in sys.hub.persisted
    ensures Subscribed(Move(sys, step).hub.subscribers, row.1, row.0) <==> Subscribed(sys.hub.subscribers, row.1, row.0)
  {
    hide F.Passes, Effect, Passing, H.Handle, H.Next;
    EffectExactly(sys.hub, sys.db.next, step.ev, step.rejected);
  }
}
