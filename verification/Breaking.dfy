// What interleaving guards and writes can break, and which steps break it:
// exactly those, in any state that an interleaving can be in.
module Breaking {
  import opened Prelude
  import opened Ids
  import opened Tables
  import opened Handlers
  import opened Invariants
  import opened Closing
  import opened Copies
  import opened Safety
  import opened History
  import opened Effects
  import opened Interleaving

  // ---- the metadata copies -------------------------------------------------

  /** A late accept-counter: its text addresses a negotiation that was rejected meanwhile. */
  ghost predicate Disturbs(w: World, step: Step) {
    && step.Commit? && step.flight in w.flights && w.flights[step.flight].Countering? && step.chosen.Some?
    && !Undisturbed(w.db, w.flights[step.flight].id)
  }

  lemma DisturbsOnlyLate(w: World, step: Step)
    requires Sound(w) && Possible(w, step) && Disturbs(w, step)
    ensures !w.db.offers[w.flights[step.flight].offer].status.Pending?
  {
  }

  lemma ProposalAgrees(db: Db, ticket: Ticket)
    requires Tidy(db) && Agree(db) && ticket.Proposing? && Holds(db, ticket)
    ensures Agree(Write(db, ticket, None, true))
  {
    hide StringToInt;
  }

  lemma WholeAgrees(db: Db, ev: Event)
    requires Tidy(db) && OpenDeals(db.posts, db.offers, db.negotiations) && Agree(db) && Enabled(db, ev) && !Split(ev)
    ensures Agree(Next(db, ev))
  {
    match ev
    case EvCreatePost(_, _, _, _) =>
    case _ =>
      ChatEvents(db, ev);
      ChatSound(db, Next(db, ev));
  }

  lemma WriteAgrees(db: Db, ticket: Ticket, chosen: Option<int>, mediaOk: bool)
    requires Tidy(db) && OpenDeals(db.posts, db.offers, db.negotiations) && Holds(db, ticket) && Agree(db)
    requires ticket.Accepting? || ticket.Countering? ==> LatestPending(db.negotiations, ticket.offer, chosen)
    ensures Agree(Write(db, ticket, chosen, mediaOk)) <==>
            !(ticket.Countering? && chosen.Some? && !Undisturbed(db, ticket.id))
  {
    if ticket.Accepting? {
      AcceptCopies(db, ticket.offer, ticket.post, chosen);
    } else if ticket.Countering? && chosen.Some? {
      CounterCopiesExactly(db, ticket.id, ticket.offer, ticket.post, chosen.value);
    } else if ticket.Conversing? || ticket.Noting? {
      hide Write;
      ChatWrite(db, ticket, chosen, mediaOk);
      ChatSound(db, Write(db, ticket, chosen, mediaOk));
    } else if ticket.Proposing? {
      ProposalAgrees(db, ticket);
    }
  }

  /** Among all interleaved steps, exactly the late accept-counters can break the agreement, and each of them does. */
  lemma AgreementExactly(w: World, step: Step)
    requires Sound(w) && Possible(w, step) && Agree(w.db)
    ensures Agree(Move(w, step).db) <==> !Disturbs(w, step)
  {
    match step
    case Begin(f, ev) =>
    case Whole(ev) => WholeAgrees(w.db, ev);
    case Commit(f, chosen, mediaOk) =>
      hide Write;
      WriteAgrees(w.db, w.flights[f], chosen, mediaOk);
  }

  /** What an accept-counter commit does, early or late. */
  lemma CounterCommit(w: World, f: int, chosen: int)
    requires Sound(w) && Agree(w.db) && f in w.flights && w.flights[f].Countering?
    requires LatestPending(w.db.negotiations, w.flights[f].offer, Some(chosen))
    ensures var step := Commit(f, Some(chosen), true);
            && Possible(w, step) && Sound(Move(w, step))
            && (Agree(Move(w, step).db) <==> Undisturbed(w.db, w.flights[f].id))
            && Closed(w.db, Move(w, step).db, w.flights[f].offer, w.flights[f].post, Some(chosen))
            && Move(w, step).db.offers[w.flights[f].offer].price == w.db.negotiations[chosen].proposedPrice
            && Move(w, step).flights == w.flights - {f}
  {
    var step := Commit(f, Some(chosen), true);
    CounterCloses(w.db, w.flights[f].id, w.flights[f].offer, w.flights[f].post, chosen);
    MoveSound(w, step);
    AgreementExactly(w, step);
  }

  lemma RejectCommit(w: World, f: int)
    requires f in w.flights && w.flights[f].Rejecting?
    ensures var step := Commit(f, None, true);
            Possible(w, step) && Move(w, step).db == RejectWrite(w.db, w.flights[f].offer)
  {
  }

  // ---- which steps decide anything ------------------------------------------

  predicate ClosingStep(w: World, step: Step) {
    step.Commit? && step.flight in w.flights && Closes(w.flights[step.flight], step.chosen)
  }

  predicate RejectingStep(w: World, step: Step) {
    step.Commit? && step.flight in w.flights && w.flights[step.flight].Rejecting?
  }

  /** Rows that were there keep their status and place; new ones are undecided. */
  ghost predicate Undecided(db: Db, db': Db) {
    && (forall o :: o in db.offers ==>
          o in db'.offers && db'.offers[o].status == db.offers[o].status && db'.offers[o].postId == db.offers[o].postId)
    && (forall o :: o in db'.offers && o !in db.offers ==> db'.offers[o].status.Pending?)
    && (forall n :: n in db.negotiations ==> n in db'.negotiations && db'.negotiations[n] == db.negotiations[n])
    && (forall n :: n in db'.negotiations && n !in db.negotiations ==> db'.negotiations[n].status.Pending?)
    && (forall p :: p in db'.posts && db'.posts[p].requestStatus.Fulfilled? ==>
          p in db.posts && db.posts[p].requestStatus.Fulfilled?)
  }

  lemma InsertUndecided(db: Db, offer: int, user: int, price: int, note: string, now: int)
    requires Tidy(db) && offer in db.offers
    ensures Undecided(db, InsertNegotiation(db, offer, user, price, note, now))
  {
  }

  lemma ProposalUndecided(db: Db, ticket: Ticket)
    requires Tidy(db) && ticket.Proposing? && Holds(db, ticket)
    ensures Undecided(db, Write(db, ticket, None, true))
  {
    InsertUndecided(db, ticket.offer, ticket.user, ticket.price, ticket.text, ticket.now);
    hide StringToInt, Tidy;
  }

  lemma CreatePostUndecided(db: Db, user: int, content: string, isRequest: bool, mediaOk: bool)
    requires Tidy(db)
    ensures Undecided(db, CreatePost(db, user, content, isRequest, mediaOk).0)
  {
  }

  lemma ChatUndecided(db: Db, db': Db)
    requires ChatOnly(db, db')
    ensures Undecided(db, db')
  {
  }

  lemma CreateUndecided(db: Db, ticket: Ticket, chosen: Option<int>, mediaOk: bool)
    requires Tidy(db) && ticket.Creating?
    ensures Undecided(db, Write(db, ticket, chosen, mediaOk))
  {
    hide StringToInt;
  }

  lemma WriteUndecided(db: Db, ticket: Ticket, chosen: Option<int>, mediaOk: bool)
    requires Tidy(db) && Holds(db, ticket) && !Closes(ticket, chosen) && !ticket.Rejecting?
    ensures Undecided(db, Write(db, ticket, chosen, mediaOk))
  {
    if ticket.Conversing? || ticket.Noting? {
      hide Write;
      ChatWrite(db, ticket, chosen, mediaOk);
      ChatUndecided(db, Write(db, ticket, chosen, mediaOk));
    } else if ticket.Creating? {
      CreateUndecided(db, ticket, chosen, mediaOk);
    } else if ticket.Proposing? {
      ProposalUndecided(db, ticket);
    }
  }

  /** Every step decides nothing, apart from the commits of accepts, accept-counters and rejections. */
  lemma MoveUndecided(w: World, step: Step)
    requires Sound(w) && Possible(w, step) && !ClosingStep(w, step) && !RejectingStep(w, step)
    ensures Undecided(w.db, Move(w, step).db)
  {
    hide Write;
    var w' := Move(w, step);
    match step
    case Begin(f, ev) =>
    case Commit(f, chosen, mediaOk) => WriteUndecided(w.db, w.flights[f], chosen, mediaOk);
    case Whole(ev) =>
      match ev {
        case EvCreatePost(user, content, isRequest, mediaOk) =>
          CreatePostUndecided(w.db, user, content, isRequest, mediaOk);
        case _ =>
          ChatEvents(w.db, ev);
          ChatUndecided(w.db, w'.db);
      }
  }

  lemma ClosingMove(w: World, step: Step)
    requires Sound(w) && Possible(w, step) && ClosingStep(w, step)
    ensures var t := w.flights[step.flight];
            && Ready(w.db, t.offer, t.post, step.chosen)
            && Closed(w.db, Move(w, step).db, t.offer, t.post, step.chosen)
            && Move(w, step).db.offers[t.offer].price ==
                 (if t.Accepting? then w.db.offers[t.offer].price
                  else w.db.negotiations[step.chosen.value].proposedPrice)
  {
    var t := w.flights[step.flight];
    assert Holds(w.db, t);
    ClosingWrite(w.db, t, step.chosen, step.mediaOk);
  }

  // ---- one accepted negotiation for each offer --------------------------------

  /** An accept or accept-counter that accepts a negotiation of an offer that has an accepted one already. */
  ghost predicate AcceptsTwice(w: World, step: Step) {
    ClosingStep(w, step) && step.chosen.Some? && HasAccepted(w.db.negotiations, w.flights[step.flight].offer)
  }

  lemma AcceptedOnceExactly(w: World, step: Step)
    requires Sound(w) && Possible(w, step) && AcceptedOnce(w.db.negotiations)
    ensures AcceptedOnce(Move(w, step).db.negotiations) <==> !AcceptsTwice(w, step)
  {
    if ClosingStep(w, step) {
      ClosingMove(w, step);
      var t := w.flights[step.flight];
      ClosedOnce(w.db, Move(w, step).db, t.offer, t.post, step.chosen);
    } else if !RejectingStep(w, step) {
      MoveUndecided(w, step);
    }
  }

  // ---- accepted negotiations on accepted offers ---------------------------------

  /** A rejection of an offer with an accepted negotiation. */
  ghost predicate Undercuts(w: World, step: Step) {
    RejectingStep(w, step) && HasAccepted(w.db.negotiations, w.flights[step.flight].offer)
  }

  lemma AcceptedBelowExactly(w: World, step: Step)
    requires Sound(w) && Possible(w, step) && AcceptedBelow(w.db.offers, w.db.negotiations)
    ensures AcceptedBelow(Move(w, step).db.offers, Move(w, step).db.negotiations) <==> !Undercuts(w, step)
  {
    if ClosingStep(w, step) {
      ClosingMove(w, step);
      var t := w.flights[step.flight];
      ClosedBelow(w.db, Move(w, step).db, t.offer, t.post, step.chosen);
    } else if RejectingStep(w, step) {
      assert Holds(w.db, w.flights[step.flight]);
      RejectBelow(w.db, w.flights[step.flight].offer);
    } else {
      MoveUndecided(w, step);
    }
  }

  // ---- fulfilled posts have an accepted offer -----------------------------------

  /** A rejection of the one accepted offer of its post. */
  ghost predicate Orphans(w: World, step: Step) {
    && RejectingStep(w, step)
    && var o := w.flights[step.flight].offer;
       o in w.db.offers && w.db.offers[o].status.Accepted? && !OtherAccepted(w.db.offers, o, w.db.offers[o].postId)
  }

  lemma RejectOrphans(db: Db, offer: int)
    requires Tidy(db) && AcceptedFulfils(db.posts, db.offers) && offer in db.offers && db.offers[offer].status.Accepted?
    requires FulfilledByAccepted(db.posts, RejectWrite(db, offer).offers)
    ensures OtherAccepted(db.offers, offer, db.offers[offer].postId)
  {
    var offers', post := RejectWrite(db, offer).offers, db.offers[offer].postId;
    assert db.posts[post].requestStatus.Fulfilled?;
    var o :| o in offers' && offers'[o].postId == post && offers'[o].status.Accepted?;
    assert o != offer && db.offers[o].status.Accepted?;
  }

  lemma UndecidedFulfilled(db: Db, db': Db)
    requires Undecided(db, db') && FulfilledByAccepted(db.posts, db.offers)
    ensures FulfilledByAccepted(db'.posts, db'.offers)
  {
    forall p | p in db'.posts && db'.posts[p].requestStatus.Fulfilled?
      ensures exists o :: o in db'.offers && db'.offers[o].postId == p && db'.offers[o].status.Accepted?
    {
      var o :| o in db.offers && db.offers[o].postId == p && db.offers[o].status.Accepted?;
      assert db'.offers[o].status.Accepted?;
    }
  }

  lemma FulfilledByAcceptedExactly(w: World, step: Step)
    requires Sound(w) && Possible(w, step) && FulfilledByAccepted(w.db.posts, w.db.offers)
    ensures FulfilledByAccepted(Move(w, step).db.posts, Move(w, step).db.offers) <==> !Orphans(w, step)
  {
    if ClosingStep(w, step) {
      ClosingMove(w, step);
      var t := w.flights[step.flight];
      ClosedFulfilled(w.db, Move(w, step).db, t.offer, t.post, step.chosen);
    } else if RejectingStep(w, step) {
      assert Holds(w.db, w.flights[step.flight]);
      var offer := w.flights[step.flight].offer;
      if Orphans(w, step) {
        if FulfilledByAccepted(w.db.posts, RejectWrite(w.db, offer).offers) {
          RejectOrphans(w.db, offer);
        }
      } else {
        RejectFulfilled(w.db, offer);
      }
    } else {
      MoveUndecided(w, step);
      UndecidedFulfilled(w.db, Move(w, step).db);
    }
  }

  // ---- one conversation for each pair ---------------------------------------------

  /** A request whose lookup found no conversation. */
  predicate Founding(ticket: Ticket) {
    ticket.Conversing? || ((ticket.Noting? || ticket.Proposing?) && ticket.found.None?)
  }

  /** A conversation inserted for a pair that has got one since it was looked for. */
  ghost predicate Duplicates(w: World, step: Step) {
    && step.Commit? && step.flight in w.flights
    && var t := w.flights[step.flight];
       && Founding(t) && CanPair(w.db.users, t.user, t.other)
       && exists c :: c in w.db.conversations && Share(w.db.conversations[c], t.user, t.other)
  }

  lemma ProposalOnce(db: Db, ticket: Ticket)
    requires Rooms(db) && PairsOnce(db.conversations) && ticket.Proposing? && Holds(db, ticket)
    ensures PairsOnce(Write(db, ticket, None, true).conversations) <==>
            !(ticket.found.None? && CanPair(db.users, ticket.user, ticket.other)
              && exists c :: c in db.conversations && Share(db.conversations[c], ticket.user, ticket.other))
  {
    hide StringToInt;
    LateInsertExactly(db, NegotiationName(ticket.id), ticket.user, ticket.other);
  }

  lemma WriteOnce(db: Db, ticket: Ticket, chosen: Option<int>, mediaOk: bool)
    requires Rooms(db) && PairsOnce(db.conversations) && Holds(db, ticket)
    ensures PairsOnce(Write(db, ticket, chosen, mediaOk).conversations) <==>
            !(Founding(ticket) && CanPair(db.users, ticket.user, ticket.other)
              && exists c :: c in db.conversations && Share(db.conversations[c], ticket.user, ticket.other))
  {
    if ticket.Conversing? || (ticket.Noting? && ticket.found.None?) {
      LateInsertExactly(db, ticket.name, ticket.user, ticket.other);
    } else if ticket.Proposing? {
      ProposalOnce(db, ticket);
    }
  }

  lemma WholeOnce(db: Db, ev: Event)
    requires Enabled(db, ev) && !Split(ev)
    ensures Next(db, ev).conversations == db.conversations
  {
  }

  lemma PairsOnceExactly(w: World, step: Step)
    requires Sound(w) && Housed(w) && Possible(w, step) && PairsOnce(w.db.conversations)
    ensures PairsOnce(Move(w, step).db.conversations) <==> !Duplicates(w, step)
  {
    match step
    case Begin(f, ev) =>
    case Commit(f, chosen, mediaOk) =>
      hide Write;
      WriteOnce(w.db, w.flights[f], chosen, mediaOk);
    case Whole(ev) =>
      hide Next;
      WholeOnce(w.db, ev);
  }

  // ---- the price and status of an offer -------------------------------------------

  lemma WholePrices(db: Db, ev: Event, o: int)
    requires Enabled(db, ev) && !Split(ev) && o in db.offers
    ensures o in Next(db, ev).offers && Next(db, ev).offers[o].price == db.offers[o].price
  {
    match ev
    case EvCreatePost(_, _, _, _) =>
    case _ => ChatEvents(db, ev);
  }

  /**
   * A write that gives the offer another price: the negotiated one, or the one of an update whose guard passed
   * earlier.
   */
  ghost predicate Reprices(db: Db, ticket: Ticket, chosen: Option<int>, o: int)
    requires o in db.offers
  {
    match ticket
    case Countering(_, offer, _) =>
      offer == o && chosen.Some? && chosen.value in db.negotiations
      && db.negotiations[chosen.value].proposedPrice != db.offers[o].price
    case Updating(offer, changes) => offer == o && Or(changes.price, db.offers[o].price) != db.offers[o].price
    case _ => false
  }

  lemma WritePrices(db: Db, ticket: Ticket, chosen: Option<int>, mediaOk: bool, o: int)
    requires Tidy(db) && OpenDeals(db.posts, db.offers, db.negotiations) && Holds(db, ticket) && o in db.offers
    requires ticket.Accepting? || ticket.Countering? ==> LatestPending(db.negotiations, ticket.offer, chosen)
    ensures var offers' := Write(db, ticket, chosen, mediaOk).offers;
            o in offers' && (offers'[o].price == db.offers[o].price <==> !Reprices(db, ticket, chosen, o))
  {
    if ticket.Accepting? || ticket.Countering? {
      hide Write;
      ClosingWrite(db, ticket, chosen, mediaOk);
    } else if ticket.Conversing? || ticket.Noting? {
      hide Write;
      ChatWrite(db, ticket, chosen, mediaOk);
    }
  }

  ghost predicate RepricingStep(w: World, step: Step, o: int)
    requires o in w.db.offers
  {
    step.Commit? && step.flight in w.flights && Reprices(w.db, w.flights[step.flight], step.chosen, o)
  }

  /** Which interleaved steps change the price of an offer, closed or not. */
  lemma PriceExactly(w: World, step: Step, o: int)
    requires Sound(w) && Possible(w, step) && o in w.db.offers
    ensures o in Move(w, step).db.offers
    ensures Move(w, step).db.offers[o].price == w.db.offers[o].price <==> !RepricingStep(w, step, o)
  {
    match step
    case Begin(f, ev) =>
    case Commit(f, chosen, mediaOk) =>
      hide Write;
      WritePrices(w.db, w.flights[f], chosen, mediaOk, o);
    case Whole(ev) => WholePrices(w.db, ev, o);
  }

  /** A late accept of a rejected offer, or a late rejection of an accepted one. */
  ghost predicate Flips(w: World, step: Step, o: int)
    requires o in w.db.offers
  {
    || (ClosingStep(w, step) && w.flights[step.flight].offer == o && w.db.offers[o].status.Rejected?)
    || (RejectingStep(w, step) && w.flights[step.flight].offer == o && w.db.offers[o].status.Accepted?)
  }

  /** A closed offer changes its status in exactly these steps. */
  lemma StatusExactly(w: World, step: Step, o: int)
    requires Sound(w) && Possible(w, step) && o in w.db.offers && !w.db.offers[o].status.Pending?
    ensures o in Move(w, step).db.offers
    ensures Move(w, step).db.offers[o].status == w.db.offers[o].status <==> !Flips(w, step, o)
  {
    if ClosingStep(w, step) {
      ClosingMove(w, step);
    } else if !RejectingStep(w, step) {
      MoveUndecided(w, step);
    }
  }

  /**
   * A commit of an accept or accept-counter that accepts another negotiation of
   * the offer, any rejection of it, or an update that changes its price.
   */
  ghost predicate Unsettles(w: World, step: Step, o: int)
    requires o in w.db.offers
  {
    || (ClosingStep(w, step) && w.flights[step.flight].offer == o && step.chosen.Some?)
    || (RejectingStep(w, step) && w.flights[step.flight].offer == o)
    || RepricingStep(w, step, o)
  }

  /** An offer accepted at its negotiated price stays so in every interleaving but for these steps. */
  lemma SettledExactly(w: World, step: Step, o: int, chosen: int)
    requires Sound(w) && Possible(w, step) && SettledAt(w.db, o, chosen)
    ensures SettledAt(Move(w, step).db, o, chosen) <==> !Unsettles(w, step, o)
  {
    var db' := Move(w, step).db;
    PriceExactly(w, step, o);
    StatusExactly(w, step, o);
    if ClosingStep(w, step) {
      ClosingMove(w, step);
      if w.flights[step.flight].offer == o && step.chosen.Some? {
        var n := step.chosen.value;
        assert n != chosen && db'.negotiations[n].offerId == o && db'.negotiations[n].status.Accepted?;
      }
    } else if !RejectingStep(w, step) {
      MoveUndecided(w, step);
    }
  }

  ghost predicate Settling(w: World, steps: seq<Step>, o: int)
    requires Interleaved(w, steps)
    decreases |steps|
  {
    steps == [] || (o in w.db.offers && !Unsettles(w, steps[0], o) && Settling(Move(w, steps[0]), steps[1..], o))
  }

  lemma {:induction false} SettledRun(w: World, steps: seq<Step>, o: int, chosen: int)
    requires Sound(w) && Interleaved(w, steps) && SettledAt(w.db, o, chosen) && Settling(w, steps, o)
    ensures SettledAt(Reached(w, steps).db, o, chosen)
    decreases |steps|
  {
    if steps != [] {
      MoveSound(w, steps[0]);
      SettledExactly(w, steps[0], o, chosen);
      SettledRun(Move(w, steps[0]), steps[1..], o, chosen);
    }
  }

  // ---- the whole invariant ----------------------------------------------------------

  // The guarantees that interleaving can break.
  datatype Guarantee = RightCopies | OneAcceptance | AcceptanceBelow | AcceptanceBehind | OneConversation

  ghost predicate Given(db: Db, g: Guarantee) {
    match g
    case RightCopies => Agree(db)
    case OneAcceptance => AcceptedOnce(db.negotiations)
    case AcceptanceBelow => AcceptedBelow(db.offers, db.negotiations)
    case AcceptanceBehind => FulfilledByAccepted(db.posts, db.offers)
    case OneConversation => PairsOnce(db.conversations)
  }

  ghost predicate BreaksOne(w: World, step: Step, g: Guarantee) {
    match g
    case RightCopies => Disturbs(w, step)
    case OneAcceptance => AcceptsTwice(w, step)
    case AcceptanceBelow => Undercuts(w, step)
    case AcceptanceBehind => Orphans(w, step)
    case OneConversation => Duplicates(w, step)
  }

  /** Each guarantee on its own: its steps break it, the others do not, whatever else is broken already. */
  lemma GuaranteeExactly(w: World, step: Step, g: Guarantee)
    requires Sound(w) && Housed(w) && Possible(w, step) && Given(w.db, g)
    ensures Given(Move(w, step).db, g) <==> !BreaksOne(w, step, g)
  {
    match g
    case RightCopies => AgreementExactly(w, step);
    case OneAcceptance => AcceptedOnceExactly(w, step);
    case AcceptanceBelow => AcceptedBelowExactly(w, step);
    case AcceptanceBehind => FulfilledByAcceptedExactly(w, step);
    case OneConversation => PairsOnceExactly(w, step);
  }

  ghost predicate Spares(w: World, steps: seq<Step>, g: Guarantee)
    requires Interleaved(w, steps)
    decreases |steps|
  {
    steps == [] || (!BreaksOne(w, steps[0], g) && Spares(Move(w, steps[0]), steps[1..], g))
  }

  /** An interleaving without a guarantee's own breaking steps keeps that guarantee, whatever becomes of the others. */
  lemma {:induction false} SparedRun(w: World, steps: seq<Step>, g: Guarantee)
    requires Sound(w) && Housed(w) && Interleaved(w, steps) && Given(w.db, g) && Spares(w, steps, g)
    ensures Given(Reached(w, steps).db, g)
    decreases |steps|
  {
    hide Sound, Housed, Given, BreaksOne;
    if steps != [] {
      GuaranteeExactly(w, steps[0], g);
      MoveSound(w, steps[0]);
      MoveHoused(w, steps[0]);
      SparedRun(Move(w, steps[0]), steps[1..], g);
    }
  }

  ghost predicate Breaks(w: World, step: Step) {
    exists g :: BreaksOne(w, step, g)
  }

  /** Everything that holds one request at a time is broken by these steps and by no others. */
  lemma InvariantExactly(w: World, step: Step)
    requires Sound(w) && Housed(w) && Inv(w.db) && Possible(w, step)
    ensures Inv(Move(w, step).db) <==> !Breaks(w, step)
  {
    MoveSound(w, step);
    MoveHoused(w, step);
    forall g | true
      ensures Given(Move(w, step).db, g) <==> !BreaksOne(w, step, g)
    {
      GivenByInv(w.db, g);
      GuaranteeExactly(w, step, g);
    }
    hide Move, Sound, Rooms, BreaksOne;
    InvFromGiven(Move(w, step).db);
  }

  lemma GivenByInv(db: Db, g: Guarantee)
    requires Inv(db)
    ensures Given(db, g)
  {
  }

  lemma InvFromGiven(db: Db)
    requires Tidy(db) && OpenDeals(db.posts, db.offers, db.negotiations) && Rooms(db)
    ensures Inv(db) <==> forall g :: Given(db, g)
  {
    if forall g :: Given(db, g) {
      assert Given(db, RightCopies) && Given(db, OneAcceptance) && Given(db, AcceptanceBelow)
             && Given(db, AcceptanceBehind) && Given(db, OneConversation);
    }
  }

  ghost predicate Intact(w: World, steps: seq<Step>)
    requires Interleaved(w, steps)
    decreases |steps|
  {
    steps == [] || (!Breaks(w, steps[0]) && Intact(Move(w, steps[0]), steps[1..]))
  }

  /** An interleaving without such a step satisfies the whole invariant throughout. */
  lemma {:induction false} IntactRun(w: World, steps: seq<Step>)
    requires Sound(w) && Housed(w) && Inv(w.db) && Interleaved(w, steps) && Intact(w, steps)
    ensures Inv(Reached(w, steps).db)
    decreases |steps|
  {
    if steps != [] {
      InvariantExactly(w, steps[0]);
      MoveSound(w, steps[0]);
      MoveHoused(w, steps[0]);
      IntactRun(Move(w, steps[0]), steps[1..]);
    }
  }
}
