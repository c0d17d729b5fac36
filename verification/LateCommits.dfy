// Schedules from empty tables on which guarantees of the one-at-a-time model
// fail. Breaking.dfy has the steps that can do so in general.
module LateCommits {
  import opened Prelude
  import opened Ids
  import opened Tables
  import opened Handlers
  import opened Invariants
  import opened Closing
  import opened Copies
  import opened Safety
  import opened History
  import opened Interleaving
  import opened Breaking

  lemma {:induction false} Append(w: World, a: seq<Step>, b: seq<Step>)
    requires Interleaved(w, a) && Interleaved(Reached(w, a), b)
    ensures Interleaved(w, a + b) && Reached(w, a + b) == Reached(Reached(w, a), b)
    decreases |a|
  {
    hide Move, Possible;
    if a == [] {
      assert a + b == b;
    } else {
      Append(Move(w, a[0]), a[1..], b);
      assert (a + b)[0] == a[0] && (a + b)[1..] == a[1..] + b;
    }
  }

  lemma One(w: World, steps: seq<Step>, step: Step)
    requires Interleaved(w, steps) && Possible(Reached(w, steps), step)
    ensures Interleaved(w, steps + [step]) && Reached(w, steps + [step]) == Move(Reached(w, steps), step)
  {
    var w' := Reached(w, steps);
    assert [step][1..] == [] && Interleaved(Move(w', step), []);
    Append(w, steps, [step]);
  }

  lemma Then(before: seq<Step>, step: Step, w: World) returns (steps: seq<Step>, w': World)
    requires Interleaved(IDLE, before) && Reached(IDLE, before) == w && Possible(w, step)
    ensures Interleaved(IDLE, steps) && Reached(IDLE, steps) == w' == Move(w, step)
  {
    One(IDLE, before, step);
    steps, w' := before + [step], Move(w, step);
  }

  /** A proposal whose two steps nothing comes between. */
  lemma Proposed(w: World, f: int, ev: Event)
    requires ev.EvNegotiate? && f !in w.flights && ev.user in w.db.users && Passes(w.db, ev)
    ensures var begin, commit := Begin(f, ev), Commit(f, None, true);
            && Possible(w, begin) && Possible(Move(w, begin), commit)
            && Enabled(w.db, ev) && Move(Move(w, begin), commit) == World(Next(w.db, ev), w.flights)
  {
    SplitIsWhole(w, f, ev);
  }

  lemma Propose(before: seq<Step>, w: World, f: int, ev: Event) returns (steps: seq<Step>, w': World)
    requires Interleaved(IDLE, before) && Reached(IDLE, before) == w
    requires ev.EvNegotiate? && f !in w.flights && ev.user in w.db.users && Passes(w.db, ev)
    ensures Interleaved(IDLE, steps) && Reached(IDLE, steps) == w'
    ensures Enabled(w.db, ev) && w' == World(Next(w.db, ev), w.flights)
  {
    Proposed(w, f, ev);
    hide Move, Possible, Passes, Enabled, Next;
    var s1, w1 := Then(before, Begin(f, ev), w);
    steps, w' := Then(s1, Commit(f, None, true), w1);
  }

  // User 1 owns the post, user 2 makes an offer and both propose prices.
  const OFFERED := World(
    Db({1, 2}, map[1 := Post(1, "wanted", Open)],
       map[1 := Offer(1, 2, "offer", "as asked", 500, 500, true, Pending, Untouched)],
       map[], map[], map[], Sequences(2, 2, 1, 1, 1)), map[])

  const PROPOSED := World(
    Db({1, 2}, OFFERED.db.posts, map[1 := OFFERED.db.offers[1].(haggling := InProgress)],
       map[1 := Negotiation(1, 1, 400, "", Pending, 10)],
       map[1 := Conversation("Offer #" + "1" + " Negotiation", {1, 2})],
       map[1 := Message(1, 1, Proposal(1, "1", Pending), false)],
       Sequences(2, 2, 2, 2, 2)), map[])

  const SCENE := World(
    Db({1, 2}, OFFERED.db.posts, PROPOSED.db.offers,
       PROPOSED.db.negotiations[2 := Negotiation(1, 2, 450, "", Pending, 20)],
       PROPOSED.db.conversations,
       PROPOSED.db.messages[2 := Message(1, 2, Proposal(2, "1", Pending), false)],
       Sequences(2, 2, 3, 2, 3)), map[])

  lemma OfferedReached() returns (steps: seq<Step>)
    ensures Interleaved(IDLE, steps) && Reached(IDLE, steps) == OFFERED
  {
    steps := [];
    One(IDLE, steps, Whole(Register(1)));
    steps := steps + [Whole(Register(1))];
    One(IDLE, steps, Whole(Register(2)));
    steps := steps + [Whole(Register(2))];
    One(IDLE, steps, Whole(EvCreatePost(1, "wanted", true, true)));
    steps := steps + [Whole(EvCreatePost(1, "wanted", true, true))];
    var offer := EvCreateOffer(2, "1", "offer", "as asked", 500, true, true);
    One(IDLE, steps, Begin(1, offer));
    steps := steps + [Begin(1, offer)];
    One(IDLE, steps, Commit(1, None, true));
    steps := steps + [Commit(1, None, true)];
    assert Reached(IDLE, steps) == OFFERED;
  }

  lemma ProposedReached() returns (steps: seq<Step>)
    ensures Interleaved(IDLE, steps) && Reached(IDLE, steps) == PROPOSED
  {
    var before := OfferedReached();
    assert StringToInt("1") == Some(1);
    var w;
    steps, w := Propose(before, OFFERED, 1, EvNegotiate(1, "1", 400, "", 10, None));
    hide StringToInt;
    assert w == PROPOSED;
  }

  lemma SceneReached() returns (steps: seq<Step>)
    ensures Interleaved(IDLE, steps) && Reached(IDLE, steps) == SCENE
  {
    var before := ProposedReached();
    assert StringToInt("1") == Some(1);
    var w;
    steps, w := Propose(before, PROPOSED, 1, EvNegotiate(2, "1", 450, "", 20, Some(1)));
    hide StringToInt;
    assert w == SCENE;
  }

  // User 2 sends accept-counter twice and user 1 a rejection; all three guards
  // pass while the offer is pending.
  const WAITING := World(SCENE.db, map[1 := Countering("1", 1, 1), 2 := Countering("1", 1, 1), 3 := Rejecting(1)])

  lemma WaitingReached() returns (steps: seq<Step>)
    ensures Interleaved(IDLE, steps) && Reached(IDLE, steps) == WAITING
  {
    steps := SceneReached();
    var counter, reject := EvAcceptCounter(2, "1", None), EvReject(1, "1");
    assert StringToInt("1") == Some(1);
    One(IDLE, steps, Begin(1, counter));
    steps := steps + [Begin(1, counter)];
    One(IDLE, steps, Begin(2, counter));
    steps := steps + [Begin(2, counter)];
    One(IDLE, steps, Begin(3, reject));
    steps := steps + [Begin(3, reject)];
    assert Reached(IDLE, steps) == WAITING;
  }

  lemma SceneFacts()
    ensures LatestPending(SCENE.db.negotiations, 1, Some(2)) && Agree(SCENE.db) && Undisturbed(SCENE.db, "1")
    ensures SCENE.db.negotiations[2].proposedPrice == 450
  {
  }

  /** The first accept-counter commits, whatever else waits: negotiation 2 is accepted, negotiation 1 rejected. */
  lemma CounterFirst(w: World)
    requires Sound(w) && w.db == SCENE.db && 1 in w.flights && w.flights[1] == Countering("1", 1, 1)
    ensures var step := Commit(1, Some(2), true);
            && Possible(w, step) && Sound(Move(w, step)) && Agree(Move(w, step).db)
            && Move(w, step).flights == w.flights - {1}
            && Closed(w.db, Move(w, step).db, 1, 1, Some(2)) && Move(w, step).db.offers[1].price == 450
  {
    SceneFacts();
    hide Move, Possible, Sound, Closed, Agree, LatestPending, Undisturbed;
    CounterCommit(w, 1, 2);
  }

  lemma FirstCommit(before: seq<Step>, w0: World) returns (steps: seq<Step>, w: World)
    requires Interleaved(IDLE, before) && Reached(IDLE, before) == w0
    requires w0.db == SCENE.db && 1 in w0.flights && w0.flights[1] == Countering("1", 1, 1)
    ensures Interleaved(IDLE, steps) && Reached(IDLE, steps) == w
    ensures Sound(w) && Agree(w.db) && w.flights == w0.flights - {1}
    ensures Closed(SCENE.db, w.db, 1, 1, Some(2)) && w.db.offers[1].price == 450
  {
    RunSurvives(IDLE, before);
    hide Move, Possible, Sound, Closed, Agree, Interleaved, Reached;
    CounterFirst(w0);
    steps, w := Then(before, Commit(1, Some(2), true), w0);
  }

  // What is left to commit after that.
  const LEFT := map[2 := Countering("1", 1, 1), 3 := Rejecting(1)]

  lemma WaitingLeft()
    ensures WAITING.flights - {1} == LEFT && 4 !in LEFT
  {
  }

  /** Negotiations 1, 2 and 3 of the closed offer: rejected, accepted, pending. */
  ghost predicate Staged(db: Db) {
    && db.negotiations.Keys == {1, 2, 3}
    && db.negotiations[1].offerId == 1 && db.negotiations[2].offerId == 1 && db.negotiations[3].offerId == 1
    && db.negotiations[1].status.Rejected? && db.negotiations[2].status.Accepted?
    && db.negotiations[3].status.Pending?
    && db.offers.Keys == {1} && 1 in db.posts && db.offers[1].postId == 1
    && 1 in db.messages && db.messages[1].body.Proposal?
    && db.messages[1].body.offerRef == "1" && db.messages[1].body.negotiationId == 1
  }

  lemma NegotiatedRows(db: Db, ev: Event)
    requires ev == EvNegotiate(1, "1", 600, "", 30, Some(1)) && Enabled(db, ev)
    requires 1 in db.offers && db.offers[1].postId == 1 && 1 in db.posts && Party(db, 1, 1)
    ensures var db' := Next(db, ev);
            && db'.negotiations == db.negotiations[db.next.negotiation := Negotiation(1, 1, 600, "", Pending, 30)]
            && db'.offers.Keys == db.offers.Keys && db'.offers[1].postId == 1 && db'.posts == db.posts
            && forall m :: m in db.messages && m != db.next.message ==>
                 m in db'.messages && db'.messages[m] == db.messages[m]
  {
    assert StringToInt("1") == Some(1);
  }

  lemma ProposalAllowed(db: Db, ev: Event)
    requires ev == EvNegotiate(1, "1", 600, "", 30, Some(1)) && Closed(SCENE.db, db, 1, 1, Some(2))
    ensures 1 in db.users && Enabled(db, ev) && Passes(db, ev)
    ensures 1 in db.offers && db.offers[1].postId == 1 && 1 in db.posts && Party(db, 1, 1)
    ensures 1 in db.messages && db.messages[1].body.Proposal?
            && db.messages[1].body.offerRef == "1" && db.messages[1].body.negotiationId == 1
  {
  }

  lemma ProposedSound(w: World, f: int, ev: Event)
    requires Sound(w) && Agree(w.db)
    requires ev.EvNegotiate? && f !in w.flights && ev.user in w.db.users && Passes(w.db, ev)
    ensures Enabled(w.db, ev) && Sound(World(Next(w.db, ev), w.flights)) && Agree(Next(w.db, ev))
  {
    var begin, commit := Begin(f, ev), Commit(f, None, true);
    Proposed(w, f, ev);
    var ready := Move(w, begin);
    assert ready.db == w.db && ready.flights[f].Proposing?;
    hide Move, Possible, Sound, Agree, Passes, Next, Enabled;
    MoveSound(w, begin);
    MoveSound(ready, commit);
    AgreementExactly(ready, commit);
  }

  /** What the first accept-counter leaves. */
  ghost predicate Settled(db: Db) {
    && db.negotiations.Keys == {1, 2} && db.next.negotiation == 3 && db.next.message == 3
    && db.negotiations[1].offerId == 1 && db.negotiations[2].offerId == 1
    && db.negotiations[1].status.Rejected? && db.negotiations[2].status.Accepted?
    && db.offers.Keys == {1} && db.offers[1].postId == 1 && 1 in db.posts
  }

  lemma SettledRows(db: Db)
    requires Closed(SCENE.db, db, 1, 1, Some(2))
    ensures Settled(db)
  {
  }

  lemma SettledOffer(db: Db)
    requires Settled(db)
    ensures 1 in db.offers && db.offers[1].postId == 1 && 1 in db.posts
    ensures db.next.negotiation == 3 && db.next.message == 3
  {
  }

  /** What another proposal adds to that. */
  lemma StagedRows(db': Db, db: Db)
    requires Settled(db)
    requires db'.negotiations == db.negotiations[3 := Negotiation(1, 1, 600, "", Pending, 30)]
    requires db'.offers.Keys == db.offers.Keys && db'.offers[1].postId == 1 && db'.posts == db.posts
    requires 1 in db'.messages && db'.messages[1].body.Proposal?
    requires db'.messages[1].body.offerRef == "1" && db'.messages[1].body.negotiationId == 1
    ensures Staged(db')
  {
  }

  /** Then user 1 proposes again on the closed offer, which negotiate_offer allows. */
  lemma ThirdProposal(w: World, ev: Event)
    requires ev == EvNegotiate(1, "1", 600, "", 30, Some(1))
    requires Sound(w) && Agree(w.db) && 4 !in w.flights && Closed(SCENE.db, w.db, 1, 1, Some(2))
    ensures 1 in w.db.users && Passes(w.db, ev) && Enabled(w.db, ev)
    ensures var w' := World(Next(w.db, ev), w.flights); Sound(w') && Agree(w'.db) && Staged(w'.db)
  {
    hide Closed, Sound, Agree, Next, Move, Staged, Settled, Party, Passes, Enabled;
    ProposalAllowed(w.db, ev);
    SettledRows(w.db);
    SettledOffer(w.db);
    ProposedSound(w, 4, ev);
    NegotiatedRows(w.db, ev);
    StagedRows(Next(w.db, ev), w.db);
  }

  lemma StagedQueries(db: Db)
    requires Staged(db)
    ensures LatestPending(db.negotiations, 1, Some(3)) && !Undisturbed(db, "1")
  {
    assert 1 in db.messages;
  }

  /** The second accept-counter commits late. */
  lemma SecondCommit(w: World)
    requires Sound(w) && Agree(w.db) && w.flights == LEFT && Staged(w.db)
    ensures var step := Commit(2, Some(3), true);
            && Possible(w, step)
            && Move(w, step).flights == map[3 := Rejecting(1)]
            && Closed(w.db, Move(w, step).db, 1, 1, Some(3)) && !Agree(Move(w, step).db)
  {
    hide Move, Possible, Sound, Closed, Agree, LatestPending, Undisturbed, Staged;
    StagedQueries(w.db);
    CounterCommit(w, 2, 3);
    assert w.flights - {2} == map[3 := Rejecting(1)];
  }

  /**
   * The copies disagree, one offer has two accepted negotiations, an accepted
   * negotiation lies on a rejected offer, and a fulfilled post has no accepted offer.
   */
  ghost predicate Broken(db: Db) {
    && !CopiesAgree(db.messages, db.negotiations) && !AcceptedOnce(db.negotiations)
    && !AcceptedBelow(db.offers, db.negotiations) && !FulfilledByAccepted(db.posts, db.offers)
  }

  /** What that commit leaves: two accepted negotiations on an accepted offer. */
  ghost predicate Doubled(db: Db) {
    && 2 in db.negotiations && 3 in db.negotiations
    && db.negotiations[2].offerId == 1 && db.negotiations[3].offerId == 1
    && db.negotiations[2].status.Accepted? && db.negotiations[3].status.Accepted?
    && db.offers.Keys == {1} && db.offers[1].postId == 1 && 1 in db.posts && db.posts[1].requestStatus.Fulfilled?
  }

  lemma DoubledRows(staged: Db, db: Db)
    requires Staged(staged) && Closed(staged, db, 1, 1, Some(3))
    ensures Doubled(db)
  {
  }

  lemma RejectedRows(db: Db)
    requires Doubled(db) && !Agree(db)
    ensures Broken(RejectWrite(db, 1))
  {
    var db' := RejectWrite(db, 1);
    assert db'.offers[1].status.Rejected? && db'.posts[1].requestStatus.Fulfilled?;
    assert db'.negotiations[2].status.Accepted? && db'.negotiations[3].status.Accepted?;
  }

  /** And so does the rejection. */
  lemma LastCommit(before: seq<Step>, w: World) returns (steps: seq<Step>)
    requires Interleaved(IDLE, before) && Reached(IDLE, before) == w
    requires w.flights == map[3 := Rejecting(1)] && Doubled(w.db) && !Agree(w.db)
    ensures Interleaved(IDLE, steps) && Broken(Reached(IDLE, steps).db)
  {
    hide Move, Possible, Agree, Doubled, Broken, Interleaved, Reached;
    RejectCommit(w, 3);
    RejectedRows(w.db);
    var end;
    steps, end := Then(before, Commit(3, None, true), w);
  }

  /** A schedule from empty tables that breaks four of the one-at-a-time guarantees. */
  lemma LateCommitsBreak() returns (steps: seq<Step>)
    ensures Interleaved(IDLE, steps) && Broken(Reached(IDLE, steps).db)
  {
    var waiting := WaitingReached();
    hide Move, Possible, Sound, Closed, Agree, Staged, Doubled, Broken, Interleaved, Reached;
    var s1, w1 := FirstCommit(waiting, WAITING);
    WaitingLeft();
    var ev := EvNegotiate(1, "1", 600, "", 30, Some(1));
    ThirdProposal(w1, ev);
    var s2, w2 := Propose(s1, w1, 4, ev);
    SecondCommit(w2);
    var s3, w3 := Then(s2, Commit(2, Some(3), true), w2);
    DoubledRows(w2.db, w3.db);
    steps := LastCommit(s3, w3);
  }

  // ---- the price of an accepted offer ------------------------------------------

  // User 2 accepts the counter-offer and, while that waits, updates the price.
  const DEARER := Changes(None, None, Some(700), None)
  const REPRICING := World(SCENE.db, map[1 := Countering("1", 1, 1), 2 := Updating(1, DEARER)])

  lemma RepricingReached() returns (steps: seq<Step>)
    ensures Interleaved(IDLE, steps) && Reached(IDLE, steps) == REPRICING
  {
    var s0 := SceneReached();
    var counter, update := EvAcceptCounter(2, "1", None), EvUpdateOffer(2, "1", DEARER, true);
    assert StringToInt("1") == Some(1);
    var s1, w1 := Then(s0, Begin(1, counter), SCENE);
    var s2, w2 := Then(s1, Begin(2, update), w1);
    steps := s2;
    assert w2 == REPRICING;
  }

  lemma SettledThere(db: Db)
    requires Closed(SCENE.db, db, 1, 1, Some(2)) && db.offers[1].price == 450
    ensures SettledAt(db, 1, 2)
  {
  }

  /** Then the update commits: an accepted offer has a price nobody negotiated. */
  lemma LateUpdateReprices() returns (before: seq<Step>, late: Step)
    ensures Interleaved(IDLE, before) && Interleaved(IDLE, before + [late])
    ensures SettledAt(Reached(IDLE, before).db, 1, 2)
    ensures var end := Reached(IDLE, before + [late]).db;
            && 1 in end.offers && end.offers[1].status.Accepted? && end.offers[1].price == 700
            && !SettledAt(end, 1, 2)
  {
    var start := RepricingReached();
    hide Closed, Agree;
    var w;
    before, w := FirstCommit(start, REPRICING);
    SettledThere(w.db);
    assert 2 in w.flights && w.flights[2] == Updating(1, DEARER);
    late := Commit(2, None, true);
    One(IDLE, before, late);
    SettledExactly(w, late, 1, 2);
    StatusExactly(w, late, 1);
  }

  // ---- two conversations for one pair ----------------------------------------------

  // Users 1 and 2 each look for their conversation before either inserts one.
  const LOOKED := World(EMPTY.(users := {1, 2}), map[1 := Conversing(1, 2, "a"), 2 := Conversing(2, 1, "b")])

  lemma LookedReached() returns (steps: seq<Step>)
    ensures Interleaved(IDLE, steps) && Reached(IDLE, steps) == LOOKED
  {
    var s1, w1 := Then([], Whole(Register(1)), IDLE);
    var s2, w2 := Then(s1, Whole(Register(2)), w1);
    var s3, w3 := Then(s2, Begin(1, EvCreateConversation(1, 2, "a", None)), w2);
    var s4, w4 := Then(s3, Begin(2, EvCreateConversation(2, 1, "b", None)), w3);
    steps := s4;
    assert w4 == LOOKED;
  }

  lemma LateInsertsDuplicate() returns (steps: seq<Step>)
    ensures Interleaved(IDLE, steps)
    ensures var db := Reached(IDLE, steps).db;
            && 1 in db.conversations && 2 in db.conversations
            && db.conversations[1].participants == {1, 2} && db.conversations[2].participants == {1, 2}
            && !PairsOnce(db.conversations)
  {
    var s0 := LookedReached();
    var s1, w1 := Then(s0, Commit(1, None, true), LOOKED);
    var s2, w2 := Then(s1, Commit(2, None, true), w1);
    steps := s2;
    assert Share(w2.db.conversations[1], 1, 2) && Share(w2.db.conversations[2], 1, 2);
  }

  // ---- one request at a time: an acceptance away from the negotiated price ------------

  lemma {:induction false} Requested(db: Db, evs: seq<Event>, ev: Event)
    requires Run(db, evs) && Enabled(After(db, evs), ev)
    ensures Run(db, evs + [ev]) && After(db, evs + [ev]) == Next(After(db, evs), ev)
    decreases |evs|
  {
    hide Enabled, Next;
    var all := evs + [ev];
    if evs == [] {
      assert all[1..] == [] && Run(Next(db, ev), []);
    } else {
      assert all[1..] == evs[1..] + [ev];
      Requested(Next(db, evs[0]), evs[1..], ev);
    }
  }

  lemma Ask(evs: seq<Event>, ev: Event, db: Db) returns (more: seq<Event>, db': Db)
    requires Run(EMPTY, evs) && After(EMPTY, evs) == db && Enabled(db, ev)
    ensures Run(EMPTY, more) && After(EMPTY, more) == db' == Next(db, ev)
  {
    Requested(EMPTY, evs, ev);
    more, db' := evs + [ev], Next(db, ev);
  }

  lemma OfferedByRequests() returns (evs: seq<Event>)
    ensures Run(EMPTY, evs) && After(EMPTY, evs) == OFFERED.db
  {
    hide Run, After;
    NoRequests();
    var e1, d1 := Ask([], Register(1), EMPTY);
    var e2, d2 := Ask(e1, Register(2), d1);
    var e3, d3 := Ask(e2, EvCreatePost(1, "wanted", true, true), d2);
    assert StringToInt("1") == Some(1);
    var e4, d4 := Ask(e3, EvCreateOffer(2, "1", "offer", "as asked", 500, true, true), d3);
    evs := e4;
    assert d4 == OFFERED.db;
  }

  lemma NoRequests()
    ensures Run(EMPTY, []) && After(EMPTY, []) == EMPTY
  {
  }

  lemma ProposedByRequests() returns (evs: seq<Event>)
    ensures Run(EMPTY, evs) && After(EMPTY, evs) == PROPOSED.db
  {
    var before := OfferedByRequests();
    assert StringToInt("1") == Some(1);
    hide Run, After, StringToInt;
    var db;
    evs, db := Ask(before, EvNegotiate(1, "1", 400, "", 10, None), OFFERED.db);
    assert db == PROPOSED.db;
  }

  lemma SceneByRequests() returns (evs: seq<Event>)
    ensures Run(EMPTY, evs) && After(EMPTY, evs) == SCENE.db
  {
    var before := ProposedByRequests();
    assert StringToInt("1") == Some(1);
    hide Run, After, StringToInt;
    var db;
    evs, db := Ask(before, EvNegotiate(2, "1", 450, "", 20, Some(1)), PROPOSED.db);
    assert db == SCENE.db;
  }

  /** The post's owner accepts an offer of 500 while 450 is on the table: negotiation accepted, price unchanged. */
  lemma AcceptIgnoresPrice() returns (evs: seq<Event>)
    ensures Run(EMPTY, evs)
    ensures var db := After(EMPTY, evs);
            && 1 in db.offers && db.offers[1].status.Accepted? && db.offers[1].price == 500
            && 2 in db.negotiations && db.negotiations[2].status.Accepted? && db.negotiations[2].proposedPrice == 450
            && db.negotiations[2].offerId == 1 && !SettledAt(db, 1, 2)
  {
    var before := SceneByRequests();
    SceneFacts();
    Reachable(before);
    assert StringToInt("1") == Some(1) && CloseGuard(SCENE.db, 1, "1", false).Ok?;
    var db;
    evs, db := Ask(before, EvAccept(1, "1", Some(2)), SCENE.db);
    hide Run, After, Enabled, AcceptWrite, SettledAt;
    AcceptCloses(SCENE.db, 1, 1, Some(2));
    AcceptPriceExactly(SCENE.db, 1, "1", Some(2));
  }
}
