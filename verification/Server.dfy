// The deal tables, the notification services and the media tables together:
// handlers of controllers/offers.cc, controllers/chats.cc and
// controllers/community.cc with everything they do.
module Servers {
  import opened Prelude
  import opened Ids
  import opened Tables
  import opened Notices
  import opened Media
  import opened Connections
  import opened Marketplaces
  import opened Services
  import opened Systems
  import History
  import F = FanOut
  import H = Handlers

  const MAX_MEDIA_SIZE := 5

  predicate TooMany(keys: Option<seq<string>>): (r: bool)
    ensures r <==> keys.Some? && |keys.value| > 5
  {
    |H.Or(keys, [])| > MAX_MEDIA_SIZE
  }

  /** What a fresh entity can link: no key repeats and every one names a stored object. */
  ghost predicate Storable(objects: map<string, Info>, keys: Option<seq<string>>) {
    Distinct(H.Or(keys, [])) && forall k :: k in H.Or(keys, []) ==> k in objects
  }

  /** The id was drawn from its sequence. */
  ghost predicate Issued(entity: Entity, next: Sequences) {
    match entity
    case OfPost(p) => p < next.post
    case OfOffer(o) => o < next.offer
    case OfMessage(m) => m < next.message
  }

  ghost predicate AllIssued(links: Links, next: Sequences) {
    forall l :: l in links ==> Issued(l.0, next)
  }

  lemma FreshAttaches(media: MediaTable, links: Links, objects: map<string, Info>, entity: Entity, next: Sequences,
                      keys: Option<seq<string>>)
    requires AllIssued(links, next) && entity in {OfPost(next.post), OfOffer(next.offer), OfMessage(next.message)}
    ensures Attaches(media, links, objects, entity, H.Or(keys, [])) <==> Storable(objects, keys)
  {
  }

  lemma MoreIssued(links: Links, next: Sequences, links': Links, next': Sequences, entity: Entity)
    requires AllIssued(links, next) && History.Grows(next, next')
    requires forall l :: l in links' ==> l in links || l.0 == entity
    requires links' == links || Issued(entity, next')
    ensures AllIssued(links', next')
  {
  }

  // A refused request never looks at its media; one that gets as far as the media has drawn its id.

  lemma PostMediaLast(db: Db, user: int, content: string, isRequest: bool, mediaOk: bool)
    ensures var passed := content != "";
            var (db', outcome) := H.CreatePost(db, user, content, isRequest, mediaOk);
            && (outcome.Ok? <==> passed && mediaOk) && (passed ==> Issued(OfPost(db.next.post), db'.next))
            && (!passed ==> (db', outcome) == H.CreatePost(db, user, content, isRequest, !mediaOk))
  {
  }

  lemma OfferMediaLast(db: Db, user: int, ref: string, title: string, description: string, price: int, isPublic: bool,
                       mediaOk: bool)
    ensures var passed := H.CreateOfferGuard(db, user, ref, title, description, price).Ok?;
            var (db', outcome) := H.CreateOffer(db, user, ref, title, description, price, isPublic, mediaOk);
            && (outcome.Ok? <==> passed && mediaOk) && db'.posts == db.posts
            && (passed ==> Issued(OfOffer(db.next.offer), db'.next))
            && (passed ==> StringToInt(ref).Some? && StringToInt(ref).value in db.posts)
            && (!passed ==>
                  (db', outcome) == H.CreateOffer(db, user, ref, title, description, price, isPublic, !mediaOk))
  {
  }

  lemma UpdateMediaLast(db: Db, user: int, id: string, changes: H.Changes, mediaOk: bool)
    ensures var passed := H.UpdateOfferGuard(db, user, id).Ok?;
            var (db', outcome) := H.UpdateOffer(db, user, id, changes, mediaOk);
            && (outcome.Ok? <==> passed && mediaOk) && db'.next == db.next && (passed ==> Named(id) in db.offers)
            && (!passed ==> (db', outcome) == H.UpdateOffer(db, user, id, changes, !mediaOk))
  {
  }

  lemma MessageMediaLast(db: Db, user: int, ref: string, content: Option<string>, attached: bool, mediaOk: bool)
    ensures var passed := Sendable(db, user, ref, content, attached);
            var (db', outcome) := H.SendMessage(db, user, ref, content, attached, mediaOk);
            && (outcome.Ok? <==> passed && (attached ==> mediaOk))
            && (passed ==> Issued(OfMessage(db.next.message), db'.next))
            && (!passed ==> (db', outcome) == H.SendMessage(db, user, ref, content, attached, !mediaOk))
  {
  }

  lemma OtherNamed(db: Db, user: int, other: int, name: string, found: Option<int>)
    requires H.CreateConversation(db, user, other, name, found).1.Ok?
    ensures other >= 0
  {
  }

  function Named(id: string): int {
    match StringToInt(id) case None => 0 case Some(n) => n
  }

  predicate Sendable(db: Db, user: int, ref: string, content: Option<string>, attached: bool) {
    && StringToInt(ref).Some? && Named(ref) >= 0 && (attached || H.Or(content, "") != "")
    && H.MemberGuard(db, user, ref).Ok?
  }

  class Server {
    const market: Marketplace
    const services: ServiceManager
    const store: MediaStore                   // media with post_media, offer_media and message_media
    var offerNotifications: seq<(int, int)>   // offer_notifications: offer, user

    ghost predicate Valid()
      reads this, market, services, services.subscriber, services.subscriber.manager, store
    {
      market.Valid() && services.Valid() && store.Valid() && AllIssued(store.links, market.next)
    }

    ghost function State(): System
      reads this, market, services, services.subscriber, services.subscriber.manager
    {
      System(market.Snapshot(), services.Snapshot())
    }

    constructor ()
      ensures Valid() && State() == Systems.START && store.media == map[] && store.links == {}
      ensures offerNotifications == []
    {
      market := new Marketplace();
      services := new ServiceManager();
      store := new MediaStore();
      offerNotifications := [];
    }

    method PublishAll(notices: seq<Publication>)
      requires services.Valid()
      modifies services`accepted, services.subscriber`inbox
      ensures services.Valid() && services.Snapshot() == Published(old(services.Snapshot()), notices)
    {
      ghost var before := services.Snapshot();
      for i := 0 to |notices|
        invariant services.Valid() && services.Snapshot() == Published(before, notices[..i])
      {
        assert notices[..i + 1][..i] == notices[..i];
        services.PublishNotice(notices[i].topic, Payload(notices[i]));
      }
      assert notices[..|notices|] == notices;
    }

    // ---- the requests with media ---------------------------------------------------

    /** The media of a request that got this far and has any: all of them or none. */
    method AttachTo(passed: bool, user: int, entity: Entity, keys: Option<seq<string>>, objects: map<string, Info>)
      returns (ok: bool, attached: seq<Attached>)
      requires store.Valid()
      modifies store
      ensures store.Valid() && forall l :: l in store.links ==> l in old(store.links) || l.0 == entity
      ensures passed ==> (ok <==> Attaches(old(store.media), old(store.links), objects, entity, H.Or(keys, [])))
      ensures Filed(old(store.media), old(store.links), store.media, store.links, objects, user, entity,
                    H.Or(keys, []), attached, passed && ok)
      ensures keys.None? ==> ok
    {
      ok, attached := true, [];
      NothingYet(store.media, store.links, objects, user, entity);
      if passed && keys.Some? {
        ok, attached := store.Attach(keys.value, objects, user, entity);
      }
    }

    /** create_post: the owner of a new post is subscribed to it, and its tags and location hear of it. */
    method CreatePost(user: nat, content: string, isRequest: bool, tags: seq<string>, location: string,
                      keys: Option<seq<string>>, objects: map<string, Info>)
      returns (outcome: H.Outcome, attached: seq<Attached>)
      requires Valid() && user in market.users
      modifies market, store, services`table, services`accepted, services.subscriber`filters
      modifies services.subscriber`inbox, services.subscriber.manager`subscribers
      ensures Valid()
      ensures (market.Snapshot(), outcome) ==
                if TooMany(keys) then (old(market.Snapshot()), H.BadRequest)
                else H.CreatePost(old(market.Snapshot()), user, content, isRequest, Storable(objects, keys))
      ensures services.Snapshot() ==
                if outcome.Ok? then Posted(old(services.Snapshot()), user, old(market.next.post), tags, location)
                else old(services.Snapshot())
      ensures outcome.Ok? ==>
                var post := old(market.next.post);
                Told(old(services.Snapshot()), services.Snapshot(), {(IntToString(user), "post:" + IdText(post))},
                     PostWords(post, tags, location))
      ensures Filed(old(store.media), old(store.links), store.media, store.links, objects, user,
                    OfPost(old(market.next.post)), H.Or(keys, []), attached, outcome.Ok?)
    {
      hide Upserted, Attaches, Keys, Storable, Published, F.Inv, F.Move, Issued, AllIssued, History.Grows;
      hide H.CreatePost, Told;
      if TooMany(keys) {
        return H.BadRequest, [];
      }
      var post := market.next.post;
      PostedTells(services.Snapshot(), user, post, tags, location);
      ghost var before, links := market.Snapshot(), store.links;
      FreshAttaches(store.media, links, objects, OfPost(post), before.next, keys);
      var mediaOk;
      mediaOk, attached := AttachTo(content != "", user, OfPost(post), keys, objects);
      PostMediaLast(before, user, content, isRequest, mediaOk);
      History.SequencesGrow(before, H.EvCreatePost(user, content, isRequest, mediaOk));
      outcome := market.CreatePost(user, content, isRequest, tags, location, mediaOk);
      MoreIssued(links, before.next, store.links, market.next, OfPost(post));
      if outcome.Ok? {
        services.AutoSubscribe(user, "post", post);
        PublishAll(PostNotices(IntToString(post), tags, location));
      }
    }

    /** The notification row for the post's owner, the maker's subscription, and the notice. */
    method AnnounceOffer(user: nat, postRef: string, offer: nat, owner: int)
      requires services.Valid()
      modifies this`offerNotifications
      modifies services`table, services`accepted, services.subscriber`filters, services.subscriber`inbox
      modifies services.subscriber.manager`subscribers
      ensures services.Valid() && offerNotifications == old(offerNotifications) + [(offer, owner)]
      ensures services.Snapshot() ==
                Published(F.Move(old(services.Snapshot()), Joining(user, offer)),
                          [Publication(CreateTopic("post", postRef), OfferCreated, IntToString(offer))])
    {
      offerNotifications := offerNotifications + [(offer, owner)];
      services.AutoSubscribe(user, "offer", offer);
      PublishAll([Publication(CreateTopic("post", postRef), OfferCreated, IntToString(offer))]);
    }

    /**
     * create_offer: the offer and its media or neither; on success the post's
     * owner has a notification row, the maker is subscribed to the offer and
     * the post's topic hears of it.
     */
    method CreateOffer(user: nat, postRef: string, title: string, description: string, price: int, isPublic: bool,
                       keys: Option<seq<string>>, objects: map<string, Info>)
      returns (outcome: H.Outcome, attached: seq<Attached>)
      requires Valid() && user in market.users
      modifies this`offerNotifications, market, store, services`table, services`accepted
      modifies services.subscriber`filters, services.subscriber`inbox, services.subscriber.manager`subscribers
      ensures Valid()
      ensures if TooMany(keys) then outcome.BadRequest? && State() == old(State())
              else Answered(old(State()), H.EvCreateOffer(user, postRef, title, description, price, isPublic,
                                                          Storable(objects, keys)), [], State(), outcome)
      ensures if outcome.Ok? then
                && StringToInt(postRef).Some? && StringToInt(postRef).value in old(market.posts)
                && offerNotifications == old(offerNotifications) +
                     [(old(market.next.offer), old(market.posts)[StringToInt(postRef).value].owner)]
              else offerNotifications == old(offerNotifications)
      ensures Filed(old(store.media), old(store.links), store.media, store.links, objects, user,
                    OfOffer(old(market.next.offer)), H.Or(keys, []), attached, outcome.Ok?)
    {
      hide Upserted, Attaches, Keys, Storable, Published, F.Inv, F.Move, Issued, AllIssued, History.Grows;
      hide H.CreateOffer, H.CreateOfferGuard, StringToInt;
      if TooMany(keys) {
        return H.BadRequest, [];
      }
      var offer := market.next.offer;
      ghost var before, links := market.Snapshot(), store.links;
      var passed := H.CreateOfferGuard(market.Snapshot(), user, postRef, title, description, price).Ok?;
      FreshAttaches(store.media, links, objects, OfOffer(offer), before.next, keys);
      var mediaOk;
      mediaOk, attached := AttachTo(passed, user, OfOffer(offer), keys, objects);
      OfferMediaLast(before, user, postRef, title, description, price, isPublic, mediaOk);
      History.SequencesGrow(before, H.EvCreateOffer(user, postRef, title, description, price, isPublic, mediaOk));
      outcome := market.CreateOffer(user, postRef, title, description, price, isPublic, mediaOk);
      MoreIssued(links, before.next, store.links, market.next, OfOffer(offer));
      if outcome.Ok? {
        AnnounceOffer(user, postRef, offer, market.posts[StringToInt(postRef).value].owner);
      }
    }

    /** update_offer: the row stays changed even when the media of the request do not attach. */
    method UpdateOffer(user: int, id: string, changes: H.Changes, keys: Option<seq<string>>, objects: map<string, Info>)
      returns (outcome: H.Outcome, attached: seq<Attached>)
      requires Valid() && user in market.users
      modifies market, store, services`accepted, services.subscriber`inbox
      ensures Valid()
      ensures if TooMany(keys) then outcome.BadRequest? && State() == old(State())
              else Answered(old(State()),
                            H.EvUpdateOffer(user, id, changes, Attaches(old(store.media), old(store.links), objects,
                                                                        OfOffer(Named(id)), H.Or(keys, []))),
                            [], State(), outcome)
      ensures Filed(old(store.media), old(store.links), store.media, store.links, objects, user,
                    OfOffer(Named(id)), H.Or(keys, []), attached, outcome.Ok?)
    {
      hide Upserted, Attaches, Keys, Published, F.Inv, F.Move, H.UpdateOffer, H.UpdateOfferGuard, StringToInt;
      if TooMany(keys) {
        return H.BadRequest, [];
      }
      ghost var before, links := market.Snapshot(), store.links;
      var passed := H.UpdateOfferGuard(market.Snapshot(), user, id).Ok?;
      var mediaOk;
      mediaOk, attached := AttachTo(passed, user, OfOffer(Named(id)), keys, objects);
      UpdateMediaLast(before, user, id, changes, mediaOk);
      History.SequencesGrow(before, H.EvUpdateOffer(user, id, changes, mediaOk));
      outcome := market.UpdateOffer(user, id, changes, mediaOk);
      MoreIssued(links, before.next, store.links, market.next, OfOffer(Named(id)));
      if outcome.Ok? {
        PublishAll([OfferNotice(id, OfferUpdated)]);
      }
    }

    /** send_message: the message with its media or neither, and the conversation's topic hears of it. */
    method SendMessage(user: int, ref: string, content: Option<string>, keys: Option<seq<string>>,
                       objects: map<string, Info>)
      returns (outcome: H.Outcome, attached: seq<Attached>)
      requires Valid() && user in market.users
      modifies market, store, services`accepted, services.subscriber`inbox
      ensures Valid()
      ensures if TooMany(keys) then outcome.BadRequest? && State() == old(State())
              else Answered(old(State()), H.EvSendMessage(user, ref, content, keys.Some?, Storable(objects, keys)),
                            [], State(), outcome)
      ensures Filed(old(store.media), old(store.links), store.media, store.links, objects, user,
                    OfMessage(old(market.next.message)), H.Or(keys, []), attached, outcome.Ok?)
    {
      hide Upserted, Attaches, Keys, Storable, Published, F.Inv, F.Move, Issued, AllIssued, History.Grows;
      hide H.SendMessage, Sendable, StringToInt;
      if TooMany(keys) {
        return H.BadRequest, [];
      }
      var message := market.next.message;
      ghost var before, links := market.Snapshot(), store.links;
      var passed := Sendable(market.Snapshot(), user, ref, content, keys.Some?);
      FreshAttaches(store.media, links, objects, OfMessage(message), before.next, keys);
      var mediaOk;
      mediaOk, attached := AttachTo(passed, user, OfMessage(message), keys, objects);
      MessageMediaLast(before, user, ref, content, keys.Some?, mediaOk);
      History.SequencesGrow(before, H.EvSendMessage(user, ref, content, keys.Some?, mediaOk));
      outcome := market.SendMessage(user, ref, content, keys.Some?, mediaOk);
      MoreIssued(links, before.next, store.links, market.next, OfMessage(message));
      if outcome.Ok? {
        PublishAll([Publication(CreateTopic("chat", ref), MessageSent, ref)]);
      }
    }

    // ---- the requests without --------------------------------------------------------

    /** accept_offer: the tables, one acceptance notice and a rejection notice for each offer that lost. */
    method AcceptOffer(user: int, id: string) returns (outcome: H.Outcome, chosen: Option<int>, rejected: seq<int>)
      requires Valid()
      modifies market, services`accepted, services.subscriber`inbox
      ensures Valid() && H.ChosenFor(old(market.Snapshot()), id, chosen)
      ensures (market.Snapshot(), outcome) == H.AcceptOffer(old(market.Snapshot()), user, id, chosen)
      ensures outcome.Ok? ==>
                Distinct(rejected) && Elements(rejected) == NewlyRejected(old(market.offers), market.offers)
      ensures services.Snapshot() ==
                if outcome.Ok?
                then Published(old(services.Snapshot()), [OfferNotice(id, OfferAccepted)] + Rejections(rejected))
                else old(services.Snapshot())
      ensures user in old(market.users) ==>
                Answered(old(State()), H.EvAccept(user, id, chosen), rejected, State(), outcome)
    {
      hide H.AcceptOffer, Published, F.Inv, F.Move;
      ghost var before := market.Snapshot();
      outcome, chosen, rejected := market.AcceptOffer(user, id);
      History.ClosingSequences(before, user, id, chosen);
      if outcome.Ok? {
        PublishAll([OfferNotice(id, OfferAccepted)] + Rejections(rejected));
      }
    }

    /** create_conversation: both participants of a new conversation are subscribed to it, and it is announced. */
    method CreateConversation(user: nat, other: int, name: string) returns (outcome: H.Outcome, found: Option<int>)
      requires Valid()
      modifies market, services`table, services`accepted, services.subscriber`filters, services.subscriber`inbox
      modifies services.subscriber.manager`subscribers
      ensures Valid() && SharedConversation(old(market.conversations), user, other, found)
      ensures (market.Snapshot(), outcome) == H.CreateConversation(old(market.Snapshot()), user, other, name, found)
      ensures if outcome.Ok? && found.None?
              then other >= 0 && services.Snapshot() ==
                     Conversed(old(services.Snapshot()), user, other, old(market.next.conversation))
              else services.Snapshot() == old(services.Snapshot())
      ensures var c := IdText(old(market.next.conversation));
              services.table == old(services.table) +
                if outcome.Ok? && found.None? then {(IntToString(user), "chat:" + c), (IdText(other), "chat:" + c)}
                else {}
      ensures user in old(market.users) ==>
                Answered(old(State()), H.EvCreateConversation(user, other, name, found), [], State(), outcome)
    {
      hide SharedConversation, F.Inv, F.Move, Published, H.CreateConversation;
      var c := market.next.conversation;
      ghost var before := market.Snapshot();
      ConversedRows(services.Snapshot(), user, other, c);
      outcome, found := market.CreateConversation(user, other, name);
      History.ConversationSequences(before, user, other, name, "", found);
      if outcome.Ok? {
        OtherNamed(before, user, other, name, found);
      }
      if outcome.Ok? && found.None? {
        services.SubscribeParties(user, other, c);
        PublishAll([ChatNotice(c)]);
      }
    }

    // ---- the requests that only publish ------------------------------------------

    /** register_user, past the checks of a new account's data: from now on the id is a user's. */
    method Register(user: int)
      requires Valid()
      modifies market
      ensures Valid() && Answered(old(State()), H.Register(user), [], State(), H.Ok)
    {
      market.AddUser(user);
    }

    method AcceptCounterOffer(user: int, id: string)
      returns (outcome: H.Outcome, chosen: Option<int>, rejected: seq<int>)
      requires Valid() && user in market.users
      modifies market, services`accepted, services.subscriber`inbox
      ensures Valid()
      ensures Answered(old(State()), H.EvAcceptCounter(user, id, chosen), rejected, State(), outcome)
    {
      hide H.AcceptCounter, Published, F.Inv, F.Move;
      ghost var before := market.Snapshot();
      outcome, chosen, rejected := market.AcceptCounterOffer(user, id);
      History.SequencesGrow(before, H.EvAcceptCounter(user, id, chosen));
      if outcome.Ok? {
        PublishAll([OfferNotice(id, OfferAccepted)] + Rejections(rejected));
      }
    }

    method RejectOffer(user: int, id: string) returns (outcome: H.Outcome)
      requires Valid() && user in market.users
      modifies market, services`accepted, services.subscriber`inbox
      ensures Valid() && Answered(old(State()), H.EvReject(user, id), [], State(), outcome)
    {
      hide H.RejectOffer, Published, F.Inv, F.Move;
      ghost var before := market.Snapshot();
      outcome := market.RejectOffer(user, id);
      History.SequencesGrow(before, H.EvReject(user, id));
      if outcome.Ok? {
        PublishAll([OfferNotice(id, OfferRejected)]);
      }
    }

    method NegotiateOffer(user: int, id: string, price: int, note: string, now: int)
      returns (outcome: H.Outcome, ghost found: Option<int>)
      requires Valid() && user in market.users
      modifies market, services`accepted, services.subscriber`inbox
      ensures Valid()
      ensures Answered(old(State()), H.EvNegotiate(user, id, price, note, now, found), [], State(), outcome)
    {
      hide H.Negotiate, Published, F.Inv, F.Move;
      ghost var before := market.Snapshot();
      outcome, found := market.NegotiateOffer(user, id, price, note, now);
      History.SequencesGrow(before, H.EvNegotiate(user, id, price, note, now, found));
      if outcome.Ok? {
        PublishAll([OfferNotice(id, OfferAccepted)]);
      }
    }
  }
}
