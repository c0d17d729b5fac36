# Verification of the marketplace server

A Dafny model of the server's deal protocol, its notification engine and four
smaller algorithms, with proofs of what they promise. `dafny verify dfyconfig.toml`
checks everything.

## What is modelled

**Deals and chats.** Users write posts, make offers on other users' posts, propose
prices, accept or reject, and talk in conversations of two.

- `Tables.dfy`: the tables as maps from serial ids, and each SQL statement as an
  update of a whole table. The status of a negotiation is kept twice, in its row
  and in the metadata of the chat message that proposed it.
- `Handlers.dfy`: what one request of each handler does when it runs alone, with
  every refusal and rollback; requests in sequence form runs. Where a query
  may return one of several rows, any of them is considered.
- `Marketplace.dfy`: the handlers as they run, a class whose methods update the
  tables statement by statement and loop over returned rows, each proved equal
  to its effect in `Handlers.dfy`.
- `Invariants.dfy`, `Closing.dfy`, `Copies.dfy`, `Safety.dfy`, `History.dfy`: what every
  reachable state satisfies and what no later request undoes. `Effects.dfy` and
  `Chats.dfy` say who may do what, how everybody else is refused, and which rows a
  single request leaves behind, field by field; `Guarantees.dfy` says the results
  for whole runs in terms of the tables alone.
- `Interleaving.dfy`: the guards of `controllers/offers.cc` are read outside the
  write transactions, and conversations are looked for before they are
  inserted, so here guard and write are separate steps of any number of
  requests; uninterrupted, the two make the request of `Handlers.dfy`. What
  survives is proved there.
- `Breaking.dfy`: what does not survive, each with exactly the steps that break
  it: the agreement of the two status copies, one accepted negotiation for each
  offer, accepted negotiations on accepted offers, an accepted offer for each
  fulfilled post, one conversation for each pair, and the status and price of a
  closed offer. The first five decide the whole invariant: a step keeps it if
  and only if it is none of those.
- `LateCommits.dfy`: schedules from empty tables on which they do fail.
- `Notices.dfy`, `Unread.dfy`: published notices and their topics; unread counts.

**Notifications.** Sockets, subscriptions and the bus.

- `Connections.dfy`, `Bus.dfy`, `Services.dfy`: the connection manager, the receive
  loop, and the websocket and subscription handlers, as classes.
- `FanOut.dfy`: the whole engine as a state machine: sockets open and close,
  users subscribe and unsubscribe, notices are published and delivered, the
  server restarts, in any order. The methods of `Services.dfy` are proved to make
  its steps.
- `System.dfy`: tables and engine as one state machine: requests change both,
  engine steps come in between. What each request says on the bus, word for word,
  whom it subscribes, and what the subscription table holds after any run.
- `Hearing.dfy`: from what is said to the sockets that hear it: acceptances and
  rejections to the makers of the offers, messages to those who opened the chat.
- `Server.dfy`: tables, services and media as classes together: handlers with
  everything they do, proved to make the request steps of `System.dfy`.
- `Races.dfy`: the same engine at the grain of its locks and queries, where a
  restore reads its rows and enrols them one by one, and a subscribe or
  unsubscribe request changes memory before the table.

**Smaller parts.** `Media.dfy` (attaching stored objects, all or none), `Base64.dfy`
(section 4 of RFC 4648), `Conversion.dfy` (the PostgreSQL array printer and
parser), `TagFilter.dfy` (splitting and quoting tags of a filter query), and
`Prelude.dfy` (rows of a result, ids as text, topics).

## Assumptions

- Tables start empty; a request runs alone except in `Interleaving.dfy` and
  `Races.dfy`. A transaction is atomic. The asynchronous metadata updates run in
  the order they are issued, inside their transaction.
- The caller is authenticated and exists. Object storage is a map from keys to
  what is stored there. Whether attaching media succeeds is an argument of the
  handlers in `Handlers.dfy` (`mediaOk`); `Media.dfy` says when it does, and
  `Server.dfy` puts the two together.
- Ids are unbounded integers, and an id too large for the server's integer type
  is one that no row has. Prices are integers, in cents. Creation times are
  arbitrary: any latest row may be returned.
- The bus loses nothing and keeps order, and a notice's two parts stay together.

## Where the code differs from what it seems to promise

- `negotiate_offer` publishes a notice of kind `offer_accepted`
  (`controllers/offers_negotiation.cc:346-353`). The model does the same.
- `accept_offer` accepts the latest negotiation but leaves the price alone
  (`History.AcceptPriceExactly`); `LateCommits.AcceptIgnoresPrice` is a run on
  which the two disagree.
- Its branch without negotiations does not complete `negotiation_status` on the
  rejected offers (`controllers/offers.cc:865`); `Closing.AcceptCloses` says so.
- The acceptance notice goes to the topic spelt with the path text of the
  request, the subscription to the printed id (`Notices.HeardExactly`,
  `Notices.LeadingZeroUnheard`).
- `update_offer` updates its row outside the transaction it rolls back
  (`controllers/offers.cc:589`).
- An overtaken write breaks guarantees that hold one request at a time
  (`LateCommits.LateCommitsBreak`, `Breaking.InvariantExactly`): among others, an
  overtaken update rewrites the price of an accepted offer
  (`LateCommits.LateUpdateReprices`), and two overlapping requests give one pair
  two conversations (`LateCommits.LateInsertsDuplicate`).
- A notice on the bus is lost with a restart (`FanOut.RestartLoses`).
- Only `create_conversation` subscribes its participants; a conversation opened by
  a proposal, a note or a look-up subscribes nobody (`Hearing.OpenedUnheard`).
- A restore or a reconnection can part memory from the subscription table
  (`Races.StaleRow`, `Races.LostJoin`).

## Model

| member | source | states |
|---|---|---|
| Guarantees.ProposalsShowStatus | controllers/offers.cc:682-726 | in every state any requests lead to from empty tables, a negotiation message names an existing negotiation, its metadata holds exactly that negotiation's current status, and its metadata offer id is that negotiation's offer |
| Guarantees.ProposalsStayPrivate | controllers/offers_negotiation.cc:122-165 | in every reachable state a negotiation message lies in the conversation whose participants are exactly the offer's maker and the post's owner, two different users |
| Guarantees.FulfilledExactly | controllers/offers.cc:829-898 | in every reachable state a post is fulfilled if and only if one of its offers is accepted |
| Guarantees.NegotiationsFollowOffer | controllers/offers.cc:794-826 | in every reachable state a pending offer has only pending negotiations, an accepted negotiation lies on an accepted offer, and no offer has two accepted negotiations |
| Guarantees.OpenOffersAreNewer | controllers/offers.cc:308-316 | in every reachable state a pending offer has a larger id than every accepted offer of its post |
| Guarantees.OneChatEach | controllers/chats.cc:180-222 | in every reachable state two different users share one conversation at most, with nobody else in it, and only they send to it |
| Guarantees.DecidedForGood | controllers/offers.cc:1003-1012 | between any two points of any run, original prices stay, an accepted or rejected offer keeps status and price, and an accepted or rejected negotiation keeps its status |
| Guarantees.InterleavedSafety | controllers/offers.cc:737-898 | with guard and write of any number of requests interleaved at will: no offer becomes pending again, no original price changes, a fulfilled post stays fulfilled, and the post of every accepted offer is fulfilled |
| Guarantees.InterleavedChats | controllers/chats.cc:180-222 | in every interleaving from empty tables: no or two participants, senders among them, proposals with exactly the offer's parties, and all unread counts adding up to the unread messages |
| Guarantees.InterleavedIntact | controllers/offers.cc:737-898 | an interleaving from empty tables without one of the five breaking steps ends with the whole invariant |
| Closing.AcceptCloses | controllers/offers.cc:779-898 | both branches of the accept transaction meet one row-by-row specification: chosen offer accepted at its old price and its negotiation completed, every other pending offer of the post rejected, with its negotiation completed only if there was one to settle, latest pending negotiation accepted, all other pending negotiations on the post rejected, post fulfilled, every other row and field as before, save status copies in messages |
| Closing.CounterCloses | controllers/offers.cc:1016-1104 | accept-counter meets the same specification and sets the offer's price to the accepted negotiation's proposed price |
| Closing.OfferStatements | controllers/offers.cc:829-833 | the two offer updates of an accept write exactly the specified rows, negotiation_status included, and reject exactly the offers that were pending beside the chosen one |
| Closing.NegotiationStatements | controllers/offers.cc:801-851 | accepting one negotiation, rejecting its rivals and then the fallout on other offers gives exactly the specified negotiations |
| Closing.NoNegotiationStatements | controllers/offers.cc:876-886 | with no pending negotiation, rejecting the fallout alone gives exactly the specified negotiations |
| Copies.AcceptCopies | controllers/offers.cc:809-886 | accept_offer keeps every status copy in chat messages equal to the negotiation's status, on any state the transaction may find |
| Copies.CounterCopiesExactly | controllers/offers.cc:1042-1099 | accept-counter, which first stamps every message of the offer and then corrects them one negotiation at a time, leaves all copies right if and only if no rejected negotiation was addressed by the id text of the request |
| Copies.CounterCopies | controllers/offers.cc:1003-1069 | in particular the copies stay right whenever the guard holds, that is, the offer is pending |
| Copies.ClosePostCopy | controllers/offers.cc:835-856 | rejecting a post's other offers leaves a copy right exactly if it was right before or its negotiation fell with its offer |
| Copies.SettleCopy | controllers/offers.cc:800-826 | settling an offer leaves a copy right exactly if it was right before or its negotiation was decided there |
| Effects.AcceptExactly | controllers/offers.cc:729-898 | accept_offer succeeds if and only if the id names a pending offer on a post of the caller, and then does what Closing.AcceptCloses says; the other outcomes, each with its exact condition |
| Effects.AcceptCounterExactly | controllers/offers.cc:964-1104 | accept-counter succeeds if and only if the id names a pending offer of the caller that has a negotiation, and then does what Closing.CounterCloses says; the other outcomes, each with its exact condition |
| Effects.RejectExactly | controllers/offers.cc:1166-1216 | reject_offer succeeds if and only if the id names a pending offer on a post of the caller; it closes that offer and touches no other row, its negotiations included; the other outcomes, each with its exact condition |
| Effects.CreatePostExactly | controllers/community.cc:168-248 | a post is made if and only if it has content and its media attach; it is one new row of the caller with that content, open if it is a request and blank if not |
| Effects.CreateOfferExactly | controllers/offers.cc:238-350 | an offer is made if and only if its texts are non-empty, its price positive, the post exists and is another user's, and all media attach; it is one new pending row at one price with the title, description and visibility asked for |
| Effects.UpdateExactly | controllers/offers.cc:498-625 | an offer's row is updated if and only if the id names a pending offer of the caller, answered with success if the media attach too; every field asked for gets the value asked for, and nothing else changes; anybody else is forbidden |
| Effects.NegotiateExactly | controllers/offers_negotiation.cc:215-344 | a price is proposed if and only if it is not negative and the caller is a party of the offer; it is one pending negotiation with that price, note and time, and one message of the same negotiation, offer text and status in the parties' conversation |
| Effects.NewestIsTaken | controllers/offers.cc:787-806 | a proposal newer than all before it, followed by an accept-counter: that proposal is accepted and its price is the offer's |
| Effects.RefusedExactly | controllers/offers.cc:586-625 | a refused request of any kind leaves all tables alone, if and only if it is not an update that changes the row and whose media fail, or a conversation whose participants cannot be inserted |
| Effects.LateInsertExactly | controllers/chats.cc:180-222 | inserting a conversation keeps one for each pair if and only if its participants cannot be inserted or share none at that moment, so a lookup that is out of date breaks it |
| Chats.SendExactly | controllers/chats.cc:353-460 | a message is sent if and only if it has text or attachments, these attach, and the id names a conversation of the caller; it is one new unread row with exactly that text; non-members are forbidden |
| Chats.ReadExactly | controllers/chats.cc:633-675 | a conversation can be marked read by its members alone; then exactly the messages of others in it become read, whatever their kind, and no other row or field changes |
| Chats.ConversationExactly | controllers/chats.cc:155-222 | a conversation can be opened under a name with an existing other user, or an already shared one is kept; it is one new row of exactly the two |
| Chats.ByOfferExactly | controllers/chats.cc:511-593 | the offer's two parties, and nobody else, find their conversation or get one opened for exactly the two |
| Chats.NoteExactly | controllers/offers_negotiation.cc:545-647 | only the maker submits proof, only the owner asks for it, judges it or pays; the note is one message of that kind and context in the conversation of exactly the two parties |
| Safety.AcceptKeeps | controllers/offers.cc:729-898 | accept_offer keeps the whole marketplace invariant |
| Safety.CounterKeeps | controllers/offers.cc:964-1104 | accept_counter_offer keeps it |
| Safety.RejectKeeps | controllers/offers.cc:1166-1216 | reject_offer keeps it |
| Safety.CreatePostKeeps | controllers/community.cc:206-248 | create_post keeps it, rolled back or not |
| Safety.CreateOfferKeeps | controllers/offers.cc:296-350 | create_offer keeps it, rolled back or not, on fulfilled posts too |
| Safety.UpdateOfferKeeps | controllers/offers.cc:586-599 | update_offer keeps it |
| Safety.NegotiateKeeps | controllers/offers_negotiation.cc:281-344 | negotiate_offer keeps it, on closed offers too |
| Safety.PostNoteKeeps | controllers/offers_negotiation.cc:545-647 | the proof and escrow handlers keep it when they open a conversation or send their note |
| Safety.InsertConversationKeeps | controllers/chats.cc:202-222 | inserting a conversation after looking for a shared one keeps it, even when the participants cannot be inserted |
| Safety.ConversationByOfferKeeps | controllers/chats.cc:511-593 | get_conversation_by_offer keeps it |
| Safety.SendMessageKeeps | controllers/chats.cc:403-460 | send_message keeps it, rolled back or not |
| Safety.MarkReadKeeps | controllers/chats.cc:664-675 | mark_messages_as_read keeps it |
| Safety.RollbackKeeps | controllers/offers.cc:332-350 | a rolled-back request that used up sequence values keeps it |
| Safety.SharedIsExact | controllers/offers_negotiation.cc:122-165 | a conversation found for two different users has them as its only participants |
| Safety.Reachable | controllers/offers.cc:729-1247 | every state reached from empty tables by any sequence of requests satisfies the invariant |
| History.RunPreserves | controllers/offers.cc:767-856 | over any run rows never vanish, identities and original prices stay, closed offers keep status, price, texts and visibility, decided negotiations and fulfilled posts stay so |
| History.CounterPriceForever | controllers/offers.cc:1016-1050 | after a successful accept-counter, whatever is requested later, the offer is accepted at the proposed price of its only accepted negotiation |
| History.AcceptPriceExactly | controllers/offers.cc:779-806 | accept_offer accepts a negotiation without taking its price: the two agree afterwards if and only if they agreed before |
| History.ChatEvents | controllers/chats.cc:353-508 | chat, note and registration requests change no post, offer, negotiation or status copy |
| Interleaving.WriteSound | controllers/offers.cc:776-898 | a write that finds the tables changed since its guard still keeps ids, pending-offer negotiations, the order of offers and the fulfilment of accepted offers' posts |
| Interleaving.MoveSound | controllers/offers.cc:737-783 | so does every step of an interleaving, and every waiting request stays writable |
| Interleaving.RunSurvives | controllers/offers.cc:737-898 | from any point of any interleaving to any later one: no return to pending, original prices fixed, decided negotiations and fulfilled posts kept |
| Interleaving.ClosingWrite | controllers/offers.cc:776-898 | an accept or accept-counter that writes late still does exactly what Closing says, on whatever it finds |
| Interleaving.MoveHoused | controllers/chats.cc:180-222 | with lookups and insertions of conversations interleaved too, every step keeps conversations of no or two participants, senders among them, and proposals in the conversation of exactly the offer's parties |
| Interleaving.RunHoused | controllers/chats.cc:180-222 | so does every interleaving |
| Interleaving.SplitIsWhole | controllers/offers.cc:737-783 | for every kind of split request: guard and write with nothing between them make the whole request, and one that does not pass changes nothing |
| Breaking.AgreementExactly | controllers/offers.cc:1042-1099 | of all interleaved steps exactly the accept-counter writes that find a rejected negotiation under their id text make a status copy wrong |
| Breaking.DisturbsOnlyLate | controllers/offers.cc:1003-1012 | such a write has always been overtaken: its offer is no longer pending |
| Breaking.AcceptedOnceExactly | controllers/offers.cc:787-806 | exactly the accepts and accept-counters that accept a negotiation of an offer with an accepted one give an offer two |
| Breaking.AcceptedBelowExactly | controllers/offers.cc:1211-1216 | exactly the rejections of an offer with an accepted negotiation leave one on an offer that is not accepted |
| Breaking.FulfilledByAcceptedExactly | controllers/offers.cc:1211-1216 | exactly the rejections of the only accepted offer of a post leave a fulfilled post without one |
| Breaking.PairsOnceExactly | controllers/offers_negotiation.cc:81-111 | exactly the insertions for a pair that has got a conversation since the lookup give the pair two, negotiate_offer's insertion included |
| Breaking.SparedRun | controllers/offers.cc:737-898 | an interleaving without the breaking steps of one of these five guarantees keeps that guarantee, whatever becomes of the others |
| Breaking.InvariantExactly | controllers/offers.cc:737-898 | an interleaved step keeps the whole one-at-a-time invariant if and only if it is none of these five kinds |
| Breaking.IntactRun | controllers/offers.cc:737-898 | an interleaving without such steps satisfies the whole invariant |
| Breaking.PriceExactly | controllers/offers.cc:586-599 | an offer's price changes in exactly the accept-counters with another proposed price and the updates to another price, however late |
| Breaking.StatusExactly | controllers/offers.cc:1211-1216 | a closed offer changes its status in exactly the overtaken accepts of a rejected and rejections of an accepted offer |
| Breaking.SettledExactly | controllers/offers.cc:586-599 | an offer accepted at the price of its only accepted negotiation stays so in every step but an accept of another negotiation of it, a rejection of it, or an update that changes its price |
| Breaking.SettledRun | controllers/offers.cc:1016-1050 | and so throughout an interleaving without such steps |
| LateCommits.LateCommitsBreak | controllers/offers.cc:737-780 | a schedule from empty tables, with overtaken accept-counters and a rejection, after which a copy is wrong, one offer has two accepted negotiations, an accepted negotiation lies on a rejected offer and a fulfilled post has no accepted offer |
| LateCommits.LateUpdateReprices | controllers/offers.cc:589 | a schedule from empty tables after which an accepted offer has a price nobody negotiated |
| LateCommits.LateInsertsDuplicate | controllers/chats.cc:180-222 | a schedule from empty tables after which one pair has two conversations |
| LateCommits.AcceptIgnoresPrice | controllers/offers.cc:779-806 | a run of requests from empty tables that ends with an offer accepted at 500 and its accepted negotiation at 450 |
| Marketplaces.Marketplace.SelectLatest | controllers/offers.cc:787-791 | the row the query may return: pending, of this offer, with no later one; none only if none is pending |
| Marketplaces.Marketplace.SelectShared | controllers/chats.cc:180-191 | a conversation both users take part in, or none only if there is none |
| Marketplaces.Marketplace.UpdateMessageMetadata | controllers/offers.cc:682-726 | row by row, the messages of this negotiation id, or with this offer id text, get the new status in their copy, and no other row or field changes; for callers, the same as one set-level pass |
| Marketplaces.Marketplace.StampNegotiationRows | controllers/offers.cc:821-826 | the loop over returned negotiation rows equals one pass over the set of their ids |
| Marketplaces.Marketplace.StampOfferRows | controllers/offers.cc:836-839 | the loop over returned offer rows equals one pass over the set of their printed ids |
| Marketplaces.Marketplace.PublishRejections | controllers/offers.cc:911-925 | one rejection notice for each returned row, in row order |
| Marketplaces.Marketplace.SettleNegotiations | controllers/offers.cc:800-826 | statements and loop that decide the offer's negotiations have the effect of Settle |
| Marketplaces.Marketplace.RejectOthers | controllers/offers.cc:829-861 | statements and loops that close the rest of the post have the effect of ClosePost; the rows returned are exactly the post's other pending offers, each once |
| Marketplaces.Marketplace.AcceptOffer | controllers/offers.cc:729-961 | whole handler: outcome and new tables; on success exactly one acceptance notice and one rejection notice for each offer that went from pending to rejected, otherwise nothing is published |
| Marketplaces.Marketplace.AcceptCounterOffer | controllers/offers.cc:964-1163 | the same for accept-counter |
| Marketplaces.Marketplace.RejectOffer | controllers/offers.cc:1166-1247 | whole handler: outcome, new tables, one notice on success |
| Marketplaces.Marketplace.UpdateOffer | controllers/offers.cc:498-678 | whole handler; the updated row stays when the media fail |
| Marketplaces.Marketplace.CreateOrGetConversation | controllers/offers_negotiation.cc:122-165 | finds a shared conversation or inserts one with both participants; an empty one remains for the caller to roll back when they cannot be inserted |
| Marketplaces.Marketplace.NegotiateOffer | controllers/offers_negotiation.cc:215-386 | whole handler; on success the notice it publishes carries the kind of an acceptance |
| Marketplaces.Marketplace.GetConversationByOffer | controllers/chats.cc:511-631 | whole handler; on success the conversation of exactly the offer's two parties |
| Marketplaces.Marketplace.SendMessage | controllers/chats.cc:353-508 | whole handler, with the rollback on missing media |
| Marketplaces.Marketplace.MarkMessagesAsRead | controllers/chats.cc:633-689 | whole handler; row by row, the messages of others in the conversation become read and nothing else; the number returned is the number that changed, and by so much the reader's count falls |
| Marketplaces.Marketplace.GetUnreadCount | controllers/chats.cc:691-722 | the number of unread messages from others in the user's conversations |
| Notices.TopicsDistinct | controllers/offers.cc:900-925 | the acceptance notice and the rejection notices of one request go to pairwise different topics |
| Notices.HeardExactly | controllers/offers.cc:900-908 | the maker, subscribed under the printed id, hears of the acceptance if and only if the request spelt the id that way |
| Notices.LeadingZeroUnheard | controllers/offers.cc:900-908 | "01" names offer 1, and the notice of its acceptance goes to another topic than the maker's |
| Ids.RoundTrip | utilities/conversion.hpp:14-20 | reading a printed id gives it back |
| Ids.PrintedExactly | utilities/conversion.hpp:14-20 | of the texts that name an id exactly the one without sign and leading zeros is its printed form |
| Ids.TopicInjective | services/subber/connection_manager.hpp:33-36 | topics of colon-free kinds are equal if and only if kind and id are |
| Unread.Conservation | controllers/chats.cc:698-708 | in every state with the invariant, the unread counts of all users add up to the number of unread messages |
| Unread.MarkReadExactly | controllers/chats.cc:664-675 | marking a conversation read changes exactly the unread messages of others in it, takes as many off the reader's count as it changes, and changes nobody else's |
| Unread.SentExactly | controllers/chats.cc:403-426 | a sent message raises the count of exactly one user, the other participant, by one |
| Unread.OneReader | controllers/chats.cc:698-708 | an unread message counts for one user only |
| Connections.ConnectionManager.AddConnection | services/subber/connection_manager.hpp:139-145 | the new socket becomes the first of its user's |
| Connections.ConnectionManager.RemoveConnection | services/subber/connection_manager.hpp:146-154 | exactly that socket is gone; the user's entry stays |
| Connections.ConnectionManager.Subscribe | services/subber/connection_manager.hpp:155-178 | the user joins the topic's audience |
| Connections.ConnectionManager.Unsubscribe | services/subber/connection_manager.hpp:179-187 | a user with an open socket keeps everything; one without loses every topic and the connection entry, although the loop creates and erases that entry as it goes |
| Connections.ConnectionManager.UnsubscribeUserFromTopic | services/subber/connection_manager.hpp:189-193 | the user leaves that topic only |
| Connections.ConnectionManager.Broadcast | services/subber/connection_manager.hpp:195-208 | visits every subscriber once; sends one copy to each socket and stores one row for each connected user visited |
| Connections.CopiesBySocket | services/subber/connection_manager.hpp:195-208 | a broadcast sends an open socket one copy if its user subscribes and none otherwise |
| Connections.NoStrayCopies | services/subber/connection_manager.hpp:195-208 | a broadcast sends nothing else |
| Connections.KeptExactly | services/subber/connection_manager.hpp:195-203 | one notification row for each visited user with a connection entry, none for others |
| Bus.SubManager.Receive | services/subber/sub_manager.hpp:21-23 | a notice comes in if and only if some filter is a prefix of its topic |
| Bus.SubManager.Round | services/subber/sub_manager.hpp:55-90 | one round takes the oldest notice and broadcasts it |
| Bus.SubManager.Run | services/subber/sub_manager.hpp:50-91 | any number of rounds: notices are broadcast in order, once each, to the audience of exactly their topic |
| Services.ServiceManager.HandleNewConnection | controllers/notification_websocket.cpp:61-80 | makes the Open step of the state machine, or none for an unauthenticated socket |
| Services.ServiceManager.SubscribeUserToExistingSubs | controllers/notification_websocket.cpp:104-128 | makes the Restore step |
| Services.ServiceManager.HandleConnectionClosed | controllers/notification_websocket.cpp:95-102 | makes the two closing steps in order, for any user and socket |
| Services.ServiceManager.SubscribeToEntity | controllers/community.cc:817-843 | makes the Join step |
| Services.ServiceManager.UnsubscribeFromEntity | controllers/community.cc:845-871 | makes the Leave step |
| Services.ServiceManager.SubscribeToPost | controllers/community.cc:714-763 | succeeds if and only if the id names a post, and then joins the topic of that id text; subscribing twice adds no second row |
| Services.ServiceManager.UnsubscribeFromPost | controllers/community.cc:766-815 | outcome for every id; leaves the topic of that id text |
| Services.ServiceManager.AutoSubscribe | controllers/community.cc:250-257 | a new post's or offer's author joins its topic, under the printed id |
| Services.ServiceManager.SubscribeParties | controllers/chats.cc:224-235 | both participants join a new conversation's topic |
| Services.ServiceManager.DeliverNext | services/subber/sub_manager.hpp:55-90 | one round of the bus sends one copy to each restored open socket of every user the table wants it for and to no other, and everything sent goes to a user with that subscription in the table |
| Systems.MoveKeeps | controllers/offers.cc:729-961 | every request and every engine step keeps the marketplace invariant and the engine's together, and nothing on the bus is lost or reordered but by a restart |
| Systems.EffectExactly | controllers/offers.cc:357-380 | what every successful request says on the bus, topic and text letter by letter and in order, and which rows it adds to the subscription table; nothing else in the engine changes |
| Systems.TextsDiffer | controllers/offers.cc:900-925 | texts of different kinds or about different ids differ |
| Systems.StepTable | controllers/community.cc:817-871 | a row is in the table after a step if and only if the step subscribed it, or it was there and the step did not drop it |
| Systems.TableExactly | controllers/community.cc:817-871 | after any run, restarts included, the table holds exactly the rows that some step subscribed and nobody dropped since |
| Systems.RunListed | controllers/offers.cc:357-364 | through any run of requests, connections, subscriptions and restarts, every offer's maker is subscribed to the offer's topic in the table, unless they left it themselves |
| Hearing.ConnectedHears | services/subber/sub_manager.hpp:21-23 | a connected user's subscription in the table is enough for its topic to pass the filters |
| Hearing.QueuedExactly | services/subber/sub_manager.hpp:21-23 | of what a successful request says, exactly the words whose topic has some filter as a prefix get onto the bus |
| Hearing.AcceptanceQueuedExactly | controllers/offers.cc:900-925 | the text "offer_accepted:" with the id is the next one on the bus if and only if some filter is a prefix of the topic it is spelt with; otherwise it is lost and only the rejections are published |
| Hearing.AcceptanceReachesMaker | controllers/offers.cc:900-908 | end to end from empty tables: an acceptance spelt with the printed id whose topic passes the filters gets its turn as the next notice, and each restored socket of the offer's maker then gets exactly one copy of "offer_accepted:" with that id, whatever was and is requested, unless the maker left the topic or the server restarts before that |
| Hearing.RejectionQueuedExactly | controllers/offers.cc:911-925 | for each offer that loses by an acceptance the text "offer_rejected:" with its own id gets onto the bus if and only if its topic passes the filters |
| Hearing.RejectionReachesMaker | controllers/offers.cc:911-925 | and then, in its turn, to each restored socket of that offer's maker exactly once |
| Hearing.MembersStay | controllers/chats.cc:224-235 | both who open a conversation stay in the table for its topic through any later run, restarts included, until they leave |
| Hearing.MessageReachesMembers | controllers/chats.cc:461-473 | end to end: a message sent there under the printed id, at any later time, puts exactly one copy on each restored socket of either of the two when its turn comes |
| Hearing.OpenedUnheard | controllers/offers_negotiation.cc:122-165 | a conversation opened by a proposal, a note or a look-up by offer subscribes nobody |
| Servers.Server.Register | controllers/authentication.cc:488-490 | the user exists from now on; nothing else changes |
| Servers.Server.CreatePost | controllers/community.cc:168-311 | whole handler: succeeds if and only if the post has content, at most five keys, distinct and all stored; then post, media links, the owner's subscription under the printed id and "post_created:" with that id to every tag and the location, otherwise none of them |
| Servers.Server.CreateOffer | controllers/offers.cc:238-405 | whole handler: succeeds if and only if the guard passes and the keys are distinct, all stored and five at most; then offer, media links, the owner's notification row, the maker's subscription under the printed id and the notice on the post's topic, otherwise none of them |
| Servers.Server.UpdateOffer | controllers/offers.cc:498-678 | whole handler: the row as Effects.UpdateExactly says; success needs at most five keys that are distinct, all stored and not linked to this offer yet; without it no media, no links and no notice, though the row stays changed |
| Servers.Server.AcceptOffer | controllers/offers.cc:729-961 | tables, and on the bus exactly one acceptance and one rejection notice for each offer that lost, worded as Systems.EffectExactly says |
| Servers.Server.AcceptCounterOffer | controllers/offers.cc:964-1163 | the same for accept-counter |
| Servers.Server.RejectOffer | controllers/offers.cc:1166-1247 | tables, and one rejection notice on success, worded as Systems.EffectExactly says |
| Servers.Server.NegotiateOffer | controllers/offers_negotiation.cc:215-386 | tables, and on success one notice of the kind of an acceptance |
| Servers.Server.CreateConversation | controllers/chats.cc:155-274 | whole handler: tables, and for a new conversation exactly two rows more in the subscription table, one for each of the two users under the conversation's printed id, and its announcement |
| Servers.Server.SendMessage | controllers/chats.cc:353-508 | whole handler: message as Chats.SendExactly says, media links and notice, or none of them |
| FanOut.MoveKeeps | services/subber/connection_manager.hpp:139-208 | every step keeps: memory within the table, every subscribed topic among the bus filters, a user with a restored socket completely in memory, accepted notices equal broadcast plus queued |
| FanOut.CacheFaithful | controllers/notification_websocket.cpp:61-128 | in every run with restarts, a user's topics in memory are among those in the table, and equal to them for a user with a restored open socket |
| FanOut.CloseForgetsExactly | services/subber/connection_manager.hpp:179-187 | at any point, the second closing step empties the topics of a user without open sockets and touches nobody else |
| FanOut.Reconnect | controllers/notification_websocket.cpp:61-128 | closing the last socket and opening another brings back exactly the same topics |
| FanOut.StaleRestoreExactly | controllers/notification_websocket.cpp:104-128 | a restore from rows read earlier keeps memory within the table if and only if none of them was deleted meanwhile |
| FanOut.DeliverExactly | services/subber/connection_manager.hpp:195-208 | a delivery sends an open restored socket one copy if the table has its user's subscription and none otherwise |
| FanOut.DeliverNothingElse | services/subber/connection_manager.hpp:195-208 | a delivery sends nothing to a user without the subscription in the table |
| FanOut.WantedPasses | services/subber/sub_manager.hpp:21-23 | a notice somebody subscribes to always passes the prefix filters |
| FanOut.PublishedReaches | services/subber/sub_manager.hpp:50-91 | a notice published while somebody subscribes is broadcast exactly in its turn, and has been once the queue is drained, whatever happens in between but a restart |
| FanOut.RestartLoses | services/subber/sub_manager.hpp:50-91 | a restart before that turn loses it: unless it is published again it is never broadcast |
| Races.BackedExactly | controllers/community.cc:817-871 | with locks and queries as separate steps, exactly two kinds of step make memory hold what the table does not: enrolling a row deleted since it was read, and a deletion that finds the pair remembered again |
| Races.CompleteExactly | services/subber/connection_manager.hpp:155-193 | exactly one kind of step leaves a connected user without a topic the table gives them: an insertion that finds its pair gone from memory after the user's rows were read |
| Races.QuietCache | controllers/notification_websocket.cpp:61-135 | after any fine-grained run without such steps, once no request is under way, memory is a faithful cache of the table again |
| Races.QuietDelivery | services/subber/connection_manager.hpp:195-208 | after such a run, once quiet, a delivery follows the table: one copy to each restored socket whose user it has subscribed, and nothing to anybody else |
| Races.DeliveryFollowsMemory | services/subber/connection_manager.hpp:195-208 | after any fine-grained run a delivery follows memory: one copy to an open socket if memory subscribes its user, otherwise none |
| Races.MoveSound | services/subber/connection_manager.hpp:139-208 | in every interleaving sockets stay with one user, every subscribed topic stays among the filters and notices stay in order |
| Races.RestoreIsManySteps | controllers/notification_websocket.cpp:104-128 | read, enrolments in any order and finish, uninterrupted, make the coarse Restore step |
| Races.JoinIsTwoSteps | controllers/community.cc:820-826 | memory then table, uninterrupted, make the coarse Join step |
| Races.LeaveIsTwoSteps | controllers/community.cc:848-853 | memory then table, uninterrupted, make the coarse Leave step |
| Races.StaleRow | controllers/notification_websocket.cpp:104-128 | from any state with a restore under way, unsubscribing between read and enrolment leaves memory with a topic the table has lost |
| Races.LostJoin | services/subber/connection_manager.hpp:146-187 | from any state, reconnecting while subscribing can leave a connected user without the topic although the table has it |
| Media.MediaStore.Upsert | controllers/scenario_specific_utils.hpp:113-131 | inserts a row or overwrites the one with that key, keeping its id and uploader; keys stay unique |
| Media.MediaStore.AttachOne | controllers/scenario_specific_utils.hpp:104-145 | upserts and links one stored object, or fails because that key is linked already |
| Media.MediaStore.ProcessMediaAttachments | controllers/scenario_specific_utils.hpp:82-164 | succeeds if and only if the stored keys are distinct and not linked yet; then every one is upserted and linked, in order, and nothing else changes |
| Media.MediaStore.Attach | controllers/community.cc:224-248 | all or nothing: succeeds if and only if every key is stored, none repeats and none is linked; otherwise both tables are as before |
| Media.HeldExactly | controllers/scenario_specific_utils.hpp:99-131 | what is stored of an attached object: the name after the first underscore of its key, its own type or the default one, and its length |
| Media.FileNameExactly | controllers/scenario_specific_utils.hpp:99 | the name is what follows the first underscore, or the whole key if there is none |
| Base64.Base64Encode | controllers/authentication.cc:51-81 | the loop and the overwritten padding compute the encoding of section 4 of RFC 4648 |
| Base64.RoundTrip | controllers/authentication.cc:51-81 | a strict decoder of that section gives back every byte sequence |
| Base64.OneSpelling | controllers/authentication.cc:51-81 | the decoder accepts nothing else: what it accepts is the encoding of what it returns |
| Base64.Shape | controllers/authentication.cc:51-81 | length 4*ceil(n/3), exactly (3 - n mod 3) mod 3 trailing padding characters, all others in the alphabet |
| Base64.TableLetters | controllers/authentication.cc:52-53 | the table spells the alphabet of the standard |
| Conversion.ArrayToPgsql | utilities/conversion.hpp:34-53 | the printing loop writes an opening brace, the tags with a comma between neighbours, and a closing brace; cut at its commas the inside is the comma-free tags again |
| Conversion.PgsqlToVector | utilities/conversion.hpp:56-81 | the parsing loop returns the pieces between commas, without an empty last one |
| Conversion.RoundTripExactly | utilities/conversion.hpp:34-81 | parsing the printed list gives it back if and only if no tag holds a comma and the last tag, if any, is non-empty |
| Conversion.OnlyAnEmptyEndIsLost | utilities/conversion.hpp:56-81 | of a comma-free list only an empty last tag is lost |
| Text.PiecesJoin | utilities/conversion.hpp:68-79 | the pieces hold no comma and join to the string |
| Text.JoinPieces | utilities/conversion.hpp:68-79 | and they are the only such list |
| TagFilter.SplitTags | controllers/community.cc:601-616 | the loop that erases from the parameter ends and yields the non-empty pieces in order |
| TagFilter.SplitJoinedExactly | controllers/community.cc:601-616 | a joined tag list comes back if and only if no tag is empty or holds a comma |
| TagFilter.EscapeQuotes | controllers/community.cc:638-643 | the in-place loop ends with every quote doubled |
| TagFilter.QuotedReadsBack | controllers/community.cc:638-644 | read as an SQL literal, an escaped tag is the tag, and reading ends at the closing quote |
| TagFilter.TagCondition | controllers/community.cc:601-647 | the condition spelt for a parameter |
| TagFilter.ConditionReadsBack | controllers/community.cc:629-647 | read as SQL, the condition is true of exactly the posts that have one of the tags, and ends where it should |

## Left out

- HTTP, JSON, response bodies, logging, authentication, tokens, password hashing, random strings, S3 calls and geography: foreign libraries.
- SQL text, column length limits and database errors other than key violations; transactions are atomic, so lock waits and deadlocks are not modelled (`update_offer` writes on a second connection while its transaction is open).
- 32-bit overflow of ids and serial sequences, and floating point rounding of prices.
- In `Interleaving.dfy` all that a request writes after its guard and its lookup of a conversation is one step, as are reads and single statements. Row locks are not modelled: it allows every order that the database allows, and more.
- `update_post`, tags, locations and price ranges of posts: they touch no status, owner or offer.
- `reject_offer` leaves negotiations alone and `negotiate_offer` ignores the offer's status; the model does the same, so no claim says that closed offers have no pending negotiations, nor that a post has one accepted offer at most.
- Safety.PostNoteKeeps: states only the chat side of the proof and escrow handlers, on values and not as methods; the rows of product_proofs and escrow_transactions are not modelled, only whether the row was found.
- Text of chat messages, message_type, notification payloads and their JSON check before storing; a stored notification is the message itself.
- The C++ access to a failed media result's value on the error path.
- Services.ServiceManager.HandleConnectionClosed: does not model the close of a socket that was turned away, whose missing user the code dereferences (`controllers/notification_websocket.cpp:97-99`): that has no defined effect.
- FanOut.MoveKeeps: takes a restore, and memory and table of a subscription request, in one step; Races.dfy takes them apart.
- Races.BackedExactly: the filter and the memory entry of one topic are set in one step, since filters are never removed.
- ZeroMQ's loss, limits and threads; the Redis variant; failing asynchronous inserts, which the server only logs.
- The backslash as an escape in SQL literals (not in force with standard_conforming_strings), array syntax with quotes or backslashes from the database, and the other filters of `filter_posts`.
- Orders, dashboard, users, search, location, sessions, pagination, reads without effects and the unused `add_negotiation_message`: only easy members.
- Seed data, which does not come from requests and does not satisfy the invariant.
