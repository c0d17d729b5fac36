// The notices the handlers publish, and the topics they go to.
module Notices {
  import opened Prelude
  import opened Ids

  datatype NoticeKind =
    PostCreated | OfferCreated | OfferUpdated | OfferAccepted | OfferRejected | ChatCreated | MessageSent

  datatype Publication = Publication(topic: string, kind: NoticeKind, id: string)

  /** std::to_string of an id, which is never negative. */
  function IdText(id: int): string {
    if id >= 0 then IntToString(id) else ""
  }

  function OfferNotice(id: string, kind: NoticeKind): Publication {
    Publication(CreateTopic("offer", id), kind, id)
  }

  /** One notice to each tag of a new post, and one to its location if it has one. */
  function PostNotices(id: string, tags: seq<string>, location: string): seq<Publication> {
    seq(|tags|, i requires 0 <= i < |tags| => Publication(tags[i], PostCreated, id))
    + if location == "" then [] else [Publication(location, PostCreated, id)]
  }

  /** One rejection notice for each row, in row order. */
  function Rejections(rows: seq<int>): (notices: seq<Publication>)
    ensures |notices| == |rows|
    ensures forall i :: 0 <= i < |rows| ==> notices[i] == OfferNotice(IdText(rows[i]), OfferRejected)
  {
    if rows == [] then []
    else Rejections(rows[..|rows| - 1])
         + [OfferNotice(IdText(rows[|rows| - 1]), OfferRejected)]
  }

  /** The notices of one acceptance go to pairwise distinct topics. */
  lemma TopicsDistinct(id: string, offer: int, rejected: seq<int>)
    requires StringToInt(id) == Some(offer) && Distinct(rejected)
    requires forall k :: 0 <= k < |rejected| ==> rejected[k] >= 0 && rejected[k] != offer
    ensures var all := [OfferNotice(id, OfferAccepted)] + Rejections(rejected);
            forall i, j :: 0 <= i < j < |all| ==> all[i].topic != all[j].topic
  {
    var all := [OfferNotice(id, OfferAccepted)] + Rejections(rejected);
    hide StringToInt, IntToString, Rejections;
    forall i, j | 0 <= i < j < |all|
      ensures all[i].topic != all[j].topic
    {
      RoundTrip(rejected[j - 1]);
      TopicInjective("offer", all[i].id, "offer", all[j].id);
      if i > 0 {
        RoundTrip(rejected[i - 1]);
      }
    }
  }

  /**
   * The maker, subscribed under the printed id, hears of the acceptance exactly
   * when the request spelt the id that way.
   */
  lemma HeardExactly(id: string, offer: nat)
    requires StringToInt(id) == Some(offer)
    ensures OfferNotice(id, OfferAccepted).topic == CreateTopic("offer", IntToString(offer)) <==> Plain(id)
  {
    TopicInjective("offer", id, "offer", IntToString(offer));
    PrintedExactly(id, offer);
  }

  /** A leading zero, for one, names the offer and misses its maker. */
  lemma LeadingZeroUnheard()
    ensures StringToInt("01") == Some(1)
    ensures OfferNotice("01", OfferAccepted).topic != CreateTopic("offer", IntToString(1))
  {
    assert "01"[..1] == "0";
    HeardExactly("01", 1);
  }
}
