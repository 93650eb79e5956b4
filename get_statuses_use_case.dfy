/** The use case that picks the saved list or the merged WhatsApp lists. */
module GetStatusesUseCase {
  import Lists
  import opened StatusItems

  /**
   * `invoke(saved)`, given what the repository returns: the downloaded
   * statuses, the WhatsApp statuses and the WhatsApp Business statuses.
   */
  function Invoke(saved: bool, downloaded: seq<StatusItem>, whatsApp: seq<StatusItem>, business: seq<StatusItem>)
    : seq<StatusItem>
  {
    if saved then downloaded else SortByTimestamp(whatsApp + business)
  }

  /**
   * The saved list is passed through untouched. Otherwise the result holds
   * exactly the items of both lists, sorted by time text, and among items
   * with the same time text the WhatsApp ones come first, each list in its
   * own order.
   */
  lemma InvokeMerges(saved: bool, downloaded: seq<StatusItem>, whatsApp: seq<StatusItem>, business: seq<StatusItem>)
    ensures saved ==> Invoke(saved, downloaded, whatsApp, business) == downloaded
    ensures !saved ==>
      var r := Invoke(saved, downloaded, whatsApp, business);
      && multiset(r) == multiset(whatsApp) + multiset(business)
      && |r| == |whatsApp| + |business|
      && Lists.NonIncreasing(r, TimestampOf, Lists.StringLess)
      && forall k :: Lists.WithKey(r, TimestampOf, k) ==
                     Lists.WithKey(whatsApp, TimestampOf, k) + Lists.WithKey(business, TimestampOf, k)
  {
    if !saved {
      forall k ensures Lists.WithKey(whatsApp + business, TimestampOf, k) ==
                       Lists.WithKey(whatsApp, TimestampOf, k) + Lists.WithKey(business, TimestampOf, k) {
        Lists.WithKeyConcat(whatsApp, business, TimestampOf, k);
      }
    }
  }
}
