/** Properties relating several calls of the dispatcher: round trips between
    subscribe and unsubscribe, case-insensitivity of the category, the
    registry invariant, and which subscriptions `notify` reaches. */
module DispatcherProperties {
  import opened Wrappers
  import opened Model
  import opened Registry
  import opened Casing
  import opened Decimal
  import opened NotificationService

  /** Every category key is in canonical case and lists each url at most once. */
  predicate WellFormed(reg: Subscriptions) {
    forall k :: k in reg ==> Upper(k) == k && UniqueUrls(reg[k])
  }

  lemma {:induction false} RemoveAfterReplace(subs: seq<Subscriber>, s: Subscriber)
    ensures RemoveUrl(Replace(subs, s), s.url) == RemoveUrl(subs, s.url)
  {
    if subs != [] {
      RemoveAfterReplace(subs[1..], s);
      assert Replace(subs, s)[1..] == Replace(subs[1..], s);
    }
  }

  lemma {:induction false} RemoveAfterAppend(subs: seq<Subscriber>, s: Subscriber)
    ensures RemoveUrl(subs + [s], s.url) == RemoveUrl(subs, s.url)
  {
    if subs == [] {
      assert [s][1..] == [];
    } else {
      RemoveAfterAppend(subs[1..], s);
      assert (subs + [s])[1..] == subs[1..] + [s];
    }
  }

  /** Removing a url after storing a subscriber under it leaves what removing
      it beforehand leaves: the other entries, in their order. */
  lemma RemoveAfterUpsert(subs: seq<Subscriber>, s: Subscriber)
    ensures RemoveUrl(Upsert(subs, s), s.url) == RemoveUrl(subs, s.url)
  {
    if HasUrl(subs, s.url) {
      RemoveAfterReplace(subs, s);
    } else {
      RemoveAfterAppend(subs, s);
    }
  }

  /** Categories that differ only in case are the same category to subscribe
      and unsubscribe, and the same as their upper-cased form. */
  lemma CategoryCaseInsensitive(reg: Subscriptions, c1: string, c2: string, s: Subscriber, url: string)
    requires Upper(c1) == Upper(c2)
    ensures Subscribe(reg, c1, s) == Subscribe(reg, c2, s) == Subscribe(reg, Upper(c1), s)
    ensures Unsubscribe(reg, c1, url) == Unsubscribe(reg, c2, url) == Unsubscribe(reg, Upper(c1), url)
  {
  }

  /** Unsubscribing straight after subscribing returns the subscriber, and
      leaves every other entry and every other category as it was. When the
      url was new to the category, the registry lists exactly what it listed
      before the subscription. */
  lemma SubscribeThenUnsubscribe(reg: Subscriptions, category: string, s: Subscriber)
    ensures var after := Unsubscribe(Subscribe(reg, category, s).registry, category, s.url);
      && after.result == Success(s)
      && List(after.registry, Upper(category)) == RemoveUrl(List(reg, Upper(category)), s.url)
      && !HasUrl(List(after.registry, Upper(category)), s.url)
      && (forall k :: k != Upper(category) ==> List(after.registry, k) == List(reg, k))
      && (!HasUrl(List(reg, Upper(category)), s.url) ==>
            forall k :: List(after.registry, k) == List(reg, k))
  {
    var u := Upper(category);
    var mid := Subscribe(reg, category, s).registry;
    assert List(mid, u) == Upsert(List(reg, u), s);
    RemoveAfterUpsert(List(reg, u), s);
    var found := FindUrl(List(mid, u), s.url);
    assert found == Some(s);
  }

  /** Storing a subscriber a second time leaves the list as the first time did. */
  lemma UpsertIdempotent(subs: seq<Subscriber>, s: Subscriber)
    ensures Upsert(Upsert(subs, s), s) == Upsert(subs, s)
  {
    var l := Upsert(subs, s);
    assert HasUrl(l, s.url) by {
      var i :| 0 <= i < |l| && l[i] == s;
    }
    assert Replace(l, s) == l;
  }

  /** Subscribing the same subscriber twice stores it once: the overwrite
      policy keeps the fan-out count of a repeated subscription at one. */
  lemma SubscribeIdempotent(reg: Subscriptions, category: string, s: Subscriber)
    ensures var once := Subscribe(reg, category, s);
      Subscribe(once.registry, category, s) == once
  {
    var u := Upper(category);
    var once := Subscribe(reg, category, s).registry;
    assert once == reg[u := Upsert(List(reg, u), s)];
    UpsertIdempotent(List(reg, u), s);
    assert once[u := Upsert(List(once, u), s)] == once;
  }

  /** A second unsubscribe of the same url finds nothing. */
  lemma UnsubscribeTwiceNotFound(reg: Subscriptions, category: string, url: string)
    ensures var once := Unsubscribe(reg, category, url);
      Unsubscribe(once.registry, category, url)
        == Outcome(once.registry, Failure(ErrorResponse(404, "Subscriber not found.")))
  {
  }

  /** Subscribe and unsubscribe keep every category key upper-cased and every
      url unique within its category. */
  lemma OperationsPreserveWellFormed(reg: Subscriptions, category: string, s: Subscriber, url: string)
    requires WellFormed(reg)
    ensures WellFormed(Subscribe(reg, category, s).registry)
    ensures WellFormed(Unsubscribe(reg, category, url).registry)
  {
  }

  /** Exactly one delivery goes to the url of `s`, and it is addressed to its name. */
  predicate ReachedOnce(ds: seq<Delivery>, s: Subscriber) {
    exists k :: 0 <= k < |ds| && ds[k].url == s.url && ds[k].payload.subscriberName == s.name
                && forall j :: 0 <= j < |ds| && j != k ==> ds[j].url != s.url
  }

  /** A subscription is reached by a `notify` for the upper-cased category:
      exactly one delivery goes to its url, addressed to its name. */
  lemma SubscribedIsNotified(reg: Subscriptions, category: string, s: Subscriber,
                             status: string, product: Product)
    requires WellFormed(reg)
    ensures ReachedOnce(Notify(Subscribe(reg, category, s).registry, Upper(category), status, product).deliveries, s)
  {
  }

  /** An unsubscribed url gets no delivery from a later `notify` for the
      upper-cased category. */
  lemma UnsubscribedIsNotNotified(reg: Subscriptions, category: string, url: string,
                                  status: string, product: Product)
    ensures var n := Notify(Unsubscribe(reg, category, url).registry, Upper(category), status, product);
      forall k :: 0 <= k < |n.deliveries| ==> n.deliveries[k].url != url
  {
  }

  /** `notify` does not normalise its category: in a registry filled through
      subscribe, a category with a lower-case letter lists nobody. */
  lemma NotifyMissesUnnormalisedCategory(reg: Subscriptions, category: string,
                                         status: string, product: Product)
    requires WellFormed(reg)
    requires Upper(category) != category
    ensures Notify(reg, category, status, product).deliveries == []
  {
  }

  /** Events about different products carry different product urls. */
  lemma DistinctProductsDistinctUrls(reg1: Subscriptions, reg2: Subscriptions, c1: string, c2: string,
                                     st1: string, st2: string, p1: Product, p2: Product)
    requires p1.id != p2.id
    ensures var n1 := Notify(reg1, c1, st1, p1); var n2 := Notify(reg2, c2, st2, p2);
      forall j, k :: 0 <= j < |n1.deliveries| && 0 <= k < |n2.deliveries| ==>
        n1.deliveries[j].payload.productUrl != n2.deliveries[k].payload.productUrl
  {
    NatToStringInjective(p1.id, p2.id);
  }
}
