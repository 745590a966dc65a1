# BambangShop notification dispatcher, in Dafny

A model of `NotificationService` from BambangShop (`src/service/notification.rs`):
the publish/subscribe core through which webhook subscribers register for a
product category and are called back when a product event happens.

- `subscribe(product_type, subscriber)` upper-cases the category and stores
  the subscriber in the registry; it always succeeds and returns the stored
  subscriber.
- `unsubscribe(product_type, url)` upper-cases the category and removes the
  subscriber keyed by `url`; when nothing was removed it fails with a
  404 "Subscriber not found." response.
- `notify(product_type, status, product)` builds one payload (product title,
  the category exactly as passed, the product id as a decimal string, the
  status) and sends one copy per subscriber listed under the category, each
  with `subscriber_name` set to that subscriber's name.

The registry (`SubscriberRepository`, whose implementation is not modelled) is an
explicit value of type `Registry.Subscriptions`, a `map<string, seq<Subscriber>>` passed to every operation and
returned from it. Its `add` is insert-or-overwrite keyed by url: an entry with
the same url is replaced in place, a new url is appended. This policy is a
choice of the model — the dispatcher's code does not settle it — and it is
what makes a repeated subscription have the effect of one (`SubscribeIdempotent`)
and reach its url with exactly one delivery (`SubscribedIsNotified`).
`delete` removes the entries with the url and returns the one it found;
`list_all` is the lookup `List`, which lists nothing for an unknown category.
The contracts of `Add`, `Delete`, `Subscribe`, `Unsubscribe` and `Notify` are
written in terms of `List`, as those of the registry are in terms of `HasUrl`.

The per-subscriber `thread::spawn` becomes the returned sequence of
`Delivery(url, payload)` values, one per subscriber, in list order. `Dispatch`
is the loop as written, with one payload variable whose name field is
overwritten before each copy, and is proved to produce the same sequence.

`subscribe` and `unsubscribe` upper-case the category but `notify` does not:
it lists and reports the category exactly as passed. A subscription to
"book" is stored under "BOOK" and is reached by `notify("BOOK", …)` but not by
`notify("book", …)` (`BookScenario`, `NotifyMissesUnnormalisedCategory`).

Files: `wrappers.dfy` (Option, Result), `casing.dfy` (ASCII upper-casing),
`decimal.dfy` (id to string), `model.dfy` (Subscriber, Product, Notification,
Delivery), `registry.dfy` (the registry), `notification_service.dfy` (the
three operations), `dispatcher_properties.dfy` (properties across calls),
`scenarios.dfy` (concrete runs).

## Model

| member | source | states |
|---|---|---|
| Casing.Upper | src/service/notification.rs:13-14 | the canonical category has the same length, no lower-case letter, and at each position the original character or the upper-case form of its lower-case letter |
| Casing.UpperFixedPoints | src/service/notification.rs:13 | a category is left unchanged by normalisation exactly when it has no lower-case letter |
| Casing.UpperIdempotent | src/service/notification.rs:20 | normalising an already normalised category changes nothing |
| Decimal.NatToString | src/service/notification.rs:36 | the product url is a non-empty string of decimal digits with no leading zero |
| Decimal.ValueOfNatToString | src/service/notification.rs:36 | reading the product url back as a decimal number gives the product id |
| Decimal.NatToStringInjective | src/service/notification.rs:36 | different product ids give different product urls |
| Registry.ReplaceMembers | src/service/notification.rs:15 | overwriting by url keeps exactly the entries with other urls and lists the new subscriber whenever its url was present |
| Registry.Upsert | src/service/notification.rs:15 | after adding, the subscriber is listed; the listing holds exactly it and the old entries with other urls; a known url is overwritten in place with every other position kept, a new url is appended; unique urls stay unique |
| Registry.RemoveUrl | src/service/notification.rs:22 | after removal the listing holds exactly the old entries with other urls, none with the removed url, and is unchanged when the url was absent |
| Registry.FindUrl | src/service/notification.rs:22-23 | the lookup finds nothing exactly when no entry has the url, and otherwise the first listed entry with it |
| Registry.RemoveUrlSplice | src/service/notification.rs:22 | with unique urls, removing a present url cuts out exactly that entry and keeps the others in order |
| Registry.FoundSplice | src/service/notification.rs:22 | with unique urls, the entry the lookup finds is exactly the one removal cuts out, the rest keeping their order |
| Registry.Add | src/service/notification.rs:15 | add returns the subscriber it stored, lists it under the category, overwrites an entry with the same url in place or appends a new url, and leaves every other category's listing alone |
| Registry.Delete | src/service/notification.rs:22 | delete reports nothing and changes nothing exactly when the url is absent, otherwise returns a listed entry with that url; with unique urls the listing loses exactly that entry and keeps its order; other categories are untouched |
| NotificationService.Subscribe | src/service/notification.rs:12-17 | subscribe never fails, returns the subscriber, lists it under the upper-cased category, overwrites an entry with the same url in place or appends a new url at the end, and touches no other category |
| NotificationService.Unsubscribe | src/service/notification.rs:19-30 | unsubscribe fails with 404 "Subscriber not found." and an unchanged registry exactly when the url is not listed under the upper-cased category; otherwise returns the listed entry with that url, which is then gone; with unique urls the listing loses exactly that entry and keeps the others in order; other categories are untouched |
| NotificationService.BuildPayload | src/service/notification.rs:33-39 | the payload carries the product title, the category as passed, the product id as a decimal string that reads back as the id, and the status, with an empty recipient name |
| NotificationService.FanOut | src/service/notification.rs:42-47 | one delivery per subscriber, the k-th to the k-th subscriber's url with the payload carrying that subscriber's name |
| NotificationService.Notify | src/service/notification.rs:32-48 | notify leaves the registry unchanged, makes as many deliveries as the category as passed lists (none for an empty listing), the k-th to the k-th listed url and name, every payload carrying the product title, the category as passed, the id string and the status, and all payloads equal apart from the name |
| NotificationService.Dispatch | src/service/notification.rs:41-47 | the loop that overwrites one payload's name before each copy produces exactly the deliveries of notify |
| DispatcherProperties.RemoveAfterUpsert | src/service/notification.rs:15 | removing a url after storing a subscriber under it leaves what removing it beforehand leaves |
| DispatcherProperties.CategoryCaseInsensitive | src/service/notification.rs:13-22 | categories differing only in case give identical subscribe and unsubscribe results, equal to those for the upper-cased category |
| DispatcherProperties.SubscribeThenUnsubscribe | src/service/notification.rs:12-30 | unsubscribe straight after subscribe returns the subscriber, the url is no longer listed, every other entry and category is unchanged, and for a new url the registry lists what it listed before |
| DispatcherProperties.UpsertIdempotent | src/service/notification.rs:15 | storing the same subscriber twice under a category leaves the same list as storing it once |
| DispatcherProperties.SubscribeIdempotent | src/service/notification.rs:12-16 | subscribing the same subscriber twice has the effect and result of subscribing once |
| DispatcherProperties.UnsubscribeTwiceNotFound | src/service/notification.rs:19-28 | a second unsubscribe of the same url is the not-found error and changes nothing |
| DispatcherProperties.OperationsPreserveWellFormed | src/service/notification.rs:13-22 | subscribe and unsubscribe keep every category key upper-cased and every url unique within its category |
| DispatcherProperties.SubscribedIsNotified | src/service/notification.rs:41-46 | after subscribe, notify for the upper-cased category sends exactly one delivery to the subscriber's url, carrying its name |
| DispatcherProperties.UnsubscribedIsNotNotified | src/service/notification.rs:41-46 | after unsubscribe, notify for the upper-cased category sends nothing to that url |
| DispatcherProperties.NotifyMissesUnnormalisedCategory | src/service/notification.rs:41 | in a registry filled through subscribe, notify for a category containing a lower-case letter sends nothing |
| DispatcherProperties.DistinctProductsDistinctUrls | src/service/notification.rs:36 | payloads about products with different ids carry different product urls |
| Scenarios.SubscribeFirst | src/service/notification.rs:12-16 | the first subscription to "book" creates the category "BOOK" listing that subscriber |
| Scenarios.SubscribeSecond | src/service/notification.rs:12-16 | a second url subscribed to "book" is listed after the first |
| Scenarios.BookScenario | src/service/notification.rs:32-47 | after subscribing A and B to "book", notify("BOOK", "CREATED", product 1) sends the two expected payloads to http://a then http://b, and notify("book", …) sends nothing |
| Scenarios.UnsubscribeFromEmpty | src/service/notification.rs:19-28 | unsubscribing from an empty registry is the 404 not-found error |

## Left out

- `Subscriber::update` (src/model/subscriber.rs): the HTTP POST with a "JSON" content-type header, its discarded outcome and the log line are network I/O; the model stops at the delivery list.
- `thread::spawn` and the absence of ordering between concurrent deliveries: replaced by a sequence in list order.
- Concurrency between notify and subscribe/unsubscribe, and the registry's storage and locking: the registry is a value, so every snapshot is consistent.
- Rocket's `Status` and `compose_error_response`: modelled as an `ErrorResponse` value with status 404 and the message.
- JSON serialisation of the payload and the failure of `to_string(...).unwrap()`.
- Casing.Upper: ASCII-only upper-casing; Rust's `to_uppercase` also maps non-ASCII letters and can lengthen a string (ß becomes SS).
- Decimal.NatToString: the `Product` declaration is not modelled, so the width and sign of `id` are unknown; the id is an unbounded natural number, which excludes a negative signed id (rendered with a leading '-') and any wrap-around of a fixed-width id.
- The registry's own implementation (`src/repository/subscriber.rs`) is not part of this model; add, delete and list are the choices described above, including any empty category entry that listing might create, which no listing shows.
