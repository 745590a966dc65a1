/** The notification dispatcher: subscribe and unsubscribe against the
    registry under the upper-cased category, and fan one event payload out to
    every subscriber listed under the category as given. The registry is an
    explicit value passed in and returned; the detached per-subscriber
    threads become the returned sequence of deliveries. */
module NotificationService {
  import opened Wrappers
  import opened Model
  import opened Registry
  import opened Casing
  import opened Decimal

  /** The error response handed back to the caller: an HTTP status and a message. */
  datatype ErrorResponse = ErrorResponse(status: nat, message: string)

  const NotFound: nat := 404
  const SubscriberNotFound: string := "Subscriber not found."

  /** The registry after an operation, and what the operation returned. */
  datatype Outcome = Outcome(registry: Subscriptions, result: Result<Subscriber, ErrorResponse>)

  /** The registry after `notify`, and the callbacks it started. */
  datatype Notified = Notified(registry: Subscriptions, deliveries: seq<Delivery>)

  /** Store `subscriber` under the upper-cased category; never fails. */
  function Subscribe(reg: Subscriptions, category: string, subscriber: Subscriber): (o: Outcome)
    ensures o.result == Success(subscriber)
    ensures subscriber in List(o.registry, Upper(category))
    ensures forall x :: x in List(o.registry, Upper(category)) <==>
              x == subscriber || (x in List(reg, Upper(category)) && x.url != subscriber.url)
    ensures HasUrl(List(reg, Upper(category)), subscriber.url) ==>
              && |List(o.registry, Upper(category))| == |List(reg, Upper(category))|
              && forall i :: 0 <= i < |List(reg, Upper(category))| ==>
                   List(o.registry, Upper(category))[i]
                     == (if List(reg, Upper(category))[i].url == subscriber.url then subscriber
                         else List(reg, Upper(category))[i])
    ensures !HasUrl(List(reg, Upper(category)), subscriber.url) ==>
              List(o.registry, Upper(category)) == List(reg, Upper(category)) + [subscriber]
    ensures forall k :: k != Upper(category) ==> List(o.registry, k) == List(reg, k)
  {
    var (reg', stored) := Add(reg, Upper(category), subscriber);
    Outcome(reg', Success(stored))
  }

  /** Remove the subscriber keyed by `url` under the upper-cased category;
      fails with a not-found response, changing nothing, when there is none. */
  function Unsubscribe(reg: Subscriptions, category: string, url: string): (o: Outcome)
    ensures o.result.Failure? <==> !HasUrl(List(reg, Upper(category)), url)
    ensures o.result.Failure? ==>
              o.result.error == ErrorResponse(404, "Subscriber not found.") && o.registry == reg
    ensures o.result.Success? ==>
              o.result.value in List(reg, Upper(category)) && o.result.value.url == url
    ensures !HasUrl(List(o.registry, Upper(category)), url)
    ensures forall x :: x in List(o.registry, Upper(category)) <==>
              x in List(reg, Upper(category)) && x.url != url
    ensures UniqueUrls(List(reg, Upper(category))) && o.result.Success? ==>
              exists i :: 0 <= i < |List(reg, Upper(category))|
                          && List(reg, Upper(category))[i] == o.result.value
                          && List(o.registry, Upper(category))
                               == List(reg, Upper(category))[..i] + List(reg, Upper(category))[i + 1..]
    ensures forall k :: k != Upper(category) ==> List(o.registry, k) == List(reg, k)
  {
    var (reg', removed) := Delete(reg, Upper(category), url);
    if removed.None? then Outcome(reg', Failure(ErrorResponse(NotFound, SubscriberNotFound)))
    else Outcome(reg', Success(removed.value))
  }

  /** `p` describes the event (`category`, `status`, `product`): every field
      except the recipient's name is fixed by the event. */
  predicate Describes(p: Notification, category: string, status: string, product: Product) {
    && p.productTitle == product.title
    && p.productType == category
    && p.productUrl == NatToString(product.id)
    && p.status == status
  }

  /** The event payload, before a recipient's name is filled in. */
  function BuildPayload(product: Product, category: string, status: string): (r: Notification)
    ensures Describes(r, category, status, product) && r.subscriberName == ""
    ensures AllDigits(r.productUrl) && Value(r.productUrl) == product.id
  {
    ValueOfNatToString(product.id);
    Notification(product.title, category, NatToString(product.id), "", status)
  }

  /** The copy of `payload` addressed to subscriber `s`. */
  function Deliver(payload: Notification, s: Subscriber): Delivery {
    Delivery(s.url, payload.(subscriberName := s.name))
  }

  /** One delivery per subscriber, in list order. */
  function FanOut(payload: Notification, subs: seq<Subscriber>): (ds: seq<Delivery>)
    ensures |ds| == |subs|
    ensures forall k :: 0 <= k < |subs| ==>
              ds[k].url == subs[k].url && ds[k].payload == payload.(subscriberName := subs[k].name)
  {
    if subs == [] then [] else FanOut(payload, subs[..|subs| - 1]) + [Deliver(payload, subs[|subs| - 1])]
  }

  /** Build the payload, list the category exactly as given (it is NOT
      upper-cased), and address one copy to each listed subscriber. */
  function Notify(reg: Subscriptions, category: string, status: string, product: Product): (n: Notified)
    ensures n.registry == reg
    ensures |n.deliveries| == |List(reg, category)|
    ensures forall k :: 0 <= k < |n.deliveries| ==>
              && n.deliveries[k].url == List(reg, category)[k].url
              && n.deliveries[k].payload.subscriberName == List(reg, category)[k].name
              && Describes(n.deliveries[k].payload, category, status, product)
    ensures forall j, k :: 0 <= j < |n.deliveries| && 0 <= k < |n.deliveries| ==>
              n.deliveries[j].payload.(subscriberName := "") == n.deliveries[k].payload.(subscriberName := "")
  {
    Notified(reg, FanOut(BuildPayload(product, category, status), List(reg, category)))
  }

  /** The loop of the dispatcher as written: one payload variable whose
      recipient name is overwritten before each subscriber gets a copy. */
  method Dispatch(reg: Subscriptions, category: string, status: string, product: Product)
    returns (deliveries: seq<Delivery>)
    ensures deliveries == Notify(reg, category, status, product).deliveries
  {
    var payload := BuildPayload(product, category, status);
    ghost var event := payload;
    var subscribers := List(reg, category);
    deliveries := [];
    for i := 0 to |subscribers|
      invariant deliveries == FanOut(event, subscribers[..i])
      invariant payload.(subscriberName := "") == event
    {
      payload := payload.(subscriberName := subscribers[i].name);
      var copy := payload;
      deliveries := deliveries + [Delivery(subscribers[i].url, copy)];
      assert subscribers[..i + 1][..i] == subscribers[..i];
    }
    assert subscribers[..|subscribers|] == subscribers;
  }
}
