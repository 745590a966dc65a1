/** The entities the dispatcher handles: a webhook subscriber, the product an
    event is about, and the per-recipient notification payload. */
module Model {

  /** A webhook endpoint registered for a product category; `url` is its key. */
  datatype Subscriber = Subscriber(url: string, name: string)

  /** The two product attributes the dispatcher reads. */
  datatype Product = Product(id: nat, title: string)

  /** The event payload. Built once per event; only `subscriberName` differs
      between the copies sent to different subscribers. */
  datatype Notification = Notification(
    productTitle: string,
    productType: string,
    productUrl: string,
    subscriberName: string,
    status: string)

  /** One outbound callback: the payload and the endpoint it is posted to. */
  datatype Delivery = Delivery(url: string, payload: Notification)
}
