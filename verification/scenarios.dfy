/** Concrete runs of the dispatcher on small registries. */
module Scenarios {
  import opened Wrappers
  import opened Model
  import opened Registry
  import opened Casing
  import Decimal
  import opened NotificationService

  const A := Subscriber("http://a", "A")
  const B := Subscriber("http://b", "B")
  const Book := Product(1, "Systems Design")

  /** The first subscription to "book" creates the category "BOOK". */
  lemma SubscribeFirst()
    ensures Subscribe(Empty, "book", A).registry == map["BOOK" := [A]]
  {
    assert Upper("book") == "BOOK";
    assert List(Empty, "BOOK") == [];
    assert Upsert([], A) == [A];
  }

  /** A second url under "book" is appended after the first. */
  lemma SubscribeSecond()
    ensures Subscribe(map["BOOK" := [A]], "book", B).registry == map["BOOK" := [A, B]]
  {
    assert Upper("book") == "BOOK";
    assert A.url[7] != B.url[7];
    assert !HasUrl([A], B.url);
    assert Upsert([A], B) == [A, B];
  }

  /** Two subscriptions to "book" are stored under "BOOK": a `notify` for
      "BOOK" calls back both, in subscription order, while a `notify` for
      "book" lists nothing and calls back nobody. */
  lemma BookScenario()
    ensures var reg := Subscribe(Subscribe(Empty, "book", A).registry, "book", B).registry;
      && Notify(reg, "book", "CREATED", Book).deliveries == []
      && Notify(reg, "BOOK", "CREATED", Book).deliveries == [
           Delivery("http://a", Notification("Systems Design", "BOOK", "1", "A", "CREATED")),
           Delivery("http://b", Notification("Systems Design", "BOOK", "1", "B", "CREATED"))]
  {
    SubscribeFirst();
    SubscribeSecond();
    var reg := map["BOOK" := [A, B]];
    assert "book" !in reg;
    assert Decimal.NatToString(1) == "1";
    var ds := Notify(reg, "BOOK", "CREATED", Book).deliveries;
    assert |ds| == 2;
  }

  /** Unsubscribing from an empty registry is the not-found error. */
  lemma UnsubscribeFromEmpty()
    ensures Unsubscribe(Empty, "book", "http://a")
              == Outcome(Empty, Failure(ErrorResponse(404, "Subscriber not found.")))
  {
  }
}
