/**
 * BasketController of the Basket service: basket lookup and deletion, and
 * Checkout, which publishes a BasketCheckoutEvent priced from the stored
 * basket and then deletes the basket.
 *
 * The basket store (user name to basket) and the effects handed to the
 * outside world (events given to the publish endpoint, delete commands) are
 * fields of the controller; whether the publish endpoint and the basket
 * store's delete succeed or throw are parameters.
 */
module Basket {
  import opened Wrappers
  import opened EventBusMessages

  datatype ShoppingCartItem = ShoppingCartItem(productId: string, productName: string, quantity: int, price: int)

  /** A stored basket, with prices in minor currency units. */
  datatype ShoppingCart = ShoppingCart(userName: string, items: seq<ShoppingCartItem>)

  /** A basket's total: the sum of price times quantity over its items. */
  function TotalPrice(items: seq<ShoppingCartItem>): int {
    if items == [] then 0
    else items[0].price * items[0].quantity + TotalPrice(items[1..])
  }

  /**
   * The checkout request. `details` holds the billing and payment fields by
   * property name; the model does not interpret them.
   */
  datatype BasketCheckout = BasketCheckout(userName: string, totalPrice: int, details: map<string, string>)

  /** The published event: its envelope fields, then the checkout fields. */
  datatype BasketCheckoutEvent = BasketCheckoutEvent(
    corelationId: string, creationDate: DateTime,
    userName: string, totalPrice: int, details: map<string, string>)

  /** What the publish endpoint does with an event: accepts it, or throws. */
  datatype PublishOutcome = Delivered | Faulted(error: string)

  /** What the basket store does with a delete command: performs it, or throws. */
  datatype StoreOutcome = Reachable | Unreachable(error: string)

  /** An effect the controller had on the outside world. */
  datatype Effect = Published(event: BasketCheckoutEvent) | BasketRemoved(userName: string)

  datatype GetBasketResult = BasketNotFound | BasketOk(basket: ShoppingCart)

  /** Checkout's responses; `Threw` is an exception of the bus or the store propagating out. */
  datatype CheckoutResult = Accepted | BadRequest | Threw(error: string)

  /** The events in a sequence of effects, in order. */
  function PublishedEvents(effects: seq<Effect>): (r: seq<BasketCheckoutEvent>)
    ensures |r| <= |effects|
  {
    if effects == [] then []
    else (if effects[0].Published? then [effects[0].event] else []) + PublishedEvents(effects[1..])
  }

  class BasketController {
    /** The basket store, keyed by user name. */
    var baskets: map<string, ShoppingCart>
    /** Everything the controller handed to the bus or the store, in order. */
    var effects: seq<Effect>

    constructor (initial: map<string, ShoppingCart>)
      ensures baskets == initial && effects == []
    {
      baskets := initial;
      effects := [];
    }

    /** GetBasket: NotFound when the store has no basket for the user, else that basket. */
    method GetBasket(userName: string) returns (r: GetBasketResult)
      ensures r.BasketNotFound? <==> userName !in baskets
      ensures r.BasketOk? ==> r.basket == baskets[userName]
    {
      if userName !in baskets {
        return BasketNotFound;
      }
      return BasketOk(baskets[userName]);
    }

    /**
     * The DeleteBasketByUserNameCommand: the store removes the basket and says
     * whether there was one, or throws and changes nothing.
     */
    method SendDelete(userName: string, store: StoreOutcome) returns (r: Result<bool, string>)
      modifies this
      ensures store.Unreachable? ==> r == Failure(store.error) && baskets == old(baskets) && effects == old(effects)
      ensures store.Reachable? ==>
        r == Success(userName in old(baskets)) &&
        baskets == old(baskets) - {userName} &&
        effects == old(effects) + [BasketRemoved(userName)]
    {
      if store.Unreachable? {
        return Failure(store.error);
      }
      r := Success(userName in baskets);
      baskets := baskets - {userName};
      effects := effects + [BasketRemoved(userName)];
    }

    /** DeleteBasket: returns the store's deleted flag as it is; a missing basket is not an error. */
    method DeleteBasket(userName: string, store: StoreOutcome) returns (r: Result<bool, string>)
      modifies this
      ensures r.Success? <==> store.Reachable?
      ensures r.Success? ==> (r.value <==> userName in old(baskets))
      ensures r.Success? ==> baskets == old(baskets) - {userName} && effects == old(effects) + [BasketRemoved(userName)]
      ensures r.Failure? ==> r.error == store.error && baskets == old(baskets) && effects == old(effects)
    {
      r := SendDelete(userName, store);
    }

    /** `_publishEndpoint.Publish`: records the event, or throws and records nothing. */
    method Publish(eventMsg: BasketCheckoutEvent, bus: PublishOutcome) returns (ok: bool)
      modifies this`effects
      ensures ok <==> bus.Delivered?
      ensures effects == if ok then old(effects) + [Published(eventMsg)] else old(effects)
    {
      ok := bus.Delivered?;
      if ok {
        effects := effects + [Published(eventMsg)];
      }
    }

    /**
     * Checkout. `mapper` is BasketMapper's mapping of the request to an event
     * (envelope included); the controller then overwrites its TotalPrice with
     * the stored basket's total, publishes it and only then deletes the
     * basket, ignoring the deleted flag.
     */
    method Checkout(basketCheckout: BasketCheckout, mapper: BasketCheckout -> BasketCheckoutEvent,
                    bus: PublishOutcome, store: StoreOutcome)
      returns (r: CheckoutResult)
      modifies this
      ensures basketCheckout.userName !in old(baskets) ==>
        r == BadRequest && baskets == old(baskets) && effects == old(effects)
      ensures basketCheckout.userName in old(baskets) && bus.Faulted? ==>
        r == Threw(bus.error) && baskets == old(baskets) && effects == old(effects)
      ensures basketCheckout.userName in old(baskets) && bus.Delivered? ==>
        var e := mapper(basketCheckout).(totalPrice := TotalPrice(old(baskets)[basketCheckout.userName].items));
        if store.Reachable? then
          r == Accepted &&
          baskets == old(baskets) - {basketCheckout.userName} &&
          effects == old(effects) + [Published(e), BasketRemoved(basketCheckout.userName)]
        else
          r == Threw(store.error) &&
          baskets == old(baskets) &&
          effects == old(effects) + [Published(e)]
    {
      var basket := GetBasket(basketCheckout.userName);
      if basket.BasketNotFound? {
        return BadRequest;
      }
      var eventMsg := mapper(basketCheckout);
      eventMsg := eventMsg.(totalPrice := TotalPrice(basket.basket.items));
      var published := Publish(eventMsg, bus);
      if !published {
        return Threw(bus.error);
      }
      var deleted := SendDelete(basketCheckout.userName, store);
      if deleted.Failure? {
        return Threw(deleted.error);
      }
      return Accepted;
    }
  }

  /** Appending effects appends their events. */
  lemma {:induction false} PublishedEventsAppend(a: seq<Effect>, b: seq<Effect>)
    ensures PublishedEvents(a + b) == PublishedEvents(a) + PublishedEvents(b)
  {
    if a == [] {
      assert a + b == b;
    } else {
      var head := if a[0].Published? then [a[0].event] else [];
      assert (a + b)[0] == a[0];
      assert (a + b)[1..] == a[1..] + b;
      PublishedEventsAppend(a[1..], b);
      calc {
        PublishedEvents(a + b);
        head + PublishedEvents(a[1..] + b);
        head + (PublishedEvents(a[1..]) + PublishedEvents(b));
        (head + PublishedEvents(a[1..])) + PublishedEvents(b);
      }
    }
  }

  /**
   * A checkout that gets past publishing adds exactly one event to the
   * published log, whether or not the delete then throws.
   */
  lemma CheckoutPublishesOne(before: seq<Effect>, e: BasketCheckoutEvent, after: seq<Effect>)
    requires |after| <= 1 && forall k :: 0 <= k < |after| ==> after[k].BasketRemoved?
    ensures PublishedEvents(before + [Published(e)] + after) == PublishedEvents(before) + [e]
  {
    PublishedEventsAppend(before + [Published(e)], after);
    PublishedEventsAppend(before, [Published(e)]);
    assert [Published(e)][1..] == [];
    if after != [] {
      assert after[1..] == [];
    }
  }
}
