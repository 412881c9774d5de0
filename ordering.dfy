/**
 * DeleteOrderCommandHandler of the Ordering service: finds the order by id
 * through the repository, throws OrderNotFoundException when there is none,
 * otherwise deletes it and returns true.
 */
module Ordering {
  import opened Wrappers

  /** An order; EntityBase gives it its int Id. */
  datatype Order = Order(id: int, userName: string, totalPrice: int)

  datatype DeleteOrderCommand = DeleteOrderCommand(id: int)

  /** OrderNotFoundException(name, key). */
  datatype OrderNotFoundException = OrderNotFoundException(name: string, key: int)

  /** The order store behind IAsyncRepository<Order>, keyed by Id. */
  class OrderRepository {
    var orders: map<int, Order>

    /** Every order is stored under its own Id. */
    ghost predicate Valid()
      reads this
    {
      forall k :: k in orders ==> orders[k].id == k
    }

    constructor (initial: map<int, Order>)
      requires forall k :: k in initial ==> initial[k].id == k
      ensures Valid() && orders == initial
    {
      orders := initial;
    }

    /** GetByIdAsync: the order with that Id, or null. */
    method GetByIdAsync(id: int) returns (r: Option<Order>)
      requires Valid()
      ensures r.None? <==> id !in orders
      ensures r.Some? ==> r.value == orders[id] && r.value.id == id
    {
      if id in orders {
        r := Some(orders[id]);
      } else {
        r := None;
      }
    }

    /** DeleteAsync: removes the given entity, identified by its Id. */
    method DeleteAsync(entity: Order) returns (deleted: bool)
      requires Valid()
      modifies this
      ensures Valid()
      ensures deleted <==> entity.id in old(orders)
      ensures orders == old(orders) - {entity.id}
    {
      deleted := entity.id in orders;
      orders := orders - {entity.id};
    }
  }

  class DeleteOrderCommandHandler {
    const orderRepository: OrderRepository

    constructor (repository: OrderRepository)
      ensures orderRepository == repository
    {
      orderRepository := repository;
    }

    /**
     * Handle: an unknown id throws OrderNotFoundException("Order", id) and
     * changes nothing; a known one is deleted, and only it. A normal return is
     * always true, whatever DeleteAsync answered.
     */
    method Handle(request: DeleteOrderCommand) returns (r: Result<bool, OrderNotFoundException>)
      requires orderRepository.Valid()
      modifies orderRepository
      ensures orderRepository.Valid()
      ensures r.Success? ==> r.value
      ensures r.Failure? <==> request.id !in old(orderRepository.orders)
      ensures r.Failure? ==>
        r.error == OrderNotFoundException("Order", request.id) &&
        orderRepository.orders == old(orderRepository.orders)
      ensures r.Success? ==>
        orderRepository.orders == old(orderRepository.orders) - {request.id}
    {
      var orderToDelete := orderRepository.GetByIdAsync(request.id);
      if orderToDelete.None? {
        return Failure(OrderNotFoundException("Order", request.id));
      }
      var _ := orderRepository.DeleteAsync(orderToDelete.value);
      return Success(true);
    }
  }
}
