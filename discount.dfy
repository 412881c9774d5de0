/**
 * The Discount service's coupon lookup: GetDiscountQueryHandler turns the
 * coupon stored for a product name into a CouponModel, or fails with a gRPC
 * NotFound status naming the product.
 */
module Discount {
  import opened Wrappers

  /** A row of the Coupon table. */
  datatype Coupon = Coupon(id: int, productName: string, description: string, amount: int)

  /** The gRPC message the handler returns. */
  datatype CouponModel = CouponModel(id: int, productName: string, description: string, amount: int)

  /** GetDiscountQuery: its constructor stores the product name it is given. */
  datatype GetDiscountQuery = GetDiscountQuery(productname: string)

  datatype StatusCode = NotFound

  /** Grpc.Core.RpcException with its Status. */
  datatype RpcException = RpcException(status: StatusCode, detail: string)

  /**
   * IDiscountRepository.GetDiscount over the table's rows: the first coupon
   * whose ProductName equals the given name, or null.
   */
  function GetDiscount(table: seq<Coupon>, productName: string): (r: Option<Coupon>)
    ensures r.None? <==> forall c :: c in table ==> c.productName != productName
    ensures r.Some? ==> r.value in table && r.value.productName == productName
  {
    if table == [] then None
    else if table[0].productName == productName then Some(table[0])
    else GetDiscount(table[1..], productName)
  }

  /** The message of the NotFound status the handler throws. */
  function NotFoundDetail(productName: string): string {
    "Discount with ProductName=" + productName + " is not found."
  }

  /**
   * GetDiscountQueryHandler.Handle: looks the coupon up by the query's product
   * name and copies it field by field, or throws NotFound. It reads the table
   * and changes nothing.
   */
  function Handle(table: seq<Coupon>, request: GetDiscountQuery): (r: Result<CouponModel, RpcException>)
    ensures r.Failure? <==> forall c :: c in table ==> c.productName != request.productname
    ensures r.Failure? ==> r.error == RpcException(NotFound, NotFoundDetail(request.productname))
    ensures r.Success? ==>
      exists c :: c in table && c.productName == request.productname &&
        r.value == CouponModel(c.id, c.productName, c.description, c.amount)
  {
    var coupon := GetDiscount(table, request.productname);
    if coupon.None? then
      Failure(RpcException(NotFound, NotFoundDetail(request.productname)))
    else
      var c := coupon.value;
      Success(CouponModel(c.id, c.productName, c.description, c.amount))
  }
}
