/** Entities, request and response values, and errors of the order/payment workflow.
    Money is exact (`real`), as the service computes with BigDecimal; references
    between entities are kept as ids. */
module Domain {

  /** A Java `int`: the type of a line item's quantity. */
  newtype int32 = x: int | -0x8000_0000 <= x < 0x8000_0000

  datatype Option<+T> = None | Some(value: T)

  datatype OrderStatus = Pending | Success | Failed

  datatype PaymentStatus = Success | Failed

  /** The RuntimeExceptions the services throw. */
  datatype Error =
    | OrderNotFound(orderId: nat)
    | UserNotFound(userId: nat)
    | ProductNotFound(productId: nat)
    | PaymentNotFound(paymentId: nat)
      /** A lifecycle guard refused the operation; `message` is the exception's text. */
    | Rejected(message: string)

  datatype Result<+T> = Ok(value: T) | Err(error: Error)

  datatype User = User(id: nat, userName: string, email: string, phone: string)

  datatype Product = Product(id: nat, productName: string, price: real)

  /** An OrderProduct: one line of an order. The source holds a reference to the
      catalog's product; a copy of it stands for that reference, which is the
      same thing while the catalog is read-only. */
  datatype LineItem = LineItem(id: nat, product: Product, quantity: int32)

  /** A CustomerOrder. A new one starts `Pending`. */
  datatype Order = Order(id: nat, userId: nat, items: seq<LineItem>, orderAmount: real, status: OrderStatus)

  /** A Payment; `id` is `None` until the payment repository has saved it. */
  datatype Payment = Payment(
    id: Option<nat>,
    orderId: nat,
    userId: nat,
    receivedAmount: real,
    status: PaymentStatus,
    errorMessage: Option<string>)

  /** A ledger entry. */
  datatype Transaction = Transaction(id: nat, orderId: nat, userId: nat, amount: real)

  datatype ProductQuantity = ProductQuantity(productId: nat, quantity: int32)

  datatype OrderRequest = OrderRequest(userId: nat, products: seq<ProductQuantity>)

  datatype PaymentRequest = PaymentRequest(orderId: nat, userId: nat, amount: real)

  datatype OrderProductResponse = OrderProductResponse(id: nat, productId: nat, quantity: int32)

  /** The rendered view of an order that is returned to callers and cached. */
  datatype OrderResponse = OrderResponse(
    id: nat,
    userId: nat,
    orderProducts: seq<OrderProductResponse>,
    orderAmount: real,
    orderStatus: OrderStatus)
}
