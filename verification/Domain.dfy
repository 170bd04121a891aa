/** The entity classes: each method changes its object in place exactly as the row rules say. */
module Domain {
  import opened Common
  import opened Validation
  import opened Ledger

  newtype int32 = x: int | -0x8000_0000 <= x < 0x8000_0000

  const MAX: int32 := 1_000_000

  class Product {
    const id: Id
    const sku: string
    const name: string
    var availableQuantity: int32
    const createdAt: Instant

    constructor (id: Id, row: ProductRow)
      requires 0 <= row.available <= MAX_QUANTITY
      ensures this.id == id && Row() == row
    {
      this.id, sku, name, createdAt := id, row.sku, row.name, row.createdAt;
      availableQuantity := row.available as int32;
    }

    function Row(): ProductRow
      reads this
    {
      ProductRow(sku, name, availableQuantity as int, createdAt)
    }

    predicate InRange()
      reads this
    {
      0 <= availableQuantity <= MAX
    }

    /** The public constructor with its checks; the identifier and clock are inputs. */
    static method Create(sku: Option<string>, name: Option<string>, initialQuantity: int32, id: Id, now: Instant)
      returns (r: Result<Product, Failure>)
      ensures r.Ok? <==> NewProduct(sku, name, initialQuantity as int, now).Some?
      ensures r.Ok? ==> fresh(r.value) && r.value.id == id && r.value.InRange()
      ensures r.Ok? ==> r.value.Row() == NewProduct(sku, name, initialQuantity as int, now).value
      ensures r.Err? ==> r.error == Invalid
    {
      var normalized := NormalizeSku(sku);
      if normalized.None? { return Err(Invalid); }
      if name.None? || Blank(name.value) || |Trim(name.value)| > 160 { return Err(Invalid); }
      if initialQuantity < 0 || initialQuantity > MAX { return Err(Invalid); }
      var p := new Product(id, ProductRow(normalized.value, Trim(name.value), initialQuantity as int, now));
      r := Ok(p);
    }

    method AddStock(quantity: int32) returns (r: Result<(), Failure>)
      requires InRange()
      modifies this`availableQuantity
      ensures InRange()
      ensures match Restock(old(Row()), quantity as int)
              case Ok(row) => r == Ok(()) && Row() == row
              case Err(e) => r == Err(e) && Row() == old(Row())
    {
      if !ValidQuantity(quantity as int) { return Err(Invalid); }
      if quantity > MAX - availableQuantity { return Err(Conflict(StockCap)); }
      availableQuantity := availableQuantity + quantity;
      r := Ok(());
    }

    method ReserveStock(quantity: int32) returns (r: Result<(), Failure>)
      requires InRange()
      modifies this`availableQuantity
      ensures InRange()
      ensures match Take(old(Row()), quantity as int)
              case Ok(row) => r == Ok(()) && Row() == row
              case Err(e) => r == Err(e) && Row() == old(Row())
    {
      if !ValidQuantity(quantity as int) { return Err(Invalid); }
      if quantity > availableQuantity { return Err(Conflict(InsufficientStock)); }
      availableQuantity := availableQuantity - quantity;
      r := Ok(());
    }
  }

  class Reservation {
    const id: Id
    const product: Product
    const quantity: int32
    const customerId: string
    const idempotencyKey: Option<string>
    var status: Status
    const createdAt: Instant
    var cancelledAt: Option<Instant>

    constructor (id: Id, product: Product, quantity: int32, customerId: string, key: Option<string>, now: Instant)
      ensures this.id == id && this.product == product && this.quantity == quantity
      ensures Row() == ReservationRow(product.id, quantity as int, customerId, key, ACTIVE, now, None)
    {
      this.id, this.product, this.quantity, this.customerId := id, product, quantity, customerId;
      idempotencyKey, status, createdAt, cancelledAt := key, ACTIVE, now, None;
    }

    function Row(): ReservationRow
      reads this
    {
      ReservationRow(product.id, quantity as int, customerId, idempotencyKey, status, createdAt, cancelledAt)
    }

    /** The public constructor: it validates, then takes the stock, then builds the object. */
    static method Create(product: Product, quantity: int32, customerId: Option<string>, key: Option<string>, id: Id, now: Instant)
      returns (r: Result<Reservation, Failure>)
      requires product.InRange()
      modifies product`availableQuantity
      ensures product.InRange()
      ensures r.Ok? <==> ValidCustomer(customerId) && ValidKey(key) && Take(old(product.Row()), quantity as int).Ok?
      ensures r.Ok? ==>
        && fresh(r.value) && r.value.id == id && r.value.product == product && r.value.quantity == quantity
        && product.Row() == Take(old(product.Row()), quantity as int).value
        && r.value.Row() == ReservationRow(product.id, quantity as int, customerId.value, key, ACTIVE, now, None)
      ensures r.Err? ==> product.Row() == old(product.Row())
      ensures !(ValidCustomer(customerId) && ValidKey(key)) ==> r == Err(Invalid)
      ensures r.Err? && ValidCustomer(customerId) && ValidKey(key) ==>
        Take(old(product.Row()), quantity as int) == Err(r.error)
    {
      if !ValidCustomer(customerId) || !ValidKey(key) { return Err(Invalid); }
      var taken := product.ReserveStock(quantity);
      if taken.Err? { return Err(taken.error); }
      var reservation := new Reservation(id, product, quantity, customerId.value, key, now);
      r := Ok(reservation);
    }

    /** True for the first cancellation, false when there is nothing left to do. */
    method Cancel(now: Instant) returns (r: Result<bool, Failure>)
      requires product.InRange()
      modifies this`status, this`cancelledAt, product`availableQuantity
      ensures product.InRange()
      ensures old(status) == CANCELLED ==>
        r == Ok(false) && Row() == old(Row()) && product.Row() == old(product.Row())
      ensures old(status) == ACTIVE ==>
        match Restock(old(product.Row()), quantity as int)
        case Ok(row) => r == Ok(true) && product.Row() == row && Row() == CancelRow(old(Row()), now)
        case Err(e) => r == Err(e) && Row() == old(Row()) && product.Row() == old(product.Row())
    {
      if status == CANCELLED { return Ok(false); }
      var restored := product.AddStock(quantity);
      if restored.Err? { return Err(restored.error); }
      status := CANCELLED;
      cancelledAt := Some(now);
      r := Ok(true);
    }
  }
}
