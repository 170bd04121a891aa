/**
  What every request is answered, in terms of the request and the rows alone. The sequential
  specification is a composition of small functions; here its outcome is stated without them.
*/
module Answers {
  import opened Common
  import opened Validation
  import opened Patterns
  import opened Ledger

  // ---------------------------------------------------------------- valid requests

  ghost predicate Quantity(n: int) { 1 <= n <= 1_000_000 }

  /** One to 200 characters, not all of them blank. */
  ghost predicate CustomerText(customer: Option<string>) {
    customer.Some? && |customer.value| <= 200 && exists k :: 0 <= k < |customer.value| && customer.value[k] !in WHITESPACE
  }

  ghost predicate KeyText(key: Option<string>) { key.Some? ==> Matches(KEY, key.value) }

  /** The name once trimmed has at most 160 characters, and the name as given is not blank. */
  ghost predicate NameText(name: Option<string>, stored: string) {
    && name.Some? && TrimsTo(name.value, stored) && |stored| <= 160
    && exists k :: 0 <= k < |name.value| && name.value[k] !in WHITESPACE
  }

  lemma CustomerMeans(customer: Option<string>)
    ensures ValidCustomer(customer) <==> CustomerText(customer)
  {
    if customer.Some? { BlankMeans(customer.value); }
  }

  lemma KeyMeans(key: Option<string>)
    ensures ValidKey(key) <==> KeyText(key)
  {
    if key.Some? { KeyMatches(key.value); }
  }

  /** The request that creates this very row. */
  ghost predicate Describes(op: Op, row: ProductRow) {
    && op.CreateProduct? && op.sku.Some? && Spells(op.sku.value, row.sku) && NameText(op.name, row.name)
    && 0 <= op.initial <= 1_000_000 && row.available == op.initial
  }

  lemma NewProductMeans(op: Op, row: ProductRow)
    requires op.CreateProduct?
    ensures NewProduct(op.sku, op.name, op.initial, row.createdAt) == Some(row) <==> Describes(op, row)
  {
    if op.sku.Some? { NormalizeMeans(op.sku.value, row.sku); }
    if op.name.Some? {
      BlankMeans(op.name.value);
      TrimMeans(op.name.value, row.name);
    }
  }

  /** A request is valid exactly when its parts are within the documented limits. */
  lemma ValidMeans(op: Op)
    ensures WellFormedRequest(op) <==>
      match op
      case CreateProduct(_, _, _) => exists row :: Describes(op, row)
      case AddStock(_, quantity) => Quantity(quantity)
      case Reserve(_, quantity, customer, key) => Quantity(quantity) && CustomerText(customer) && KeyText(key)
      case Cancel(_, customer) => CustomerText(customer)
  {
    match op
    case CreateProduct(sku, name, initial) =>
      if WellFormedRequest(op) {
        var row := NewProduct(sku, name, initial, 0).value;
        NewProductMeans(op, row);
        assert Describes(op, row);
      }
      if row :| Describes(op, row) {
        NewProductMeans(op, row);
        NewProductOk(sku, name, initial, row.createdAt);
      }
    case AddStock(_, _) =>
    case Reserve(_, _, customer, key) =>
      CustomerMeans(customer);
      KeyMeans(key);
    case Cancel(_, customer) =>
      CustomerMeans(customer);
  }

  // ---------------------------------------------------------------- answers

  ghost function Refused(db: Db, failure: Failure): Effect { Effect(db, Rejected(failure), NoEvent) }

  /** Every operation answers an invalid request alike, and changes nothing. */
  lemma InvalidAnswered(db: Db, op: Op, id: Id, now: Instant)
    requires WellFormed(db)
    ensures Apply(db, op, id, now).reply == Rejected(Invalid) <==> !WellFormedRequest(op)
    ensures !WellFormedRequest(op) ==> Apply(db, op, id, now) == Refused(db, Invalid)
  {
  }

  /** A creation stores the described row under its identifier, unless the SKU is taken or the name is no stored text. */
  lemma CreateAnswered(db: Db, op: Op, row: ProductRow, id: Id)
    requires Describes(op, row)
    ensures
      var taken := exists p :: p in db.products && db.products[p].sku == row.sku;
      Apply(db, op, id, row.createdAt) ==
        if taken || row.name == "" || '\U{0000}' in row.name then Refused(db, Conflict(SkuExists))
        else Effect(Db(db.products[id := row], db.reservations), ProductReply(id, row), ProductCreated(op.initial))
  {
    NewProductMeans(op, row);
    NewProductOk(op.sku, op.name, op.initial, row.createdAt);
  }

  /** A restock is answered with the raised row unless the product is missing or the cap would be passed. */
  lemma AddStockAnswered(db: Db, p: Id, n: int, id: Id, now: Instant)
    requires Quantity(n)
    ensures
      var e := Apply(db, AddStock(p, n), id, now);
      if p !in db.products then e == Refused(db, NotFound)
      else if db.products[p].available + n > 1_000_000 then e == Refused(db, Conflict(StockCap))
      else
        var row := db.products[p].(available := db.products[p].available + n);
        e == Effect(db.(products := db.products[p := row]), ProductReply(p, row), StockAdded(n))
  {
  }

  ghost predicate Stores(db: Db, r: Id, customer: string, key: string) {
    r in db.reservations && db.reservations[r].customer == customer && db.reservations[r].key == Some(key)
  }

  /** A reservation without a key, or with one the customer has not stored, takes the units if they are there. */
  lemma ReserveAnswered(db: Db, op: Op, id: Id, now: Instant)
    requires op.Reserve? && WellFormedRequest(op) && '\U{0000}' !in op.customer.value
    requires op.key.Some? ==> forall r :: !Stores(db, r, op.customer.value, op.key.value)
    ensures
      var e := Apply(db, op, id, now);
      if op.product !in db.products then e == Refused(db, NotFound)
      else if db.products[op.product].available < op.quantity then e == Refused(db, Conflict(InsufficientStock))
      else
        var row := ReservationRow(op.product, op.quantity, op.customer.value, op.key, ACTIVE, now, None);
        var left := db.products[op.product].(available := db.products[op.product].available - op.quantity);
        e == Effect(Db(db.products[op.product := left], db.reservations[id := row]), Reserved(id, row, false),
                    ReservationCreated(op.quantity))
  {
    if op.key.Some? {
      assert forall r :: Stores(db, r, op.customer.value, op.key.value) <==>
        r in db.reservations && HoldsKey(db.reservations[r], op.customer.value, op.key.value);
    }
  }

  /**
    A request with a stored key is answered with the stored reservation in its current state,
    ACTIVE or CANCELLED, when product and quantity match, and with a conflict when they do not.
  */
  lemma StoredKeyAnswered(db: Db, op: Op, r: Id, id: Id, now: Instant)
    requires WellFormed(db) && op.Reserve? && WellFormedRequest(op) && op.key.Some? && '\U{0000}' !in op.customer.value
    requires Stores(db, r, op.customer.value, op.key.value)
    ensures
      var row := db.reservations[r];
      Apply(db, op, id, now) ==
        if row.product == op.product && row.quantity == op.quantity
        then Effect(db, Reserved(r, row, true), ReservationReplayed)
        else Refused(db, Conflict(KeyReused))
  {
    assert HoldsKey(db.reservations[r], op.customer.value, op.key.value);
  }

  /**
    A cancel is answered as if the reservation did not exist exactly when it is missing or
    another customer's, and then nothing changes.
  */
  lemma ForeignCancelAnswered(db: Db, r: Id, customer: string, id: Id, now: Instant)
    requires WellFormed(db) && CustomerText(Some(customer)) && '\U{0000}' !in customer
    ensures
      var e := Apply(db, Cancel(r, Some(customer)), id, now);
      var foreign := r !in db.reservations || db.reservations[r].customer != customer;
      && (e.reply == Rejected(NotFound) <==> foreign)
      && (foreign ==> e == Refused(db, NotFound))
  {
    CustomerMeans(Some(customer));
  }

  /** The customer's own reservation is cancelled once, unless the units no longer fit or the clock is behind. */
  lemma CancelAnswered(db: Db, r: Id, customer: string, id: Id, now: Instant)
    requires WellFormed(db) && CustomerText(Some(customer)) && '\U{0000}' !in customer
    requires r in db.reservations && db.reservations[r].customer == customer
    ensures
      var e := Apply(db, Cancel(r, Some(customer)), id, now);
      var row := db.reservations[r];
      var product := db.products[row.product];
      if row.status == CANCELLED then e == Effect(db, CancelReply(r, row), CancellationReplayed)
      else if product.available + row.quantity > 1_000_000 then e == Refused(db, Conflict(StockCap))
      else if now < row.createdAt then e == Refused(db, Conflict(TableCheck))
      else
        var done := row.(status := CANCELLED, cancelledAt := Some(now));
        var filled := product.(available := product.available + row.quantity);
        e == Effect(Db(db.products[row.product := filled], db.reservations[r := done]), CancelReply(r, done),
                    ReservationCancelled(row.quantity))
  {
    CustomerMeans(Some(customer));
  }

  /** A customer whose name the tables cannot hold reaches no reservation at all. */
  lemma UnstorableAnswered(db: Db, op: Op, id: Id, now: Instant)
    requires WellFormedRequest(op) && (op.Reserve? || op.Cancel?) && '\U{0000}' in op.customer.value
    ensures Apply(db, op, id, now).reply.Rejected? && Apply(db, op, id, now).db == db
    ensures op.Cancel? || op.key.Some? ==> Apply(db, op, id, now) == Refused(db, Conflict(TableCheck))
  {
  }
}
