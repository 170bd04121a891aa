/**
  The service methods over live entity objects, each proved to do to the rows, and to
  answer, what the sequential specification says. Generated identifiers and clock
  readings are inputs; a call stands for its whole committed or rolled-back transaction,
  and `event` is the counter callback it registered for after the commit
  (`Metrics.InventoryMetrics.AfterCompletion` runs it).
*/
module Service {
  import opened Common
  import opened Validation
  import opened Ledger
  import opened Domain

  class InventoryService {
    var products: map<Id, Product>
    var reservations: map<Id, Reservation>
    /** The rows the objects stand for. */
    ghost var rows: Db

    constructor ()
      ensures Valid() && rows == Db(map[], map[])
    {
      products, reservations, rows := map[], map[], Db(map[], map[]);
    }

    /** Every object sits under its own identifier, and reservations refer to the stored products. */
    ghost predicate Valid()
      reads this, products.Values, reservations.Values
    {
      ValidExcept({}, {})
    }

    /** Validity while the listed objects have changes that are not yet written to their rows. */
    ghost predicate ValidExcept(dirtyProducts: set<Id>, dirtyReservations: set<Id>)
      reads this, products.Values, reservations.Values
    {
      && products.Keys == rows.products.Keys && reservations.Keys == rows.reservations.Keys
      && (forall p | p in products ::
            products[p].id == p && products[p].InRange() && (p in dirtyProducts || products[p].Row() == rows.products[p]))
      && (forall r | r in reservations ::
            && reservations[r].id == r && (r in dirtyReservations || reservations[r].Row() == rows.reservations[r])
            && reservations[r].product.id in products && products[reservations[r].product.id] == reservations[r].product)
    }

    /** The flush of a changed product that commit performs. */
    ghost method FlushProduct(id: Id, dirtyReservations: set<Id>)
      requires id in products && ValidExcept({id}, dirtyReservations)
      modifies this`rows
      ensures ValidExcept({}, dirtyReservations)
      ensures rows == old(rows).(products := old(rows).products[id := products[id].Row()])
    {
      rows := rows.(products := rows.products[id := products[id].Row()]);
    }

    /** The flush of a changed reservation that commit performs. */
    ghost method FlushReservation(id: Id)
      requires id in reservations && ValidExcept({}, {id})
      modifies this`rows
      ensures Valid()
      ensures rows == old(rows).(reservations := old(rows).reservations[id := reservations[id].Row()])
    {
      rows := rows.(reservations := rows.reservations[id := reservations[id].Row()]);
    }

    /** The repository query `existsBySku`. */
    method ExistsBySku(sku: string) returns (found: bool)
      requires Valid()
      ensures found <==> SkuTaken(rows, sku)
    {
      found := exists p | p in products :: products[p].sku == sku;
      assert forall p | p in products :: rows.products[p].sku == products[p].sku;
    }

    lemma KeyOwnerIs(db: Db, r: Id, customer: string, key: string)
      requires UniqueKeys(db) && r in db.reservations && HoldsKey(db.reservations[r], customer, key)
      ensures KeyUsed(db, customer, key) && KeyOwner(db, customer, key) == r
    {
    }

    /** The repository query `findByCustomerIdAndIdempotencyKey`. */
    method FindByKey(customer: string, key: string) returns (found: Option<Reservation>)
      requires Valid() && UniqueKeys(rows)
      ensures found.Some? <==> KeyUsed(rows, customer, key)
      ensures found.Some? ==>
        var r := KeyOwner(rows, customer, key);
        r in reservations && found.value == reservations[r]
    {
      assert forall r | r in reservations :: rows.reservations[r] == reservations[r].Row();
      found := None;
      if exists r | r in reservations :: reservations[r].customerId == customer && reservations[r].idempotencyKey == Some(key) {
        var r :| r in reservations && reservations[r].customerId == customer && reservations[r].idempotencyKey == Some(key);
        KeyOwnerIs(rows, r, customer, key);
        found := Some(reservations[r]);
      }
    }

    /** The repository call `saveAndFlush` for a new product. */
    method SaveProduct(product: Product)
      requires Valid() && Fresh(rows, product.id) && product.InRange()
      modifies this`products, this`rows
      ensures Valid() && rows == old(rows).(products := old(rows).products[product.id := product.Row()])
    {
      products := products[product.id := product];
      rows := rows.(products := rows.products[product.id := product.Row()]);
    }

    /** The repository call `save` for a new reservation. */
    method SaveReservation(reservation: Reservation)
      requires Valid() && Fresh(rows, reservation.id)
      requires reservation.product.id in products && products[reservation.product.id] == reservation.product
      modifies this`reservations, this`rows
      ensures Valid() && rows == old(rows).(reservations := old(rows).reservations[reservation.id := reservation.Row()])
    {
      reservations := reservations[reservation.id := reservation];
      rows := rows.(reservations := rows.reservations[reservation.id := reservation.Row()]);
    }

    method CreateProduct(sku: Option<string>, name: Option<string>, initialQuantity: int32, id: Id, now: Instant)
      returns (reply: Reply, event: Event)
      requires Valid() && Fresh(rows, id)
      modifies this`products, this`rows
      ensures Valid()
      ensures Effect(rows, reply, event) == Apply(old(rows), Op.CreateProduct(sku, name, initialQuantity as int), id, now)
    {
      NewProductOk(sku, name, initialQuantity as int, now);
      event := NoEvent;
      var made := Product.Create(sku, name, initialQuantity, id, now);
      if made.Err? {
        reply := Rejected(made.error);
      } else {
        var product := made.value;
        var taken := ExistsBySku(product.sku);
        // Without competitors the insert can only fail on the name.
        if taken || !NameStored(product.name) {
          reply := Rejected(Conflict(SkuExists));
        } else {
          SaveProduct(product);
          event := ProductCreated(initialQuantity as int);
          reply := ProductReply(id, product.Row());
        }
      }
    }

    method AddStock(id: Id, quantity: int32) returns (reply: Reply, event: Event)
      requires Valid()
      modifies this`rows, products.Values
      ensures Valid()
      ensures Effect(rows, reply, event) == Apply(old(rows), Op.AddStock(id, quantity as int), 0, 0)
    {
      event := NoEvent;
      if !ValidQuantity(quantity as int) {
        reply := Rejected(Invalid);
      } else if id !in products {
        reply := Rejected(NotFound);
      } else {
        var product := products[id];
        var added := product.AddStock(quantity);
        if added.Err? {
          reply := Rejected(added.error);
        } else {
          FlushProduct(id, {});
          event := StockAdded(quantity as int);
          reply := ProductReply(id, product.Row());
        }
      }
    }

    method Reserve(productId: Id, quantity: int32, customerId: Option<string>, key: Option<string>, id: Id, now: Instant)
      returns (reply: Reply, event: Event)
      requires Valid() && Fresh(rows, id) && UniqueKeys(rows)
      modifies this`reservations, this`rows, products.Values
      ensures Valid()
      ensures Effect(rows, reply, event)
           == Apply(old(rows), Op.Reserve(productId, quantity as int, customerId, key), id, now)
    {
      event := NoEvent;
      if !ValidQuantity(quantity as int) || !ValidCustomer(customerId) || !ValidKey(key) {
        return Rejected(Invalid), NoEvent;
      }
      var found: Option<Reservation> := None;
      if key.Some? {
        // The lookup's parameter must be text.
        if !Storable(customerId.value) { return Rejected(Conflict(TableCheck)), NoEvent; }
        found := FindByKey(customerId.value, key.value);
      }
      if found.Some? {
        var existing := found.value;
        if existing.product.id != productId || existing.quantity != quantity {
          reply := Rejected(Conflict(KeyReused));
        } else {
          event := ReservationReplayed;
          reply := Reserved(existing.id, existing.Row(), true);
        }
      } else if productId !in products {
        reply := Rejected(NotFound);
      } else {
        reply, event := CreateReservation(productId, quantity, customerId, key, id, now);
      }
    }

    /** The rest of `reserve`, once the product is found and the key known to be unused. */
    method CreateReservation(productId: Id, quantity: int32, customerId: Option<string>, key: Option<string>, id: Id, now: Instant)
      returns (reply: Reply, event: Event)
      requires Valid() && Fresh(rows, id) && productId in products && ValidCustomer(customerId) && ValidKey(key)
      modifies this`reservations, this`rows, products.Values
      ensures Valid()
      ensures Effect(rows, reply, event)
           == ApplyNewReservation(old(rows), Op.Reserve(productId, quantity as int, customerId, key), id, now)
    {
      var product := products[productId];
      var before := product.availableQuantity;
      var made := Reservation.Create(product, quantity, customerId, key, id, now);
      if made.Err? {
        reply, event := Rejected(made.error), NoEvent;
      } else if !Storable(made.value.customerId) {
        // The insert fails, and the rollback discards the product's change.
        product.availableQuantity := before;
        reply, event := Rejected(Conflict(TableCheck)), NoEvent;
      } else {
        FlushProduct(productId, {});
        SaveReservation(made.value);
        reply, event := Reserved(id, made.value.Row(), false), ReservationCreated(quantity as int);
      }
    }

    method CancelReservation(id: Id, customerId: Option<string>, now: Instant)
      returns (reply: Reply, event: Event)
      requires Valid()
      modifies this`rows, products.Values, reservations.Values
      ensures Valid()
      ensures Effect(rows, reply, event) == Apply(old(rows), Op.Cancel(id, customerId), 0, now)
    {
      event := NoEvent;
      if !ValidCustomer(customerId) {
        reply := Rejected(Invalid);
      } else if !Storable(customerId.value) {
        reply := Rejected(Conflict(TableCheck));
      } else if id !in reservations || reservations[id].customerId != customerId.value {
        reply := Rejected(NotFound);
      } else if reservations[id].status == ACTIVE {
        reply, event := CancelActive(id, now);
      } else {
        event := CancellationReplayed;
        reply := CancelReply(id, reservations[id].Row());
      }
    }

    /** The rollback discards what a cancellation changed in its two objects. */
    method RollBack(reservation: Reservation, available: int32, at: Option<Instant>)
      requires reservation.id in reservations && reservations[reservation.id] == reservation
      requires ValidExcept({reservation.product.id}, {reservation.id}) && 0 <= available <= MAX
      requires rows.products[reservation.product.id] == reservation.product.Row().(available := available as int)
      requires rows.reservations[reservation.id] == reservation.Row().(status := ACTIVE, cancelledAt := at)
      modifies reservation`status, reservation`cancelledAt, reservation.product`availableQuantity
      ensures Valid()
    {
      reservation.product.availableQuantity := available;
      reservation.status, reservation.cancelledAt := ACTIVE, at;
    }

    lemma FirstCancelBranches(db: Db, r: Id, now: Instant)
      requires r in db.reservations && db.reservations[r].product in db.products
      ensures var row := db.reservations[r];
              match Restock(db.products[row.product], row.quantity)
              case Err(e) => ApplyFirstCancel(db, r, now) == Effect(db, Rejected(e), NoEvent)
              case Ok(prow) =>
                ApplyFirstCancel(db, r, now) ==
                  if now < row.createdAt then Effect(db, Rejected(Conflict(TableCheck)), NoEvent)
                  else Effect(Db(db.products[row.product := prow], db.reservations[r := CancelRow(row, now)]),
                              CancelReply(r, CancelRow(row, now)), ReservationCancelled(row.quantity))
    {
    }

    /** The branch of `cancelReservation` that finds the reservation still active. */
    method CancelActive(id: Id, now: Instant) returns (reply: Reply, event: Event)
      requires Valid() && id in reservations && reservations[id].status == ACTIVE
      modifies this`rows, products.Values, reservations.Values
      ensures Valid()
      ensures Effect(rows, reply, event) == ApplyFirstCancel(old(rows), id, now)
    {
      var reservation := reservations[id];
      var product := reservation.product;
      FirstCancelBranches(rows, id, now);
      var available, at := product.availableQuantity, reservation.cancelledAt;
      var cancelled := reservation.Cancel(now);
      if cancelled.Err? {
        return Rejected(cancelled.error), NoEvent;
      }
      if now < reservation.createdAt {
        // The table refuses the row at the flush.
        RollBack(reservation, available, at);
        return Rejected(Conflict(TableCheck)), NoEvent;
      }
      FlushProduct(product.id, {id});
      FlushReservation(id);
      reply, event := CancelReply(id, reservation.Row()), ReservationCancelled(reservation.quantity as int);
    }
  }
}
