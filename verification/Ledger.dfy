/**
  The reservation service as a sequential specification: what one operation does
  to the committed rows when nothing else runs. The class layer implements it and
  the transaction protocol is shown to be linearizable to it.
*/
module Ledger {
  import opened Common
  import opened Validation

  type Id = nat
  type Instant = int

  datatype Status = ACTIVE | CANCELLED

  datatype ProductRow = ProductRow(sku: string, name: string, available: int, createdAt: Instant)

  datatype ReservationRow = ReservationRow(
    product: Id, quantity: int, customer: string, key: Option<string>,
    status: Status, createdAt: Instant, cancelledAt: Option<Instant>)

  datatype Db = Db(products: map<Id, ProductRow>, reservations: map<Id, ReservationRow>)

  datatype Op =
    | CreateProduct(sku: Option<string>, name: Option<string>, initial: int)
    | AddStock(product: Id, quantity: int)
    | Reserve(product: Id, quantity: int, customer: Option<string>, key: Option<string>)
    | Cancel(reservation: Id, customer: Option<string>)

  /** `TableCheck` is what the API answers when the database refuses a statement outside `createProduct`. */
  datatype Reason = SkuExists | KeyReused | InsufficientStock | StockCap | TableCheck

  datatype Failure = Invalid | NotFound | Conflict(reason: Reason)

  datatype Reply =
    | ProductReply(product: Id, row: ProductRow)
    | Reserved(reservation: Id, rrow: ReservationRow, replayed: bool)
    | CancelReply(reservation: Id, rrow: ReservationRow)
    | Rejected(failure: Failure)

  /** The metric callback an operation registers, if any. */
  datatype Event =
    | NoEvent
    | ProductCreated(units: int)
    | StockAdded(units: int)
    | ReservationCreated(units: int)
    | ReservationReplayed
    | ReservationCancelled(units: int)
    | CancellationReplayed

  datatype Effect = Effect(db: Db, reply: Reply, event: Event)

  // ---------------------------------------------------------------- entity rules

  function NewProduct(sku: Option<string>, name: Option<string>, initial: int, now: Instant): Option<ProductRow> {
    var normalized := NormalizeSku(sku);
    if normalized.None? then None
    else if name.None? || Blank(name.value) || |Trim(name.value)| > 160 then None
    else if initial < 0 || initial > MAX_QUANTITY then None
    else Some(ProductRow(normalized.value, Trim(name.value), initial, now))
  }

  function Restock(row: ProductRow, quantity: int): Result<ProductRow, Failure> {
    if !ValidQuantity(quantity) then Err(Invalid)
    else if quantity > MAX_QUANTITY - row.available then Err(Conflict(StockCap))
    else Ok(row.(available := row.available + quantity))
  }

  function Take(row: ProductRow, quantity: int): Result<ProductRow, Failure> {
    if !ValidQuantity(quantity) then Err(Invalid)
    else if quantity > row.available then Err(Conflict(InsufficientStock))
    else Ok(row.(available := row.available - quantity))
  }

  /** PostgreSQL text holds every character but U+0000. */
  predicate Storable(s: string) { '\U{0000}' !in s }

  /** The names the products table takes: storable and not blank once trimmed. */
  predicate NameStored(name: string) { name != "" && Storable(name) }

  function CancelRow(row: ReservationRow, now: Instant): ReservationRow {
    row.(status := CANCELLED, cancelledAt := Some(now))
  }

  ghost predicate SkuTaken(db: Db, sku: string) {
    exists p :: p in db.products && db.products[p].sku == sku
  }

  ghost predicate HoldsKey(row: ReservationRow, customer: string, key: string) {
    row.customer == customer && row.key == Some(key)
  }

  ghost predicate KeyUsed(db: Db, customer: string, key: string) {
    exists r :: r in db.reservations && HoldsKey(db.reservations[r], customer, key)
  }

  ghost function KeyOwner(db: Db, customer: string, key: string): (r: Id)
    requires KeyUsed(db, customer, key)
    ensures r in db.reservations && HoldsKey(db.reservations[r], customer, key)
  {
    var r :| r in db.reservations && HoldsKey(db.reservations[r], customer, key);
    r
  }

  /** A reservation the cancelling customer may see. */
  predicate Owned(db: Db, reservation: Id, customer: string) {
    reservation in db.reservations && db.reservations[reservation].customer == customer
  }

  predicate WellFormedRequest(op: Op) {
    match op
    case CreateProduct(sku, name, initial) => NewProduct(sku, name, initial, 0).Some?
    case AddStock(_, quantity) => ValidQuantity(quantity)
    case Reserve(_, quantity, customer, key) =>
      ValidQuantity(quantity) && ValidCustomer(customer) && ValidKey(key)
    case Cancel(_, customer) => ValidCustomer(customer)
  }

  // ---------------------------------------------------------------- one operation

  ghost function Reject(db: Db, failure: Failure): Effect {
    Effect(db, Rejected(failure), NoEvent)
  }

  ghost function ApplyCreate(db: Db, op: Op, id: Id, now: Instant): Effect
    requires op.CreateProduct? && WellFormedRequest(op)
  {
    var row := NewProduct(op.sku, op.name, op.initial, now).value;
    // The second disjunct is the table's refusal of a name: one made of control characters
    // fails the nonblank check, one holding U+0000 is no text at all. The service reports
    // every integrity error of the insert as this conflict.
    if SkuTaken(db, row.sku) || !NameStored(row.name) then Reject(db, Conflict(SkuExists))
    else Effect(db.(products := db.products[id := row]), ProductReply(id, row), ProductCreated(op.initial))
  }

  ghost function ApplyAddStock(db: Db, op: Op): Effect
    requires op.AddStock?
  {
    if op.product !in db.products then Reject(db, NotFound)
    else match Restock(db.products[op.product], op.quantity)
      case Err(e) => Reject(db, e)
      case Ok(row) =>
        Effect(db.(products := db.products[op.product := row]), ProductReply(op.product, row), StockAdded(op.quantity))
  }

  ghost function ApplyNewReservation(db: Db, op: Op, id: Id, now: Instant): Effect
    requires op.Reserve? && op.customer.Some?
  {
    if op.product !in db.products then Reject(db, NotFound)
    else match Take(db.products[op.product], op.quantity)
      case Err(e) => Reject(db, e)
      case Ok(prow) =>
        var row := ReservationRow(op.product, op.quantity, op.customer.value, op.key, ACTIVE, now, None);
        if !Storable(row.customer) then Reject(db, Conflict(TableCheck))
        else Effect(Db(db.products[op.product := prow], db.reservations[id := row]),
               Reserved(id, row, false), ReservationCreated(op.quantity))
  }

  ghost function ApplyKnownKey(db: Db, op: Op): Effect
    requires op.Reserve? && op.customer.Some? && op.key.Some?
    requires KeyUsed(db, op.customer.value, op.key.value)
  {
    var r := KeyOwner(db, op.customer.value, op.key.value);
    var row := db.reservations[r];
    if row.product != op.product || row.quantity != op.quantity then Reject(db, Conflict(KeyReused))
    else Effect(db, Reserved(r, row, true), ReservationReplayed)
  }

  ghost function ApplyReserve(db: Db, op: Op, id: Id, now: Instant): Effect
    requires op.Reserve? && WellFormedRequest(op)
  {
    if op.key.Some? && !Storable(op.customer.value) then Reject(db, Conflict(TableCheck))
    else if op.key.Some? && KeyUsed(db, op.customer.value, op.key.value) then ApplyKnownKey(db, op)
    else ApplyNewReservation(db, op, id, now)
  }

  ghost function ApplyFirstCancel(db: Db, r: Id, now: Instant): Effect
    requires r in db.reservations
  {
    var row := db.reservations[r];
    if row.product !in db.products then Reject(db, NotFound)
    else match Restock(db.products[row.product], row.quantity)
      case Err(e) => Reject(db, e)
      case Ok(prow) =>
        var done := CancelRow(row, now);
        // The table refuses a cancellation time before the creation time.
        if now < row.createdAt then Reject(db, Conflict(TableCheck))
        else Effect(Db(db.products[row.product := prow], db.reservations[r := done]),
               CancelReply(r, done), ReservationCancelled(row.quantity))
  }

  ghost function ApplyCancel(db: Db, op: Op, now: Instant): Effect
    requires op.Cancel? && WellFormedRequest(op)
  {
    if !Storable(op.customer.value) then Reject(db, Conflict(TableCheck))
    else if !Owned(db, op.reservation, op.customer.value) then Reject(db, NotFound)
    else
      var row := db.reservations[op.reservation];
      if row.status == CANCELLED then Effect(db, CancelReply(op.reservation, row), CancellationReplayed)
      else ApplyFirstCancel(db, op.reservation, now)
  }

  ghost function Apply(db: Db, op: Op, id: Id, now: Instant): Effect {
    if !WellFormedRequest(op) then Reject(db, Invalid)
    else match op
      case CreateProduct(_, _, _) => ApplyCreate(db, op, id, now)
      case AddStock(_, _) => ApplyAddStock(db, op)
      case Reserve(_, _, _, _) => ApplyReserve(db, op, id, now)
      case Cancel(_, _) => ApplyCancel(db, op, now)
  }

  // ---------------------------------------------------------------- well-formed databases

  ghost predicate ProductOk(row: ProductRow) {
    SkuShape(row.sku) && NameStored(row.name) && |row.name| <= 160 && 0 <= row.available <= MAX_QUANTITY
  }

  ghost predicate ReservationOk(row: ReservationRow) {
    && ValidQuantity(row.quantity) && ValidCustomer(Some(row.customer)) && Storable(row.customer) && ValidKey(row.key)
    && (row.status == ACTIVE <==> row.cancelledAt == None)
    && (row.cancelledAt.Some? ==> row.createdAt <= row.cancelledAt.value)
  }

  ghost predicate RowsOk(db: Db) {
    && (forall p | p in db.products :: ProductOk(db.products[p]))
    && (forall r | r in db.reservations ::
          ReservationOk(db.reservations[r]) && db.reservations[r].product in db.products)
  }

  ghost predicate UniqueSkus(db: Db) {
    forall p, q | p in db.products && q in db.products && db.products[p].sku == db.products[q].sku :: p == q
  }

  ghost predicate UniqueKeys(db: Db) {
    forall r, t | r in db.reservations && t in db.reservations
      && db.reservations[r].key.Some? && db.reservations[r].key == db.reservations[t].key
      && db.reservations[r].customer == db.reservations[t].customer :: r == t
  }

  ghost predicate WellFormed(db: Db) { RowsOk(db) && UniqueSkus(db) && UniqueKeys(db) }

  predicate Fresh(db: Db, id: Id) { id !in db.products && id !in db.reservations }

  predicate Creates(event: Event) { event.ProductCreated? || event.ReservationCreated? }

  lemma NewProductOk(sku: Option<string>, name: Option<string>, initial: int, now: Instant)
    ensures NewProduct(sku, name, initial, now).Some? <==> NewProduct(sku, name, initial, 0).Some?
    ensures var made := NewProduct(sku, name, initial, now);
            made.Some? && NameStored(made.value.name) ==> ProductOk(made.value)
  {
  }

  lemma PutProductKeepsWellFormed(db: Db, id: Id, row: ProductRow)
    requires WellFormed(db) && ProductOk(row)
    requires if id in db.products then row.sku == db.products[id].sku else !SkuTaken(db, row.sku)
    ensures WellFormed(db.(products := db.products[id := row]))
  {
    var db' := db.(products := db.products[id := row]);
    forall p, q | p in db'.products && q in db'.products && db'.products[p].sku == db'.products[q].sku
      ensures p == q
    {
      assert p != id ==> p in db.products;
      assert q != id ==> q in db.products;
    }
  }

  lemma PutReservationKeepsWellFormed(db: Db, id: Id, row: ReservationRow)
    requires WellFormed(db) && ReservationOk(row) && row.product in db.products
    requires if id in db.reservations
             then row.key == db.reservations[id].key && row.customer == db.reservations[id].customer
             else row.key.Some? ==> !KeyUsed(db, row.customer, row.key.value)
    ensures WellFormed(db.(reservations := db.reservations[id := row]))
  {
    var db' := db.(reservations := db.reservations[id := row]);
    forall r, t | r in db'.reservations && t in db'.reservations
        && db'.reservations[r].key.Some? && db'.reservations[r].key == db'.reservations[t].key
        && db'.reservations[r].customer == db'.reservations[t].customer
      ensures r == t
    {
      if r != t {
        var other := if r == id then t else r;
        assert HoldsKey(db.reservations[other], db'.reservations[r].customer, db'.reservations[r].key.value);
      }
    }
  }

  /** What the rows look like after an operation that registered `event`. */
  ghost predicate Wrote(db: Db, op: Op, id: Id, reply: Reply, event: Event, db': Db) {
    match event
    case ProductCreated(units) =>
      && reply.ProductReply? && reply.product == id && reply.row.available == units
      && db' == db.(products := db.products[id := reply.row])
    case StockAdded(units) =>
      && reply.ProductReply? && reply.product in db.products
      && reply.row == db.products[reply.product].(available := db.products[reply.product].available + units)
      && db' == db.(products := db.products[reply.product := reply.row])
    case ReservationCreated(units) =>
      && op.Reserve? && op.customer.Some? && reply.Reserved? && reply.reservation == id && !reply.replayed
      && var row := reply.rrow;
         && row.product == op.product && row.product in db.products && row.quantity == op.quantity == units
         && row.customer == op.customer.value && row.key == op.key && row.status == ACTIVE && row.cancelledAt == None
         && var p := db.products[row.product];
            db' == Db(db.products[row.product := p.(available := p.available - units)], db.reservations[id := row])
    case ReservationCancelled(units) =>
      && reply.CancelReply? && reply.reservation in db.reservations
      && var row := db.reservations[reply.reservation];
         && row.status == ACTIVE && row.product in db.products && row.quantity == units
         && reply.rrow.cancelledAt.Some? && reply.rrow == CancelRow(row, reply.rrow.cancelledAt.value)
         && var p := db.products[row.product];
            db' == Db(db.products[row.product := p.(available := p.available + units)],
                      db.reservations[reply.reservation := reply.rrow])
    case _ => db' == db
  }

  lemma ApplyWrites(db: Db, op: Op, id: Id, now: Instant)
    ensures var e := Apply(db, op, id, now); Wrote(db, op, id, e.reply, e.event, e.db)
  {
  }

  lemma CreateKeepsWellFormed(db: Db, op: Op, id: Id, now: Instant)
    requires WellFormed(db) && op.CreateProduct? && WellFormedRequest(op) && Fresh(db, id)
    ensures WellFormed(ApplyCreate(db, op, id, now).db)
  {
    NewProductOk(op.sku, op.name, op.initial, now);
    var row := NewProduct(op.sku, op.name, op.initial, now).value;
    if !SkuTaken(db, row.sku) && NameStored(row.name) {
      PutProductKeepsWellFormed(db, id, row);
    }
  }

  lemma AddKeepsWellFormed(db: Db, op: Op)
    requires WellFormed(db) && op.AddStock?
    ensures WellFormed(ApplyAddStock(db, op).db)
  {
    if op.product in db.products && Restock(db.products[op.product], op.quantity).Ok? {
      PutProductKeepsWellFormed(db, op.product, Restock(db.products[op.product], op.quantity).value);
    }
  }

  lemma ReserveKeepsWellFormed(db: Db, op: Op, id: Id, now: Instant)
    requires WellFormed(db) && op.Reserve? && WellFormedRequest(op) && Fresh(db, id)
    requires op.key.Some? ==> !KeyUsed(db, op.customer.value, op.key.value)
    ensures WellFormed(ApplyNewReservation(db, op, id, now).db)
  {
    if op.product in db.products && Take(db.products[op.product], op.quantity).Ok? && Storable(op.customer.value) {
      var row := ReservationRow(op.product, op.quantity, op.customer.value, op.key, ACTIVE, now, None);
      PutReservationKeepsWellFormed(db, id, row);
      PutProductKeepsWellFormed(db.(reservations := db.reservations[id := row]), op.product,
                                Take(db.products[op.product], op.quantity).value);
    }
  }

  lemma CancelKeepsWellFormed(db: Db, r: Id, now: Instant)
    requires WellFormed(db) && r in db.reservations
    ensures WellFormed(ApplyFirstCancel(db, r, now).db)
  {
    var row := db.reservations[r];
    if Restock(db.products[row.product], row.quantity).Ok? && row.createdAt <= now {
      PutReservationKeepsWellFormed(db, r, CancelRow(row, now));
      PutProductKeepsWellFormed(db.(reservations := db.reservations[r := CancelRow(row, now)]), row.product,
                                Restock(db.products[row.product], row.quantity).value);
    }
  }

  /** Every operation keeps the table constraints, the unique SKUs and the unique keys. */
  lemma ApplyKeepsWellFormed(db: Db, op: Op, id: Id, now: Instant)
    requires WellFormed(db)
    requires Creates(Apply(db, op, id, now).event) ==> Fresh(db, id)
    ensures WellFormed(Apply(db, op, id, now).db)
  {
    var e := Apply(db, op, id, now);
    match e.event {
      case ProductCreated(_) => CreateKeepsWellFormed(db, op, id, now);
      case StockAdded(_) => AddKeepsWellFormed(db, op);
      case ReservationCreated(_) => ReserveKeepsWellFormed(db, op, id, now);
      case ReservationCancelled(_) => CancelKeepsWellFormed(db, op.reservation, now);
      case _ => ApplyWrites(db, op, id, now);
    }
  }

  /** An operation without a business effect, in particular a rejected one, changes no row. */
  lemma NoWriteNoTrace(db: Db, op: Op, id: Id, now: Instant)
    requires Apply(db, op, id, now).event in {NoEvent, ReservationReplayed, CancellationReplayed}
    ensures Apply(db, op, id, now).db == db
  {
  }

  /** The SKU conflict is answered exactly for valid requests whose SKU is taken or whose trimmed name the table refuses. */
  lemma SkuConflictIff(db: Db, op: Op, id: Id, now: Instant)
    requires op.CreateProduct?
    ensures Apply(db, op, id, now).reply == Rejected(Conflict(SkuExists)) <==>
      (&& WellFormedRequest(op)
       && (SkuTaken(db, NormalizeSku(op.sku).value) || Trim(op.name.value) == "" || '\U{0000}' in Trim(op.name.value)))
  {
    NewProductOk(op.sku, op.name, op.initial, now);
  }

  /** It happens with a free SKU: a name of one control character is not blank, but trims to nothing. */
  lemma ControlNameConflicts(db: Db, id: Id, now: Instant)
    requires !SkuTaken(db, "A")
    ensures var op := CreateProduct(Some("A"), Some(['\U{0001}']), 0);
            && WellFormedRequest(op) && NormalizeSku(op.sku) == Some("A")
            && Apply(db, op, id, now).reply == Rejected(Conflict(SkuExists))
  {
    ShapeIsFixed("A");
    var op := CreateProduct(Some("A"), Some(['\U{0001}']), 0);
    assert op.name.value[0] in op.name.value && !JavaWhitespace(op.name.value[0]);
    assert Trim(op.name.value) == "";
    SkuConflictIff(db, op, id, now);
  }

  /** Nor does a visible name help: one that holds U+0000 between other characters conflicts as well. */
  lemma NulNameConflicts(db: Db, id: Id, now: Instant)
    requires !SkuTaken(db, "A")
    ensures var op := CreateProduct(Some("A"), Some(['x', '\U{0000}', 'y']), 0);
            && WellFormedRequest(op) && NormalizeSku(op.sku) == Some("A") && Trim(op.name.value) == op.name.value
            && Apply(db, op, id, now).reply == Rejected(Conflict(SkuExists))
  {
    ShapeIsFixed("A");
    var op := CreateProduct(Some("A"), Some(['x', '\U{0000}', 'y']), 0);
    assert op.name.value[0] in op.name.value && !JavaWhitespace(op.name.value[0]);
    TrimFixed(op.name.value);
    assert op.name.value[1] in op.name.value;
    SkuConflictIff(db, op, id, now);
  }
}
