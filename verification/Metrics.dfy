/**
  The eight business counters: what each committed event adds, the class that holds
  them in one process, and what their totals say about the database.
*/
module Metrics {
  import opened Sums
  import opened Ledger
  import opened History

  datatype Counter =
    | ProductsTotal | StockAddedTotal | ReservationsTotal | ReservationsReplayedTotal
    | ReservationsCancelledTotal | CancellationReplayedTotal | StockReservedTotal | StockReleasedTotal
  {
    /** The counters that follow changes of the database. */
    predicate Moves() { !ReservationsReplayedTotal? && !CancellationReplayedTotal? }
  }

  datatype Tally = Tally(
    productsCreated: int, stockAdded: int, reservationsCreated: int, reservationsReplayed: int,
    reservationsCancelled: int, cancellationReplayed: int, stockReserved: int, stockReleased: int)
  {
    function Of(c: Counter): int {
      match c
      case ProductsTotal => productsCreated
      case StockAddedTotal => stockAdded
      case ReservationsTotal => reservationsCreated
      case ReservationsReplayedTotal => reservationsReplayed
      case ReservationsCancelledTotal => reservationsCancelled
      case CancellationReplayedTotal => cancellationReplayed
      case StockReservedTotal => stockReserved
      case StockReleasedTotal => stockReleased
    }

    function Plus(t: Tally): Tally {
      Tally(productsCreated + t.productsCreated, stockAdded + t.stockAdded,
            reservationsCreated + t.reservationsCreated, reservationsReplayed + t.reservationsReplayed,
            reservationsCancelled + t.reservationsCancelled, cancellationReplayed + t.cancellationReplayed,
            stockReserved + t.stockReserved, stockReleased + t.stockReleased)
    }
  }

  lemma PlusOf(a: Tally, b: Tally, c: Counter)
    ensures a.Plus(b).Of(c) == a.Of(c) + b.Of(c)
  {
  }

  const NoTally := Tally(0, 0, 0, 0, 0, 0, 0, 0)

  function Delta(event: Event): Tally {
    match event
    case NoEvent => NoTally
    case ProductCreated(units) => NoTally.(productsCreated := 1, stockAdded := units)
    case StockAdded(units) => NoTally.(stockAdded := units)
    case ReservationCreated(units) => NoTally.(reservationsCreated := 1, stockReserved := units)
    case ReservationReplayed => NoTally.(reservationsReplayed := 1)
    case ReservationCancelled(units) => NoTally.(reservationsCancelled := 1, stockReleased := units)
    case CancellationReplayed => NoTally.(cancellationReplayed := 1)
  }

  /** One counter's ledger value: what the entries of a history add to it. */
  function Count(log: seq<Entry>, c: Counter): int {
    if log == [] then 0 else Count(log[..|log| - 1], c) + Delta(log[|log| - 1].event).Of(c)
  }

  lemma CountAppend(log: seq<Entry>, e: Entry, c: Counter)
    ensures Count(log + [e], c) == Count(log, c) + Delta(e.event).Of(c)
  {
    assert (log + [e])[..|log|] == log;
  }

  // ---------------------------------------------------------------- what clients were told

  function If(condition: bool, amount: int): int { if condition then amount else 0 }

  /** The reservation that the request names is still active. */
  ghost predicate ActiveBefore(db: Db, op: Op) {
    op.Cancel? && op.reservation in db.reservations && db.reservations[op.reservation].status == ACTIVE
  }

  /** What an answered request adds to a counter, by the request, its answer and the rows it found. */
  ghost function Told(db: Db, e: Entry, c: Counter): int {
    var created := e.reply.Reserved? && !e.reply.replayed && e.op.Reserve?;
    match c
    case ProductsTotal => If(e.op.CreateProduct? && e.reply.ProductReply?, 1)
    case StockAddedTotal =>
      if e.op.CreateProduct? then If(e.reply.ProductReply?, e.op.initial)
      else if e.op.AddStock? then If(e.reply.ProductReply?, e.op.quantity) else 0
    case ReservationsTotal => If(created, 1)
    case ReservationsReplayedTotal => If(e.reply.Reserved? && e.reply.replayed, 1)
    case ReservationsCancelledTotal => If(e.reply.CancelReply? && ActiveBefore(db, e.op), 1)
    case CancellationReplayedTotal => If(e.reply.CancelReply? && !ActiveBefore(db, e.op), 1)
    case StockReservedTotal => if created then e.op.quantity else 0
    case StockReleasedTotal => if e.reply.CancelReply? && ActiveBefore(db, e.op) then e.reply.rrow.quantity else 0
  }

  ghost function ToldBy(db0: Db, log: seq<Entry>, c: Counter): int {
    if log == [] then 0
    else ToldBy(db0, log[..|log| - 1], c) + Told(Replay(db0, log[..|log| - 1]), log[|log| - 1], c)
  }

  lemma EntryTold(db: Db, e: Entry, c: Counter)
    requires Explained(db, e)
    ensures Delta(e.event).Of(c) == Told(db, e, c)
  {
  }

  /** Each of the eight counters adds up what clients were told: replays are told apart from first answers. */
  lemma {:induction false} CountersTold(db0: Db, log: seq<Entry>, c: Counter)
    requires Explains(db0, log)
    ensures Count(log, c) == ToldBy(db0, log, c)
  {
    if log != [] {
      var n := |log| - 1;
      ExplainsPrefix(db0, log, n);
      CountersTold(db0, log[..n], c);
      ExplainedAt(db0, log, n);
      EntryTold(Replay(db0, log[..n]), log[n], c);
    }
  }

  class InventoryMetrics {
    var productsCreated: int
    var stockAdded: int
    var reservationsCreated: int
    var reservationsReplayed: int
    var reservationsCancelled: int
    var cancellationReplayed: int
    var stockReserved: int
    var stockReleased: int

    constructor ()
      ensures Value() == NoTally
    {
      productsCreated, stockAdded, reservationsCreated, reservationsReplayed := 0, 0, 0, 0;
      reservationsCancelled, cancellationReplayed, stockReserved, stockReleased := 0, 0, 0, 0;
    }

    function Value(): Tally
      reads this
    {
      Tally(productsCreated, stockAdded, reservationsCreated, reservationsReplayed,
            reservationsCancelled, cancellationReplayed, stockReserved, stockReleased)
    }

    /** The synchronization every recording method registers: it runs after completion. */
    method AfterCompletion(event: Event, committed: bool)
      modifies this
      ensures Value() == if committed then old(Value()).Plus(Delta(event)) else old(Value())
    {
      if committed {
        match event {
          case NoEvent =>
          case ProductCreated(units) =>
            productsCreated := productsCreated + 1;
            if units != 0 { stockAdded := stockAdded + units; }
          case StockAdded(units) =>
            stockAdded := stockAdded + units;
          case ReservationCreated(units) =>
            reservationsCreated := reservationsCreated + 1;
            stockReserved := stockReserved + units;
          case ReservationReplayed =>
            reservationsReplayed := reservationsReplayed + 1;
          case ReservationCancelled(units) =>
            reservationsCancelled := reservationsCancelled + 1;
            stockReleased := stockReleased + units;
          case CancellationReplayed =>
            cancellationReplayed := cancellationReplayed + 1;
        }
      }
    }
  }

  // ---------------------------------------------------------------- totals of the database

  ghost function Available(db: Db): map<Id, int> {
    map p | p in db.products :: db.products[p].available
  }

  function One(row: ReservationRow): int { if row.status == ACTIVE then 1 else 0 }

  ghost function Actives(db: Db): map<Id, int> {
    map r | r in db.reservations :: One(db.reservations[r])
  }

  ghost predicate Agrees(db0: Db, db: Db, log: seq<Entry>) {
    && Total(Available(db)) == Total(Available(db0))
         + Count(log, StockAddedTotal) - Count(log, StockReservedTotal) + Count(log, StockReleasedTotal)
    && Total(Actives(db)) == Total(Actives(db0)) + Count(log, ReservationsTotal) - Count(log, ReservationsCancelledTotal)
    && |db.products| == |db0.products| + Count(log, ProductsTotal)
    && |db.reservations| == |db0.reservations| + Count(log, ReservationsTotal)
  }

  lemma AvailableAfterPut(products: map<Id, ProductRow>, reservations: map<Id, ReservationRow>, id: Id, row: ProductRow)
    ensures Available(Db(products[id := row], reservations)) == Available(Db(products, reservations))[id := row.available]
  {
  }

  lemma ActivesAfterPut(products: map<Id, ProductRow>, reservations: map<Id, ReservationRow>, id: Id, row: ReservationRow)
    ensures Actives(Db(products, reservations[id := row])) == Actives(Db(products, reservations))[id := One(row)]
  {
  }

  lemma OthersAfterPut(db: Db, products: map<Id, ProductRow>, reservations: map<Id, ReservationRow>)
    ensures Actives(db.(products := products)) == Actives(db)
    ensures Available(db.(reservations := reservations)) == Available(db)
  {
  }

  lemma SizeAfterPut<V>(m: map<Id, V>, id: Id, v: V)
    ensures |m[id := v]| == |m| + (if id in m then 0 else 1)
  {
    assert m[id := v].Keys == m.Keys + {id};
    assert |m| == |m.Keys| && |m[id := v]| == |m[id := v].Keys|;
  }

  lemma PutProductTotals(db: Db, id: Id, row: ProductRow)
    ensures var db' := db.(products := db.products[id := row]);
            && Total(Available(db')) == Total(Available(db)) + row.available - OnHand(db, id)
            && Actives(db') == Actives(db)
            && |db'.products| == |db.products| + (if id in db.products then 0 else 1)
  {
    AvailableAfterPut(db.products, db.reservations, id, row);
    OthersAfterPut(db, db.products[id := row], db.reservations);
    SizeAfterPut(db.products, id, row);
    TotalUpdate(Available(db), id, row.available);
  }

  lemma PutReservationTotals(db: Db, id: Id, row: ReservationRow)
    ensures var db' := db.(reservations := db.reservations[id := row]);
            && Total(Actives(db')) == Total(Actives(db)) + One(row)
                 - (if id in db.reservations then One(db.reservations[id]) else 0)
            && Available(db') == Available(db)
            && |db'.reservations| == |db.reservations| + (if id in db.reservations then 0 else 1)
  {
    ActivesAfterPut(db.products, db.reservations, id, row);
    OthersAfterPut(db, db.products, db.reservations[id := row]);
    SizeAfterPut(db.reservations, id, row);
    TotalUpdate(Actives(db), id, One(row));
  }

  ghost predicate Moved(db: Db, db': Db, t: Tally) {
    && Total(Available(db')) == Total(Available(db)) + t.stockAdded - t.stockReserved + t.stockReleased
    && Total(Actives(db')) == Total(Actives(db)) + t.reservationsCreated - t.reservationsCancelled
    && |db'.products| == |db.products| + t.productsCreated
    && |db'.reservations| == |db.reservations| + t.reservationsCreated
  }

  lemma WriteMoves(db: Db, e: Entry, db': Db)
    requires Wrote(db, e.op, e.id, e.reply, e.event, db') && (Creates(e.event) ==> Fresh(db, e.id))
    ensures Moved(db, db', Delta(e.event))
  {
    match e.event {
      case ProductCreated(_) => PutProductTotals(db, e.id, e.reply.row);
      case StockAdded(_) => PutProductTotals(db, e.reply.product, e.reply.row);
      case ReservationCreated(_) =>
        var p := e.reply.rrow.product;
        PutReservationTotals(db, e.id, e.reply.rrow);
        PutProductTotals(db.(reservations := db'.reservations), p, db'.products[p]);
      case ReservationCancelled(_) =>
        var p := db.reservations[e.reply.reservation].product;
        PutReservationTotals(db, e.reply.reservation, e.reply.rrow);
        PutProductTotals(db.(reservations := db'.reservations), p, db'.products[p]);
      case _ =>
    }
  }

  lemma EntryMoves(db: Db, e: Entry)
    requires Explained(db, e)
    ensures Moved(db, ApplyEntry(db, e).db, Delta(e.event))
  {
    ApplyWrites(db, e.op, e.id, e.now);
    WriteMoves(db, e, ApplyEntry(db, e).db);
  }

  lemma AgreesStep(db0: Db, db: Db, db': Db, log: seq<Entry>, e: Entry)
    requires Agrees(db0, db, log) && Moved(db, db', Delta(e.event))
    ensures Agrees(db0, db', log + [e])
  {
    CountAppend(log, e, StockAddedTotal);
    CountAppend(log, e, StockReservedTotal);
    CountAppend(log, e, StockReleasedTotal);
    CountAppend(log, e, ReservationsTotal);
    CountAppend(log, e, ReservationsCancelledTotal);
    CountAppend(log, e, ProductsTotal);
  }

  lemma MovesAt(db0: Db, log: seq<Entry>, k: nat)
    requires Explains(db0, log) && k < |log|
    ensures Moved(Replay(db0, log[..k]), Replay(db0, log[..k + 1]), Delta(log[k].event))
  {
    ExplainedAt(db0, log, k);
    EntryMoves(Replay(db0, log[..k]), log[k]);
    ReplayStep(db0, log, k);
  }

  lemma TotalsStep(db0: Db, log: seq<Entry>, n: nat)
    requires Explains(db0, log) && 0 < n <= |log| && Agrees(db0, Replay(db0, log[..n - 1]), log[..n - 1])
    ensures Agrees(db0, Replay(db0, log[..n]), log[..n])
  {
    MovesAt(db0, log, n - 1);
    assert log[..n] == log[..n - 1] + [log[n - 1]];
    AgreesStep(db0, Replay(db0, log[..n - 1]), Replay(db0, log[..n]), log[..n - 1], log[n - 1]);
  }

  lemma TotalsStart(db0: Db, log: seq<Entry>)
    ensures Agrees(db0, Replay(db0, log[..0]), log[..0])
  {
    assert log[..0] == [];
  }

  /** The counters a history adds up to account for every row and every unit it left behind. */
  lemma {:induction false} TotalsAgree(db0: Db, log: seq<Entry>, n: nat)
    requires Explains(db0, log) && n <= |log|
    ensures Agrees(db0, Replay(db0, log[..n]), log[..n])
  {
    if n == 0 {
      TotalsStart(db0, log);
    } else {
      TotalsAgree(db0, log, n - 1);
      TotalsStep(db0, log, n);
    }
  }
}
