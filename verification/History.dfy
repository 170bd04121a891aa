/**
  Sequential histories: logs of operations, each explained by applying it to the
  database the earlier ones left. Everything a client can observe over a whole run is
  proved here once; the protocol module shows that every interleaving has such a log.
*/
module History {
  import opened Common
  import opened Validation
  import opened Sums
  import opened Ledger
  import opened Answers

  datatype Entry = Entry(tx: nat, op: Op, id: Id, now: Instant, reply: Reply, event: Event)

  ghost function ApplyEntry(db: Db, e: Entry): Effect { Apply(db, e.op, e.id, e.now) }

  ghost function Replay(db0: Db, log: seq<Entry>): Db {
    if log == [] then db0 else ApplyEntry(Replay(db0, log[..|log| - 1]), log[|log| - 1]).db
  }

  ghost predicate Explained(db: Db, e: Entry) {
    && ApplyEntry(db, e).reply == e.reply
    && ApplyEntry(db, e).event == e.event
    && (Creates(e.event) ==> Fresh(db, e.id))
  }

  predicate Position(log: seq<Entry>, k: int) { 0 <= k < |log| }

  /** Every entry is what the specification does and answers in the state the earlier ones left. */
  ghost predicate Explains(db0: Db, log: seq<Entry>) {
    forall k {:trigger Position(log, k)} | Position(log, k) :: Explained(Replay(db0, log[..k]), log[k])
  }

  lemma ExplainsPrefix(db0: Db, log: seq<Entry>, k: nat)
    requires Explains(db0, log) && k <= |log|
    ensures Explains(db0, log[..k])
  {
    forall j | Position(log[..k], j) ensures Explained(Replay(db0, log[..k][..j]), log[..k][j]) {
      assert log[..k][..j] == log[..j] && log[..k][j] == log[j];
      assert Position(log, j);
    }
  }

  lemma ExplainedAt(db0: Db, log: seq<Entry>, k: nat)
    requires Explains(db0, log) && k < |log|
    ensures Explained(Replay(db0, log[..k]), log[k])
  {
    assert Position(log, k);
  }

  lemma ExplainsAppend(db0: Db, log: seq<Entry>, e: Entry)
    requires Explains(db0, log) && Explained(Replay(db0, log), e)
    ensures Explains(db0, log + [e])
    ensures Replay(db0, log + [e]) == ApplyEntry(Replay(db0, log), e).db
  {
    var all := log + [e];
    assert all[..|log|] == log;
    forall k | Position(all, k) ensures Explained(Replay(db0, all[..k]), all[k]) {
      if k < |log| {
        assert Position(log, k);
        assert all[..k] == log[..k] && all[k] == log[k];
      }
    }
  }

  lemma ReplayStep(db0: Db, log: seq<Entry>, k: nat)
    requires k < |log|
    ensures Replay(db0, log[..k + 1]) == ApplyEntry(Replay(db0, log[..k]), log[k]).db
  {
    assert log[..k + 1][..k] == log[..k];
  }

  lemma {:induction false} PrefixWellFormed(db0: Db, log: seq<Entry>, n: nat)
    requires WellFormed(db0) && Explains(db0, log) && n <= |log|
    ensures WellFormed(Replay(db0, log[..n]))
  {
    if n == 0 {
      assert log[..0] == [];
    } else {
      PrefixWellFormed(db0, log, n - 1);
      var e := log[n - 1];
      ExplainedAt(db0, log, n - 1);
      ApplyKeepsWellFormed(Replay(db0, log[..n - 1]), e.op, e.id, e.now);
      ReplayStep(db0, log, n - 1);
    }
  }

  lemma ReplayWellFormed(db0: Db, log: seq<Entry>)
    requires WellFormed(db0) && Explains(db0, log)
    ensures WellFormed(Replay(db0, log))
  {
    PrefixWellFormed(db0, log, |log|);
    assert log[..|log|] == log;
  }

  // ---------------------------------------------------------------- rows over time

  ghost predicate ProductEvolves(a: ProductRow, b: ProductRow) {
    a.sku == b.sku && a.name == b.name && a.createdAt == b.createdAt
  }

  /** A reservation only moves from ACTIVE to CANCELLED, and a cancelled one never changes again. */
  ghost predicate ReservationEvolves(a: ReservationRow, b: ReservationRow) {
    a == b || (a.status == ACTIVE && exists t :: b == CancelRow(a, t))
  }

  ghost predicate Evolves(db: Db, later: Db) {
    && (forall p | p in db.products :: p in later.products && ProductEvolves(db.products[p], later.products[p]))
    && (forall r | r in db.reservations ::
          r in later.reservations && ReservationEvolves(db.reservations[r], later.reservations[r]))
  }

  lemma ApplyEvolves(db: Db, op: Op, id: Id, now: Instant)
    requires Creates(Apply(db, op, id, now).event) ==> Fresh(db, id)
    ensures Evolves(db, Apply(db, op, id, now).db)
  {
    var e := Apply(db, op, id, now);
    if e.event.ReservationCancelled? {
      var row := db.reservations[op.reservation];
      assert e.db.reservations[op.reservation] == CancelRow(row, now);
    }
  }

  lemma EvolvesTransitive(a: Db, b: Db, c: Db)
    requires Evolves(a, b) && Evolves(b, c)
    ensures Evolves(a, c)
  {
  }

  lemma NextEvolves(db0: Db, log: seq<Entry>, k: nat)
    requires Explains(db0, log) && k < |log|
    ensures Evolves(Replay(db0, log[..k]), Replay(db0, log[..k + 1]))
  {
    ExplainedAt(db0, log, k);
    ApplyEvolves(Replay(db0, log[..k]), log[k].op, log[k].id, log[k].now);
    ReplayStep(db0, log, k);
  }

  /** Over any explained history, rows persist and evolve only in the allowed way. */
  lemma {:induction false} RowsEvolve(db0: Db, log: seq<Entry>, i: nat, j: nat)
    requires Explains(db0, log) && i <= j <= |log|
    ensures Evolves(Replay(db0, log[..i]), Replay(db0, log[..j]))
    decreases j
  {
    if i < j {
      RowsEvolve(db0, log, i, j - 1);
      NextEvolves(db0, log, j - 1);
      EvolvesTransitive(Replay(db0, log[..i]), Replay(db0, log[..j - 1]), Replay(db0, log[..j]));
    }
  }

  // ---------------------------------------------------------------- conservation of stock

  function Share(row: ReservationRow, p: Id): int {
    if row.status == ACTIVE && row.product == p then row.quantity else 0
  }

  ghost function Shares(db: Db, p: Id): map<Id, int> {
    map r | r in db.reservations :: Share(db.reservations[r], p)
  }

  function OnHand(db: Db, p: Id): int {
    if p in db.products then db.products[p].available else 0
  }

  /** Units of product p the database accounts for: on hand plus held by active reservations. */
  ghost function Accounted(db: Db, p: Id): int { OnHand(db, p) + Total(Shares(db, p)) }

  function Introduced(e: Entry, p: Id): int {
    if (e.event.ProductCreated? || e.event.StockAdded?) && e.reply.ProductReply? && e.reply.product == p
    then e.event.units else 0
  }

  function IntroducedBy(log: seq<Entry>, p: Id): int {
    if log == [] then 0 else IntroducedBy(log[..|log| - 1], p) + Introduced(log[|log| - 1], p)
  }

  lemma SharesAfter(db: Db, r: Id, row: ReservationRow, products: map<Id, ProductRow>, p: Id)
    ensures Total(Shares(Db(products, db.reservations[r := row]), p))
         == Total(Shares(db, p)) - (if r in db.reservations then Share(db.reservations[r], p) else 0) + Share(row, p)
  {
    assert Shares(Db(products, db.reservations[r := row]), p) == Shares(db, p)[r := Share(row, p)];
    TotalUpdate(Shares(db, p), r, Share(row, p));
  }

  lemma WriteConserves(db: Db, e: Entry, db': Db, p: Id)
    requires Wrote(db, e.op, e.id, e.reply, e.event, db') && (Creates(e.event) ==> Fresh(db, e.id))
    ensures Accounted(db', p) == Accounted(db, p) + Introduced(e, p)
  {
    if e.event.ReservationCreated? || e.event.ReservationCancelled? {
      SharesAfter(db, e.reply.reservation, e.reply.rrow, db'.products, p);
    } else {
      assert Shares(db', p) == Shares(db, p);
    }
  }

  lemma EntryConserves(db: Db, e: Entry, p: Id)
    requires Explained(db, e)
    ensures Accounted(ApplyEntry(db, e).db, p) == Accounted(db, p) + Introduced(e, p)
  {
    var db' := ApplyEntry(db, e).db;
    ApplyWrites(db, e.op, e.id, e.now);
    WriteConserves(db, e, db', p);
  }

  /**
    Stock conservation: for every product, units on hand plus units held by ACTIVE
    reservations are exactly those at the start plus the initial stock and the restocks
    the history committed; and stock stays within its bounds.
  */
  lemma {:induction false} StockConserved(db0: Db, log: seq<Entry>, p: Id)
    requires WellFormed(db0) && Explains(db0, log)
    ensures Accounted(Replay(db0, log), p) == Accounted(db0, p) + IntroducedBy(log, p)
    ensures 0 <= OnHand(Replay(db0, log), p) <= MAX_QUANTITY
  {
    ReplayWellFormed(db0, log);
    if log != [] {
      var n := |log| - 1;
      ExplainsPrefix(db0, log, n);
      StockConserved(db0, log[..n], p);
      ExplainedAt(db0, log, n);
      EntryConserves(Replay(db0, log[..n]), log[n], p);
    }
  }

  /** No overselling: active reservations never hold more than was ever introduced. */
  lemma NoOverselling(db0: Db, log: seq<Entry>, p: Id)
    requires WellFormed(db0) && Explains(db0, log)
    ensures 0 <= Total(Shares(Replay(db0, log), p)) <= Accounted(db0, p) + IntroducedBy(log, p)
  {
    StockConserved(db0, log, p);
    ReplayWellFormed(db0, log);
    TotalBounds(Shares(Replay(db0, log), p), 0);
  }

  // ---------------------------------------------------------------- keyed creation

  ghost predicate KeySuccess(e: Entry, customer: string, key: string) {
    e.op.Reserve? && e.op.customer == Some(customer) && e.op.key == Some(key) && e.reply.Reserved?
  }

  ghost predicate KeySucceeded(log: seq<Entry>, n: nat, customer: string, key: string)
    requires n <= |log|
  {
    exists i :: 0 <= i < n && KeySuccess(log[i], customer, key)
  }

  ghost predicate KeyRecorded(db: Db, e: Entry, customer: string, key: string)
    requires e.reply.Reserved? && e.op.Reserve?
  {
    && e.reply.reservation in db.reservations
    && var row := db.reservations[e.reply.reservation];
       HoldsKey(row, customer, key) && row.product == e.op.product && row.quantity == e.op.quantity
  }

  lemma KeySuccessStep(db: Db, e: Entry, customer: string, key: string)
    requires UniqueKeys(db) && Explained(db, e) && KeySuccess(e, customer, key)
    ensures KeyRecorded(ApplyEntry(db, e).db, e, customer, key)
    ensures e.reply.replayed <==> KeyUsed(db, customer, key)
    ensures e.event.ReservationCreated? <==> !e.reply.replayed
  {
  }

  lemma KeyUsedStep(db: Db, e: Entry, db': Db, customer: string, key: string)
    requires Wrote(db, e.op, e.id, e.reply, e.event, db') && (Creates(e.event) ==> Fresh(db, e.id))
    ensures KeyUsed(db', customer, key) <==>
      (KeyUsed(db, customer, key) || (e.event.ReservationCreated? && HoldsKey(e.reply.rrow, customer, key)))
  {
    if KeyUsed(db, customer, key) {
      var r := KeyOwner(db, customer, key);
      assert HoldsKey(db'.reservations[r], customer, key);
    }
    if e.event.ReservationCreated? {
      assert db'.reservations[e.id] == e.reply.rrow;
    }
  }

  /** One entry of a history as far as a key is concerned. */
  lemma KeyStep(db0: Db, log: seq<Entry>, n: nat, customer: string, key: string)
    requires WellFormed(db0) && Explains(db0, log) && n < |log|
    ensures var db, db' := Replay(db0, log[..n]), Replay(db0, log[..n + 1]);
            && (KeyUsed(db', customer, key) <==> (KeyUsed(db, customer, key) || KeySuccess(log[n], customer, key)))
            && (KeySuccess(log[n], customer, key) ==>
                  KeyRecorded(db', log[n], customer, key) && (log[n].reply.replayed <==> KeyUsed(db, customer, key)))
  {
    var db, e := Replay(db0, log[..n]), log[n];
    ExplainedAt(db0, log, n);
    ReplayStep(db0, log, n);
    PrefixWellFormed(db0, log, n);
    ApplyWrites(db, e.op, e.id, e.now);
    KeyUsedStep(db, e, ApplyEntry(db, e).db, customer, key);
    if KeySuccess(e, customer, key) {
      KeySuccessStep(db, e, customer, key);
    }
  }

  lemma {:induction false} KeyHistory(db0: Db, log: seq<Entry>, n: nat, customer: string, key: string)
    requires WellFormed(db0) && Explains(db0, log) && n <= |log|
    ensures var before := KeyUsed(db0, customer, key);
            KeyUsed(Replay(db0, log[..n]), customer, key) <==> (before || KeySucceeded(log, n, customer, key))
    decreases n
  {
    if n == 0 {
      assert log[..0] == [];
    } else {
      KeyHistory(db0, log, n - 1, customer, key);
      KeyStep(db0, log, n - 1, customer, key);
    }
  }

  lemma KeyRecordStays(db0: Db, log: seq<Entry>, i: nat, customer: string, key: string)
    requires WellFormed(db0) && Explains(db0, log) && i < |log| && KeySuccess(log[i], customer, key)
    ensures KeyRecorded(Replay(db0, log), log[i], customer, key)
  {
    KeyStep(db0, log, i, customer, key);
    RowsEvolve(db0, log, i + 1, |log|);
    assert log[..|log|] == log;
  }

  /**
    Exactly-once keyed creation: a successful reply for a key is a replay exactly when
    the key had already succeeded, so only the first one creates; and any two successful
    replies name the same reservation, product and quantity.
  */
  lemma KeyedExactlyOnce(db0: Db, log: seq<Entry>, i: nat, j: nat, customer: string, key: string)
    requires WellFormed(db0) && Explains(db0, log) && !KeyUsed(db0, customer, key)
    requires i <= j < |log| && KeySuccess(log[i], customer, key) && KeySuccess(log[j], customer, key)
    ensures log[j].reply.replayed <==> KeySucceeded(log, j, customer, key)
    ensures log[i].reply.reservation == log[j].reply.reservation
    ensures log[i].op.product == log[j].op.product && log[i].op.quantity == log[j].op.quantity
  {
    KeyHistory(db0, log, j, customer, key);
    KeyStep(db0, log, j, customer, key);
    KeyRecordStays(db0, log, i, customer, key);
    KeyRecordStays(db0, log, j, customer, key);
    ReplayWellFormed(db0, log);
  }

  /** A key that was used before the history only ever replays the stored reservation. */
  lemma StoredKeyOnlyReplays(db0: Db, log: seq<Entry>, i: nat, customer: string, key: string)
    requires WellFormed(db0) && Explains(db0, log) && i < |log|
    requires KeyUsed(db0, customer, key) && KeySuccess(log[i], customer, key)
    ensures var r := KeyOwner(db0, customer, key);
            && log[i].reply.replayed && log[i].reply.reservation == r
            && log[i].op.product == db0.reservations[r].product && log[i].op.quantity == db0.reservations[r].quantity
  {
    KeyHistory(db0, log, i, customer, key);
    KeyStep(db0, log, i, customer, key);
    PrefixWellFormed(db0, log, i + 1);
    RowsEvolve(db0, log, 0, i + 1);
    assert log[..0] == [];
    var later := Replay(db0, log[..i + 1]);
    var r := KeyOwner(db0, customer, key);
    assert ReservationEvolves(db0.reservations[r], later.reservations[r]);
  }

  /** Failures do not consume a key: while no request succeeded, the same request can still create. */
  lemma FailureKeepsKeyUsable(db0: Db, log: seq<Entry>, op: Op, id: Id, now: Instant)
    requires WellFormed(db0) && Explains(db0, log)
    requires op.Reserve? && WellFormedRequest(op) && op.key.Some? && !KeyUsed(db0, op.customer.value, op.key.value)
    requires !KeySucceeded(log, |log|, op.customer.value, op.key.value) && Storable(op.customer.value)
    requires op.quantity <= OnHand(Replay(db0, log), op.product)
    ensures var e := Apply(Replay(db0, log), op, id, now);
            e.reply.Reserved? && !e.reply.replayed && e.event == ReservationCreated(op.quantity)
  {
    KeyHistory(db0, log, |log|, op.customer.value, op.key.value);
    assert log[..|log|] == log;
  }

  ghost predicate AsksKey(op: Op, customer: string, key: string) {
    op.Reserve? && op.customer == Some(customer) && op.key == Some(key)
  }

  /** The answer of a stored key: the stored reservation for the same product and quantity, else a conflict. */
  ghost predicate KeyAnswer(e: Entry, r: Id, product: Id, quantity: int) {
    && e.op.Reserve?
    && if e.op.product == product && e.op.quantity == quantity
       then e.reply.Reserved? && e.reply.reservation == r && e.reply.replayed && e.event == ReservationReplayed
       else e.reply == Rejected(Conflict(KeyReused)) && e.event == NoEvent
  }

  lemma StoredKeyAt(db0: Db, log: seq<Entry>, n: nat, r: Id, customer: string, key: string)
    requires WellFormed(db0) && Explains(db0, log) && n < |log|
    requires AsksKey(log[n].op, customer, key) && WellFormedRequest(log[n].op) && Stores(Replay(db0, log[..n]), r, customer, key)
    ensures var row := Replay(db0, log[..n]).reservations[r];
            && KeyAnswer(log[n], r, row.product, row.quantity)
            && (log[n].reply.Reserved? ==> log[n].reply.rrow == row)
  {
    PrefixWellFormed(db0, log, n);
    ExplainedAt(db0, log, n);
    var db := Replay(db0, log[..n]);
    assert ReservationOk(db.reservations[r]);
    StoredKeyAnswered(db, log[n].op, r, log[n].id, log[n].now);
  }

  /** After a success every later request with the key is answered from the reservation it made or found. */
  lemma RetryAnswered(db0: Db, log: seq<Entry>, i: nat, j: nat, customer: string, key: string)
    requires WellFormed(db0) && Explains(db0, log) && i < j < |log| && KeySuccess(log[i], customer, key)
    requires AsksKey(log[j].op, customer, key) && WellFormedRequest(log[j].op)
    ensures KeyAnswer(log[j], log[i].reply.reservation, log[i].op.product, log[i].op.quantity)
  {
    KeyStep(db0, log, i, customer, key);
    RowsEvolve(db0, log, i + 1, j);
    var r := log[i].reply.reservation;
    assert ReservationEvolves(Replay(db0, log[..i + 1]).reservations[r], Replay(db0, log[..j]).reservations[r]);
    StoredKeyAt(db0, log, j, r, customer, key);
  }

  /** A key stored before the history is answered from that reservation throughout. */
  lemma StoredKeyAnsweredAlways(db0: Db, log: seq<Entry>, j: nat, r: Id, customer: string, key: string)
    requires WellFormed(db0) && Explains(db0, log) && j < |log| && Stores(db0, r, customer, key)
    requires AsksKey(log[j].op, customer, key) && WellFormedRequest(log[j].op)
    ensures KeyAnswer(log[j], r, db0.reservations[r].product, db0.reservations[r].quantity)
  {
    RowsEvolve(db0, log, 0, j);
    assert log[..0] == [];
    assert ReservationEvolves(db0.reservations[r], Replay(db0, log[..j]).reservations[r]);
    StoredKeyAt(db0, log, j, r, customer, key);
  }

  // ---------------------------------------------------------------- cancellation

  ghost predicate Cancels(e: Entry, r: Id) { e.reply.CancelReply? && e.reply.reservation == r }

  lemma CancelStep(db: Db, e: Entry, r: Id)
    requires Explained(db, e) && Cancels(e, r)
    ensures var db' := ApplyEntry(db, e).db;
            && r in db.reservations && r in db'.reservations
            && db'.reservations[r] == e.reply.rrow && e.reply.rrow.status == CANCELLED
            && (db.reservations[r].status == CANCELLED ==>
                  e.event == CancellationReplayed && e.reply.rrow == db.reservations[r])
  {
  }

  lemma CancelAt(db0: Db, log: seq<Entry>, k: nat, r: Id)
    requires Explains(db0, log) && k < |log| && Cancels(log[k], r)
    ensures var db, db' := Replay(db0, log[..k]), Replay(db0, log[..k + 1]);
            && r in db.reservations && r in db'.reservations
            && db'.reservations[r] == log[k].reply.rrow && log[k].reply.rrow.status == CANCELLED
            && (db.reservations[r].status == CANCELLED ==>
                  log[k].event == CancellationReplayed && log[k].reply.rrow == db.reservations[r])
  {
    ExplainedAt(db0, log, k);
    CancelStep(Replay(db0, log[..k]), log[k], r);
    ReplayStep(db0, log, k);
  }

  /**
    Exactly-once cancellation: of all successful cancels of one reservation only the
    first returns stock, and every later reply shows the very same row.
  */
  lemma CancelledExactlyOnce(db0: Db, log: seq<Entry>, i: nat, j: nat, r: Id)
    requires Explains(db0, log) && i < j < |log| && Cancels(log[i], r) && Cancels(log[j], r)
    ensures log[j].event == CancellationReplayed
    ensures log[j].reply == log[i].reply
  {
    CancelAt(db0, log, i, r);
    RowsEvolve(db0, log, i + 1, j);
    CancelAt(db0, log, j, r);
  }

  /** Whoever is shown a reservation is its customer. */
  lemma ShownToOwner(db: Db, e: Entry)
    requires WellFormed(db) && Explained(db, e) && (e.reply.Reserved? || e.reply.CancelReply?)
    ensures if e.reply.Reserved? then e.op.Reserve? && e.op.customer == Some(e.reply.rrow.customer)
            else e.op.Cancel? && e.op.reservation == e.reply.reservation && e.op.customer == Some(e.reply.rrow.customer)
  {
  }

  /** The entry that cancelled a reservation is its own customer's. */
  lemma {:induction false} Canceller(db0: Db, log: seq<Entry>, i: nat, j: nat, r: Id) returns (n: nat)
    requires WellFormed(db0) && Explains(db0, log) && i <= j <= |log|
    requires r in Replay(db0, log[..i]).reservations && Replay(db0, log[..i]).reservations[r].status == ACTIVE
    requires r in Replay(db0, log[..j]).reservations && Replay(db0, log[..j]).reservations[r].status == CANCELLED
    ensures i <= n < j && log[n].event.ReservationCancelled?
    ensures log[n].op == Cancel(r, Some(Replay(db0, log[..i]).reservations[r].customer))
    decreases j
  {
    if i < j {
      n := j - 1;
      RowsEvolve(db0, log, i, n);
      var row := Replay(db0, log[..n]).reservations[r];
      assert ReservationEvolves(Replay(db0, log[..i]).reservations[r], row);
      if row.status == CANCELLED {
        n := Canceller(db0, log, i, j - 1, r);
      } else {
        CancelledBy(db0, log, n, r);
      }
    }
  }

  lemma CancelledBy(db0: Db, log: seq<Entry>, n: nat, r: Id)
    requires WellFormed(db0) && Explains(db0, log) && n < |log|
    requires r in Replay(db0, log[..n]).reservations && Replay(db0, log[..n]).reservations[r].status == ACTIVE
    requires r in Replay(db0, log[..n + 1]).reservations && Replay(db0, log[..n + 1]).reservations[r].status == CANCELLED
    ensures log[n].event.ReservationCancelled?
    ensures log[n].op == Cancel(r, Some(Replay(db0, log[..n]).reservations[r].customer))
  {
    var db, e := Replay(db0, log[..n]), log[n];
    PrefixWellFormed(db0, log, n);
    ExplainedAt(db0, log, n);
    ReplayStep(db0, log, n);
    ApplyWrites(db, e.op, e.id, e.now);
    if e.event.ReservationCancelled? { ShownToOwner(db, e); }
  }

  /**
    A cancel of an owned reservation is refused exactly when it is live and its units no longer
    fit under the cap, or the clock reading precedes the reservation's creation time.
  */
  lemma CancelRefusedIff(db: Db, op: Op, id: Id, now: Instant)
    requires WellFormed(db) && op.Cancel? && WellFormedRequest(op) && Owned(db, op.reservation, op.customer.value)
    ensures var row := db.reservations[op.reservation];
            var full := OnHand(db, row.product) + row.quantity > MAX_QUANTITY;
            Apply(db, op, id, now).reply.Rejected? <==> (row.status == ACTIVE && (full || now < row.createdAt))
  {
  }

  function Empty(): Db { Db(map[], map[]) }

  ghost function Made(db: Db, tx: nat, op: Op, id: Id): Entry {
    Entry(tx, op, id, 0, Apply(db, op, id, 0).reply, Apply(db, op, id, 0).event)
  }

  ghost function OneReserved(): seq<Entry> {
    var log := [Made(Empty(), 0, CreateProduct(Some("A"), Some("A"), MAX_QUANTITY), 1)];
    log + [Made(Replay(Empty(), log), 1, Reserve(1, 1, Some("c"), None), 2)]
  }

  ghost function FullStock(): seq<Entry> {
    OneReserved() + [Made(Replay(Empty(), OneReserved()), 2, AddStock(1, 1), 3)]
  }

  lemma FirstOfStock()
    ensures Apply(Empty(), CreateProduct(Some("A"), Some("A"), MAX_QUANTITY), 1, 0) ==
      Effect(Db(map[1 := ProductRow("A", "A", MAX_QUANTITY, 0)], map[]),
             ProductReply(1, ProductRow("A", "A", MAX_QUANTITY, 0)), ProductCreated(MAX_QUANTITY))
  {
    ShapeIsFixed("A");
    assert "A"[0] in "A" && Trim("A") == "A";
    assert map[1 := ProductRow("A", "A", MAX_QUANTITY, 0)] == Empty().products[1 := ProductRow("A", "A", MAX_QUANTITY, 0)];
  }

  lemma SecondOfStock(db: Db)
    requires db == Db(map[1 := ProductRow("A", "A", MAX_QUANTITY, 0)], map[])
    ensures var row := ReservationRow(1, 1, "c", None, ACTIVE, 0, None);
            Apply(db, Reserve(1, 1, Some("c"), None), 2, 0) ==
              Effect(Db(map[1 := ProductRow("A", "A", MAX_QUANTITY - 1, 0)], map[2 := row]),
                     Reserved(2, row, false), ReservationCreated(1))
  {
    assert "c"[0] in "c" && ValidCustomer(Some("c"));
    var row := ReservationRow(1, 1, "c", None, ACTIVE, 0, None);
    assert db.reservations[2 := row] == map[2 := row];
    assert db.products[1 := ProductRow("A", "A", MAX_QUANTITY - 1, 0)] == map[1 := ProductRow("A", "A", MAX_QUANTITY - 1, 0)];
  }

  lemma OneReservedIs()
    ensures Explains(Empty(), OneReserved())
    ensures Replay(Empty(), OneReserved()) ==
      Db(map[1 := ProductRow("A", "A", MAX_QUANTITY - 1, 0)], map[2 := ReservationRow(1, 1, "c", None, ACTIVE, 0, None)])
  {
    var e1 := Made(Empty(), 0, CreateProduct(Some("A"), Some("A"), MAX_QUANTITY), 1);
    FirstOfStock();
    ExplainsAppend(Empty(), [], e1);
    assert [] + [e1] == [e1];
    var db1 := Replay(Empty(), [e1]);
    SecondOfStock(db1);
    ExplainsAppend(Empty(), [e1], Made(db1, 1, Reserve(1, 1, Some("c"), None), 2));
  }

  lemma FullStockIs()
    ensures Explains(Empty(), FullStock())
    ensures var db := Replay(Empty(), FullStock());
            && 1 in db.products && db.products[1].available == MAX_QUANTITY
            && 2 in db.reservations && db.reservations[2] == ReservationRow(1, 1, "c", None, ACTIVE, 0, None)
  {
    OneReservedIs();
    var db := Replay(Empty(), OneReserved());
    ExplainsAppend(Empty(), OneReserved(), Made(db, 2, AddStock(1, 1), 3));
  }

  /** It happens: all stock is created, one unit reserved, the shelf refilled, and the cancel refused. */
  lemma CancelCanBeRefused() returns (log: seq<Entry>)
    ensures Explains(Empty(), log) && log != []
    ensures var last := log[|log| - 1];
            last.op == Cancel(2, Some("c")) && last.reply == Rejected(Conflict(StockCap))
  {
    FullStockIs();
    var db := Replay(Empty(), FullStock());
    var e := Made(db, 3, Cancel(2, Some("c")), 4);
    ExplainsAppend(Empty(), FullStock(), e);
    log := FullStock() + [e];
    assert WellFormedRequest(e.op) by { assert "c"[0] in "c"; }
  }

  /** It happens: the cancelling replica's clock reads an earlier time than the creating one's did. */
  lemma EarlyCancelIsRefused() returns (log: seq<Entry>)
    ensures Explains(Empty(), log) && log != []
    ensures var last := log[|log| - 1];
            && last.op == Cancel(2, Some("c")) && last.reply == Rejected(Conflict(TableCheck))
            && OnHand(Replay(Empty(), log[..|log| - 1]), 1) + 1 <= MAX_QUANTITY
  {
    OneReservedIs();
    var db := Replay(Empty(), OneReserved());
    var op := Cancel(2, Some("c"));
    var e := Entry(2, op, 3, -1, Apply(db, op, 3, -1).reply, Apply(db, op, 3, -1).event);
    assert "c"[0] in "c";
    ExplainsAppend(Empty(), OneReserved(), e);
    log := OneReserved() + [e];
    assert log[..|log| - 1] == OneReserved();
  }

  // ---------------------------------------------------------------- SKUs

  lemma CreationStep(db: Db, e: Entry)
    requires Explained(db, e) && e.event.ProductCreated?
    ensures NormalizeSku(e.op.sku).Some? && !SkuTaken(db, NormalizeSku(e.op.sku).value)
    ensures var db' := ApplyEntry(db, e).db;
            e.id in db'.products && db'.products[e.id].sku == NormalizeSku(e.op.sku).value
  {
  }

  /** Two committed product creations never share a normalized SKU. */
  lemma SkusCreatedOnce(db0: Db, log: seq<Entry>, i: nat, j: nat)
    requires Explains(db0, log) && i < j < |log|
    requires log[i].event.ProductCreated? && log[j].event.ProductCreated?
    requires log[i].op.CreateProduct? && log[j].op.CreateProduct?
    ensures NormalizeSku(log[i].op.sku) != NormalizeSku(log[j].op.sku)
    ensures NormalizeSku(log[i].op.sku).Some? && NormalizeSku(log[j].op.sku).Some?
  {
    ExplainedAt(db0, log, i);
    CreationStep(Replay(db0, log[..i]), log[i]);
    ReplayStep(db0, log, i);
    RowsEvolve(db0, log, i + 1, j);
    ExplainedAt(db0, log, j);
    CreationStep(Replay(db0, log[..j]), log[j]);
    assert log[i].id in Replay(db0, log[..j]).products;
  }

  /** So spellings that differ only in ASCII case and surrounding blanks, on either side, cannot both be created. */
  lemma SkuVariantsExclude(db0: Db, log: seq<Entry>, i: nat, j: nat,
    x: string, a: string, y: string, z: string, b: string, w: string)
    requires Explains(db0, log) && i < |log| && j < |log| && i != j
    requires log[i].op.CreateProduct? && log[i].op.sku == Some(x + a + y)
    requires log[j].op.CreateProduct? && log[j].op.sku == Some(z + b + w)
    requires (forall c | c in x + y :: TrimmedChar(c)) && (forall c | c in z + w :: TrimmedChar(c)) && EqualIgnoringCase(a, b)
    ensures !(log[i].event.ProductCreated? && log[j].event.ProductCreated?)
  {
    NormalizeIgnoresCaseAndPadding(x, a, y, a);
    NormalizeIgnoresCaseAndPadding(z, b, w, a);
    if log[i].event.ProductCreated? && log[j].event.ProductCreated? {
      SkusCreatedOnce(db0, log, if i < j then i else j, if i < j then j else i);
    }
  }
}
