/**
  The service as it runs: any number of replicas execute transactions against one
  database, each transaction one operation, each step one statement. Locks are held
  until commit or rollback. Steps interleave arbitrarily; a transaction may fail at any
  point before it commits, and a replica may stop, losing its transactions and the
  counter callbacks it has not run yet.
*/
module Protocol {
  import opened Common
  import opened LockNames
  import opened Ledger
  import opened History
  import opened Metrics

  /** Everything a transaction can wait for. */
  datatype Resource =
    | KeyLock(hash: int)               // transaction-scoped advisory lock
    | ReservationLock(reservation: Id) // row lock
    | ProductLock(product: Id)         // row lock
    | SkuLock(sku: string)             // uncommitted entry in the unique SKU index

  /** Whole rows written at commit; computed from what was read under the locks. */
  datatype Write =
    | PutProduct(product: Id, row: ProductRow)
    | PutBoth(reservation: Id, rrow: ReservationRow, product: Id, row: ProductRow)

  datatype Pc =
    | CheckSku                               // existsBySku
    | InsertSku                              // saveAndFlush
    | AcquireKey                             // pg_advisory_xact_lock
    | FindKey                                // findByCustomerIdAndIdempotencyKey
    | LockProduct                            // findByIdForUpdate in addStock and reserve
    | LockReservation                        // findOwnedForUpdate
    | LockCancelProduct(seen: ReservationRow) // findByIdForUpdate in cancelReservation
    | Committing(entry: Entry, write: Write)
    | Replaying(entry: Entry)                // nothing to write, about to commit
    | RollingBack(entry: Entry)              // the operation threw
    | Done(entry: Entry)
    | Aborted                                // timeout, lost connection, failed commit or stopped replica

  /** `id` and `now` are the identifier and the time the transaction's entities are given. */
  datatype Txn = Txn(
    op: Op, replica: nat, id: Id, now: Instant,
    pc: Pc, held: set<Resource>, begun: nat, at: Option<nat>)
  {
    predicate Active() { !pc.Done? && !pc.Aborted? }
  }

  datatype Callback = Callback(replica: nat, event: Event)

  /** `log`, `commits` and `lost` only record history; no step reads them. */
  datatype State = State(
    db: Db, txs: seq<Txn>, pending: seq<Callback>, counters: seq<Tally>,
    hash: string -> int, log: seq<Entry>, commits: seq<Entry>, lost: Tally)

  datatype Action =
    | Begin(op: Op, replica: nat, id: Id, now: Instant)
    | Step(tx: nat)
    | Abort(tx: nat)
    | RunCallback(index: nat)
    | Stop(replica: nat)

  ghost function Init(db0: Db, replicas: nat, hash: string -> int): State {
    State(db0, [], [], seq(replicas, _ => NoTally), hash, [], [], NoTally)
  }

  // ---------------------------------------------------------------- steps of one transaction

  function KeyOf(hash: string -> int, op: Op): Resource
    requires op.Reserve? && op.customer.Some? && op.key.Some?
  {
    KeyLock(hash(LockName(op.customer.value, op.key.value)))
  }

  function NewRow(t: Txn): ProductRow
    requires t.op.CreateProduct? && WellFormedRequest(t.op)
  {
    NewProduct(t.op.sku, t.op.name, t.op.initial, t.now).value
  }

  function FirstPc(op: Op): Pc {
    match op
    case CreateProduct(_, _, _) => CheckSku
    case AddStock(_, _) => LockProduct
    case Reserve(_, _, _, key) => if key.Some? then AcquireKey else LockProduct
    case Cancel(_, _) => LockReservation
  }

  function Put(db: Db, w: Write): Db {
    match w
    case PutProduct(p, row) => db.(products := db.products[p := row])
    case PutBoth(r, rrow, p, row) => Db(db.products[p := row], db.reservations[r := rrow])
  }

  /** The pc fits the operation; every reachable transaction does, and only such ones step. */
  predicate PcFits(t: Txn) {
    match t.pc
    case CheckSku => t.op.CreateProduct? && WellFormedRequest(t.op)
    case InsertSku => t.op.CreateProduct? && WellFormedRequest(t.op)
    case AcquireKey => t.op.Reserve? && WellFormedRequest(t.op) && t.op.key.Some?
    case FindKey => t.op.Reserve? && WellFormedRequest(t.op) && t.op.key.Some?
    case LockProduct => (t.op.AddStock? || t.op.Reserve?) && WellFormedRequest(t.op)
    case LockReservation => t.op.Cancel? && WellFormedRequest(t.op)
    case LockCancelProduct(_) => t.op.Cancel? && WellFormedRequest(t.op)
    case _ => true
  }

  /** The lock the next step must wait for. A statement that finds no row locks nothing. */
  ghost function Wants(s: State, t: Txn): Option<Resource>
    requires PcFits(t)
  {
    match t.pc
    case InsertSku => if !NameStored(NewRow(t).name) then None else Some(SkuLock(NewRow(t).sku))
    case AcquireKey => Some(KeyOf(s.hash, t.op))
    case LockProduct => if t.op.product in s.db.products then Some(ProductLock(t.op.product)) else None
    case LockReservation =>
      if Storable(t.op.customer.value) && Owned(s.db, t.op.reservation, t.op.customer.value)
      then Some(ReservationLock(t.op.reservation)) else None
    case LockCancelProduct(seen) =>
      if seen.product in s.db.products then Some(ProductLock(seen.product)) else None
    case _ => None
  }

  predicate Free(s: State, i: nat, r: Resource) {
    forall j | 0 <= j < |s.txs| && j != i :: r !in s.txs[j].held
  }

  ghost predicate CanStep(s: State, i: nat) {
    && i < |s.txs| && s.txs[i].Active() && PcFits(s.txs[i])
    && (Wants(s, s.txs[i]).Some? ==> Free(s, i, Wants(s, s.txs[i]).value))
  }

  function EntryOf(i: nat, t: Txn, reply: Reply, event: Event): Entry {
    Entry(i, t.op, t.id, t.now, reply, event)
  }

  ghost function Goto(s: State, i: nat, pc: Pc, held: set<Resource>): State
    requires i < |s.txs|
  {
    s.(txs := s.txs[i := s.txs[i].(pc := pc, held := held)])
  }

  /** A rejection takes effect at the read that decides it. */
  ghost function Throw(s: State, i: nat, failure: Failure, held: set<Resource>): State
    requires i < |s.txs|
  {
    var e := EntryOf(i, s.txs[i], Rejected(failure), NoEvent);
    s.(txs := s.txs[i := s.txs[i].(pc := RollingBack(e), held := held, at := Some(|s.log|))],
       log := s.log + [e])
  }

  /** So does a successful reply that writes nothing. */
  ghost function Answer(s: State, i: nat, reply: Reply, event: Event, held: set<Resource>): State
    requires i < |s.txs|
  {
    var e := EntryOf(i, s.txs[i], reply, event);
    s.(txs := s.txs[i := s.txs[i].(pc := Replaying(e), held := held, at := Some(|s.log|))],
       log := s.log + [e])
  }

  ghost function Prepare(s: State, i: nat, reply: Reply, event: Event, write: Write, held: set<Resource>): State
    requires i < |s.txs|
  {
    Goto(s, i, Committing(EntryOf(i, s.txs[i], reply, event), write), held)
  }

  ghost function StepLockProduct(s: State, i: nat): State
    requires i < |s.txs| && PcFits(s.txs[i]) && s.txs[i].pc.LockProduct?
  {
    var t := s.txs[i];
    var p := t.op.product;
    if p !in s.db.products then Throw(s, i, NotFound, t.held)
    else
      var held := t.held + {ProductLock(p)};
      if t.op.AddStock? then
        match Restock(s.db.products[p], t.op.quantity)
        case Err(e) => Throw(s, i, e, held)
        case Ok(row) =>
          Prepare(s, i, ProductReply(p, row), StockAdded(t.op.quantity), PutProduct(p, row), held)
      else
        match Take(s.db.products[p], t.op.quantity)
        case Err(e) => Throw(s, i, e, held)
        case Ok(row) =>
          var rrow := ReservationRow(p, t.op.quantity, t.op.customer.value, t.op.key, ACTIVE, t.now, None);
          if !Storable(rrow.customer) then Throw(s, i, Conflict(TableCheck), held)
          else Prepare(s, i, Reserved(t.id, rrow, false), ReservationCreated(t.op.quantity), PutBoth(t.id, rrow, p, row), held)
  }

  ghost function StepFindKey(s: State, i: nat): State
    requires i < |s.txs| && PcFits(s.txs[i]) && s.txs[i].pc.FindKey?
  {
    var t := s.txs[i];
    if !Storable(t.op.customer.value) then Throw(s, i, Conflict(TableCheck), t.held)
    else if KeyUsed(s.db, t.op.customer.value, t.op.key.value) then
      var r := KeyOwner(s.db, t.op.customer.value, t.op.key.value);
      var row := s.db.reservations[r];
      if row.product != t.op.product || row.quantity != t.op.quantity
      then Throw(s, i, Conflict(KeyReused), t.held)
      else Answer(s, i, Reserved(r, row, true), ReservationReplayed, t.held)
    else Goto(s, i, LockProduct, t.held)
  }

  ghost function StepLockReservation(s: State, i: nat): State
    requires i < |s.txs| && PcFits(s.txs[i]) && s.txs[i].pc.LockReservation?
  {
    var t := s.txs[i];
    var r := t.op.reservation;
    if !Storable(t.op.customer.value) then Throw(s, i, Conflict(TableCheck), t.held)
    else if !Owned(s.db, r, t.op.customer.value) then Throw(s, i, NotFound, t.held)
    else
      var row := s.db.reservations[r];
      var held := t.held + {ReservationLock(r)};
      if row.status == ACTIVE then Goto(s, i, LockCancelProduct(row), held)
      else Answer(s, i, CancelReply(r, row), CancellationReplayed, held)
  }

  ghost function StepLockCancelProduct(s: State, i: nat): State
    requires i < |s.txs| && PcFits(s.txs[i]) && s.txs[i].pc.LockCancelProduct?
  {
    var t := s.txs[i];
    var row := t.pc.seen;
    if row.product !in s.db.products then Throw(s, i, NotFound, t.held)
    else
      var held := t.held + {ProductLock(row.product)};
      match Restock(s.db.products[row.product], row.quantity)
      case Err(e) => Throw(s, i, e, held)
      case Ok(prow) =>
        var done := CancelRow(row, t.now);
        if t.now < row.createdAt then Throw(s, i, Conflict(TableCheck), held)
        else Prepare(s, i, CancelReply(t.op.reservation, done), ReservationCancelled(row.quantity),
                PutBoth(t.op.reservation, done, row.product, prow), held)
  }

  ghost function StepInsertSku(s: State, i: nat): State
    requires i < |s.txs| && PcFits(s.txs[i]) && s.txs[i].pc.InsertSku?
  {
    var t := s.txs[i];
    var row := NewRow(t);
    if !NameStored(row.name) || SkuTaken(s.db, row.sku) then Throw(s, i, Conflict(SkuExists), t.held)
    else Prepare(s, i, ProductReply(t.id, row), ProductCreated(t.op.initial), PutProduct(t.id, row),
                 t.held + {SkuLock(row.sku)})
  }

  /** Commit: the writes become visible, the locks go, the callback is due. */
  ghost function Commit(s: State, i: nat): State
    requires i < |s.txs| && s.txs[i].pc.Committing?
  {
    var t := s.txs[i];
    var e := t.pc.entry;
    s.(db := Put(s.db, t.pc.write),
       txs := s.txs[i := t.(pc := Done(e), held := {}, at := Some(|s.log|))],
       log := s.log + [e], commits := s.commits + [e],
       pending := s.pending + [Callback(t.replica, e.event)])
  }

  ghost function CommitReadOnly(s: State, i: nat): State
    requires i < |s.txs| && s.txs[i].pc.Replaying?
  {
    var t := s.txs[i];
    var e := t.pc.entry;
    s.(txs := s.txs[i := t.(pc := Done(e), held := {})],
       commits := s.commits + [e], pending := s.pending + [Callback(t.replica, e.event)])
  }

  ghost function StepTx(s: State, i: nat): State
    requires CanStep(s, i)
  {
    var t := s.txs[i];
    match t.pc
    case CheckSku =>
      if SkuTaken(s.db, NewRow(t).sku) then Throw(s, i, Conflict(SkuExists), t.held) else Goto(s, i, InsertSku, t.held)
    case InsertSku => StepInsertSku(s, i)
    case AcquireKey => Goto(s, i, FindKey, t.held + {KeyOf(s.hash, t.op)})
    case FindKey => StepFindKey(s, i)
    case LockProduct => StepLockProduct(s, i)
    case LockReservation => StepLockReservation(s, i)
    case LockCancelProduct(_) => StepLockCancelProduct(s, i)
    case Committing(_, _) => Commit(s, i)
    case Replaying(_) => CommitReadOnly(s, i)
    case RollingBack(e) => Goto(s, i, Done(e), {})
  }

  // ---------------------------------------------------------------- steps of the system

  ghost predicate FreshEverywhere(s: State, id: Id) {
    Fresh(s.db, id) && forall i | 0 <= i < |s.txs| :: s.txs[i].id != id
  }

  ghost predicate Enabled(s: State, a: Action) {
    match a
    case Begin(_, replica, id, _) => replica < |s.counters| && FreshEverywhere(s, id)
    case Step(i) => CanStep(s, i)
    case Abort(i) => i < |s.txs| && s.txs[i].Active()
    case RunCallback(k) => k < |s.pending| && s.pending[k].replica < |s.counters|
    case Stop(replica) => replica < |s.counters|
  }

  function AbortTx(t: Txn): Txn { t.(pc := Aborted, held := {}) }

  function AbortOn(txs: seq<Txn>, replica: nat): (r: seq<Txn>)
    ensures |r| == |txs|
    ensures forall i | 0 <= i < |txs| ::
      r[i] == if txs[i].replica == replica && txs[i].Active() then AbortTx(txs[i]) else txs[i]
  {
    seq(|txs|, i requires 0 <= i < |txs| =>
      if txs[i].replica == replica && txs[i].Active() then AbortTx(txs[i]) else txs[i])
  }

  function KeepOthers(pending: seq<Callback>, replica: nat): seq<Callback> {
    if pending == [] then []
    else
      var rest := KeepOthers(pending[..|pending| - 1], replica);
      var last := pending[|pending| - 1];
      if last.replica == replica then rest else rest + [last]
  }

  /** What callbacks of one replica would have added. */
  function SumOn(pending: seq<Callback>, replica: nat): Tally {
    if pending == [] then NoTally
    else
      var rest := SumOn(pending[..|pending| - 1], replica);
      var last := pending[|pending| - 1];
      if last.replica == replica then rest.Plus(Delta(last.event)) else rest
  }

  ghost function After(s: State, a: Action): State
    requires Enabled(s, a)
  {
    match a
    case Begin(op, replica, id, now) =>
      var t := Txn(op, replica, id, now, FirstPc(op), {}, |s.log|, None);
      var s1 := s.(txs := s.txs + [t]);
      if WellFormedRequest(op) then s1 else Throw(s1, |s.txs|, Invalid, {})
    case Step(i) => StepTx(s, i)
    case Abort(i) => s.(txs := s.txs[i := AbortTx(s.txs[i])])
    case RunCallback(k) =>
      var c := s.pending[k];
      s.(pending := s.pending[..k] + s.pending[k + 1..],
         counters := s.counters[c.replica := s.counters[c.replica].Plus(Delta(c.event))])
    case Stop(replica) =>
      s.(txs := AbortOn(s.txs, replica),
         pending := KeepOthers(s.pending, replica),
         counters := s.counters[replica := NoTally],
         lost := s.lost.Plus(s.counters[replica]).Plus(SumOn(s.pending, replica)))
  }

  /** A transaction's step other than a commit: it touches only its own entry and perhaps the log. */
  ghost predicate QuietStep(s: State, s': State, i: nat) {
    && i < |s.txs| == |s'.txs| && s' == s.(txs := s.txs[i := s'.txs[i]], log := s'.log)
    && var t, t' := s.txs[i], s'.txs[i];
       && t' == t.(pc := t'.pc, held := t'.held, at := t'.at)
       && if s'.log == s.log then t'.at == t.at
          else
            && |s'.log| == |s.log| + 1 && t'.at == Some(|s.log|)
            && var e := s'.log[|s.log|];
               && s'.log == s.log + [e] && e.tx == i && e.op == t.op
               && (e.event == NoEvent || e.event == ReservationReplayed || e.event == CancellationReplayed)
  }

  lemma FindKeyIsQuiet(s: State, i: nat)
    requires CanStep(s, i) && s.txs[i].pc.FindKey?
    ensures QuietStep(s, StepFindKey(s, i), i)
  {
  }

  lemma LockIsQuiet(s: State, i: nat)
    requires CanStep(s, i)
    ensures s.txs[i].pc.LockProduct? ==> QuietStep(s, StepLockProduct(s, i), i)
    ensures s.txs[i].pc.LockReservation? ==> QuietStep(s, StepLockReservation(s, i), i)
  {
  }

  lemma CancelIsQuiet(s: State, i: nat)
    requires CanStep(s, i) && s.txs[i].pc.LockCancelProduct?
    ensures QuietStep(s, StepLockCancelProduct(s, i), i)
  {
  }

  lemma StepIsQuiet(s: State, i: nat)
    requires CanStep(s, i) && !s.txs[i].pc.Committing? && !s.txs[i].pc.Replaying?
    ensures QuietStep(s, StepTx(s, i), i)
  {
    match s.txs[i].pc {
      case FindKey => FindKeyIsQuiet(s, i);
      case LockProduct => LockIsQuiet(s, i);
      case LockReservation => LockIsQuiet(s, i);
      case LockCancelProduct(_) => CancelIsQuiet(s, i);
      case _ =>
    }
  }

  // ---------------------------------------------------------------- runs

  /** A run: what the system goes through when it performs the given actions. */
  ghost predicate Run(start: State, acts: seq<Action>, trace: seq<State>) {
    && |trace| == |acts| + 1 && trace[0] == start
    && forall k {:trigger acts[k]} | 0 <= k < |acts| :: Enabled(trace[k], acts[k]) && trace[k + 1] == After(trace[k], acts[k])
  }
}
