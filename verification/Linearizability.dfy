/**
  The invariant of the transaction protocol and its consequence: whatever the
  interleaving, the log explains the committed database and every reply.
*/
module Linearizability {
  import opened Common
  import opened LockNames
  import opened Ledger
  import opened History
  import opened Protocol

  // ---------------------------------------------------------------- invariant

  function KeyLocks(hash: string -> int, op: Op): set<Resource>
    requires op.Reserve? && op.customer.Some?
  {
    if op.key.Some? then {KeyOf(hash, op)} else {}
  }

  ghost predicate KeyFree(db: Db, op: Op)
    requires op.Reserve? && op.customer.Some?
  {
    op.key.Some? ==> !KeyUsed(db, op.customer.value, op.key.value)
  }

  ghost predicate EntryFor(e: Entry, i: nat, t: Txn) {
    e.tx == i && e.op == t.op && e.id == t.id && e.now == t.now
  }

  ghost predicate CreatePrepared(db: Db, t: Txn, e: Entry, w: Write)
    requires t.op.CreateProduct?
  {
    && WellFormedRequest(t.op)
    && var row := NewRow(t);
       && NameStored(row.name) && !SkuTaken(db, row.sku) && t.held == {SkuLock(row.sku)}
       && w == PutProduct(t.id, row) && e.reply == ProductReply(t.id, row) && e.event == ProductCreated(t.op.initial)
  }

  ghost predicate AddPrepared(db: Db, t: Txn, e: Entry, w: Write)
    requires t.op.AddStock?
  {
    && var p := t.op.product;
       && WellFormedRequest(t.op) && p in db.products && t.held == {ProductLock(p)}
       && Restock(db.products[p], t.op.quantity).Ok?
       && var row := Restock(db.products[p], t.op.quantity).value;
          w == PutProduct(p, row) && e.reply == ProductReply(p, row) && e.event == StockAdded(t.op.quantity)
  }

  ghost predicate ReservePrepared(db: Db, hash: string -> int, t: Txn, e: Entry, w: Write)
    requires t.op.Reserve?
  {
    && var p := t.op.product;
       && WellFormedRequest(t.op) && p in db.products && KeyFree(db, t.op) && Storable(t.op.customer.value)
       && t.held == KeyLocks(hash, t.op) + {ProductLock(p)}
       && Take(db.products[p], t.op.quantity).Ok?
       && var rrow := ReservationRow(p, t.op.quantity, t.op.customer.value, t.op.key, ACTIVE, t.now, None);
          && w == PutBoth(t.id, rrow, p, Take(db.products[p], t.op.quantity).value)
          && e.reply == Reserved(t.id, rrow, false) && e.event == ReservationCreated(t.op.quantity)
  }

  ghost predicate CancelPrepared(db: Db, t: Txn, e: Entry, w: Write)
    requires t.op.Cancel?
  {
    && var r := t.op.reservation;
       && WellFormedRequest(t.op) && Owned(db, r, t.op.customer.value) && Storable(t.op.customer.value)
       && var row := db.reservations[r];
          && row.status == ACTIVE && row.product in db.products && row.createdAt <= t.now
          && t.held == {ReservationLock(r), ProductLock(row.product)}
          && Restock(db.products[row.product], row.quantity).Ok?
          && w == PutBoth(r, CancelRow(row, t.now), row.product, Restock(db.products[row.product], row.quantity).value)
          && e.reply == CancelReply(r, CancelRow(row, t.now)) && e.event == ReservationCancelled(row.quantity)
  }

  ghost predicate Prepared(db: Db, hash: string -> int, t: Txn, e: Entry, w: Write) {
    match t.op
    case CreateProduct(_, _, _) => CreatePrepared(db, t, e, w)
    case AddStock(_, _) => AddPrepared(db, t, e, w)
    case Reserve(_, _, _, _) => ReservePrepared(db, hash, t, e, w)
    case Cancel(_, _) => CancelPrepared(db, t, e, w)
  }

  /** What a transaction knows at each pc, and exactly which locks it holds while it waits. */
  ghost predicate PcOk(db: Db, hash: string -> int, i: nat, t: Txn) {
    && PcFits(t)
    && match t.pc
       case CheckSku => t.held == {}
       case InsertSku => t.held == {}
       case AcquireKey => t.held == {}
       case FindKey => t.held == {KeyOf(hash, t.op)}
       case LockProduct =>
         if t.op.Reserve? then
           t.held == KeyLocks(hash, t.op) && KeyFree(db, t.op) && (t.op.key.Some? ==> Storable(t.op.customer.value))
         else t.held == {}
       case LockReservation => t.held == {}
       case LockCancelProduct(seen) =>
         && Storable(t.op.customer.value)
         && Owned(db, t.op.reservation, t.op.customer.value) && db.reservations[t.op.reservation] == seen
         && seen.status == ACTIVE && t.held == {ReservationLock(t.op.reservation)}
       case Committing(e, w) => EntryFor(e, i, t) && Prepared(db, hash, t, e, w)
       case Replaying(e) =>
         && EntryFor(e, i, t) && !e.reply.Rejected?
         && (e.event == ReservationReplayed || e.event == CancellationReplayed)
       case RollingBack(e) => EntryFor(e, i, t) && e.reply.Rejected? && e.event == NoEvent
       case Done(e) => EntryFor(e, i, t) && t.held == {}
       case Aborted => t.held == {}
  }

  predicate Writes(event: Event) {
    event.ProductCreated? || event.StockAdded? || event.ReservationCreated? || event.ReservationCancelled?
  }

  /** A decided transaction has exactly one log entry, made after it began. */
  ghost predicate AtOk(log: seq<Entry>, t: Txn) {
    && t.begun <= |log|
    && (t.at.Some? ==> t.begun <= t.at.value < |log|)
    && match t.pc
       case Replaying(e) => t.at.Some? && log[t.at.value] == e
       case RollingBack(e) => t.at.Some? && log[t.at.value] == e
       case Done(e) => t.at.Some? && log[t.at.value] == e
       case Aborted => t.at.Some? ==> !Writes(log[t.at.value].event)
       case _ => t.at.None?
  }

  ghost predicate Exclusive(txs: seq<Txn>) {
    forall i, j, r | 0 <= i < |txs| && 0 <= j < |txs| && r in txs[i].held && r in txs[j].held :: i == j
  }

  ghost predicate IdsOk(db: Db, txs: seq<Txn>) {
    && (forall i, j | 0 <= i < |txs| && 0 <= j < |txs| && txs[i].id == txs[j].id :: i == j)
    && (forall i | 0 <= i < |txs| && txs[i].Active() :: Fresh(db, txs[i].id))
  }

  ghost predicate EntriesOwned(s: State) {
    forall k | 0 <= k < |s.log| ::
      s.log[k].tx < |s.txs| && s.txs[s.log[k].tx].at == Some(k) && s.txs[s.log[k].tx].op == s.log[k].op
  }

  ghost predicate TxsOk(s: State) {
    forall i | 0 <= i < |s.txs| :: PcOk(s.db, s.hash, i, s.txs[i]) && AtOk(s.log, s.txs[i])
  }

  ghost predicate LogOk(db0: Db, s: State) {
    Explains(db0, s.log) && Replay(db0, s.log) == s.db
  }

  ghost predicate Inv(db0: Db, s: State) {
    LogOk(db0, s) && TxsOk(s) && Exclusive(s.txs) && IdsOk(s.db, s.txs) && EntriesOwned(s)
  }

  // ---------------------------------------------------------------- commit

  /** What the locks guarantee about a prepared write: the rows it was computed from are current. */
  lemma CreateIsApply(db: Db, t: Txn, e: Entry, w: Write)
    requires t.op.CreateProduct? && CreatePrepared(db, t, e, w)
    ensures Apply(db, t.op, t.id, t.now) == Effect(Put(db, w), e.reply, e.event)
  {
  }

  lemma AddIsApply(db: Db, t: Txn, e: Entry, w: Write)
    requires t.op.AddStock? && AddPrepared(db, t, e, w)
    ensures Apply(db, t.op, t.id, t.now) == Effect(Put(db, w), e.reply, e.event)
  {
  }

  lemma ReserveIsApply(db: Db, hash: string -> int, t: Txn, e: Entry, w: Write)
    requires t.op.Reserve? && ReservePrepared(db, hash, t, e, w)
    ensures Apply(db, t.op, t.id, t.now) == Effect(Put(db, w), e.reply, e.event)
  {
  }

  lemma CancelIsApply(db: Db, t: Txn, e: Entry, w: Write)
    requires t.op.Cancel? && CancelPrepared(db, t, e, w)
    ensures Apply(db, t.op, t.id, t.now) == Effect(Put(db, w), e.reply, e.event)
  {
  }

  lemma PreparedIsApply(db: Db, hash: string -> int, t: Txn, e: Entry, w: Write)
    requires Prepared(db, hash, t, e, w)
    ensures Apply(db, t.op, t.id, t.now) == Effect(Put(db, w), e.reply, e.event)
  {
    match t.op {
      case CreateProduct(_, _, _) => CreateIsApply(db, t, e, w);
      case AddStock(_, _) => AddIsApply(db, t, e, w);
      case Reserve(_, _, _, _) => ReserveIsApply(db, hash, t, e, w);
      case Cancel(_, _) => CancelIsApply(db, t, e, w);
    }
  }

  /** Every row a write replaces or adds is covered by a lock the writer holds, or is its own new row. */
  ghost predicate Covered(db: Db, hash: string -> int, t: Txn, w: Write) {
    && (if w.product in db.products
        then ProductLock(w.product) in t.held && w.row.sku == db.products[w.product].sku
        else w.product == t.id && SkuLock(w.row.sku) in t.held)
    && (w.PutBoth? ==>
          if w.reservation in db.reservations
          then ReservationLock(w.reservation) in t.held
          else
            && w.reservation == t.id
            && (w.rrow.key.Some? ==> KeyLock(hash(LockName(w.rrow.customer, w.rrow.key.value))) in t.held))
    && (w.PutBoth? && w.reservation in db.reservations ==>
          w.rrow.customer == db.reservations[w.reservation].customer && w.rrow.key == db.reservations[w.reservation].key)
  }

  lemma PreparedIsCovered(db: Db, hash: string -> int, t: Txn, e: Entry, w: Write)
    requires Prepared(db, hash, t, e, w) && Fresh(db, t.id)
    ensures Covered(db, hash, t, w)
  {
  }

  lemma OthersKeyFree(db: Db, hash: string -> int, t: Txn, w: Write, op: Op, held: set<Resource>)
    requires Covered(db, hash, t, w) && t.held !! held
    requires op.Reserve? && op.customer.Some? && KeyLocks(hash, op) <= held && KeyFree(db, op)
    ensures KeyFree(Put(db, w), op)
  {
    if op.key.Some? {
      assert KeyOf(hash, op) in held;
      var db' := Put(db, w);
      forall r | r in db'.reservations ensures !HoldsKey(db'.reservations[r], op.customer.value, op.key.value) {
        assert r in db.reservations ==> !HoldsKey(db.reservations[r], op.customer.value, op.key.value);
      }
    }
  }

  lemma OthersSkuFree(db: Db, hash: string -> int, t: Txn, w: Write, sku: string, held: set<Resource>)
    requires Covered(db, hash, t, w) && t.held !! held && SkuLock(sku) in held && !SkuTaken(db, sku)
    ensures !SkuTaken(Put(db, w), sku)
  {
    var db' := Put(db, w);
    forall p | p in db'.products ensures db'.products[p].sku != sku {
      assert p in db.products ==> db.products[p].sku != sku;
    }
  }

  /** One transaction's commit leaves everything another one relies on untouched. */
  lemma CommitKeepsOther(db: Db, hash: string -> int, t: Txn, w: Write, j: nat, u: Txn)
    requires Covered(db, hash, t, w) && PcOk(db, hash, j, u)
    requires t.held !! u.held && t.id != u.id
    ensures PcOk(Put(db, w), hash, j, u)
    ensures Fresh(db, u.id) ==> Fresh(Put(db, w), u.id)
  {
    var db' := Put(db, w);
    match u.pc {
      case LockProduct =>
        if u.op.Reserve? { OthersKeyFree(db, hash, t, w, u.op, u.held); }
      case LockCancelProduct(seen) =>
        assert ReservationLock(u.op.reservation) in u.held;
      case Committing(e, v) =>
        match u.op {
          case CreateProduct(_, _, _) =>
            OthersSkuFree(db, hash, t, w, NewRow(u).sku, u.held);
          case AddStock(p, _) =>
            assert ProductLock(p) in u.held;
          case Reserve(p, _, _, _) =>
            OthersKeyFree(db, hash, t, w, u.op, u.held);
            assert ProductLock(p) in u.held;
          case Cancel(r, _) =>
            assert ReservationLock(r) in u.held && ProductLock(db.reservations[r].product) in u.held;
        }
      case _ =>
    }
  }

  // ---------------------------------------------------------------- every step keeps the invariant

  lemma CommitKeepsTxs(s: State, i: nat)
    requires TxsOk(s) && Exclusive(s.txs) && IdsOk(s.db, s.txs) && i < |s.txs| && s.txs[i].pc.Committing?
    ensures TxsOk(Commit(s, i)) && IdsOk(Commit(s, i).db, Commit(s, i).txs)
  {
    var t := s.txs[i];
    var e, w := t.pc.entry, t.pc.write;
    var s' := Commit(s, i);
    assert PcOk(s.db, s.hash, i, t) && AtOk(s.log, t);
    PreparedIsCovered(s.db, s.hash, t, e, w);
    forall j | 0 <= j < |s.txs| && j != i
      ensures PcOk(s'.db, s'.hash, j, s'.txs[j]) && AtOk(s'.log, s'.txs[j])
      ensures s.txs[j].Active() ==> Fresh(s'.db, s'.txs[j].id)
    {
      assert PcOk(s.db, s.hash, j, s.txs[j]) && AtOk(s.log, s.txs[j]);
      CommitKeepsOther(s.db, s.hash, t, w, j, s.txs[j]);
    }
  }

  lemma CommitKeepsLog(db0: Db, s: State, i: nat)
    requires LogOk(db0, s) && i < |s.txs| && s.txs[i].pc.Committing?
    requires PcOk(s.db, s.hash, i, s.txs[i]) && Fresh(s.db, s.txs[i].id)
    ensures LogOk(db0, Commit(s, i))
  {
    var t := s.txs[i];
    PreparedIsApply(s.db, s.hash, t, t.pc.entry, t.pc.write);
    ExplainsAppend(db0, s.log, t.pc.entry);
  }

  lemma CommitKeepsOwners(s: State, i: nat)
    requires Exclusive(s.txs) && EntriesOwned(s) && i < |s.txs| && s.txs[i].pc.Committing?
    requires PcOk(s.db, s.hash, i, s.txs[i]) && AtOk(s.log, s.txs[i])
    ensures Exclusive(Commit(s, i).txs) && EntriesOwned(Commit(s, i))
  {
  }

  lemma CommitKeepsInv(db0: Db, s: State, i: nat)
    requires Inv(db0, s) && i < |s.txs| && s.txs[i].pc.Committing?
    ensures Inv(db0, Commit(s, i))
  {
    assert PcOk(s.db, s.hash, i, s.txs[i]) && AtOk(s.log, s.txs[i]);
    CommitKeepsLog(db0, s, i);
    CommitKeepsOwners(s, i);
    CommitKeepsTxs(s, i);
  }

  /** A transaction's own step that writes nothing: new pc and locks, and perhaps one log entry. */
  ghost predicate LocalStep(s: State, s': State, i: nat) {
    && i < |s.txs| && s.txs[i].Active() && s'.db == s.db && s'.hash == s.hash
    && |s'.txs| == |s.txs| && (forall j | 0 <= j < |s.txs| && j != i :: s'.txs[j] == s.txs[j])
    && var t, t' := s.txs[i], s'.txs[i];
       && t'.id == t.id && t'.begun == t.begun && t'.op == t.op
       && (forall r | r in t'.held && r !in t.held :: Free(s, i, r))
       && PcOk(s.db, s.hash, i, t')
       && (if s'.log == s.log then t'.at == t.at
           else
             && t.at == None && t'.at == Some(|s.log|) && |s'.log| == |s.log| + 1 && s'.log[..|s.log|] == s.log
             && var e := s'.log[|s.log|];
                && e.tx == i && e.op == t.op && s'.log == s.log + [e] && Explained(s.db, e) && ApplyEntry(s.db, e).db == s.db)
       && AtOk(s'.log, t')
  }

  lemma LocalKeepsOwners(s: State, s': State, i: nat)
    requires TxsOk(s) && Exclusive(s.txs) && IdsOk(s.db, s.txs) && EntriesOwned(s) && LocalStep(s, s', i)
    ensures Exclusive(s'.txs) && IdsOk(s'.db, s'.txs) && EntriesOwned(s')
  {
  }

  lemma LocalKeepsInv(db0: Db, s: State, s': State, i: nat)
    requires Inv(db0, s) && LocalStep(s, s', i)
    ensures Inv(db0, s')
  {
    LocalKeepsOwners(s, s', i);
    if s'.log != s.log {
      ExplainsAppend(db0, s.log, s'.log[|s.log|]);
    }
    forall j | 0 <= j < |s.txs| && j != i ensures PcOk(s'.db, s'.hash, j, s'.txs[j]) && AtOk(s'.log, s'.txs[j]) {
      assert PcOk(s.db, s.hash, j, s.txs[j]) && AtOk(s.log, s.txs[j]);
    }
  }

  /** A lock set a step may move to: what it had, plus at most the lock it waited for. */
  ghost predicate MayHold(s: State, i: nat, held: set<Resource>)
    requires i < |s.txs|
  {
    forall r | r in held && r !in s.txs[i].held :: Free(s, i, r)
  }

  lemma ThrowIsLocal(s: State, i: nat, failure: Failure, held: set<Resource>)
    requires i < |s.txs| && s.txs[i].Active() && MayHold(s, i, held)
    requires AtOk(s.log, s.txs[i]) && s.txs[i].at.None?
    requires Apply(s.db, s.txs[i].op, s.txs[i].id, s.txs[i].now) == Reject(s.db, failure)
    ensures LocalStep(s, Throw(s, i, failure, held), i)
  {
  }

  lemma AnswerIsLocal(s: State, i: nat, reply: Reply, event: Event, held: set<Resource>)
    requires i < |s.txs| && s.txs[i].Active() && MayHold(s, i, held)
    requires AtOk(s.log, s.txs[i]) && s.txs[i].at.None?
    requires !reply.Rejected? && (event == ReservationReplayed || event == CancellationReplayed)
    requires Apply(s.db, s.txs[i].op, s.txs[i].id, s.txs[i].now) == Effect(s.db, reply, event)
    ensures LocalStep(s, Answer(s, i, reply, event, held), i)
  {
  }

  lemma CreateStepsLocal(s: State, i: nat)
    requires i < |s.txs| && PcOk(s.db, s.hash, i, s.txs[i]) && AtOk(s.log, s.txs[i]) && CanStep(s, i)
    requires s.txs[i].pc.CheckSku? || s.txs[i].pc.InsertSku?
    ensures LocalStep(s, StepTx(s, i), i)
  {
    var t := s.txs[i];
    var row := NewRow(t);
    if SkuTaken(s.db, row.sku) || (t.pc.InsertSku? && !NameStored(row.name)) {
      ThrowIsLocal(s, i, Conflict(SkuExists), t.held);
    }
  }

  lemma FindKeyLocal(s: State, i: nat)
    requires i < |s.txs| && PcOk(s.db, s.hash, i, s.txs[i]) && AtOk(s.log, s.txs[i]) && CanStep(s, i)
    requires s.txs[i].pc.FindKey?
    ensures LocalStep(s, StepTx(s, i), i)
  {
    var t := s.txs[i];
    if !Storable(t.op.customer.value) {
      ThrowIsLocal(s, i, Conflict(TableCheck), t.held);
    } else if KeyUsed(s.db, t.op.customer.value, t.op.key.value) {
      var e := ApplyKnownKey(s.db, t.op);
      assert Apply(s.db, t.op, t.id, t.now) == e;
      if e.reply.Rejected? {
        ThrowIsLocal(s, i, Conflict(KeyReused), t.held);
      } else {
        AnswerIsLocal(s, i, e.reply, e.event, t.held);
      }
    }
  }

  lemma LockProductLocal(s: State, i: nat)
    requires i < |s.txs| && PcOk(s.db, s.hash, i, s.txs[i]) && AtOk(s.log, s.txs[i]) && CanStep(s, i)
    requires s.txs[i].pc.LockProduct?
    ensures LocalStep(s, StepTx(s, i), i)
  {
    var t := s.txs[i];
    var p := t.op.product;
    if p !in s.db.products {
      ThrowIsLocal(s, i, NotFound, t.held);
    } else {
      var held := t.held + {ProductLock(p)};
      var out := if t.op.AddStock? then Restock(s.db.products[p], t.op.quantity)
                 else Take(s.db.products[p], t.op.quantity);
      if out.Err? {
        ThrowIsLocal(s, i, out.error, held);
      } else if t.op.Reserve? && !Storable(t.op.customer.value) {
        ThrowIsLocal(s, i, Conflict(TableCheck), held);
      }
    }
  }

  lemma LockReservationLocal(s: State, i: nat)
    requires i < |s.txs| && PcOk(s.db, s.hash, i, s.txs[i]) && AtOk(s.log, s.txs[i]) && CanStep(s, i)
    requires s.txs[i].pc.LockReservation?
    ensures LocalStep(s, StepTx(s, i), i)
  {
    var t := s.txs[i];
    var r := t.op.reservation;
    if !Storable(t.op.customer.value) {
      ThrowIsLocal(s, i, Conflict(TableCheck), t.held);
    } else if !Owned(s.db, r, t.op.customer.value) {
      ThrowIsLocal(s, i, NotFound, t.held);
    } else if s.db.reservations[r].status == CANCELLED {
      AnswerIsLocal(s, i, CancelReply(r, s.db.reservations[r]), CancellationReplayed, t.held + {ReservationLock(r)});
    }
  }

  lemma LockCancelProductLocal(s: State, i: nat)
    requires i < |s.txs| && PcOk(s.db, s.hash, i, s.txs[i]) && AtOk(s.log, s.txs[i]) && CanStep(s, i)
    requires s.txs[i].pc.LockCancelProduct?
    ensures LocalStep(s, StepTx(s, i), i)
  {
    var t := s.txs[i];
    var row := t.pc.seen;
    if row.product !in s.db.products {
      ThrowIsLocal(s, i, NotFound, t.held);
    } else {
      var out := Restock(s.db.products[row.product], row.quantity);
      if out.Err? {
        ThrowIsLocal(s, i, out.error, t.held + {ProductLock(row.product)});
      } else if t.now < row.createdAt {
        ThrowIsLocal(s, i, Conflict(TableCheck), t.held + {ProductLock(row.product)});
      }
    }
  }

  lemma StepKeepsInv(db0: Db, s: State, i: nat)
    requires Inv(db0, s) && CanStep(s, i)
    ensures Inv(db0, StepTx(s, i))
  {
    var t := s.txs[i];
    assert PcOk(s.db, s.hash, i, t) && AtOk(s.log, t);
    if t.pc.Committing? {
      CommitKeepsInv(db0, s, i);
    } else {
      match t.pc {
        case CheckSku => CreateStepsLocal(s, i);
        case InsertSku => CreateStepsLocal(s, i);
        case FindKey => FindKeyLocal(s, i);
        case LockProduct => LockProductLocal(s, i);
        case LockReservation => LockReservationLocal(s, i);
        case LockCancelProduct(_) => LockCancelProductLocal(s, i);
        case _ =>
      }
      assert LocalStep(s, StepTx(s, i), i);
      LocalKeepsInv(db0, s, StepTx(s, i), i);
    }
  }

  lemma AppendKeepsInv(db0: Db, s: State, t: Txn)
    requires Inv(db0, s) && FreshEverywhere(s, t.id) && t.held == {}
    requires PcOk(s.db, s.hash, |s.txs|, t) && t.begun == |s.log| && t.at.None? && AtOk(s.log, t)
    ensures Inv(db0, s.(txs := s.txs + [t]))
  {
    var s' := s.(txs := s.txs + [t]);
    forall j | 0 <= j < |s'.txs| ensures PcOk(s'.db, s'.hash, j, s'.txs[j]) && AtOk(s'.log, s'.txs[j]) {
      if j < |s.txs| {
        assert PcOk(s.db, s.hash, j, s.txs[j]) && AtOk(s.log, s.txs[j]);
      }
    }
  }

  lemma AppendRejectedKeepsInv(db0: Db, s: State, t: Txn, e: Entry)
    requires Inv(db0, s) && FreshEverywhere(s, t.id) && t.held == {}
    requires PcOk(s.db, s.hash, |s.txs|, t) && t.begun == |s.log| && t.pc == RollingBack(e) && t.at == Some(|s.log|)
    requires Explained(s.db, e) && ApplyEntry(s.db, e).db == s.db
    ensures Inv(db0, s.(txs := s.txs + [t], log := s.log + [e]))
  {
    var s' := s.(txs := s.txs + [t], log := s.log + [e]);
    ExplainsAppend(db0, s.log, e);
    forall j | 0 <= j < |s'.txs| ensures PcOk(s'.db, s'.hash, j, s'.txs[j]) && AtOk(s'.log, s'.txs[j]) {
      if j < |s.txs| {
        assert PcOk(s.db, s.hash, j, s.txs[j]) && AtOk(s.log, s.txs[j]);
      }
    }
  }

  lemma BeginKeepsInv(db0: Db, s: State, a: Action)
    requires Inv(db0, s) && a.Begin? && Enabled(s, a)
    ensures Inv(db0, After(s, a))
  {
    var t := Txn(a.op, a.replica, a.id, a.now, FirstPc(a.op), {}, |s.log|, None);
    if WellFormedRequest(a.op) {
      AppendKeepsInv(db0, s, t);
    } else {
      var e := EntryOf(|s.txs|, t, Rejected(Invalid), NoEvent);
      var u := t.(pc := RollingBack(e), at := Some(|s.log|));
      AppendRejectedKeepsInv(db0, s, u, e);
      assert After(s, a) == s.(txs := s.txs + [u], log := s.log + [e]);
    }
  }

  lemma StopKeepsOthers(s: State, replica: nat)
    requires Exclusive(s.txs) && IdsOk(s.db, s.txs) && EntriesOwned(s) && Enabled(s, Stop(replica))
    ensures var s' := After(s, Stop(replica)); Exclusive(s'.txs) && IdsOk(s'.db, s'.txs) && EntriesOwned(s')
  {
  }

  lemma StopKeepsInv(db0: Db, s: State, replica: nat)
    requires Inv(db0, s) && Enabled(s, Stop(replica))
    ensures Inv(db0, After(s, Stop(replica)))
  {
    var s' := After(s, Stop(replica));
    StopKeepsOthers(s, replica);
    forall j | 0 <= j < |s.txs| ensures PcOk(s'.db, s'.hash, j, s'.txs[j]) && AtOk(s'.log, s'.txs[j]) {
      assert PcOk(s.db, s.hash, j, s.txs[j]) && AtOk(s.log, s.txs[j]);
    }
  }

  lemma ActionKeepsInv(db0: Db, s: State, a: Action)
    requires Inv(db0, s) && Enabled(s, a)
    ensures Inv(db0, After(s, a))
  {
    match a {
      case Begin(_, _, _, _) => BeginKeepsInv(db0, s, a);
      case Step(i) => StepKeepsInv(db0, s, i);
      case Abort(i) =>
        assert PcOk(s.db, s.hash, i, s.txs[i]) && AtOk(s.log, s.txs[i]);
        LocalKeepsInv(db0, s, After(s, a), i);
      case RunCallback(_) =>
      case Stop(replica) => StopKeepsInv(db0, s, replica);
    }
  }

  lemma {:induction false} RunKeepsInv(db0: Db, replicas: nat, hash: string -> int, acts: seq<Action>, trace: seq<State>, k: nat)
    requires Run(Init(db0, replicas, hash), acts, trace) && k < |trace|
    ensures Inv(db0, trace[k])
  {
    if k > 0 {
      RunKeepsInv(db0, replicas, hash, acts, trace, k - 1);
      ActionKeepsInv(db0, trace[k - 1], acts[k - 1]);
    }
  }
}
