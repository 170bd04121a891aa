/** What clients of the service can rely on over every run of the protocol. */
module Runs {
  import opened Common
  import opened Validation
  import opened Sums
  import opened Answers
  import opened Ledger
  import opened History
  import opened Protocol
  import opened Linearizability

  ghost predicate RunFrom(db0: Db, acts: seq<Action>, trace: seq<State>) {
    && WellFormed(db0) && |trace| > 0
    && trace[0] == Init(db0, |trace[0].counters|, trace[0].hash)
    && Run(trace[0], acts, trace)
  }

  lemma InvAt(db0: Db, acts: seq<Action>, trace: seq<State>, k: nat)
    requires RunFrom(db0, acts, trace) && k < |trace|
    ensures Inv(db0, trace[k])
  {
    RunKeepsInv(db0, |trace[0].counters|, trace[0].hash, acts, trace, k);
  }

  /** Nothing already decided is ever revised, and later transactions are ordered after it. */
  ghost predicate Continues(s: State, s': State) {
    && |s.txs| <= |s'.txs| && s.log <= s'.log && s.commits <= s'.commits
    && (forall i | 0 <= i < |s.txs| ::
          && s'.txs[i].op == s.txs[i].op && s'.txs[i].id == s.txs[i].id && s'.txs[i].begun == s.txs[i].begun
          && (s.txs[i].at.Some? ==> s'.txs[i].at == s.txs[i].at)
          && (!s.txs[i].Active() ==> s'.txs[i] == s.txs[i]))
    && (forall j | |s.txs| <= j < |s'.txs| :: |s.log| <= s'.txs[j].begun)
  }

  lemma StepContinues(s: State, i: nat)
    requires CanStep(s, i) && AtOk(s.log, s.txs[i])
    ensures Continues(s, StepTx(s, i))
  {
    if !s.txs[i].pc.Committing? && !s.txs[i].pc.Replaying? {
      StepIsQuiet(s, i);
    }
  }

  lemma ActionContinues(s: State, a: Action)
    requires TxsOk(s) && Enabled(s, a)
    ensures Continues(s, After(s, a))
  {
    if a.Step? {
      assert AtOk(s.log, s.txs[a.tx]);
      StepContinues(s, a.tx);
    }
  }

  lemma ContinuesTransitive(s: State, t: State, u: State)
    requires Continues(s, t) && Continues(t, u)
    ensures Continues(s, u)
  {
  }

  lemma NextContinues(db0: Db, acts: seq<Action>, trace: seq<State>, k: nat)
    requires RunFrom(db0, acts, trace) && k < |acts|
    ensures Continues(trace[k], trace[k + 1])
  {
    InvAt(db0, acts, trace, k);
    ActionContinues(trace[k], acts[k]);
  }

  lemma {:induction false} RunContinues(db0: Db, acts: seq<Action>, trace: seq<State>, k: nat, m: nat)
    requires RunFrom(db0, acts, trace) && k <= m < |trace|
    ensures Continues(trace[k], trace[m])
    decreases m
  {
    if k < m {
      RunContinues(db0, acts, trace, k, m - 1);
      NextContinues(db0, acts, trace, m - 1);
      ContinuesTransitive(trace[k], trace[m - 1], trace[m]);
    }
  }

  // ---------------------------------------------------------------- linearizability

  /**
    Linearizability. In every reachable state the log is a sequential history that
    explains the database, no transaction is in it twice, and every finished
    transaction's reply is the one the sequential specification gives at its place.
  */
  lemma Linearizable(db0: Db, acts: seq<Action>, trace: seq<State>, k: nat)
    requires RunFrom(db0, acts, trace) && k < |trace|
    ensures Explains(db0, trace[k].log) && Replay(db0, trace[k].log) == trace[k].db
    ensures forall p, q | 0 <= p < |trace[k].log| && 0 <= q < |trace[k].log| && trace[k].log[p].tx == trace[k].log[q].tx ::
              p == q
    ensures forall i | 0 <= i < |trace[k].txs| && trace[k].txs[i].pc.Done? ::
              var t := trace[k].txs[i];
              && t.at.Some? && t.begun <= t.at.value < |trace[k].log| && trace[k].log[t.at.value] == t.pc.entry
              && t.pc.entry.tx == i && t.pc.entry.op == t.op
  {
    InvAt(db0, acts, trace, k);
    var s := trace[k];
    forall i | 0 <= i < |s.txs| ensures PcOk(s.db, s.hash, i, s.txs[i]) && AtOk(s.log, s.txs[i]) {
    }
  }

  /** The order of the log respects real time: what finished before another began precedes it. */
  lemma RealTimeOrder(db0: Db, acts: seq<Action>, trace: seq<State>, k: nat, m: nat, i: nat, j: nat)
    requires RunFrom(db0, acts, trace) && k <= m < |trace|
    requires i < |trace[k].txs| <= j < |trace[m].txs|
    requires trace[k].txs[i].pc.Done? && trace[m].txs[j].pc.Done?
    ensures trace[m].txs[i] == trace[k].txs[i]
    ensures trace[m].txs[i].at.Some? && trace[m].txs[j].at.Some?
    ensures trace[m].txs[i].at.value < trace[m].txs[j].at.value
  {
    RunContinues(db0, acts, trace, k, m);
    InvAt(db0, acts, trace, k);
    InvAt(db0, acts, trace, m);
    assert AtOk(trace[k].log, trace[k].txs[i]) && AtOk(trace[m].log, trace[m].txs[j]);
  }

  // ---------------------------------------------------------------- stock and rows

  /** Conservation and bounds in every reachable state, under every interleaving. */
  lemma StockAlwaysConserved(db0: Db, acts: seq<Action>, trace: seq<State>, k: nat, p: Id)
    requires RunFrom(db0, acts, trace) && k < |trace|
    ensures Accounted(trace[k].db, p) == Accounted(db0, p) + IntroducedBy(trace[k].log, p)
    ensures 0 <= OnHand(trace[k].db, p) <= MAX_QUANTITY
    ensures 0 <= Total(Shares(trace[k].db, p)) <= Accounted(db0, p) + IntroducedBy(trace[k].log, p)
  {
    InvAt(db0, acts, trace, k);
    StockConserved(db0, trace[k].log, p);
    NoOverselling(db0, trace[k].log, p);
  }

  /** In every reachable state SKUs and keys are unique although no step checks the key index. */
  lemma ConstraintsAlwaysHold(db0: Db, acts: seq<Action>, trace: seq<State>, k: nat)
    requires RunFrom(db0, acts, trace) && k < |trace|
    ensures WellFormed(trace[k].db)
  {
    InvAt(db0, acts, trace, k);
    ReplayWellFormed(db0, trace[k].log);
  }

  /** Over time a reservation only goes from ACTIVE to CANCELLED, and then never changes. */
  lemma RowsOnlyEvolve(db0: Db, acts: seq<Action>, trace: seq<State>, k: nat, m: nat)
    requires RunFrom(db0, acts, trace) && k <= m < |trace|
    ensures Evolves(trace[k].db, trace[m].db)
  {
    InvAt(db0, acts, trace, k);
    InvAt(db0, acts, trace, m);
    RunContinues(db0, acts, trace, k, m);
    var early, late := trace[k].log, trace[m].log;
    assert early == late[..|early|] && late == late[..|late|];
    RowsEvolve(db0, late, |early|, |late|);
  }

  // ---------------------------------------------------------------- retries

  ghost predicate KeyReply(t: Txn, customer: string, key: string) {
    t.pc.Done? && KeySuccess(t.pc.entry, customer, key)
  }

  lemma {:induction false} FirstSuccess(log: seq<Entry>, n: nat, customer: string, key: string) returns (m: nat)
    requires n < |log| && KeySuccess(log[n], customer, key)
    ensures m <= n && KeySuccess(log[m], customer, key) && !KeySucceeded(log, m, customer, key)
  {
    m := n;
    if KeySucceeded(log, n, customer, key) {
      var i :| 0 <= i < n && KeySuccess(log[i], customer, key);
      m := FirstSuccess(log, i, customer, key);
    }
  }

  lemma NotBeforeFirst(log: seq<Entry>, m: nat, n: nat, customer: string, key: string)
    requires m < |log| && n < |log| && !KeySucceeded(log, m, customer, key) && KeySuccess(log[n], customer, key)
    ensures m <= n
  {
  }

  lemma WriterIsDone(db0: Db, s: State, m: nat)
    requires Inv(db0, s) && m < |s.log| && Writes(s.log[m].event)
    ensures s.log[m].tx < |s.txs| && s.txs[s.log[m].tx].pc == Done(s.log[m])
  {
    var i := s.log[m].tx;
    assert PcOk(s.db, s.hash, i, s.txs[i]) && AtOk(s.log, s.txs[i]);
  }

  lemma CreatedUnlessReplayed(db0: Db, s: State, m: nat, customer: string, key: string)
    requires Inv(db0, s) && m < |s.log| && KeySuccess(s.log[m], customer, key)
    ensures !s.log[m].reply.replayed ==> s.log[m].event.ReservationCreated?
  {
    ExplainedAt(db0, s.log, m);
  }

  /**
    Retries over a whole run. If any transaction got a successful reply for a key,
    exactly one finished transaction created the reservation, and every other success
    for that key is a replay naming the same reservation, product and quantity.
  */
  lemma RetriesShareOneReservation(db0: Db, acts: seq<Action>, trace: seq<State>, k: nat, i: nat, customer: string, key: string)
    returns (creator: nat)
    requires RunFrom(db0, acts, trace) && k < |trace| && !KeyUsed(db0, customer, key)
    requires i < |trace[k].txs| && KeyReply(trace[k].txs[i], customer, key)
    ensures creator < |trace[k].txs| && KeyReply(trace[k].txs[creator], customer, key)
    ensures forall j | 0 <= j < |trace[k].txs| && KeyReply(trace[k].txs[j], customer, key) ::
              var mine, first := trace[k].txs[j].pc.entry, trace[k].txs[creator].pc.entry;
              && (mine.reply.replayed <==> j != creator)
              && mine.reply.reservation == first.reply.reservation
              && mine.op.product == first.op.product && mine.op.quantity == first.op.quantity
  {
    InvAt(db0, acts, trace, k);
    Linearizable(db0, acts, trace, k);
    var s := trace[k];
    var m := FirstSuccess(s.log, s.txs[i].at.value, customer, key);
    KeyedExactlyOnce(db0, s.log, m, m, customer, key);
    CreatedUnlessReplayed(db0, s, m, customer, key);
    WriterIsDone(db0, s, m);
    creator := s.log[m].tx;
    forall j | 0 <= j < |s.txs| && KeyReply(s.txs[j], customer, key)
      ensures s.txs[j].pc.entry.reply.replayed <==> j != creator
      ensures s.txs[j].pc.entry.reply.reservation == s.log[m].reply.reservation
      ensures s.txs[j].pc.entry.op.product == s.log[m].op.product && s.txs[j].pc.entry.op.quantity == s.log[m].op.quantity
    {
      var n := s.txs[j].at.value;
      assert s.log[n] == s.txs[j].pc.entry;
      NotBeforeFirst(s.log, m, n, customer, key);
      KeyedExactlyOnce(db0, s.log, m, n, customer, key);
      assert n != m ==> KeySucceeded(s.log, n, customer, key);
    }
  }

  /** A key used before the run began: every success is a replay of the stored reservation. */
  lemma StoredKeyOnlyReplayed(db0: Db, acts: seq<Action>, trace: seq<State>, k: nat, i: nat, customer: string, key: string)
    requires RunFrom(db0, acts, trace) && k < |trace| && KeyUsed(db0, customer, key)
    requires i < |trace[k].txs| && KeyReply(trace[k].txs[i], customer, key)
    ensures var e, r := trace[k].txs[i].pc.entry, KeyOwner(db0, customer, key);
            && e.reply.replayed && e.reply.reservation == r
            && e.op.product == db0.reservations[r].product && e.op.quantity == db0.reservations[r].quantity
  {
    Linearizable(db0, acts, trace, k);
    StoredKeyOnlyReplays(db0, trace[k].log, trace[k].txs[i].at.value, customer, key);
  }

  /**
    Every request with a key that begins after a success with it is answered, when it finishes,
    from that reservation: with the reservation itself if product and quantity are the same,
    with a conflict if not.
  */
  lemma RetryIsAnswered(db0: Db, acts: seq<Action>, trace: seq<State>, k: nat, m: nat, i: nat, j: nat,
                        customer: string, key: string)
    requires RunFrom(db0, acts, trace) && k <= m < |trace|
    requires i < |trace[k].txs| <= j < |trace[m].txs| && KeyReply(trace[k].txs[i], customer, key)
    requires trace[m].txs[j].pc.Done? && AsksKey(trace[m].txs[j].op, customer, key) && WellFormedRequest(trace[m].txs[j].op)
    ensures var first, retry := trace[k].txs[i].pc.entry, trace[m].txs[j].pc.entry;
            KeyAnswer(retry, first.reply.reservation, first.op.product, first.op.quantity)
  {
    Linearizable(db0, acts, trace, k);
    Linearizable(db0, acts, trace, m);
    RealTimeOrder(db0, acts, trace, k, m, i, j);
    RetryAnswered(db0, trace[m].log, trace[m].txs[i].at.value, trace[m].txs[j].at.value, customer, key);
  }

  /** So is every request with a key that was stored before the run, whenever it begins. */
  lemma StoredKeyIsAnswered(db0: Db, acts: seq<Action>, trace: seq<State>, k: nat, j: nat, r: Id, customer: string, key: string)
    requires RunFrom(db0, acts, trace) && k < |trace| && j < |trace[k].txs| && Stores(db0, r, customer, key)
    requires trace[k].txs[j].pc.Done? && AsksKey(trace[k].txs[j].op, customer, key) && WellFormedRequest(trace[k].txs[j].op)
    ensures KeyAnswer(trace[k].txs[j].pc.entry, r, db0.reservations[r].product, db0.reservations[r].quantity)
  {
    Linearizable(db0, acts, trace, k);
    StoredKeyAnsweredAlways(db0, trace[k].log, trace[k].txs[j].at.value, r, customer, key);
  }

  // ---------------------------------------------------------------- customers

  /** Whatever the interleaving, a reply shows a reservation only to its customer. */
  lemma ReservationsStayPrivate(db0: Db, acts: seq<Action>, trace: seq<State>, k: nat, i: nat)
    requires RunFrom(db0, acts, trace) && k < |trace| && i < |trace[k].txs| && trace[k].txs[i].pc.Done?
    ensures var op, reply := trace[k].txs[i].op, trace[k].txs[i].pc.entry.reply;
            && (reply.Reserved? ==> op.Reserve? && op.customer == Some(reply.rrow.customer))
            && (reply.CancelReply? ==>
                  op.Cancel? && op.reservation == reply.reservation && op.customer == Some(reply.rrow.customer))
  {
    InvAt(db0, acts, trace, k);
    Linearizable(db0, acts, trace, k);
    var s := trace[k];
    var n := s.txs[i].at.value;
    PrefixWellFormed(db0, s.log, n);
    ExplainedAt(db0, s.log, n);
    if s.log[n].reply.Reserved? || s.log[n].reply.CancelReply? { ShownToOwner(Replay(db0, s.log[..n]), s.log[n]); }
  }

  /** A reservation that was cancelled in between was cancelled by a finished request of its own customer. */
  lemma OnlyOwnerCancels(db0: Db, acts: seq<Action>, trace: seq<State>, k: nat, m: nat, r: Id) returns (i: nat)
    requires RunFrom(db0, acts, trace) && k <= m < |trace|
    requires r in trace[k].db.reservations && trace[k].db.reservations[r].status == ACTIVE
    requires r in trace[m].db.reservations && trace[m].db.reservations[r].status == CANCELLED
    ensures i < |trace[m].txs| && trace[m].txs[i].pc.Done?
    ensures trace[m].txs[i].op == Cancel(r, Some(trace[k].db.reservations[r].customer))
    ensures trace[m].txs[i].pc.entry.event.ReservationCancelled?
  {
    InvAt(db0, acts, trace, k);
    InvAt(db0, acts, trace, m);
    RunContinues(db0, acts, trace, k, m);
    var early, late := trace[k].log, trace[m].log;
    assert early == late[..|early|] && late == late[..|late|];
    var n := Canceller(db0, late, |early|, |late|, r);
    WriterIsDone(db0, trace[m], n);
    i := late[n].tx;
    assert PcOk(trace[m].db, trace[m].hash, i, trace[m].txs[i]);
  }

  ghost predicate CancelDone(t: Txn, r: Id) { t.pc.Done? && Cancels(t.pc.entry, r) }

  /** Cancels over a whole run: at most one returns stock, and all of them show the same row. */
  lemma CancelsShareOneRelease(db0: Db, acts: seq<Action>, trace: seq<State>, k: nat, i: nat, j: nat, r: Id)
    requires RunFrom(db0, acts, trace) && k < |trace|
    requires i < |trace[k].txs| && j < |trace[k].txs| && i != j
    requires CancelDone(trace[k].txs[i], r) && CancelDone(trace[k].txs[j], r)
    ensures trace[k].txs[i].pc.entry.reply == trace[k].txs[j].pc.entry.reply
    ensures !(trace[k].txs[i].pc.entry.event.ReservationCancelled? && trace[k].txs[j].pc.entry.event.ReservationCancelled?)
  {
    Linearizable(db0, acts, trace, k);
    var s := trace[k];
    var m, n := s.txs[i].at.value, s.txs[j].at.value;
    if m < n {
      CancelledExactlyOnce(db0, s.log, m, n, r);
    } else {
      CancelledExactlyOnce(db0, s.log, n, m, r);
    }
  }

  /** No interleaving commits two product creations whose SKUs differ only in case and surrounding blanks. */
  lemma SkuVariantsNeverBothCommit(db0: Db, acts: seq<Action>, trace: seq<State>, k: nat, i: nat, j: nat,
                                   x: string, a: string, y: string, z: string, b: string, w: string)
    requires RunFrom(db0, acts, trace) && k < |trace|
    requires i < |trace[k].txs| && j < |trace[k].txs| && i != j
    requires trace[k].txs[i].op.CreateProduct? && trace[k].txs[i].op.sku == Some(x + a + y)
    requires trace[k].txs[j].op.CreateProduct? && trace[k].txs[j].op.sku == Some(z + b + w)
    requires (forall c | c in x + y :: TrimmedChar(c)) && (forall c | c in z + w :: TrimmedChar(c)) && EqualIgnoringCase(a, b)
    requires trace[k].txs[i].pc.Done? && trace[k].txs[j].pc.Done?
    ensures trace[k].txs[i].pc.entry.reply.Rejected? || trace[k].txs[j].pc.entry.reply.Rejected?
  {
    Linearizable(db0, acts, trace, k);
    var s := trace[k];
    var m, n := s.txs[i].at.value, s.txs[j].at.value;
    SkuVariantsExclude(db0, s.log, m, n, x, a, y, z, b, w);
    ExplainedAt(db0, s.log, m);
    ExplainedAt(db0, s.log, n);
  }

  // ---------------------------------------------------------------- failures

  ghost predicate Failed(t: Txn) { t.pc.Aborted? || (t.pc.Done? && t.pc.entry.reply.Rejected?) }

  /** Whatever a failed transaction left in the history changes no row. */
  lemma FailedEntryIsInert(db0: Db, acts: seq<Action>, trace: seq<State>, k: nat, i: nat, n: nat)
    requires RunFrom(db0, acts, trace) && k < |trace| && i < |trace[k].txs| && Failed(trace[k].txs[i])
    requires n < |trace[k].log| && trace[k].log[n].tx == i
    ensures Replay(db0, trace[k].log[..n + 1]) == Replay(db0, trace[k].log[..n])
  {
    InvAt(db0, acts, trace, k);
    var s := trace[k];
    assert PcOk(s.db, s.hash, i, s.txs[i]) && AtOk(s.log, s.txs[i]);
    assert s.txs[s.log[n].tx].at == Some(n);
    ExplainedAt(db0, s.log, n);
    ReplayStep(db0, s.log, n);
    ApplyWrites(Replay(db0, s.log[..n]), s.log[n].op, s.log[n].id, s.log[n].now);
  }

  /**
    A finished request with a key that nobody else succeeded with is granted exactly when stock
    suffices at the place where it was decided, whatever else was under way.
  */
  lemma FreshKeyOutcome(db0: Db, acts: seq<Action>, trace: seq<State>, k: nat, i: nat)
    requires RunFrom(db0, acts, trace) && k < |trace| && i < |trace[k].txs| && trace[k].txs[i].pc.Done?
    requires var op := trace[k].txs[i].op;
             && op.Reserve? && WellFormedRequest(op) && op.key.Some? && Storable(op.customer.value)
             && !KeyUsed(db0, op.customer.value, op.key.value)
             && forall j | 0 <= j < |trace[k].txs| && j != i :: !KeyReply(trace[k].txs[j], op.customer.value, op.key.value)
    ensures var t := trace[k].txs[i];
            && t.at.Some? && t.at.value < |trace[k].log|
            && !(t.pc.entry.reply.Reserved? && t.pc.entry.reply.replayed)
            && (t.pc.entry.reply.Reserved? <==> t.op.quantity <= OnHand(Replay(db0, trace[k].log[..t.at.value]), t.op.product))
  {
    InvAt(db0, acts, trace, k);
    Linearizable(db0, acts, trace, k);
    var s, t := trace[k], trace[k].txs[i];
    var n, customer, key := t.at.value, t.op.customer.value, t.op.key.value;
    assert PcOk(s.db, s.hash, i, t);
    NoneBefore(db0, s, i, n, customer, key);
    KeyHistory(db0, s.log, n, customer, key);
    ExplainedAt(db0, s.log, n);
    NewReservationIff(Replay(db0, s.log[..n]), t.op, t.id, t.now);
  }

  lemma NewReservationIff(db: Db, op: Op, id: Id, now: Instant)
    requires op.Reserve? && WellFormedRequest(op) && op.key.Some? && Storable(op.customer.value)
    requires !KeyUsed(db, op.customer.value, op.key.value)
    ensures var e := Apply(db, op, id, now);
            && !(e.reply.Reserved? && e.reply.replayed)
            && (e.reply.Reserved? <==> op.quantity <= OnHand(db, op.product))
  {
  }

  lemma NoneBefore(db0: Db, s: State, i: nat, n: nat, customer: string, key: string)
    requires WellFormed(db0) && Inv(db0, s) && i < |s.txs| && s.txs[i].at == Some(n) && n < |s.log|
    requires !KeyUsed(db0, customer, key)
    requires forall j | 0 <= j < |s.txs| && j != i :: !KeyReply(s.txs[j], customer, key)
    ensures !KeySucceeded(s.log, n, customer, key)
  {
    if KeySucceeded(s.log, n, customer, key) {
      var q :| 0 <= q < n && KeySuccess(s.log[q], customer, key);
      var m := FirstSuccess(s.log, q, customer, key);
      KeyedExactlyOnce(db0, s.log, m, m, customer, key);
      CreatedUnlessReplayed(db0, s, m, customer, key);
      WriterIsDone(db0, s, m);
      assert s.txs[s.log[m].tx].at == Some(m);
      assert KeyReply(s.txs[s.log[m].tx], customer, key);
    }
  }
}
