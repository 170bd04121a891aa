/**
  Contention for one product: how many of the requests competing for its stock succeed,
  in every interleaving, while nothing else touches that product.
*/
module Contention {
  import opened Common
  import opened Validation
  import opened Ledger
  import opened History
  import opened Protocol
  import opened Linearizability
  import opened Runs

  /** A request for q units of product p. */
  predicate Contender(op: Op, p: Id, q: int) {
    op.Reserve? && op.product == p && op.quantity == q && WellFormedRequest(op) && Storable(op.customer.value)
  }

  /** An operation that cannot move stock of p; `db` is the database at the end of the run. */
  predicate Unrelated(op: Op, db: Db, p: Id) {
    match op
    case CreateProduct(_, _, _) => true
    case AddStock(product, _) => product != p
    case Reserve(product, _, _, _) => product != p || !WellFormedRequest(op) || !Storable(op.customer.value)
    case Cancel(r, _) => r in db.reservations ==> db.reservations[r].product != p
  }

  predicate SameKey(a: Op, b: Op) {
    a.Reserve? && b.Reserve? && a.key.Some? && a.key == b.key && a.customer == b.customer
  }

  predicate Won(e: Entry, p: Id, q: int) { Contender(e.op, p, q) && e.event.ReservationCreated? }

  // ---------------------------------------------------------------- on the history

  function Tries(log: seq<Entry>, p: Id, q: int): nat {
    if log == [] then 0
    else Tries(log[..|log| - 1], p, q) + if Contender(log[|log| - 1].op, p, q) then 1 else 0
  }

  function Wins(log: seq<Entry>, p: Id, q: int): nat {
    if log == [] then 0
    else Wins(log[..|log| - 1], p, q) + if Won(log[|log| - 1], p, q) then 1 else 0
  }

  ghost predicate NewKey(db: Db, op: Op) {
    op.Reserve? && WellFormedRequest(op) && op.key.Some? ==> !KeyUsed(db, op.customer.value, op.key.value)
  }

  lemma ContenderStep(db: Db, e: Entry, p: Id, q: int)
    requires Explained(db, e) && Contender(e.op, p, q) && p in db.products && NewKey(db, e.op)
    ensures e.event.ReservationCreated? <==> q <= OnHand(db, p)
    ensures OnHand(ApplyEntry(db, e).db, p) == OnHand(db, p) - (if e.event.ReservationCreated? then q else 0)
  {
  }

  lemma UnrelatedStep(db: Db, e: Entry, later: Db, p: Id)
    requires Explained(db, e) && Unrelated(e.op, later, p) && p in db.products && Evolves(db, later)
    ensures OnHand(ApplyEntry(db, e).db, p) == OnHand(db, p)
  {
  }

  ghost predicate IsolatedLog(db0: Db, log: seq<Entry>, end: Db, p: Id, q: int) {
    && p in db0.products
    && forall n {:trigger log[n]} | 0 <= n < |log| ::
         (if Contender(log[n].op, p, q) then NewKey(Replay(db0, log[..n]), log[n].op) else Unrelated(log[n].op, end, p))
  }

  lemma HistoryStep(db0: Db, log: seq<Entry>, m: nat, p: Id, q: int)
    requires Explains(db0, log) && m < |log|
    requires IsolatedLog(db0, log, Replay(db0, log), p, q)
    ensures var before, after := OnHand(Replay(db0, log[..m]), p), OnHand(Replay(db0, log[..m + 1]), p);
            if Contender(log[m].op, p, q)
            then (Won(log[m], p, q) <==> q <= before) && after == before - (if Won(log[m], p, q) then q else 0)
            else after == before
  {
    RowsEvolve(db0, log, m, |log|);
    RowsEvolve(db0, log, 0, m);
    assert log[..|log|] == log && log[..0] == [];
    ExplainedAt(db0, log, m);
    ReplayStep(db0, log, m);
    if Contender(log[m].op, p, q) {
      ContenderStep(Replay(db0, log[..m]), log[m], p, q);
    } else {
      UnrelatedStep(Replay(db0, log[..m]), log[m], Replay(db0, log), p);
    }
  }

  /** How stock, wins and tries stand after some prefix of the history. */
  ghost predicate Standing(start: int, now: int, wins: nat, tries: nat, q: int) {
    now == start - q * wins && 0 <= now && wins <= tries && (wins < tries ==> now < q)
  }

  lemma StandingStep(start: int, before: int, after: int, wins: nat, tries: nat, q: int, contends: bool, won: bool)
    requires Standing(start, before, wins, tries, q) && 1 <= q
    requires if contends then (won <==> q <= before) && after == before - (if won then q else 0)
             else !won && after == before
    ensures Standing(start, after, wins + (if won then 1 else 0), tries + (if contends then 1 else 0), q)
  {
    assert q * (wins + 1) == q * wins + q;
  }

  lemma {:induction false} ContentionHistory(db0: Db, log: seq<Entry>, n: nat, p: Id, q: int)
    requires Explains(db0, log) && n <= |log| && ValidQuantity(q) && 0 <= OnHand(db0, p)
    requires IsolatedLog(db0, log, Replay(db0, log), p, q)
    ensures Standing(OnHand(db0, p), OnHand(Replay(db0, log[..n]), p), Wins(log[..n], p, q), Tries(log[..n], p, q), q)
    decreases n
  {
    if n == 0 {
      assert log[..0] == [];
    } else {
      var m := n - 1;
      ContentionHistory(db0, log, m, p, q);
      assert log[..n][..m] == log[..m] && log[..n][m] == log[m];
      HistoryStep(db0, log, m, p, q);
      StandingStep(OnHand(db0, p), OnHand(Replay(db0, log[..m]), p), OnHand(Replay(db0, log[..n]), p),
                Wins(log[..m], p, q), Tries(log[..m], p, q), q, Contender(log[m].op, p, q), Won(log[m], p, q));
    }
  }

  // ---------------------------------------------------------------- on the run

  ghost predicate Isolated(db0: Db, s: State, p: Id, q: int) {
    && p in db0.products
    && (forall i | 0 <= i < |s.txs| :: Contender(s.txs[i].op, p, q) || Unrelated(s.txs[i].op, s.db, p))
    && (forall i, j | 0 <= i < |s.txs| && 0 <= j < |s.txs| && i != j && Contender(s.txs[i].op, p, q) ::
          !SameKey(s.txs[i].op, s.txs[j].op))
    && (forall i | 0 <= i < |s.txs| && Contender(s.txs[i].op, p, q) :: NewKey(db0, s.txs[i].op))
  }

  /** The requests competing for p, and those of them that were granted. */
  ghost function Contenders(s: State, p: Id, q: int): set<int> {
    set i | 0 <= i < |s.txs| && Contender(s.txs[i].op, p, q)
  }

  ghost function Granted(s: State, p: Id, q: int): set<int> {
    set i | 0 <= i < |s.txs| && s.txs[i].pc.Done? && Won(s.txs[i].pc.entry, p, q)
  }

  ghost function TriedBy(log: seq<Entry>, p: Id, q: int): set<int> {
    set k | 0 <= k < |log| && Contender(log[k].op, p, q) :: log[k].tx
  }

  ghost function WonBy(log: seq<Entry>, p: Id, q: int): set<int> {
    set k | 0 <= k < |log| && Won(log[k], p, q) :: log[k].tx
  }

  ghost predicate DistinctTxs(log: seq<Entry>) {
    forall k, m | 0 <= k < |log| && 0 <= m < |log| && log[k].tx == log[m].tx :: k == m
  }

  lemma {:induction false} CountsByTx(log: seq<Entry>, p: Id, q: int)
    requires DistinctTxs(log)
    ensures |TriedBy(log, p, q)| == Tries(log, p, q)
    ensures |WonBy(log, p, q)| == Wins(log, p, q)
  {
    if log == [] {
      assert TriedBy(log, p, q) == {} && WonBy(log, p, q) == {};
    } else {
      var n := |log| - 1;
      var init, last := log[..n], log[n];
      assert log == init + [last];
      assert DistinctTxs(init) by {
        forall k, m | 0 <= k < n && 0 <= m < n && init[k].tx == init[m].tx ensures k == m {
          assert log[k].tx == log[m].tx;
        }
      }
      CountsByTx(init, p, q);
      CountsStep(init, last, p, q);
    }
  }

  lemma CountsStep(init: seq<Entry>, last: Entry, p: Id, q: int)
    requires DistinctTxs(init + [last])
    ensures |TriedBy(init + [last], p, q)| == |TriedBy(init, p, q)| + if Contender(last.op, p, q) then 1 else 0
    ensures |WonBy(init + [last], p, q)| == |WonBy(init, p, q)| + if Won(last, p, q) then 1 else 0
  {
    SplitTried(init, last, p, q);
    SplitWon(init, last, p, q);
    var log := init + [last];
    forall k | 0 <= k < |init| ensures init[k].tx != last.tx {
      assert log[k].tx == init[k].tx && log[|init|].tx == last.tx;
    }
    assert last.tx !in TriedBy(init, p, q) && last.tx !in WonBy(init, p, q);
  }

  lemma SplitTried(init: seq<Entry>, last: Entry, p: Id, q: int)
    ensures TriedBy(init + [last], p, q) == TriedBy(init, p, q) + if Contender(last.op, p, q) then {last.tx} else {}
  {
    var log := init + [last];
    forall x | x in TriedBy(init, p, q) ensures x in TriedBy(log, p, q) {
      var k :| 0 <= k < |init| && Contender(init[k].op, p, q) && init[k].tx == x;
      assert log[k] == init[k];
    }
    assert log[|init|] == last;
  }

  lemma SplitWon(init: seq<Entry>, last: Entry, p: Id, q: int)
    ensures WonBy(init + [last], p, q) == WonBy(init, p, q) + if Won(last, p, q) then {last.tx} else {}
  {
    var log := init + [last];
    forall x | x in WonBy(init, p, q) ensures x in WonBy(log, p, q) {
      var k :| 0 <= k < |init| && Won(init[k], p, q) && init[k].tx == x;
      assert log[k] == init[k];
    }
    assert log[|init|] == last;
  }

  lemma RunIsIsolatedLog(db0: Db, s: State, p: Id, q: int)
    requires Inv(db0, s) && Isolated(db0, s, p, q) && WellFormed(db0)
    ensures IsolatedLog(db0, s.log, s.db, p, q)
  {
    forall n {:trigger s.log[n]} | 0 <= n < |s.log|
      ensures if Contender(s.log[n].op, p, q) then NewKey(Replay(db0, s.log[..n]), s.log[n].op)
              else Unrelated(s.log[n].op, s.db, p)
    {
      var op := s.log[n].op;
      assert s.txs[s.log[n].tx].op == op;
      if Contender(op, p, q) && op.key.Some? {
        KeyHistory(db0, s.log, n, op.customer.value, op.key.value);
        forall i | 0 <= i < n ensures !KeySuccess(s.log[i], op.customer.value, op.key.value) {
          assert s.txs[s.log[i].tx].op == s.log[i].op && s.txs[s.log[i].tx].at == Some(i);
          assert s.log[i].tx != s.log[n].tx;
        }
      }
    }
  }

  lemma GrantedIsWonBy(db0: Db, s: State, p: Id, q: int)
    requires Inv(db0, s)
    ensures Granted(s, p, q) == WonBy(s.log, p, q)
  {
    forall i | i in Granted(s, p, q) ensures i in WonBy(s.log, p, q) {
      assert PcOk(s.db, s.hash, i, s.txs[i]) && AtOk(s.log, s.txs[i]);
      assert s.log[s.txs[i].at.value] == s.txs[i].pc.entry;
    }
    forall i | i in WonBy(s.log, p, q) ensures i in Granted(s, p, q) {
      var k :| 0 <= k < |s.log| && Won(s.log[k], p, q) && s.log[k].tx == i;
      WriterIsDone(db0, s, k);
    }
  }

  lemma TriedIsContenders(db0: Db, s: State, p: Id, q: int)
    requires Inv(db0, s)
    requires forall i | 0 <= i < |s.txs| && Contender(s.txs[i].op, p, q) :: s.txs[i].pc.Done?
    ensures Contenders(s, p, q) == TriedBy(s.log, p, q)
  {
    forall i | i in Contenders(s, p, q) ensures i in TriedBy(s.log, p, q) {
      assert PcOk(s.db, s.hash, i, s.txs[i]) && AtOk(s.log, s.txs[i]);
      assert s.log[s.txs[i].at.value] == s.txs[i].pc.entry;
    }
    forall i | i in TriedBy(s.log, p, q) ensures i in Contenders(s, p, q) {
      var k :| 0 <= k < |s.log| && Contender(s.log[k].op, p, q) && s.log[k].tx == i;
      assert s.txs[i].op == s.log[k].op;
    }
  }

  lemma RunStanding(db0: Db, acts: seq<Action>, trace: seq<State>, k: nat, p: Id, q: int)
    requires RunFrom(db0, acts, trace) && k < |trace| && ValidQuantity(q) && Isolated(db0, trace[k], p, q)
    ensures Inv(db0, trace[k])
    ensures Standing(OnHand(db0, p), OnHand(trace[k].db, p), |Granted(trace[k], p, q)|, Tries(trace[k].log, p, q), q)
    ensures |TriedBy(trace[k].log, p, q)| == Tries(trace[k].log, p, q)
  {
    var s := trace[k];
    InvAt(db0, acts, trace, k);
    RunIsIsolatedLog(db0, s, p, q);
    ContentionHistory(db0, s.log, |s.log|, p, q);
    assert s.log[..|s.log|] == s.log;
    assert DistinctTxs(s.log) by {
      forall m, n | 0 <= m < |s.log| && 0 <= n < |s.log| && s.log[m].tx == s.log[n].tx ensures m == n {
        assert s.txs[s.log[m].tx].at == Some(m) && s.txs[s.log[n].tx].at == Some(n);
      }
    }
    CountsByTx(s.log, p, q);
    GrantedIsWonBy(db0, s, p, q);
  }

  function Min(a: int, b: int): int { if a <= b then a else b }

  /** Under any interleaving, with any timeouts, never more requests are granted than the stock covers. */
  lemma NeverMoreThanStock(db0: Db, acts: seq<Action>, trace: seq<State>, k: nat, p: Id, q: int)
    requires RunFrom(db0, acts, trace) && k < |trace| && ValidQuantity(q) && Isolated(db0, trace[k], p, q)
    ensures |Granted(trace[k], p, q)| <= OnHand(db0, p) / q
    ensures OnHand(trace[k].db, p) == OnHand(db0, p) - q * |Granted(trace[k], p, q)|
  {
    RunStanding(db0, acts, trace, k, p, q);
    DivideBound(OnHand(db0, p), q, |Granted(trace[k], p, q)|);
  }

  lemma DivideBound(stock: int, q: int, wins: nat)
    requires 1 <= q
    ensures q * wins <= stock ==> wins <= stock / q
    ensures 0 <= stock - q * wins < q ==> wins == stock / q
  {
    var d := stock / q;
    assert stock == q * d + stock % q;
    if d < wins {
      MulMono(q, d + 1, wins);
    } else if wins < d {
      MulMono(q, wins + 1, d);
    }
  }

  lemma MulMono(q: int, a: int, b: int)
    requires 1 <= q && a <= b
    ensures q * a <= q * b
  {
  }

  /**
    Exact contention outcome: when every one of the n competing requests has finished,
    exactly min(n, stock div q) were granted and the rest of the stock is still there.
  */
  lemma ContentionOutcome(db0: Db, acts: seq<Action>, trace: seq<State>, k: nat, p: Id, q: int)
    requires RunFrom(db0, acts, trace) && k < |trace| && ValidQuantity(q) && Isolated(db0, trace[k], p, q)
    requires forall i | 0 <= i < |trace[k].txs| && Contender(trace[k].txs[i].op, p, q) :: trace[k].txs[i].pc.Done?
    ensures |Granted(trace[k], p, q)| == Min(|Contenders(trace[k], p, q)|, OnHand(db0, p) / q)
    ensures OnHand(trace[k].db, p) == OnHand(db0, p) - q * Min(|Contenders(trace[k], p, q)|, OnHand(db0, p) / q)
  {
    RunStanding(db0, acts, trace, k, p, q);
    TriedIsContenders(db0, trace[k], p, q);
    DivideBound(OnHand(db0, p), q, |Granted(trace[k], p, q)|);
  }
}
