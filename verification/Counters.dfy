/** The business counters of all replicas against the ledger, over every run. */
module Counters {
  import opened Common
  import opened Sums
  import opened Ledger
  import opened History
  import opened Metrics
  import opened Protocol
  import opened Linearizability
  import opened Runs

  function Counted(counters: seq<Tally>, c: Counter): int {
    if counters == [] then 0 else Counted(counters[..|counters| - 1], c) + counters[|counters| - 1].Of(c)
  }

  function Due(pending: seq<Callback>, c: Counter): int {
    if pending == [] then 0 else Due(pending[..|pending| - 1], c) + Delta(pending[|pending| - 1].event).Of(c)
  }

  ghost predicate CommitsOk(s: State) {
    forall m | 0 <= m < |s.commits| ::
      && s.commits[m].tx < |s.txs| && s.txs[s.commits[m].tx].pc == Done(s.commits[m])
      && !s.commits[m].reply.Rejected?
  }

  ghost predicate CounterOk(s: State, c: Counter) {
    && Counted(s.counters, c) + Due(s.pending, c) + s.lost.Of(c) == Count(s.commits, c)
    && (c.Moves() ==> Count(s.commits, c) == Count(s.log, c))
    && (forall k | 0 <= k < |s.pending| :: 0 <= Delta(s.pending[k].event).Of(c))
    && (forall k | 0 <= k < |s.counters| :: 0 <= s.counters[k].Of(c))
    && 0 <= s.lost.Of(c)
  }

  // ---------------------------------------------------------------- sums

  lemma {:induction false} CountedUpdate(counters: seq<Tally>, r: nat, t: Tally, c: Counter)
    requires r < |counters|
    ensures Counted(counters[r := t], c) == Counted(counters, c) - counters[r].Of(c) + t.Of(c)
  {
    var n := |counters| - 1;
    if r == n {
      assert counters[r := t][..n] == counters[..n];
    } else {
      assert counters[r := t][..n] == counters[..n][r := t];
      CountedUpdate(counters[..n], r, t, c);
    }
  }

  lemma DueAppend(pending: seq<Callback>, last: Callback, c: Counter)
    ensures Due(pending + [last], c) == Due(pending, c) + Delta(last.event).Of(c)
  {
    assert (pending + [last])[..|pending|] == pending;
  }

  lemma {:induction false} DueRemove(pending: seq<Callback>, k: nat, c: Counter)
    requires k < |pending|
    ensures Due(pending[..k] + pending[k + 1..], c) == Due(pending, c) - Delta(pending[k].event).Of(c)
  {
    var n := |pending| - 1;
    var rest := pending[..k] + pending[k + 1..];
    if k == n {
      assert rest == pending[..n];
    } else {
      assert rest[..n - 1] == pending[..n][..k] + pending[..n][k + 1..];
      DueRemove(pending[..n], k, c);
    }
  }

  lemma {:induction false} DueSplit(pending: seq<Callback>, r: nat, c: Counter)
    requires forall k | 0 <= k < |pending| :: 0 <= Delta(pending[k].event).Of(c)
    ensures Due(KeepOthers(pending, r), c) + SumOn(pending, r).Of(c) == Due(pending, c)
    ensures forall k | 0 <= k < |KeepOthers(pending, r)| :: 0 <= Delta(KeepOthers(pending, r)[k].event).Of(c)
    ensures 0 <= SumOn(pending, r).Of(c)
  {
    if pending != [] {
      var n := |pending| - 1;
      DueSplit(pending[..n], r, c);
      PlusOf(SumOn(pending[..n], r), Delta(pending[n].event), c);
      DueAppend(KeepOthers(pending[..n], r), pending[n], c);
    }
  }

  lemma {:induction false} DueNonNegative(pending: seq<Callback>, c: Counter)
    requires forall k | 0 <= k < |pending| :: 0 <= Delta(pending[k].event).Of(c)
    ensures 0 <= Due(pending, c)
  {
    if pending != [] {
      DueNonNegative(pending[..|pending| - 1], c);
    }
  }

  // ---------------------------------------------------------------- steps

  /** What one transaction step means for the counters. */
  ghost predicate StepCounts(s: State, s': State, i: nat) {
    && s'.counters == s.counters && s'.lost == s.lost && i < |s.txs| == |s'.txs| && s.txs[i].Active()
    && (forall j | 0 <= j < |s.txs| && j != i :: s'.txs[j] == s.txs[j])
    && if s'.commits == s.commits
       then
         && s'.pending == s.pending
         && (s'.log == s.log || (exists e :: s'.log == s.log + [e] && !Writes(e.event)))
       else
         && s'.txs[i].pc.Done?
         && var e := s'.txs[i].pc.entry;
            && e.tx == i && !e.reply.Rejected? && (forall c :: 0 <= Delta(e.event).Of(c))
            && s'.commits == s.commits + [e] && s'.pending == s.pending + [Callback(s.txs[i].replica, e.event)]
            && s'.log == (if Writes(e.event) then s.log + [e] else s.log)
  }

  lemma StepIsCounted(s: State, i: nat)
    requires CanStep(s, i) && PcOk(s.db, s.hash, i, s.txs[i])
    ensures StepCounts(s, StepTx(s, i), i)
  {
    if !s.txs[i].pc.Committing? && !s.txs[i].pc.Replaying? {
      StepIsQuiet(s, i);
      var s' := StepTx(s, i);
      assert s'.log != s.log ==> s'.log == s.log + [s'.log[|s.log|]];
    }
  }

  lemma LoggedKeeps(s: State, s': State, i: nat, c: Counter)
    requires CounterOk(s, c) && StepCounts(s, s', i) && s'.commits == s.commits
    ensures CounterOk(s', c)
  {
    if s'.log != s.log {
      var e :| s'.log == s.log + [e] && !Writes(e.event);
      CountAppend(s.log, e, c);
    }
  }

  lemma CommittedSums(s: State, s': State, e: Entry, replica: nat, c: Counter)
    requires CounterOk(s, c) && s'.counters == s.counters && s'.lost == s.lost
    requires s'.commits == s.commits + [e] && s'.pending == s.pending + [Callback(replica, e.event)]
    requires s'.log == (if Writes(e.event) then s.log + [e] else s.log)
    ensures Counted(s'.counters, c) + Due(s'.pending, c) + s'.lost.Of(c) == Count(s'.commits, c)
    ensures c.Moves() ==> Count(s'.commits, c) == Count(s'.log, c)
  {
    CountAppend(s.commits, e, c);
    CountAppend(s.log, e, c);
    DueAppend(s.pending, Callback(replica, e.event), c);
  }

  lemma CommittedSigns(pending: seq<Callback>, last: Callback, c: Counter)
    requires forall k | 0 <= k < |pending| :: 0 <= Delta(pending[k].event).Of(c)
    requires 0 <= Delta(last.event).Of(c)
    ensures forall k | 0 <= k < |pending + [last]| :: 0 <= Delta((pending + [last])[k].event).Of(c)
  {
  }

  lemma CommittedKeeps(s: State, s': State, e: Entry, replica: nat, c: Counter)
    requires CounterOk(s, c) && s'.counters == s.counters && s'.lost == s.lost && 0 <= Delta(e.event).Of(c)
    requires s'.commits == s.commits + [e] && s'.pending == s.pending + [Callback(replica, e.event)]
    requires s'.log == (if Writes(e.event) then s.log + [e] else s.log)
    ensures CounterOk(s', c)
  {
    CommittedSums(s, s', e, replica, c);
    CommittedSigns(s.pending, Callback(replica, e.event), c);
  }

  lemma CountedKeeps(s: State, s': State, i: nat, c: Counter)
    requires CounterOk(s, c) && StepCounts(s, s', i)
    ensures CounterOk(s', c)
  {
    if s'.commits == s.commits {
      LoggedKeeps(s, s', i, c);
    } else {
      CommittedKeeps(s, s', s'.txs[i].pc.entry, s.txs[i].replica, c);
    }
  }

  lemma ActionKeepsCommits(s: State, a: Action)
    requires TxsOk(s) && CommitsOk(s) && Enabled(s, a)
    ensures CommitsOk(After(s, a))
  {
    if a.Step? {
      assert PcOk(s.db, s.hash, a.tx, s.txs[a.tx]);
      StepIsCounted(s, a.tx);
    }
  }

  lemma BeginKeepsCounter(s: State, a: Action, c: Counter)
    requires a.Begin? && CounterOk(s, c) && Enabled(s, a)
    ensures CounterOk(After(s, a), c)
  {
    if !WellFormedRequest(a.op) {
      var t := Txn(a.op, a.replica, a.id, a.now, FirstPc(a.op), {}, |s.log|, None);
      CountAppend(s.log, EntryOf(|s.txs|, t, Rejected(Invalid), NoEvent), c);
    }
  }

  lemma CallbackKeepsCounter(s: State, k: nat, c: Counter)
    requires CounterOk(s, c) && Enabled(s, RunCallback(k))
    ensures CounterOk(After(s, RunCallback(k)), c)
  {
    var b := s.pending[k];
    DueRemove(s.pending, k, c);
    PlusOf(s.counters[b.replica], Delta(b.event), c);
    CountedUpdate(s.counters, b.replica, s.counters[b.replica].Plus(Delta(b.event)), c);
  }

  lemma StopKeepsCounter(s: State, r: nat, c: Counter)
    requires CounterOk(s, c) && Enabled(s, Stop(r))
    ensures CounterOk(After(s, Stop(r)), c)
  {
    DueSplit(s.pending, r, c);
    PlusOf(s.lost, s.counters[r], c);
    PlusOf(s.lost.Plus(s.counters[r]), SumOn(s.pending, r), c);
    CountedUpdate(s.counters, r, NoTally, c);
  }

  lemma ActionKeepsCounter(s: State, a: Action, c: Counter)
    requires TxsOk(s) && CounterOk(s, c) && Enabled(s, a)
    ensures CounterOk(After(s, a), c)
  {
    match a {
      case Begin(_, _, _, _) => BeginKeepsCounter(s, a, c);
      case Step(i) =>
        assert PcOk(s.db, s.hash, i, s.txs[i]);
        StepIsCounted(s, i);
        CountedKeeps(s, StepTx(s, i), i, c);
      case Abort(_) =>
      case RunCallback(k) => CallbackKeepsCounter(s, k, c);
      case Stop(r) => StopKeepsCounter(s, r, c);
    }
  }

  lemma {:induction false} NothingCounted(counters: seq<Tally>, c: Counter)
    requires forall k | 0 <= k < |counters| :: 0 <= counters[k].Of(c)
    ensures 0 <= Counted(counters, c)
    ensures (forall k | 0 <= k < |counters| :: counters[k] == NoTally) ==> Counted(counters, c) == 0
  {
    if counters != [] {
      NothingCounted(counters[..|counters| - 1], c);
    }
  }

  lemma LostOnlyOnStop(s: State, a: Action)
    requires Enabled(s, a)
    ensures !a.Stop? ==> After(s, a).lost == s.lost
  {
  }

  lemma NextCounters(db0: Db, acts: seq<Action>, trace: seq<State>, k: nat, c: Counter)
    requires RunFrom(db0, acts, trace) && k < |acts| && CommitsOk(trace[k]) && CounterOk(trace[k], c)
    ensures CommitsOk(trace[k + 1]) && CounterOk(trace[k + 1], c)
    ensures !acts[k].Stop? ==> trace[k + 1].lost == trace[k].lost
  {
    InvAt(db0, acts, trace, k);
    ActionKeepsCommits(trace[k], acts[k]);
    ActionKeepsCounter(trace[k], acts[k], c);
    LostOnlyOnStop(trace[k], acts[k]);
  }

  lemma {:induction false} CountersAt(db0: Db, acts: seq<Action>, trace: seq<State>, k: nat, c: Counter)
    requires RunFrom(db0, acts, trace) && k < |trace|
    ensures CommitsOk(trace[k]) && CounterOk(trace[k], c)
    ensures (forall n | 0 <= n < k :: !acts[n].Stop?) ==> trace[k].lost == NoTally
  {
    if k == 0 {
      NothingCounted(trace[0].counters, c);
    } else {
      CountersAt(db0, acts, trace, k - 1, c);
      NextCounters(db0, acts, trace, k - 1, c);
    }
  }

  /**
    The counters agree with the ledger. Summed over replicas, what is counted, still due
    and lost with stopped replicas is exactly what the committed operations amount to, so
    no counter ever exceeds its ledger value.
  */
  lemma CountersAgreeWithLedger(db0: Db, acts: seq<Action>, trace: seq<State>, k: nat, c: Counter)
    requires RunFrom(db0, acts, trace) && k < |trace|
    ensures Counted(trace[k].counters, c) + Due(trace[k].pending, c) + trace[k].lost.Of(c) == Count(trace[k].commits, c)
    ensures 0 <= Counted(trace[k].counters, c) <= Count(trace[k].commits, c)
  {
    CountersAt(db0, acts, trace, k, c);
    DueNonNegative(trace[k].pending, c);
    NothingCounted(trace[k].counters, c);
  }

  /** The ledger values account for every unit of stock and every row in the database. */
  lemma LedgerAgreesWithRows(db0: Db, acts: seq<Action>, trace: seq<State>, k: nat)
    requires RunFrom(db0, acts, trace) && k < |trace|
    ensures Agrees(db0, trace[k].db, trace[k].commits)
  {
    InvAt(db0, acts, trace, k);
    TotalsAgree(db0, trace[k].log, |trace[k].log|);
    assert trace[k].log[..|trace[k].log|] == trace[k].log;
    forall c: Counter | c.Moves() ensures Count(trace[k].commits, c) == Count(trace[k].log, c) {
      CountersAt(db0, acts, trace, k, c);
    }
  }

  /** Once callbacks have run and no replica ever stopped, the visible counters match the database. */
  lemma QuietCountersAreExact(db0: Db, acts: seq<Action>, trace: seq<State>, k: nat)
    requires RunFrom(db0, acts, trace) && k < |trace| && trace[k].pending == []
    requires forall n | 0 <= n < k :: !acts[n].Stop?
    ensures forall c :: Counted(trace[k].counters, c) == Count(trace[k].commits, c)
    ensures var s := trace[k];
            && Total(Available(s.db)) == Total(Available(db0)) + Counted(s.counters, StockAddedTotal)
                 - Counted(s.counters, StockReservedTotal) + Counted(s.counters, StockReleasedTotal)
            && Total(Actives(s.db)) == Total(Actives(db0))
                 + Counted(s.counters, ReservationsTotal) - Counted(s.counters, ReservationsCancelledTotal)
  {
    forall c: Counter ensures Counted(trace[k].counters, c) == Count(trace[k].commits, c) {
      CountersAt(db0, acts, trace, k, c);
    }
    LedgerAgreesWithRows(db0, acts, trace, k);
  }

  /** A rejected or aborted transaction never reaches the commits, so no counter ever shows it. */
  lemma FailuresAreNeverCounted(db0: Db, acts: seq<Action>, trace: seq<State>, k: nat, m: nat)
    requires RunFrom(db0, acts, trace) && k < |trace| && m < |trace[k].commits|
    ensures var e := trace[k].commits[m];
            && e.tx < |trace[k].txs| && trace[k].txs[e.tx].pc == Done(e) && !e.reply.Rejected?
            && exists n :: 0 <= n < |trace[k].log| && trace[k].log[n] == e
  {
    CountersAt(db0, acts, trace, k, ProductsTotal);
    Linearizable(db0, acts, trace, k);
    var e := trace[k].commits[m];
    assert trace[k].log[trace[k].txs[e.tx].at.value] == e;
  }

  /**
    Rejected work leaves no trace, over every run: a transaction that ended by a rejection, an
    abort or a stopped replica holds no lock, is not among the commits, and changed no row;
    so no counter, visible or still due, ever shows it.
  */
  lemma FailureLeavesNoTrace(db0: Db, acts: seq<Action>, trace: seq<State>, k: nat, i: nat)
    requires RunFrom(db0, acts, trace) && k < |trace| && i < |trace[k].txs| && Failed(trace[k].txs[i])
    ensures trace[k].txs[i].held == {}
    ensures forall m | 0 <= m < |trace[k].commits| :: trace[k].commits[m].tx != i
    ensures forall n | 0 <= n < |trace[k].log| && trace[k].log[n].tx == i ::
              Replay(db0, trace[k].log[..n + 1]) == Replay(db0, trace[k].log[..n])
  {
    InvAt(db0, acts, trace, k);
    CountersAt(db0, acts, trace, k, ProductsTotal);
    assert PcOk(trace[k].db, trace[k].hash, i, trace[k].txs[i]);
    forall n | 0 <= n < |trace[k].log| && trace[k].log[n].tx == i
      ensures Replay(db0, trace[k].log[..n + 1]) == Replay(db0, trace[k].log[..n])
    {
      FailedEntryIsInert(db0, acts, trace, k, i, n);
    }
  }
}
