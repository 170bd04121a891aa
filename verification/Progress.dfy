/** Lock order: no deadlock in any reachable state, and no run without new work lasts. */
module Progress {
  import opened Common
  import opened Ledger
  import opened History
  import opened Protocol
  import opened Linearizability
  import opened Runs

  /** The order locks are taken in: advisory key, reservation row, product row. */
  function Rank(r: Resource): nat {
    match r
    case KeyLock(_) => 0
    case ReservationLock(_) => 1
    case ProductLock(_) => 2
    case SkuLock(_) => 2
  }

  /** Transaction i needs a lock transaction j holds. */
  ghost predicate WaitsFor(s: State, i: nat, j: nat) {
    && i < |s.txs| && j < |s.txs| && i != j && PcFits(s.txs[i])
    && Wants(s, s.txs[i]).Some? && Wants(s, s.txs[i]).value in s.txs[j].held
  }

  ghost function WantedRank(s: State, i: nat): nat
    requires i < |s.txs| && PcFits(s.txs[i])
  {
    if Wants(s, s.txs[i]).Some? then Rank(Wants(s, s.txs[i]).value) else 3
  }

  /** Along every waits-for edge the wanted rank climbs, even when lock hashes collide. */
  lemma WaitClimbs(s: State, i: nat, j: nat)
    requires TxsOk(s) && WaitsFor(s, i, j)
    ensures s.txs[j].Active() && PcFits(s.txs[j])
    ensures WantedRank(s, i) < WantedRank(s, j)
  {
    assert PcOk(s.db, s.hash, j, s.txs[j]);
  }

  ghost predicate WaitPath(s: State, path: seq<nat>) {
    |path| >= 2 && forall k {:trigger path[k]} | 0 <= k < |path| - 1 :: WaitsFor(s, path[k], path[k + 1])
  }

  lemma {:induction false} PathClimbs(s: State, path: seq<nat>)
    requires TxsOk(s) && WaitPath(s, path)
    ensures path[0] < |s.txs| && PcFits(s.txs[path[0]])
    ensures path[|path| - 1] < |s.txs| && PcFits(s.txs[path[|path| - 1]])
    ensures WantedRank(s, path[0]) < WantedRank(s, path[|path| - 1])
  {
    var n := |path| - 1;
    assert WaitsFor(s, path[n - 1], path[n - 1 + 1]);
    WaitClimbs(s, path[n - 1], path[n]);
    if n > 1 {
      PathClimbs(s, path[..n]);
    }
  }

  /** The waits-for graph of every reachable state has no cycle of any length. */
  lemma NoDeadlock(db0: Db, acts: seq<Action>, trace: seq<State>, k: nat, path: seq<nat>)
    requires RunFrom(db0, acts, trace) && k < |trace| && WaitPath(trace[k], path)
    ensures path[0] != path[|path| - 1]
  {
    InvAt(db0, acts, trace, k);
    PathClimbs(trace[k], path);
  }

  lemma Runnable(s: State, i: nat) returns (j: nat)
    requires TxsOk(s) && i < |s.txs| && s.txs[i].Active()
    ensures CanStep(s, j)
    decreases 3 - (if PcFits(s.txs[i]) then WantedRank(s, i) else 0)
  {
    assert PcOk(s.db, s.hash, i, s.txs[i]);
    j := i;
    if !CanStep(s, i) {
      var r := Wants(s, s.txs[i]).value;
      var h :| 0 <= h < |s.txs| && h != i && r in s.txs[h].held;
      assert WaitsFor(s, i, h);
      WaitClimbs(s, i, h);
      j := Runnable(s, h);
    }
  }

  lemma RunnableAt(db0: Db, acts: seq<Action>, trace: seq<State>, k: nat, i: nat) returns (j: nat)
    requires RunFrom(db0, acts, trace) && k < |trace| && i < |trace[k].txs| && trace[k].txs[i].Active()
    ensures Enabled(trace[k], Step(j))
  {
    InvAt(db0, acts, trace, k);
    j := Runnable(trace[k], i);
  }

  /** While any transaction is unfinished, some transaction can take its next step. */
  lemma SomeoneCanStep(db0: Db, acts: seq<Action>, trace: seq<State>, k: nat)
    requires RunFrom(db0, acts, trace) && k < |trace|
    requires exists i :: 0 <= i < |trace[k].txs| && trace[k].txs[i].Active()
    ensures exists j: nat :: Enabled(trace[k], Step(j))
  {
    var i :| 0 <= i < |trace[k].txs| && trace[k].txs[i].Active();
    var j := RunnableAt(db0, acts, trace, k, i);
  }

  // ---------------------------------------------------------------- termination

  /** Steps a transaction still has ahead of it, counting the callback its commit adds. */
  function Ahead(t: Txn): nat {
    match t.pc
    case CheckSku => 4
    case InsertSku => 3
    case AcquireKey => 5
    case FindKey => 4
    case LockProduct => 3
    case LockReservation => 4
    case LockCancelProduct(_) => 3
    case Committing(_, _) => 2
    case Replaying(_) => 2
    case RollingBack(_) => 1
    case Done(_) => 0
    case Aborted => 0
  }

  function AllAhead(txs: seq<Txn>): nat {
    if txs == [] then 0 else AllAhead(txs[..|txs| - 1]) + Ahead(txs[|txs| - 1])
  }

  function Measure(s: State): nat { AllAhead(s.txs) + |s.pending| }

  lemma {:induction false} AheadUpdate(txs: seq<Txn>, i: nat, t: Txn)
    requires i < |txs|
    ensures AllAhead(txs[i := t]) == AllAhead(txs) - Ahead(txs[i]) + Ahead(t)
  {
    var n := |txs| - 1;
    if i == n {
      assert txs[i := t][..n] == txs[..n];
    } else {
      assert txs[i := t][..n] == txs[..n][i := t];
      AheadUpdate(txs[..n], i, t);
    }
  }

  predicate Working(a: Action) { a.Step? || a.Abort? || a.RunCallback? }

  ghost predicate Shrinks(s: State, s': State, i: nat) {
    && i < |s.txs| == |s'.txs| && s'.txs == s.txs[i := s'.txs[i]]
    && Ahead(s'.txs[i]) + |s'.pending| < Ahead(s.txs[i]) + |s.pending|
  }

  lemma LastStepShape(s: State, i: nat)
    requires CanStep(s, i) && (s.txs[i].pc.Committing? || s.txs[i].pc.Replaying? || s.txs[i].pc.RollingBack?)
    ensures Shrinks(s, StepTx(s, i), i)
  {
  }

  lemma StepShape(s: State, i: nat)
    requires CanStep(s, i)
    ensures Shrinks(s, StepTx(s, i), i)
  {
    if s.txs[i].pc.Committing? || s.txs[i].pc.Replaying? || s.txs[i].pc.RollingBack? {
      LastStepShape(s, i);
    }
  }

  lemma WorkShrinks(s: State, a: Action)
    requires Enabled(s, a) && Working(a)
    ensures Measure(After(s, a)) < Measure(s)
  {
    match a {
      case Step(i) =>
        StepShape(s, i);
        AheadUpdate(s.txs, i, StepTx(s, i).txs[i]);
      case Abort(i) => AheadUpdate(s.txs, i, AbortTx(s.txs[i]));
      case RunCallback(_) =>
    }
  }

  /**
    Termination: with no new requests and no replica stopping, a run can take at most as
    many more steps as its transactions have ahead of them; together with SomeoneCanStep,
    every maximal one ends with all transactions finished, blocked by nothing.
  */
  lemma {:induction false} WorkIsBounded(db0: Db, acts: seq<Action>, trace: seq<State>, k: nat, m: nat)
    requires RunFrom(db0, acts, trace) && k <= m < |trace|
    requires forall n | k <= n < m :: Working(acts[n])
    ensures m - k + Measure(trace[m]) <= Measure(trace[k])
    decreases m
  {
    if k < m {
      WorkIsBounded(db0, acts, trace, k, m - 1);
      WorkShrinks(trace[m - 1], acts[m - 1]);
    }
  }

  lemma ExtendRun(db0: Db, acts: seq<Action>, trace: seq<State>, a: Action)
    requires RunFrom(db0, acts, trace) && Enabled(trace[|acts|], a)
    ensures RunFrom(db0, acts + [a], trace + [After(trace[|acts|], a)])
  {
    var acts', trace' := acts + [a], trace + [After(trace[|acts|], a)];
    forall k {:trigger acts'[k]} | 0 <= k < |acts'|
      ensures Enabled(trace'[k], acts'[k]) && trace'[k + 1] == After(trace'[k], acts'[k])
    {
      if k < |acts| {
        assert acts'[k] == acts[k];
      }
    }
  }

  /**
    From every reachable state the outstanding requests can all be finished without any
    timeout, in at most as many steps as they have ahead of them.
  */
  lemma CanAlwaysFinish(db0: Db, acts: seq<Action>, trace: seq<State>)
    returns (more: seq<Action>, trace': seq<State>)
    requires RunFrom(db0, acts, trace)
    ensures RunFrom(db0, acts + more, trace') && trace <= trace'
    ensures forall n | 0 <= n < |more| :: more[n].Step?
    ensures |more| <= Measure(trace[|acts|])
    ensures forall i | 0 <= i < |trace'[|acts + more|].txs| :: !trace'[|acts + more|].txs[i].Active()
    decreases Measure(trace[|acts|])
  {
    var s := trace[|acts|];
    if i :| 0 <= i < |s.txs| && s.txs[i].Active() {
      var j := RunnableAt(db0, acts, trace, |acts|, i);
      var a := Step(j);
      var s' := After(s, a);
      ExtendRun(db0, acts, trace, a);
      WorkShrinks(s, a);
      more, trace' := CanAlwaysFinish(db0, acts + [a], trace + [s']);
      more := [a] + more;
      assert acts + more == acts + [a] + more[1..];
    } else {
      more, trace' := [], trace;
      assert acts + more == acts;
    }
  }

  // ---------------------------------------------------------------- retrying after failures

  lemma StepsNeverAbort(s: State, i: nat)
    requires CanStep(s, i)
    ensures |StepTx(s, i).txs| == |s.txs|
    ensures forall j | 0 <= j < |s.txs| && !s.txs[j].pc.Aborted? :: !StepTx(s, i).txs[j].pc.Aborted?
  {
    StepShape(s, i);
  }

  /** While transactions only step, none is added and none is aborted. */
  lemma {:induction false} SteppingNeverAborts(db0: Db, acts: seq<Action>, trace: seq<State>, k: nat, m: nat, i: nat)
    requires RunFrom(db0, acts, trace) && k <= m < |trace| && i < |trace[k].txs| && !trace[k].txs[i].pc.Aborted?
    requires forall n | k <= n < m :: acts[n].Step?
    ensures |trace[m].txs| == |trace[k].txs| && !trace[m].txs[i].pc.Aborted?
    decreases m
  {
    if k < m {
      SteppingNeverAborts(db0, acts, trace, k, m - 1, i);
      assert Enabled(trace[m - 1], acts[m - 1]);
      StepsNeverAbort(trace[m - 1], acts[m - 1].tx);
    }
  }

  ghost predicate SameKey(a: Op, b: Op) { a.Reserve? && b.Reserve? && a.key == b.key && a.customer == b.customer }

  /**
    Failures consume no key, under live traffic: when every earlier request with the key failed
    or was aborted, the same request begun anew can always be finished, whatever else is under
    way, and is granted exactly when stock suffices at the place where it is decided.
  */
  lemma RetryIsDecidedByStock(db0: Db, acts: seq<Action>, trace: seq<State>, op: Op, replica: nat, id: Id, now: Instant)
    returns (more: seq<Action>, trace': seq<State>)
    requires RunFrom(db0, acts, trace) && Enabled(trace[|acts|], Begin(op, replica, id, now))
    requires op.Reserve? && WellFormedRequest(op) && op.key.Some? && Storable(op.customer.value)
    requires !KeyUsed(db0, op.customer.value, op.key.value)
    requires forall i | 0 <= i < |trace[|acts|].txs| && SameKey(trace[|acts|].txs[i].op, op) :: Failed(trace[|acts|].txs[i])
    ensures RunFrom(db0, acts + more, trace') && trace <= trace' && more != [] && more[0] == Begin(op, replica, id, now)
    ensures forall n | 0 < n < |more| :: more[n].Step?
    ensures |trace'[|acts + more|].txs| == |trace[|acts|].txs| + 1
    ensures var mine, last := |trace[|acts|].txs|, trace'[|acts + more|];
            && mine < |last.txs| && last.txs[mine].op == op && last.txs[mine].pc.Done? && last.txs[mine].at.Some?
            && var t := last.txs[mine];
               && t.at.value < |last.log|
               && !(t.pc.entry.reply.Reserved? && t.pc.entry.reply.replayed)
               && (t.pc.entry.reply.Reserved? <==> op.quantity <= OnHand(Replay(db0, last.log[..t.at.value]), op.product))
  {
    var s, a, mine := trace[|acts|], Begin(op, replica, id, now), |trace[|acts|].txs|;
    ExtendRun(db0, acts, trace, a);
    var rest;
    rest, trace' := CanAlwaysFinish(db0, acts + [a], trace + [After(s, a)]);
    more := [a] + rest;
    assert acts + more == acts + [a] + rest;
    var k, m := |acts|, |acts + more|;
    assert trace'[k] == s && trace'[k + 1] == After(s, a);
    assert forall n | k + 1 <= n < m :: (acts + more)[n] == rest[n - k - 1];
    SteppingNeverAborts(db0, acts + more, trace', k + 1, m, mine);
    RunContinues(db0, acts + more, trace', k, m);
    RunContinues(db0, acts + more, trace', k + 1, m);
    OthersNeverReply(db0, acts + more, trace', k, m, op);
    FreshKeyOutcome(db0, acts + more, trace', m, mine);
  }

  /** Requests with the key that had failed before stay failed. */
  lemma OthersNeverReply(db0: Db, acts: seq<Action>, trace: seq<State>, k: nat, m: nat, op: Op)
    requires RunFrom(db0, acts, trace) && k <= m < |trace| && |trace[m].txs| == |trace[k].txs| + 1
    requires op.Reserve? && op.key.Some? && op.customer.Some?
    requires forall i | 0 <= i < |trace[k].txs| && SameKey(trace[k].txs[i].op, op) :: Failed(trace[k].txs[i])
    ensures forall j | 0 <= j < |trace[k].txs| :: !KeyReply(trace[m].txs[j], op.customer.value, op.key.value)
  {
    RunContinues(db0, acts, trace, k, m);
    InvAt(db0, acts, trace, m);
    forall j | 0 <= j < |trace[k].txs| ensures !KeyReply(trace[m].txs[j], op.customer.value, op.key.value) {
      assert PcOk(trace[m].db, trace[m].hash, j, trace[m].txs[j]);
    }
  }

  /** In a state where nothing is under way, the log is closed: what comes later belongs to later transactions. */
  lemma OnlyNewEntry(db0: Db, acts: seq<Action>, trace: seq<State>, k: nat, m: nat)
    requires RunFrom(db0, acts, trace) && k <= m < |trace|
    requires forall i | 0 <= i < |trace[k].txs| :: !trace[k].txs[i].Active()
    requires |trace[m].txs| == |trace[k].txs| + 1 && trace[m].txs[|trace[k].txs|].pc.Done?
    ensures trace[m].txs[|trace[k].txs|].at == Some(|trace[k].log|)
    ensures |trace[k].log| < |trace[m].log| && trace[m].log[..|trace[k].log|] == trace[k].log
    ensures trace[m].log[|trace[k].log|] == trace[m].txs[|trace[k].txs|].pc.entry
  {
    var s, f, n := trace[k], trace[m], |trace[k].txs|;
    InvAt(db0, acts, trace, k);
    InvAt(db0, acts, trace, m);
    RunContinues(db0, acts, trace, k, m);
    assert PcOk(f.db, f.hash, n, f.txs[n]) && AtOk(f.log, f.txs[n]);
    var q := |s.log|;
    assert q <= f.txs[n].begun <= f.txs[n].at.value < |f.log|;
    SettledStay(s, f);
    assert f.txs[f.log[q].tx].at == Some(q);
  }

  lemma SettledStay(s: State, f: State)
    requires TxsOk(s) && Continues(s, f) && forall i | 0 <= i < |s.txs| :: !s.txs[i].Active()
    ensures forall i | 0 <= i < |s.txs| :: f.txs[i].at.Some? ==> f.txs[i].at.value < |s.log|
  {
    forall i | 0 <= i < |s.txs| ensures f.txs[i].at.Some? ==> f.txs[i].at.value < |s.log| {
      assert AtOk(s.log, s.txs[i]);
    }
  }

  /** In particular, when nothing else is under way, it is granted if stock suffices now. */
  lemma RetryIsGranted(db0: Db, acts: seq<Action>, trace: seq<State>, op: Op, replica: nat, id: Id, now: Instant)
    returns (more: seq<Action>, trace': seq<State>)
    requires RunFrom(db0, acts, trace) && Enabled(trace[|acts|], Begin(op, replica, id, now))
    requires op.Reserve? && WellFormedRequest(op) && op.key.Some? && Storable(op.customer.value)
    requires !KeyUsed(db0, op.customer.value, op.key.value) && op.quantity <= OnHand(trace[|acts|].db, op.product)
    requires forall i | 0 <= i < |trace[|acts|].txs| ::
               !trace[|acts|].txs[i].Active() && (SameKey(trace[|acts|].txs[i].op, op) ==> Failed(trace[|acts|].txs[i]))
    ensures RunFrom(db0, acts + more, trace') && more != [] && more[0] == Begin(op, replica, id, now)
    ensures var mine, last := |trace[|acts|].txs|, trace'[|acts + more|];
            && mine < |last.txs| && last.txs[mine].op == op && last.txs[mine].pc.Done?
            && last.txs[mine].pc.entry.reply.Reserved? && !last.txs[mine].pc.entry.reply.replayed
  {
    more, trace' := RetryIsDecidedByStock(db0, acts, trace, op, replica, id, now);
    OnlyNewEntry(db0, acts + more, trace', |acts|, |acts + more|);
    Linearizable(db0, acts, trace, |acts|);
  }
}
