/**
  The load test's work dispenser: workers share one cursor under a lock, answer the jobs they
  take in any order, and stop at the end of the list or at the deadline.
*/
module Dispenser {
  import opened Sorting

  datatype Job = Reserve | Read

  /** What a request came to: a response with its classification, or the exception it raised. */
  datatype Response = Answered(status: int, expected: bool, conflict: bool) | Raised(error: string)

  datatype Sample = Sample(index: nat, operation: Job, response: Response)

  datatype Phase = Idle | Busy(index: nat) | Finished

  datatype Worker = Worker(phase: Phase, samples: seq<Sample>)

  datatype State = State(jobs: seq<Job>, cursor: nat, workers: seq<Worker>)

  /** One pass through the locked section, with the clock before or past the deadline, or the end of a request. */
  datatype Action = Take(worker: nat, late: bool) | Answer(worker: nat, response: Response)

  function Start(jobs: seq<Job>, concurrency: nat): State {
    State(jobs, 0, seq(concurrency, _ => Worker(Idle, [])))
  }

  predicate Enabled(s: State, a: Action) {
    a.worker < |s.workers| &&
    match a
    case Take(w, _) => s.workers[w].phase.Idle?
    case Answer(w, _) => s.workers[w].phase.Busy? && s.workers[w].phase.index < |s.jobs|
  }

  function After(s: State, a: Action): State
    requires Enabled(s, a)
  {
    var w := s.workers[a.worker];
    match a
    case Take(_, late) =>
      if s.cursor >= |s.jobs| || late then s.(workers := s.workers[a.worker := w.(phase := Finished)])
      else s.(cursor := s.cursor + 1, workers := s.workers[a.worker := w.(phase := Busy(s.cursor))])
    case Answer(_, response) =>
      var sample := Sample(w.phase.index, s.jobs[w.phase.index], response);
      s.(workers := s.workers[a.worker := Worker(Idle, w.samples + [sample])])
  }

  ghost predicate Run(jobs: seq<Job>, concurrency: nat, acts: seq<Action>, trace: seq<State>) {
    && |trace| == |acts| + 1 && trace[0] == Start(jobs, concurrency)
    && forall k {:trigger acts[k]} | 0 <= k < |acts| :: Enabled(trace[k], acts[k]) && trace[k + 1] == After(trace[k], acts[k])
  }

  // ---------------------------------------------------------------- each claimed index is held once

  function HasIndex(i: nat): Sample -> bool { (s: Sample) => s.index == i }

  function HeldBy(w: Worker, i: nat): nat {
    (if w.phase == Busy(i) then 1 else 0) + Matches(w.samples, HasIndex(i))
  }

  function Held(workers: seq<Worker>, i: nat): nat {
    if workers == [] then 0 else HeldBy(workers[0], i) + Held(workers[1..], i)
  }

  lemma {:induction false} HeldUpdate(workers: seq<Worker>, k: nat, w: Worker, i: nat)
    requires k < |workers|
    ensures Held(workers[k := w], i) == Held(workers, i) - HeldBy(workers[k], i) + HeldBy(w, i)
  {
    if k > 0 {
      assert workers[k := w][1..] == workers[1..][k - 1 := w];
      HeldUpdate(workers[1..], k - 1, w, i);
    }
  }

  ghost predicate WorkerOk(s: State, w: Worker)
    requires s.cursor <= |s.jobs|
  {
    && (w.phase.Busy? ==> w.phase.index < s.cursor)
    && forall k | 0 <= k < |w.samples| :: w.samples[k].index < s.cursor && w.samples[k].operation == s.jobs[w.samples[k].index]
  }

  /** The claimed indices are the prefix below the cursor, each in one hand or in one sample. */
  ghost predicate Inv(s: State) {
    && s.cursor <= |s.jobs|
    && (forall i: nat :: Held(s.workers, i) == if i < s.cursor then 1 else 0)
    && (forall k | 0 <= k < |s.workers| :: WorkerOk(s, s.workers[k]))
  }

  lemma {:induction false} NothingHeld(workers: seq<Worker>, i: nat)
    requires forall k | 0 <= k < |workers| :: workers[k] == Worker(Idle, [])
    ensures Held(workers, i) == 0
  {
    if workers != [] {
      NothingHeld(workers[1..], i);
    }
  }

  lemma ActionKeepsHeld(s: State, a: Action, i: nat)
    requires Inv(s) && Enabled(s, a)
    ensures Held(After(s, a).workers, i) == if i < After(s, a).cursor then 1 else 0
  {
    var w := s.workers[a.worker];
    var w' := After(s, a).workers[a.worker];
    HeldUpdate(s.workers, a.worker, w', i);
    if a.Answer? {
      var sample := Sample(w.phase.index, s.jobs[w.phase.index], a.response);
      MatchesAppend(w.samples, [sample], HasIndex(i));
    }
  }

  lemma ActionKeepsInv(s: State, a: Action)
    requires Inv(s) && Enabled(s, a)
    ensures Inv(After(s, a))
  {
    var s' := After(s, a);
    forall i: nat ensures Held(s'.workers, i) == if i < s'.cursor then 1 else 0 {
      ActionKeepsHeld(s, a, i);
    }
    forall k | 0 <= k < |s'.workers| ensures WorkerOk(s', s'.workers[k]) {
      assert WorkerOk(s, s.workers[k]);
    }
  }

  lemma {:induction false} InvAt(jobs: seq<Job>, concurrency: nat, acts: seq<Action>, trace: seq<State>, k: nat)
    requires Run(jobs, concurrency, acts, trace) && k < |trace|
    ensures Inv(trace[k]) && trace[k].jobs == jobs && |trace[k].workers| == concurrency
  {
    if k == 0 {
      forall i: nat ensures Held(trace[0].workers, i) == 0 {
        NothingHeld(trace[0].workers, i);
      }
    } else {
      InvAt(jobs, concurrency, acts, trace, k - 1);
      assert Enabled(trace[k - 1], acts[k - 1]);
      ActionKeepsInv(trace[k - 1], acts[k - 1]);
    }
  }

  // ---------------------------------------------------------------- what is collected at the end

  /** The samples of all workers, in the order of the futures. */
  function Collected(workers: seq<Worker>): seq<Sample> {
    if workers == [] then [] else workers[0].samples + Collected(workers[1..])
  }

  function ByIndex(s: Sample): real { s.index as real }

  ghost predicate AllFinished(s: State) { forall k | 0 <= k < |s.workers| :: s.workers[k].phase.Finished? }

  lemma {:induction false} CollectedHolds(workers: seq<Worker>, i: nat)
    requires forall k | 0 <= k < |workers| :: workers[k].phase.Finished?
    ensures Matches(Collected(workers), HasIndex(i)) == Held(workers, i)
  {
    if workers != [] {
      MatchesAppend(workers[0].samples, Collected(workers[1..]), HasIndex(i));
      CollectedHolds(workers[1..], i);
    }
  }

  lemma {:induction false} CollectedFrom(workers: seq<Worker>, k: nat) returns (w: nat, j: nat)
    requires k < |Collected(workers)|
    ensures w < |workers| && j < |workers[w].samples| && workers[w].samples[j] == Collected(workers)[k]
  {
    if k < |workers[0].samples| {
      w, j := 0, k;
    } else {
      w, j := CollectedFrom(workers[1..], k - |workers[0].samples|);
      w := w + 1;
    }
  }

  /** An ordered list in which every index from `b` to `c` occurs once, and no other, lists them in order. */
  lemma {:induction false} OrderedIndices(s: seq<Sample>, b: nat, c: nat)
    requires Ordered(s, ByIndex) && b <= c
    requires forall i: nat :: Matches(s, HasIndex(i)) == if b <= i < c then 1 else 0
    ensures |s| == c - b && forall k | 0 <= k < |s| :: s[k].index == b + k
    decreases c - b
  {
    if s != [] {
      MatchesAll(s, HasIndex(s[0].index));
      assert HasIndex(s[0].index)(s[0]);
      assert Matches(s, HasIndex(s[0].index)) > 0;
    }
    if b < c {
      assert Matches(s, HasIndex(b)) == 1;
      var k := MatchAt(s, HasIndex(b));
      assert ByIndex(s[0]) <= ByIndex(s[k]);
      assert s[0].index == b;
      forall i: nat ensures Matches(s[1..], HasIndex(i)) == if b + 1 <= i < c then 1 else 0 {
        assert Matches(s, HasIndex(i)) == if b <= i < c then 1 else 0;
      }
      forall i, j | 0 <= i < j < |s[1..]| ensures ByIndex(s[1..][i]) <= ByIndex(s[1..][j]) {
        assert ByIndex(s[i + 1]) <= ByIndex(s[j + 1]);
      }
      OrderedIndices(s[1..], b + 1, c);
      assert forall k | 0 < k < |s| :: s[k] == s[1..][k - 1];
    }
  }

  /**
    Whatever the interleaving and the deadline: once all workers have finished, the sorted
    samples are one for each job of a prefix of the list, sample i for job i.
  */
  lemma SamplesArePrefix(jobs: seq<Job>, concurrency: nat, acts: seq<Action>, trace: seq<State>, k: nat)
    requires Run(jobs, concurrency, acts, trace) && k < |trace| && AllFinished(trace[k])
    ensures var samples := SortBy(Collected(trace[k].workers), ByIndex);
            && |samples| == trace[k].cursor <= |jobs|
            && forall i | 0 <= i < |samples| :: samples[i].index == i && samples[i].operation == jobs[i]
  {
    InvAt(jobs, concurrency, acts, trace, k);
    var workers := trace[k].workers;
    var all := Collected(workers);
    var samples := SortBy(all, ByIndex);
    forall i: nat ensures Matches(samples, HasIndex(i)) == if 0 <= i < trace[k].cursor then 1 else 0 {
      CollectedHolds(workers, i);
      SortKeeps(all, ByIndex, HasIndex(i));
    }
    SortKeeps(all, ByIndex, HasIndex(0));
    OrderedIndices(samples, 0, trace[k].cursor);
    forall i | 0 <= i < |samples| ensures samples[i].operation == jobs[i] {
      assert samples[i] in all;
      var m :| 0 <= m < |all| && all[m] == samples[i];
      var w, j := CollectedFrom(workers, m);
      assert WorkerOk(trace[k], workers[w]);
    }
  }

  ghost predicate StopsOnlyAtEnd(s: State) {
    forall w | 0 <= w < |s.workers| && s.workers[w].phase.Finished? :: s.cursor == |s.jobs|
  }

  lemma {:induction false} NoDeadlineNoGap(jobs: seq<Job>, concurrency: nat, acts: seq<Action>, trace: seq<State>, k: nat)
    requires Run(jobs, concurrency, acts, trace) && k < |trace|
    requires forall n | 0 <= n < k :: !(acts[n].Take? && acts[n].late)
    ensures StopsOnlyAtEnd(trace[k])
  {
    if k > 0 {
      NoDeadlineNoGap(jobs, concurrency, acts, trace, k - 1);
      InvAt(jobs, concurrency, acts, trace, k - 1);
      assert Enabled(trace[k - 1], acts[k - 1]);
      var s := trace[k - 1];
      forall w | 0 <= w < |trace[k].workers| && trace[k].workers[w].phase.Finished? ensures trace[k].cursor == |jobs| {
        assert w != acts[k - 1].worker ==> trace[k].workers[w] == s.workers[w];
      }
    }
  }

  /** Unless the deadline stops somebody, every requested job is done. */
  lemma AllJobsWithoutDeadline(jobs: seq<Job>, concurrency: nat, acts: seq<Action>, trace: seq<State>, k: nat)
    requires Run(jobs, concurrency, acts, trace) && k < |trace| && AllFinished(trace[k]) && concurrency > 0
    requires forall n | 0 <= n < k :: !(acts[n].Take? && acts[n].late)
    ensures |SortBy(Collected(trace[k].workers), ByIndex)| == |jobs|
  {
    SamplesArePrefix(jobs, concurrency, acts, trace, k);
    NoDeadlineNoGap(jobs, concurrency, acts, trace, k);
    InvAt(jobs, concurrency, acts, trace, k);
    assert trace[k].workers[0].phase.Finished?;
  }
}
