/** What an interrupt does to the jobs of a run: those not started by then are handed back as breaks, and
    all the others come back with their results. */
module TestRunnerInterrupt {
  import opened Options
  import opened TestRunner
  import opened TestRunnerRuns

  /** Job `id` has not been started and not been handed back: it is still to be queued, in the queue, or with
      a worker that has not looked at it yet. */
  ghost predicate Waits(s: State, id: nat) {
    || (exists i :: 0 <= i < |s.pending| && s.pending[i].id == id)
    || (exists i :: 0 <= i < |s.input| && !s.input[i].isBreak && s.input[i].id == id)
    || (exists w :: 0 <= w < |s.workers| && s.workers[w].Holding? && s.workers[w].job.id == id)
  }

  ghost function Waiting(suite: Suite, s: State): set<nat> {
    set id: nat | id < |suite.jobs| && Waits(s, id)
  }

  /* ----- a job is in one place only ----- */

  lemma {:induction false} HitsAt(js: seq<Job>, i: nat)
    requires i < |js|
    ensures Hits(js, Some(js[i].id)) >= 1
    ensures !js[i].isBreak ==> WorkHits(js, Some(js[i].id)) >= 1
  {
    if i < |js| - 1 {
      HitsAt(js[..|js| - 1], i);
    }
  }

  lemma {:induction false} HeldAt(workers: seq<Worker>, w: nat)
    requires w < |workers| && Busy(workers[w])
    ensures HeldHits(workers, Some(workers[w].job.id)) >= 1
  {
    if w < |workers| - 1 {
      HeldAt(workers[..|workers| - 1], w);
    }
  }

  lemma {:induction false} HeldTwice(workers: seq<Worker>, v: nat, w: nat)
    requires v < |workers| && w < |workers| && v != w && Busy(workers[v]) && Busy(workers[w])
    requires workers[v].job.id == workers[w].job.id
    ensures HeldHits(workers, Some(workers[w].job.id)) >= 2
  {
    HeldChanged(workers, w, Idle, Some(workers[w].job.id));
    HeldAt(workers[w := Idle], v);
  }

  lemma {:induction false} OnceOnly(suite: Suite, s: State, id: nat)
    requires Inv(suite, s)
    ensures Everywhere(s, Some(id)) <= 1
  {
    hide Everywhere, BreaksOk, MainOk, JobsOk;
    assert Conserved(suite.jobs, s);
    Numbered(suite.jobs, id);
  }

  lemma {:induction false} WaitsCounts(s: State, id: nat)
    requires Waits(s, id)
    ensures Hits(s.pending, Some(id)) + WorkHits(s.input, Some(id)) + HeldHits(s.workers, Some(id)) >= 1
  {
    if i: nat :| i < |s.pending| && s.pending[i].id == id {
      HitsAt(s.pending, i);
    } else if i: nat :| i < |s.input| && !s.input[i].isBreak && s.input[i].id == id {
      HitsAt(s.input, i);
    } else {
      var w: nat :| w < |s.workers| && s.workers[w].Holding? && s.workers[w].job.id == id;
      HeldAt(s.workers, w);
    }
  }

  /** What a worker executes no longer waits. */
  lemma {:induction false} RunningNotWaiting(suite: Suite, s: State, w: nat)
    requires Inv(suite, s) && w < |s.workers| && s.workers[w].Running?
    ensures !Waits(s, s.workers[w].job.id)
  {
    hide Inv, Hits, WorkHits, HeldHits;
    var id := s.workers[w].job.id;
    OnceOnly(suite, s, id);
    HeldAt(s.workers, w);
    if i: nat :| i < |s.pending| && s.pending[i].id == id {
      HitsAt(s.pending, i);
    }
    if i: nat :| i < |s.input| && !s.input[i].isBreak && s.input[i].id == id {
      HitsAt(s.input, i);
    }
    if v: nat :| v < |s.workers| && s.workers[v].Holding? && s.workers[v].job.id == id {
      HeldTwice(s.workers, v, w);
    }
  }

  /** Nor does what has come back. */
  lemma {:induction false} ReturnedNotWaiting(suite: Suite, s: State, job: Job)
    requires Inv(suite, s) && (job in s.output || job in s.collected)
    ensures !Waits(s, job.id)
  {
    hide Inv, Hits, WorkHits, HeldHits;
    OnceOnly(suite, s, job.id);
    if job in s.output {
      var i: nat :| i < |s.output| && s.output[i] == job;
      HitsAt(s.output, i);
    } else {
      var i: nat :| i < |s.collected| && s.collected[i] == job;
      HitsAt(s.collected, i);
    }
    if Waits(s, job.id) {
      WaitsCounts(s, job.id);
    }
  }

  /* ----- what a run that goes on from an interrupted state keeps ----- */

  /** How job comes back if it was dispatched, and the run interrupted in state `s`. */
  ghost predicate BackAs(suite: Suite, s: State, job: Job) {
    && job.id < |suite.jobs|
    && if Waits(s, job.id) then job == suite.jobs[job.id].(isBreak := true)
       else job in s.output || job in s.collected || job == ResultOf(suite, job.id)
  }

  ghost predicate AllBackAs(suite: Suite, s: State, js: seq<Job>) {
    forall i :: 0 <= i < |js| ==> BackAs(suite, s, js[i])
  }

  /** No worker has started a job since. */
  ghost predicate NoneStarted(s: State, t: State) {
    && |t.workers| == |s.workers|
    && forall w :: 0 <= w < |t.workers| && t.workers[w].Running? ==> t.workers[w] == s.workers[w]
  }

  /** What still waits has waited since. */
  ghost predicate StillWaiting(s: State, t: State) {
    forall id :: Waits(t, id) ==> Waits(s, id)
  }

  ghost predicate Since(suite: Suite, s: State, t: State) {
    && t.threadExit && NoneStarted(s, t) && StillWaiting(s, t)
    && AllBackAs(suite, s, t.output) && AllBackAs(suite, s, t.collected)
  }

  lemma {:induction false} SinceAtOnce(suite: Suite, s: State)
    requires Inv(suite, s) && s.threadExit
    ensures Since(suite, s, s)
  {
    hide Waits;
    assert JobsOk(suite, s);
    forall i | 0 <= i < |s.output|
      ensures BackAs(suite, s, s.output[i])
    {
      assert s.output[i] in s.output;
      ReturnedNotWaiting(suite, s, s.output[i]);
    }
    forall i | 0 <= i < |s.collected|
      ensures BackAs(suite, s, s.collected[i])
    {
      assert s.collected[i] in s.collected;
      ReturnedNotWaiting(suite, s, s.collected[i]);
    }
  }

  /** Jobs only ever leave the waiting places. */
  lemma {:induction false} WaitsBefore(suite: Suite, t: State, a: Action, id: nat)
    requires Enabled(suite, t, a) && NoBreaks(t.pending) && Waits(Apply(suite, t, a), id)
    ensures Waits(t, id)
  {
    var u := Apply(suite, t, a);
    if i: nat :| i < |u.pending| && u.pending[i].id == id {
      assert u.pending[i] == t.pending[if a.Dispatch? then i + 1 else i];
    } else if i: nat :| i < |u.input| && !u.input[i].isBreak && u.input[i].id == id {
      if i < |t.input| && !a.Get? {
        assert t.input[i] == u.input[i];
      } else if a.Dispatch? {
        assert t.pending[0] == u.input[i];
      } else {
        assert u.input[i] == t.input[i + 1];
      }
    } else {
      var w: nat :| w < |u.workers| && u.workers[w].Holding? && u.workers[w].job.id == id;
      if a == Get(w) {
        assert t.input[0].id == id;
      } else {
        assert u.workers[w] == t.workers[w];
      }
    }
  }

  lemma {:induction false} OneMoreBack(suite: Suite, s: State, js: seq<Job>, job: Job)
    requires AllBackAs(suite, s, js) && BackAs(suite, s, job)
    ensures AllBackAs(suite, s, js + [job])
  {
    hide BackAs;
  }

  /** A job that worker `w` holds is handed back unexecuted. */
  lemma {:induction false} LookHandsBack(suite: Suite, s: State, t: State, w: nat)
    requires JobsOk(suite, t) && Since(suite, s, t) && w < |t.workers| && t.workers[w].Holding?
    ensures AllBackAs(suite, s, Looked(t, w).output) && Looked(t, w).collected == t.collected
    ensures NoneStarted(s, Looked(t, w))
  {
    hide AllBackAs;
    var job := t.workers[w].job;
    assert Busy(t.workers[w]);
    assert Waits(t, job.id);
    hide Waits;
    OneMoreBack(suite, s, t.output, job.(isBreak := true));
  }

  /** A job that worker `w` executes was already being executed. */
  lemma {:induction false} CompleteReturns(suite: Suite, s: State, t: State, w: nat)
    requires Inv(suite, s) && JobsOk(suite, t) && Since(suite, s, t) && w < |t.workers| && t.workers[w].Running?
    ensures var u := Completed(t, w, suite.exitOf(t.workers[w].job.id));
      AllBackAs(suite, s, u.output) && u.collected == t.collected && NoneStarted(s, u)
  {
    hide AllBackAs, Waits, Inv;
    var job := t.workers[w].job;
    assert Busy(t.workers[w]);
    RunningNotWaiting(suite, s, w);
    OneMoreBack(suite, s, t.output, job.(returncode := suite.exitOf(job.id)));
  }

  lemma {:induction false} SinceStep(suite: Suite, s: State, t: State, a: Action)
    requires Inv(suite, s) && Inv(suite, t) && Since(suite, s, t) && Enabled(suite, t, a)
    ensures Since(suite, s, Apply(suite, t, a))
  {
    var u := Apply(suite, t, a);
    assert JobsOk(suite, t) && BreaksOk(t);
    hide Inv, JobsOk, BreaksOk, Looked, Completed, BackAs;
    forall id | Waits(u, id)
      ensures Waits(s, id)
    {
      WaitsBefore(suite, t, a, id);
    }
    hide Waits;
    match a
    case Look(w) =>
      LookHandsBack(suite, s, t, w);
      assert u.threadExit by {
        LookKeepsFlag(t, w);
      }
    case Complete(w) =>
      CompleteReturns(suite, s, t, w);
      CompleteKeepsFlag(t, w, suite.exitOf(t.workers[w].job.id));
    case Collect =>
      OneMoreBack(suite, s, t.collected, t.output[0]);
    case _ =>
  }

  lemma {:induction false} LookKeepsFlag(t: State, w: nat)
    requires w < |t.workers| && t.workers[w].Holding?
    ensures Looked(t, w).threadExit == t.threadExit
  {
  }

  lemma {:induction false} CompleteKeepsFlag(t: State, w: nat, returncode: int)
    requires w < |t.workers| && t.workers[w].Running?
    ensures Completed(t, w, returncode).threadExit == t.threadExit
  {
  }

  lemma {:induction false} SinceRun(suite: Suite, s: State, t: State, trace: seq<Action>, u: State)
    requires Inv(suite, s) && Inv(suite, t) && Since(suite, s, t) && IsRun(suite, t, trace, u)
    ensures Since(suite, s, u) && Inv(suite, u)
    decreases |trace|
  {
    hide Inv, Since, Enabled, Apply, Measure;
    if trace != [] {
      StepOk(suite, t, trace[0]);
      SinceStep(suite, s, t, trace[0]);
      SinceRun(suite, s, Apply(suite, t, trace[0]), trace[1..], u);
    }
  }

  /* ----- the interrupt itself ----- */

  /** The run is in state `s` when the signal comes, and in state `t` later on. */
  ghost predicate InterruptedAt(suite: Suite, s: State, trace: seq<Action>, t: State) {
    Inv(suite, s) && !s.threadExit && trace != [] && trace[0] == Interrupt && IsRun(suite, s, trace, t)
  }

  /** Raising the flag moves no job. */
  lemma {:induction false} FlagRaised(suite: Suite, s: State, trace: seq<Action>, t: State)
    requires InterruptedAt(suite, s, trace, t)
    ensures var s' := s.(threadExit := true);
      Inv(suite, s') && Since(suite, s', t) && Inv(suite, t)
    ensures forall id :: Waits(s.(threadExit := true), id) <==> Waits(s, id)
  {
    hide Inv, Since, Measure, Waits;
    var s' := s.(threadExit := true);
    assert Apply(suite, s, Interrupt) == s';
    StepOk(suite, s, Interrupt);
    SinceAtOnce(suite, s');
    SinceRun(suite, s', s', trace[1..], t);
    forall id
      ensures Waits(s', id) <==> Waits(s, id)
    {
      SamePlaces(s, s', id);
    }
  }

  lemma {:induction false} SamePlaces(s: State, t: State, id: nat)
    requires t.pending == s.pending && t.input == s.input && t.workers == s.workers
    ensures Waits(t, id) <==> Waits(s, id)
  {
  }

  /** From then on no worker starts a job. */
  lemma {:induction false} NothingStarts(suite: Suite, s: State, trace: seq<Action>, t: State)
    requires InterruptedAt(suite, s, trace, t)
    ensures forall w :: 0 <= w < |t.workers| && t.workers[w].Running? ==>
              w < |s.workers| && t.workers[w] == s.workers[w]
  {
    hide Inv, Waits, AllBackAs, StillWaiting;
    FlagRaised(suite, s, trace, t);
  }

  /** A job that waited at the interrupt comes back unexecuted, as a break; any other with its result. */
  lemma {:induction false} BackAfterInterrupt(suite: Suite, s: State, trace: seq<Action>, t: State, i: nat)
    requires InterruptedAt(suite, s, trace, t) && i < |t.collected|
    ensures var job := t.collected[i];
      && job.id < |suite.jobs|
      && var was := suite.jobs[job.id];
        job == if Waits(s, job.id) then was.(isBreak := true)
               else if was.isSkip then was else was.(returncode := suite.exitOf(job.id))
    ensures t.collected[i].isBreak <==> Waits(s, t.collected[i].id)
  {
    FlagRaised(suite, s, trace, t);
    var job := t.collected[i];
    assert BackAs(suite, s.(threadExit := true), job);
    assert JobsOk(suite, s) && Jobs(suite.jobs);
    hide Inv, Since, Waits, IsRun, JobsOk;
    if job in s.output {
      ReturnedUninterrupted(suite, s, job);
    } else if job in s.collected {
      ReturnedUninterrupted(suite, s, job);
    }
  }

  lemma {:induction false} ReturnedUninterrupted(suite: Suite, s: State, job: Job)
    requires Inv(suite, s) && !s.threadExit && (job in s.output || job in s.collected)
    ensures job.id < |suite.jobs| && job == ResultOf(suite, job.id)
  {
    hide Conserved, BreaksOk, MainOk;
    assert JobsOk(suite, s);
  }

  /** As many breaks are counted as there are ids of jobs that waited. */
  lemma {:induction false} DiscardedIds(js: seq<Job>, ids: set<nat>)
    requires forall id: nat :: Hits(js, Some(id)) <= 1
    requires forall i :: 0 <= i < |js| ==> (js[i].isBreak <==> js[i].id in ids)
    requires forall id :: id in ids ==> Hits(js, Some(id)) == 1
    ensures InClass(js, Discarded) == |ids|
  {
    hide Hits;
    if js == [] {
      NoHits(ids);
    } else {
      var front, last := js[..|js| - 1], js[|js| - 1];
      forall id: nat
        ensures Hits(js, Some(id)) == Hits(front, Some(id)) + if id == last.id then 1 else 0
      {
        LastHit(js, id);
      }
      forall i | 0 <= i < |front|
        ensures front[i].isBreak <==> front[i].id in ids - {last.id}
      {
        HitsAt(front, i);
        assert front[i] == js[i];
      }
      DiscardedIds(front, ids - {last.id});
      OneTakenOut(ids, last.id);
      assert InClass(js, Discarded) == InClass(front, Discarded) + if last.isBreak then 1 else 0;
    }
  }

  lemma {:induction false} OneTakenOut(ids: set<nat>, id: nat)
    ensures |ids| == |ids - {id}| + if id in ids then 1 else 0
  {
    assert ids == ids - {id} + if id in ids then {id} else {};
  }

  lemma {:induction false} LastHit(js: seq<Job>, id: nat)
    requires js != []
    ensures Hits(js, Some(id)) == Hits(js[..|js| - 1], Some(id)) + if id == js[|js| - 1].id then 1 else 0
  {
  }

  lemma {:induction false} NoHits(ids: set<nat>)
    requires forall id :: id in ids ==> Hits([], Some(id)) == 1
    ensures ids == {}
  {
  }

  /** At the verdict the jobs that waited at the interrupt are exactly those not counted, so the verdict is 0
      only if there was none and all the others are well. */
  lemma {:induction false} InterruptedOutcome(suite: Suite, s: State, trace: seq<Action>, t: State)
    requires InterruptedAt(suite, s, trace, t) && t.verdict.Some?
    ensures t.tally.passed + t.tally.failed + t.tally.valgrind + t.tally.crashed + t.tally.skipped
            + |Waiting(suite, s)| == |suite.jobs|
    ensures t.verdict.value == 0 <==>
            Waiting(suite, s) == {} && AllWell(suite)
  {
    hide Inv, Waits, IsRun, Counted, Hits;
    FlagRaised(suite, s, trace, t);
    Outcome(suite, t);
    forall i | 0 <= i < |t.collected|
      ensures t.collected[i].isBreak <==> t.collected[i].id in Waiting(suite, s)
      ensures BackFor(suite, s, t.collected[i])
    {
      BackAfterInterrupt(suite, s, trace, t, i);
    }
    DiscardedIds(t.collected, Waiting(suite, s));
    VerdictAfter(suite, s, t.collected);
  }

  /** Every job is to be skipped or returns 0. */
  ghost predicate AllWell(suite: Suite) {
    forall id :: 0 <= id < |suite.jobs| ==> suite.jobs[id].isSkip || suite.exitOf(id) == 0
  }

  ghost predicate BackFor(suite: Suite, s: State, job: Job) {
    && job.id < |suite.jobs|
    && (job.isBreak <==> Waits(s, job.id))
    && (!job.isBreak ==> job == ResultOf(suite, job.id))
  }

  /** Whether all is well can be read off the jobs that waited and the return codes of the others. */
  lemma {:induction false} VerdictAfter(suite: Suite, s: State, js: seq<Job>)
    requires forall i :: 0 <= i < |js| ==> BackFor(suite, s, js[i])
    requires forall id: nat :: id < |suite.jobs| ==> Hits(js, Some(id)) > 0
    ensures (forall i :: 0 <= i < |js| ==> !js[i].isBreak && (js[i].isSkip || js[i].returncode == 0)) <==>
            Waiting(suite, s) == {} && AllWell(suite)
  {
    hide Waits, Hits;
    if forall i :: 0 <= i < |js| ==> !js[i].isBreak && (js[i].isSkip || js[i].returncode == 0) {
      forall id: nat | id < |suite.jobs|
        ensures !Waits(s, id) && (suite.jobs[id].isSkip || suite.exitOf(id) == 0)
      {
        var i := FindId(js, id);
        assert BackFor(suite, s, js[i]);
      }
    }
    if Waiting(suite, s) == {} && AllWell(suite) {
      forall i | 0 <= i < |js|
        ensures !js[i].isBreak && (js[i].isSkip || js[i].returncode == 0)
      {
        assert BackFor(suite, s, js[i]);
        assert Waits(s, js[i].id) <==> js[i].id in Waiting(suite, s);
      }
    }
  }

  lemma {:induction false} RunNowhere(suite: Suite, s: State)
    ensures IsRun(suite, s, [], s)
  {
  }

  /** Only an interrupt raises the flag, and nothing lowers it. */
  lemma {:induction false} FlagAfter(suite: Suite, s: State, a: Action)
    requires Enabled(suite, s, a)
    ensures Apply(suite, s, a).threadExit <==> s.threadExit || a == Interrupt
  {
  }

  lemma {:induction false} RunOneMore(suite: Suite, s: State, trace: seq<Action>, t: State, a: Action)
    requires IsRun(suite, s, trace, t) && Enabled(suite, t, a)
    ensures IsRun(suite, s, trace + [a], Apply(suite, t, a))
    decreases |trace|
  {
    hide Enabled, Apply;
    if trace == [] {
      assert [a][1..] == [];
      assert trace + [a] == [a];
    } else {
      assert (trace + [a])[1..] == trace[1..] + [a];
      RunOneMore(suite, Apply(suite, s, trace[0]), trace[1..], t, a);
    }
  }

  /* ----- an interrupt can come at any moment, and every run can be brought to its end ----- */

  lemma {:induction false} RunToVerdict(suite: Suite, s: State) returns (trace: seq<Action>, t: State)
    requires Inv(suite, s) && |s.workers| > 0
    ensures IsRun(suite, s, trace, t) && t.verdict.Some?
    decreases Measure(s)
  {
    hide Inv, Enabled, Apply, Measure;
    if s.verdict.Some? {
      trace, t := [], s;
    } else {
      var a := CanStep(suite, s);
      StepInBounds(suite, s, a);
      var rest;
      rest, t := RunToVerdict(suite, Apply(suite, s, a));
      trace := [a] + rest;
      assert trace[1..] == rest;
    }
  }

  /** From any state without a verdict, in which a job waits, an interrupt leads to the verdict 1. */
  lemma {:induction false} InterruptFails(suite: Suite, s: State) returns (trace: seq<Action>, t: State)
    requires Inv(suite, s) && |s.workers| > 0 && !s.threadExit && Waiting(suite, s) != {}
    ensures InterruptedAt(suite, s, trace, t) && t.verdict == Some(1)
  {
    hide Inv, Measure, Waiting;
    assert Enabled(suite, s, Interrupt);
    StepInBounds(suite, s, Interrupt);
    hide Enabled, Apply;
    var rest;
    rest, t := RunToVerdict(suite, Apply(suite, s, Interrupt));
    trace := [Interrupt] + rest;
    assert trace[1..] == rest;
    InterruptedOutcome(suite, s, trace, t);
    SinceRunKeeps(suite, s, trace, t);
    Outcome(suite, t);
  }

  lemma {:induction false} SinceRunKeeps(suite: Suite, s: State, trace: seq<Action>, t: State)
    requires Inv(suite, s) && IsRun(suite, s, trace, t)
    ensures Inv(suite, t)
  {
    hide Inv, Measure;
    RunFrom(suite, s, trace, t);
  }

  /* ----- the queues are first in, first out ----- */

  /** Jobs `k` and up have not been taken: those before `m` are in the input queue, the others not yet queued. */
  ghost predicate QueuedFrom(suite: Suite, s: State, k: nat, m: nat) {
    && k <= m <= |suite.jobs| && m - k <= |s.input|
    && s.pending == suite.jobs[m..] && s.input[..m - k] == suite.jobs[k..m]
    && forall i :: m - k <= i < |s.input| ==> s.input[i].isBreak
  }

  /** Which job is taken next, and how many have been queued. */
  lemma {:induction false} QueuedStep(suite: Suite, s: State, a: Action, k: nat, m: nat)
    returns (k': nat, m': nat)
    requires Jobs(suite.jobs) && Enabled(suite, s, a) && QueuedFrom(suite, s, k, m) && BreaksOk(s)
    ensures QueuedFrom(suite, Apply(suite, s, a), k', m')
    ensures a.Get? && !s.input[0].isBreak ==> k' == k + 1 && s.input[0] == suite.jobs[k]
    ensures !(a.Get? && !s.input[0].isBreak) ==> k' == k
  {
    hide Jobs;
    k', m' := k, m;
    var t := Apply(suite, s, a);
    match a
    case Dispatch =>
      m' := m + 1;
      NoBreakYet(s);
      assert |s.input| == m - k;
      assert s.input == s.input[..m - k];
      assert suite.jobs[m..][1..] == suite.jobs[m + 1..];
      assert suite.jobs[k..m + 1] == suite.jobs[k..m] + [suite.jobs[m]];
      assert t.input[..m + 1 - k] == t.input;
    case SendBreak =>
      assert t.input[..m - k] == s.input[..m - k];
    case Get(w) =>
      if k < m {
        assert s.input[0] == s.input[..m - k][0] == suite.jobs[k];
        FrontNotBreak(suite, k);
        k' := k + 1;
        assert t.input[..m - k - 1] == s.input[..m - k][1..] == suite.jobs[k..m][1..] == suite.jobs[k + 1..m];
      }
    case _ =>
  }

  lemma {:induction false} FrontNotBreak(suite: Suite, k: nat)
    requires Jobs(suite.jobs) && k < |suite.jobs|
    ensures !suite.jobs[k].isBreak
  {
  }

  /** While jobs are still being queued, no break job is. */
  lemma {:induction false} NoBreakYet(s: State)
    requires BreaksOk(s) && s.pending != []
    ensures NoBreaks(s.input)
  {
    hide BreaksLast, WorkHits, ExitedCount;
    WorkSize(s.input);
    SomeStaying(s.workers);
  }

  /** The jobs that workers take in a run, in the order in which they take them. */
  ghost function Taken(suite: Suite, s: State, trace: seq<Action>, t: State): seq<Job>
    requires IsRun(suite, s, trace, t)
    decreases |trace|
  {
    if trace == [] then []
    else
      (if trace[0].Get? && !s.input[0].isBreak then [s.input[0]] else [])
      + Taken(suite, Apply(suite, s, trace[0]), trace[1..], t)
  }

  lemma {:induction false} TakenFrom(suite: Suite, s: State, trace: seq<Action>, t: State, k: nat, m: nat)
    returns (k': nat, m': nat)
    requires Inv(suite, s) && IsRun(suite, s, trace, t) && QueuedFrom(suite, s, k, m)
    ensures k <= k' <= m' <= |suite.jobs| && QueuedFrom(suite, t, k', m')
    ensures Taken(suite, s, trace, t) == suite.jobs[k..k']
    decreases |trace|
  {
    hide Measure, QueuedFrom, Apply, Enabled, BreaksOk, Conserved, MainOk, JobsOk, Jobs, Taken;
    QueuedBounds(suite, s, k, m);
    k', m' := k, m;
    TakenNext(suite, s, trace, t);
    if trace != [] {
      var k1, m1 := QueuedStep(suite, s, trace[0], k, m);
      StepOk(suite, s, trace[0]);
      QueuedBounds(suite, Apply(suite, s, trace[0]), k1, m1);
      k', m' := TakenFrom(suite, Apply(suite, s, trace[0]), trace[1..], t, k1, m1);
      SlicesMeet(suite.jobs, k, k1, k');
    }
  }

  lemma {:induction false} SlicesMeet(js: seq<Job>, a: nat, b: nat, c: nat)
    requires a <= b <= c <= |js|
    ensures js[a..c] == js[a..b] + js[b..c]
    ensures a + 1 == b ==> js[a..b] == [js[a]]
    ensures a == b ==> js[a..b] == []
  {
  }

  lemma {:induction false} TakenNext(suite: Suite, s: State, trace: seq<Action>, t: State)
    requires IsRun(suite, s, trace, t)
    ensures Taken(suite, s, trace, t) ==
            if trace == [] then []
            else
              (if trace[0].Get? && !s.input[0].isBreak then [s.input[0]] else [])
              + Taken(suite, Apply(suite, s, trace[0]), trace[1..], t)
  {
    hide Apply;
  }

  lemma {:induction false} QueuedBounds(suite: Suite, s: State, k: nat, m: nat)
    requires QueuedFrom(suite, s, k, m)
    ensures k <= m <= |suite.jobs|
  {
  }

  /** The jobs are taken in the order in which they are given, and at the verdict all have been taken. */
  lemma {:induction false} TakenInOrder(suite: Suite, processors: nat, trace: seq<Action>, t: State)
    requires Jobs(suite.jobs) && IsRun(suite, Init(suite.jobs, processors), trace, t)
    ensures Taken(suite, Init(suite.jobs, processors), trace, t) <= suite.jobs
    ensures t.verdict.Some? ==> Taken(suite, Init(suite.jobs, processors), trace, t) == suite.jobs
  {
    hide Inv, Measure, Taken, IsRun;
    InitOk(suite, processors);
    assert QueuedFrom(suite, Init(suite.jobs, processors), 0, 0);
    var k, m := TakenFrom(suite, Init(suite.jobs, processors), trace, t, 0, 0);
    if t.verdict.Some? {
      RunsAreSafeAndFinite(suite, processors, trace, t);
      Outcome(suite, t);
      assert t.pending == suite.jobs[m..] && m - k <= |t.input|;
    }
  }

  /** What has come back is collected in the order in which it came back. */
  lemma {:induction false} CollectedInOrder(suite: Suite, s: State, trace: seq<Action>, t: State)
    requires IsRun(suite, s, trace, t)
    ensures s.collected + s.output <= t.collected + t.output
    decreases |trace|
  {
    if trace != [] {
      var u := Apply(suite, s, trace[0]);
      BackInOrder(suite, s, trace[0]);
      CollectedInOrder(suite, u, trace[1..], t);
    }
  }

  lemma {:induction false} BackInOrder(suite: Suite, s: State, a: Action)
    requires Enabled(suite, s, a)
    ensures s.collected + s.output <= Apply(suite, s, a).collected + Apply(suite, s, a).output
  {
    if a.Collect? {
      assert s.collected + [s.output[0]] + s.output[1..] == s.collected + s.output;
    }
  }
}
