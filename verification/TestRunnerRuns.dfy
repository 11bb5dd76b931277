/** Runs of the parallel runner: that they are safe and finite, cannot block, and what they end with. */
module TestRunnerRuns {
  import opened Options
  import opened TestRunner

  /** Every step keeps the invariant, and no run is longer than its starting measure. */
  lemma {:induction false} StepOk(suite: Suite, s: State, a: Action)
    requires Inv(suite, s) && Enabled(suite, s, a)
    ensures Inv(suite, Apply(suite, s, a)) && Measure(Apply(suite, s, a)) < Measure(s)
  {
    MainKept(suite, s, a);
    JobsKept(suite, s, a);
    StepCounts(suite, s, a);
  }

  lemma {:induction false} StepInBounds(suite: Suite, s: State, a: Action)
    requires Inv(suite, s) && Enabled(suite, s, a)
    ensures Inv(suite, Apply(suite, s, a)) && 0 <= Measure(Apply(suite, s, a)) < Measure(s)
    ensures |Apply(suite, s, a).workers| == |s.workers|
  {
    StepOk(suite, s, a);
  }

  lemma {:induction false} AllIdle(n: nat, key: Option<nat>)
    ensures HeldHits(IdleWorkers(n), key) == 0 && ExitedCount(IdleWorkers(n)) == 0 && WorkersCost(IdleWorkers(n)) == 0
  {
    if n > 0 {
      AllIdle(n - 1, key);
      assert IdleWorkers(n)[..n - 1] == IdleWorkers(n - 1);
    }
  }

  lemma {:induction false} InitOk(suite: Suite, processors: nat)
    requires Jobs(suite.jobs)
    ensures Inv(suite, Init(suite.jobs, processors))
    ensures Measure(Init(suite.jobs, processors)) == 5 * |suite.jobs| + 3 * processors + 2
  {
    forall key
      ensures Everywhere(Init(suite.jobs, processors), key) == Hits(suite.jobs, key)
    {
      AllIdle(processors, key);
    }
    AllIdle(processors, None);
  }

  lemma {:induction false} RunFrom(suite: Suite, s: State, trace: seq<Action>, t: State)
    requires Inv(suite, s) && IsRun(suite, s, trace, t)
    ensures Inv(suite, t) && Measure(s) >= |trace| + Measure(t)
    decreases |trace|
  {
    if trace != [] {
      StepOk(suite, s, trace[0]);
      RunFrom(suite, Apply(suite, s, trace[0]), trace[1..], t);
    }
  }

  /** Under every interleaving the invariant holds, and no run takes more than a fixed number of steps. */
  lemma {:induction false} RunsAreSafeAndFinite(suite: Suite, processors: nat, trace: seq<Action>, t: State)
    requires Jobs(suite.jobs) && IsRun(suite, Init(suite.jobs, processors), trace, t)
    ensures Inv(suite, t)
    ensures |trace| <= 5 * |suite.jobs| + 3 * processors + 2
  {
    InitOk(suite, processors);
    RunFrom(suite, Init(suite.jobs, processors), trace, t);
  }

  lemma {:induction false} SomeBusy(workers: seq<Worker>) returns (w: nat)
    requires HeldHits(workers, None) > 0
    ensures w < |workers| && Busy(workers[w])
  {
    w := |workers| - 1;
    if !Busy(workers[w]) {
      w := SomeBusy(workers[..w]);
    }
  }

  lemma {:induction false} SomeStaying(workers: seq<Worker>)
    ensures ExitedCount(workers) <= |workers|
    ensures ExitedCount(workers) == |workers| <==> forall w :: 0 <= w < |workers| ==> workers[w].Exited?
    ensures ExitedCount(workers) == 0 <==> forall w :: 0 <= w < |workers| ==> !workers[w].Exited?
  {
    if workers != [] {
      var n := |workers| - 1;
      SomeStaying(workers[..n]);
      assert forall w :: 0 <= w < n ==> workers[w] == workers[..n][w];
    }
  }

  /** What worker `w` can do next. */
  function WorkerAction(s: State, w: nat): Action
    requires w < |s.workers|
  {
    match s.workers[w]
    case Holding(_) => Look(w)
    case Running(_) => Complete(w)
    case _ => Get(w)
  }

  /** No deadlock: with at least one worker, some thread other than the user's interrupt can step until
      the verdict is returned. */
  lemma {:induction false} CanStep(suite: Suite, s: State) returns (a: Action)
    requires Inv(suite, s) && s.verdict.None? && |s.workers| > 0
    ensures !a.Interrupt? && Enabled(suite, s, a)
  {
    SomeStaying(s.workers);
    WorkSize(s.input);
    if s.pending != [] {
      a := Dispatch;
    } else if s.sent < |s.workers| {
      a := SendBreak;
    } else if |s.collected| == |suite.jobs| {
      if s.joined == |s.workers| {
        a := Conclude;
      } else if s.workers[s.joined].Exited? {
        a := Join;
      } else {
        // one break job for every worker that has not exited is still in the queue
        a := WorkerAction(s, s.joined);
      }
    } else if s.output != [] {
      CollectedNotOver(suite, s);
      a := Collect;
    } else {
      a := WaitsForWorker(suite, s);
    }
  }

  lemma {:induction false} CollectedNotOver(suite: Suite, s: State)
    requires Conserved(suite.jobs, s)
    ensures |s.collected| + |s.output| + |s.pending| + Work(s.input) + HeldHits(s.workers, None) == |suite.jobs|
  {
    assert Everywhere(s, None) == Hits(suite.jobs, None);
    WorkSize(suite.jobs);
    WorkSize(s.collected);
    WorkSize(s.output);
    WorkSize(s.pending);
  }

  /** The collector waits for a result only while some worker is busy, or idle with work queued. */
  lemma {:induction false} WaitsForWorker(suite: Suite, s: State) returns (a: Action)
    requires Inv(suite, s) && |s.workers| > 0 && s.pending == [] && s.output == [] && |s.collected| != |suite.jobs|
    ensures (a.Get? || a.Look? || a.Complete?) && Enabled(suite, s, a)
  {
    CollectedNotOver(suite, s);
    if HeldHits(s.workers, None) > 0 {
      var w := SomeBusy(s.workers);
      a := WorkerAction(s, w);
    } else {
      SomeStaying(s.workers);
      WorkSize(s.input);
      assert !s.workers[0].Exited?;
      a := WorkerAction(s, 0);
    }
  }

  lemma {:induction false} Numbered(jobs: seq<Job>, id: nat)
    requires Jobs(jobs)
    ensures Hits(jobs, Some(id)) == if id < |jobs| then 1 else 0
  {
    if jobs != [] {
      Numbered(jobs[..|jobs| - 1], id);
    }
  }

  lemma {:induction false} ClassesAddUp(js: seq<Job>)
    ensures InClass(js, Pass) + InClass(js, Fail) + InClass(js, Valgr) + InClass(js, Crash)
            + InClass(js, Skip) + InClass(js, Discarded) == |js|
    ensures InClass(js, Pass) + InClass(js, Skip) == |js| <==>
            forall i :: 0 <= i < |js| ==> !js[i].isBreak && (js[i].isSkip || js[i].returncode == 0)
    ensures InClass(js, Discarded) == 0 <==> NoBreaks(js)
  {
    if js != [] {
      ClassesAddUp(js[..|js| - 1]);
      assert js == js[..|js| - 1] + [js[|js| - 1]];
    }
  }

  ghost predicate Came(job: Job, isBreak: bool, isSkip: bool) {
    job.isBreak == isBreak && job.isSkip == isSkip
  }

  lemma {:induction false} ClassSize(js: seq<Job>, c: Class)
    ensures InClass(js, c) == |set i | 0 <= i < |js| && ClassOf(js[i]) == c|
  {
    hide ClassOf;
    var all := set i | 0 <= i < |js| && ClassOf(js[i]) == c;
    if js == [] {
      assert all == {};
    } else {
      var n := |js| - 1;
      var front := set i | 0 <= i < |js[..n]| && ClassOf(js[..n][i]) == c;
      ClassSize(js[..n], c);
      if ClassOf(js[n]) == c {
        assert all == front + {n};
      } else {
        assert all == front;
      }
    }
  }

  /** What each counter says of the jobs collected so far. */
  lemma {:induction false} TallyMeans(suite: Suite, s: State)
    requires Inv(suite, s)
    ensures var js := s.collected;
      && s.tally.skipped == |set i | 0 <= i < |js| && Came(js[i], false, true)|
      && s.tally.passed == |set i | 0 <= i < |js| && Came(js[i], false, false) && js[i].returncode == 0|
      && s.tally.failed == |set i | 0 <= i < |js| && Came(js[i], false, false) && js[i].returncode == 1|
      && s.tally.valgrind == |set i | 0 <= i < |js| && Came(js[i], false, false) && js[i].returncode == 2|
      && s.tally.crashed == |set i | 0 <= i < |js| && Came(js[i], false, false) && js[i].returncode !in {0, 1, 2}|
  {
    hide InClass, Conserved, BreaksOk, JobsOk;
    var js := s.collected;
    forall c
      ensures InClass(js, c) == |set i | 0 <= i < |js| && ClassOf(js[i]) == c|
    {
      ClassSize(js, c);
    }
    assert (set i | 0 <= i < |js| && ClassOf(js[i]) == Skip) == set i | 0 <= i < |js| && Came(js[i], false, true);
    assert (set i | 0 <= i < |js| && ClassOf(js[i]) == Pass)
        == set i | 0 <= i < |js| && Came(js[i], false, false) && js[i].returncode == 0;
    assert (set i | 0 <= i < |js| && ClassOf(js[i]) == Fail)
        == set i | 0 <= i < |js| && Came(js[i], false, false) && js[i].returncode == 1;
    assert (set i | 0 <= i < |js| && ClassOf(js[i]) == Valgr)
        == set i | 0 <= i < |js| && Came(js[i], false, false) && js[i].returncode == 2;
    assert (set i | 0 <= i < |js| && ClassOf(js[i]) == Crash)
        == set i | 0 <= i < |js| && Came(js[i], false, false) && js[i].returncode !in {0, 1, 2};
  }

  /** What holds when the verdict is returned, whatever the interleaving was.  Nothing is left behind: the
      queues are empty and each worker has exited on a break job of its own.  Each dispatched job was handed
      to the collector exactly once.  The classes add up, and discarded jobs need an interrupt. */
  lemma {:induction false} Outcome(suite: Suite, s: State)
    requires Inv(suite, s) && s.verdict.Some?
    ensures s.pending == [] && s.input == [] && s.output == []
    ensures s.sent == s.joined == |s.workers| && forall w :: 0 <= w < |s.workers| ==> s.workers[w].Exited?
    ensures |s.collected| == |suite.jobs|
    ensures forall id: nat :: Hits(s.collected, Some(id)) == if id < |suite.jobs| then 1 else 0
    ensures forall i :: 0 <= i < |s.collected| ==> Returned(suite, s.threadExit, s.collected[i])
    ensures s.tally.passed + s.tally.failed + s.tally.valgrind + s.tally.crashed + s.tally.skipped
            + InClass(s.collected, Discarded) == |suite.jobs|
    ensures !s.threadExit ==> InClass(s.collected, Discarded) == 0
    ensures s.verdict.value == 0 <==> forall i :: 0 <= i < |s.collected| ==>
              !s.collected[i].isBreak && (s.collected[i].isSkip || s.collected[i].returncode == 0)
    ensures s.verdict.value in {0, 1}
  {
    CollectedNotOver(suite, s);
    SomeStaying(s.workers);
    WorkSize(s.input);
    ClassesAddUp(s.collected);
    forall id: nat
      ensures Hits(s.collected, Some(id)) == if id < |suite.jobs| then 1 else 0
    {
      Numbered(suite.jobs, id);
      assert Everywhere(s, Some(id)) == Hits(suite.jobs, Some(id));
      NothingHeld(s.workers, Some(id));
    }
  }

  lemma {:induction false} NothingHeld(workers: seq<Worker>, key: Option<nat>)
    requires forall w :: 0 <= w < |workers| ==> workers[w].Exited?
    ensures HeldHits(workers, key) == 0
  {
    if workers != [] {
      NothingHeld(workers[..|workers| - 1], key);
    }
  }

  /** A run that can go no further without a further interrupt has returned its verdict. */
  lemma {:induction false} MaximalRunsConclude(suite: Suite, processors: nat, trace: seq<Action>, t: State)
    requires Jobs(suite.jobs) && processors > 0 && IsRun(suite, Init(suite.jobs, processors), trace, t)
    requires forall a :: Enabled(suite, t, a) ==> a.Interrupt?
    ensures t.verdict.Some?
  {
    RunsAreSafeAndFinite(suite, processors, trace, t);
    SameWorkers(suite, Init(suite.jobs, processors), trace, t);
    if t.verdict.None? {
      var a := CanStep(suite, t);
    }
  }

  lemma {:induction false} SameWorkers(suite: Suite, s: State, trace: seq<Action>, t: State)
    requires IsRun(suite, s, trace, t)
    ensures |t.workers| == |s.workers|
    decreases |trace|
  {
    if trace != [] {
      assert |Apply(suite, s, trace[0]).workers| == |s.workers|;
      SameWorkers(suite, Apply(suite, s, trace[0]), trace[1..], t);
    }
  }

  /** Whatever has happened so far, some thread can step until the verdict is returned. */
  ghost predicate NeverHangs(suite: Suite, processors: nat) {
    forall trace, t :: IsRun(suite, Init(suite.jobs, processors), trace, t) && t.verdict.None? ==> CanMove(suite, t)
  }

  ghost predicate CanMove(suite: Suite, t: State) {
    exists a :: Enabled(suite, t, a) && !a.Interrupt?
  }

  lemma {:induction false} DispatchAll(suite: Suite, s: State) returns (trace: seq<Action>, t: State)
    ensures IsRun(suite, s, trace, t)
    ensures t == s.(pending := [], input := s.input + s.pending)
    decreases |s.pending|
  {
    if s.pending == [] {
      trace, t := [], s;
      assert s.input + s.pending == s.input;
    } else {
      var rest;
      rest, t := DispatchAll(suite, Dispatched(s));
      trace := [Dispatch] + rest;
      assert trace[1..] == rest;
      assert s.input + [s.pending[0]] + s.pending[1..] == s.input + s.pending;
    }
  }

  /** One worker is exactly what is needed, unless there is nothing to do. */
  lemma {:induction false} HangsIffNoWorker(suite: Suite, processors: nat)
    requires Jobs(suite.jobs)
    ensures NeverHangs(suite, processors) <==> processors > 0 || suite.jobs == []
  {
    if processors > 0 || suite.jobs == [] {
      forall trace, t | IsRun(suite, Init(suite.jobs, processors), trace, t) && t.verdict.None?
        ensures CanMove(suite, t)
      {
        RunsAreSafeAndFinite(suite, processors, trace, t);
        SameWorkers(suite, Init(suite.jobs, processors), trace, t);
        if processors > 0 {
          var a := CanStep(suite, t);
        } else {
          CollectedNotOver(suite, t);
          assert Enabled(suite, t, Conclude);
        }
      }
    } else {
      var trace, t := DispatchAll(suite, Init(suite.jobs, processors));
      assert t.workers == [] && t.output == [] && t.collected == [];
      assert !CanMove(suite, t);
    }
  }

  /* ----- without an interrupt the outcome does not depend on the interleaving ----- */

  ghost function Results(suite: Suite, n: nat): (rs: seq<Job>)
    requires n <= |suite.jobs|
    ensures |rs| == n && forall i :: 0 <= i < n ==> rs[i] == ResultOf(suite, i)
  {
    if n == 0 then [] else Results(suite, n - 1) + [ResultOf(suite, n - 1)]
  }

  lemma {:induction false} ClassesConcat(a: seq<Job>, b: seq<Job>, c: Class)
    ensures InClass(a + b, c) == InClass(a, c) + InClass(b, c)
  {
    if b == [] {
      assert a + b == a;
    } else {
      assert (a + b)[..|a + b| - 1] == a + b[..|b| - 1];
      ClassesConcat(a, b[..|b| - 1], c);
    }
  }

  lemma {:induction false} FindId(js: seq<Job>, id: nat) returns (i: nat)
    requires Hits(js, Some(id)) > 0
    ensures i < |js| && js[i].id == id
  {
    i := |js| - 1;
    if js[i].id != id {
      i := FindId(js[..i], id);
    }
  }

  /** The results in any order are counted like the results in dispatch order. */
  lemma {:induction false} SameClasses(suite: Suite, js: seq<Job>, n: nat, c: Class)
    requires Jobs(suite.jobs) && n <= |suite.jobs|
    requires forall id: nat :: Hits(js, Some(id)) == if id < n then 1 else 0
    requires forall i :: 0 <= i < |js| ==> js[i].id < |suite.jobs| && js[i] == ResultOf(suite, js[i].id)
    ensures InClass(js, c) == InClass(Results(suite, n), c)
  {
    if n == 0 {
      assert js == [] || Hits(js, Some(js[|js| - 1].id)) > 0;
    } else {
      var i := FindId(js, n - 1);
      var rest := js[..i] + js[i + 1..];
      forall key
        ensures Hits(js, key) == Hits(rest, key) + Hit(js[i], key)
      {
        OneOut(js, i, key, c);
      }
      OneOut(js, i, None, c);
      SameClasses(suite, rest, n - 1, c);
      assert Results(suite, n)[..n - 1] == Results(suite, n - 1);
    }
  }

  /** Taking one job out of a list takes out just its own count. */
  lemma {:induction false} OneOut(js: seq<Job>, i: nat, key: Option<nat>, c: Class)
    requires i < |js|
    ensures Hits(js, key) == Hits(js[..i] + js[i + 1..], key) + Hit(js[i], key)
    ensures InClass(js, c) == InClass(js[..i] + js[i + 1..], c) + if ClassOf(js[i]) == c then 1 else 0
  {
    var front, back := js[..i], js[i + 1..];
    assert js == (front + [js[i]]) + back;
    HitsConcat(front + [js[i]], back, key);
    HitsConcat(front, [js[i]], key);
    HitsConcat(front, back, key);
    OneJob(js[i], key);
    ClassesConcat(front + [js[i]], back, c);
    ClassesConcat(front, back, c);
    assert (front + [js[i]])[..i] == front;
  }

  /** Whether all is well can be read off the jobs and their return codes alone. */
  lemma {:induction false} AllGood(suite: Suite, js: seq<Job>)
    requires Jobs(suite.jobs)
    requires forall id: nat :: id < |suite.jobs| ==> Hits(js, Some(id)) > 0
    requires forall i :: 0 <= i < |js| ==> js[i].id < |suite.jobs| && js[i] == ResultOf(suite, js[i].id)
    ensures (forall i :: 0 <= i < |js| ==> !js[i].isBreak && (js[i].isSkip || js[i].returncode == 0)) <==>
            forall id :: 0 <= id < |suite.jobs| ==> suite.jobs[id].isSkip || suite.exitOf(id) == 0
  {
    if forall i :: 0 <= i < |js| ==> !js[i].isBreak && (js[i].isSkip || js[i].returncode == 0) {
      forall id: nat | id < |suite.jobs|
        ensures suite.jobs[id].isSkip || suite.exitOf(id) == 0
      {
        var i := FindId(js, id);
        assert js[i] == ResultOf(suite, id);
      }
    }
  }

  lemma {:induction false} UninterruptedOutcome(suite: Suite, s: State)
    requires Inv(suite, s) && s.verdict.Some? && !s.threadExit
    ensures Counted(s.tally, Results(suite, |suite.jobs|))
    ensures s.verdict.value == 0 <==>
            forall id :: 0 <= id < |suite.jobs| ==> suite.jobs[id].isSkip || suite.exitOf(id) == 0
  {
    Outcome(suite, s);
    forall c
      ensures InClass(s.collected, c) == InClass(Results(suite, |suite.jobs|), c)
    {
      SameClasses(suite, s.collected, |suite.jobs|, c);
    }
    AllGood(suite, s.collected);
  }
}
