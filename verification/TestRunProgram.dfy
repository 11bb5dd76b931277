/** The threads, queues and counters of test.py, which the steps of the runner change in place. */
module TestRunProgram {
  import opened Options
  import opened TestRunner
  import opened TestRunnerRuns
  import opened TestRunnerInterrupt

  class TestRun {
    const suite: Suite
    var pending: seq<Job>
    var sent: nat
    var collected: seq<Job>
    var passedTests: nat
    var failedTests: nat
    var valgrindErrors: nat
    var crashedTests: nat
    var skippedTests: nat
    var joined: nat
    var verdict: Option<int>
    var inputQueue: seq<Job>
    var outputQueue: seq<Job>
    var workers: seq<Worker>
    var threadExit: bool

    function View(): State
      reads this
    {
      State(pending, sent, collected, Tally(passedTests, failedTests, valgrindErrors, crashedTests, skippedTests),
            joined, verdict, inputQueue, outputQueue, workers, threadExit)
    }

    constructor (suite: Suite, processors: nat)
      ensures this.suite == suite && View() == Init(suite.jobs, processors)
    {
      this.suite := suite;
      pending, sent, collected, joined, verdict := suite.jobs, 0, [], 0, None;
      passedTests, failedTests, valgrindErrors, crashedTests, skippedTests := 0, 0, 0, 0, 0;
      inputQueue, outputQueue, workers, threadExit := [], [], IdleWorkers(processors), false;
    }

    /** `input_queue.put(job)` for the next test. */
    method PutJob()
      requires Enabled(suite, View(), Dispatch)
      modifies this
      ensures View() == Dispatched(old(View()))
    {
      inputQueue := inputQueue + [pending[0]];
      pending := pending[1..];
    }

    method PutBreak()
      requires Enabled(suite, View(), SendBreak)
      modifies this
      ensures View() == BreakSent(old(View()))
    {
      inputQueue := inputQueue + [BREAK_JOB];
      sent := sent + 1;
    }

    /** One turn of the collecting loop. */
    method CollectOne()
      requires Enabled(suite, View(), Collect)
      modifies this
      ensures View() == Collected(old(View()))
    {
      var job := outputQueue[0];
      outputQueue := outputQueue[1..];
      collected := collected + [job];
      if job.isBreak {
        return;
      }
      if job.isSkip {
        skippedTests := skippedTests + 1;
      } else if job.returncode == 0 {
        passedTests := passedTests + 1;
      } else if job.returncode == 1 {
        failedTests := failedTests + 1;
      } else if job.returncode == 2 {
        valgrindErrors := valgrindErrors + 1;
      } else {
        crashedTests := crashedTests + 1;
      }
    }

    method JoinThread()
      requires Enabled(suite, View(), Join)
      modifies this
      ensures View() == Joined(old(View()))
    {
      joined := joined + 1;
    }

    method ReturnVerdict()
      requires Enabled(suite, View(), Conclude)
      modifies this
      ensures View() == Concluded(|suite.jobs|, old(View()))
    {
      if passedTests + skippedTests == |suite.jobs| {
        verdict := Some(0);
      } else {
        verdict := Some(1);
      }
    }

    /** `input_queue.get()` in worker `w`. */
    method GetJob(w: nat)
      requires Enabled(suite, View(), Get(w))
      modifies this
      ensures View() == Got(old(View()), w)
    {
      var job := inputQueue[0];
      inputQueue := inputQueue[1..];
      if job.isBreak {
        workers := workers[w := Exited];
      } else {
        workers := workers[w := Holding(job)];
      }
    }

    /** Worker `w` between `get` and the execution of the job. */
    method LookAtJob(w: nat)
      requires Enabled(suite, View(), Look(w))
      modifies this
      ensures View() == Looked(old(View()), w)
      ensures workers[w].Running? <==> !threadExit && !old(workers)[w].job.isSkip
    {
      var job := workers[w].job;
      if threadExit {
        outputQueue := outputQueue + [job.(isBreak := true)];
        workers := workers[w := Idle];
      } else if job.isSkip {
        outputQueue := outputQueue + [job];
        workers := workers[w := Idle];
      } else {
        workers := workers[w := Running(job)];
      }
    }

    /** The job that worker `w` executes returns. */
    method FinishJob(w: nat)
      requires Enabled(suite, View(), Complete(w))
      modifies this
      ensures View() == Completed(old(View()), w, suite.exitOf(old(workers)[w].job.id))
    {
      var job := workers[w].job;
      outputQueue := outputQueue + [job.(returncode := suite.exitOf(job.id))];
      workers := workers[w := Idle];
    }

    method SigintHook()
      modifies this
      ensures View() == Interrupted(old(View()))
    {
      threadExit := true;
    }

    /** One step of whichever thread gets its turn. */
    method Perform(a: Action)
      requires Enabled(suite, View(), a) && Inv(suite, View())
      modifies this
      ensures View() == Apply(suite, old(View()), a)
      ensures Inv(suite, View()) && 0 <= Measure(View()) < old(Measure(View())) && |workers| == old(|workers|)
      ensures old(threadExit) ==>
                threadExit && forall v :: 0 <= v < |workers| && workers[v].Running? ==> workers[v] == old(workers)[v]
    {
      hide Inv, Measure;
      StepInBounds(suite, View(), a);
      match a
      case Dispatch => PutJob();
      case SendBreak => PutBreak();
      case Collect => CollectOne();
      case Join => JoinThread();
      case Conclude => ReturnVerdict();
      case Get(w) => GetJob(w);
      case Look(w) => LookAtJob(w);
      case Complete(w) => FinishJob(w);
      case Interrupt => SigintHook();
    }

    /** Runs the tests: any thread that can step may be the next, and the signal may come at any moment. */
    method RunTests() returns (ghost before: seq<Action>, ghost middle: State, ghost after: seq<Action>)
      requires Inv(suite, View()) && |workers| > 0
      modifies this
      ensures Inv(suite, View()) && verdict.Some?
      ensures inputQueue == [] && outputQueue == [] && |collected| == |suite.jobs|
      ensures IsRun(suite, old(View()), before, middle) && IsRun(suite, middle, after, View())
      ensures !threadExit ==> (verdict == Some(0) <==> AllWell(suite))
      ensures threadExit && !old(threadExit) ==>
                !middle.threadExit && after != [] && after[0] == Interrupt &&
                (verdict == Some(0) <==> Waiting(suite, middle) == {} && AllWell(suite))
    {
      hide Inv, Enabled, Measure, Apply, IsRun;
      ghost var start := View();
      before, middle, after := [], start, [];
      RunNowhere(suite, start);
      while verdict.None?
        invariant Inv(suite, View()) && |workers| > 0
        invariant IsRun(suite, start, before, middle) && IsRun(suite, middle, after, View())
        invariant start.threadExit ==> threadExit
        invariant !threadExit ==> after == [] && middle == View()
        invariant threadExit && !start.threadExit ==> InterruptedAt(suite, middle, after, View())
        decreases Measure(View())
      {
        ghost var able := CanStep(suite, View());
        var next: Action :| Enabled(suite, View(), next);
        ghost var was := View();
        Perform(next);
        RunOneMore(suite, middle, after, was, next);
        after := after + [next];
        FlagAfter(suite, was, next);
        if !was.threadExit && next != Interrupt {
          RunOneMore(suite, start, before, was, next);
          RunNowhere(suite, View());
          before, middle, after := before + [next], View(), [];
        }
      }
      Outcome(suite, View());
      if !threadExit {
        UninterruptedOutcome(suite, View());
      } else if !start.threadExit {
        InterruptedOutcome(suite, middle, after, View());
      }
    }
  }
}
