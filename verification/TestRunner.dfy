/** The parallel runner of test.py: a dispatcher that turns collector, worker threads sharing a FIFO
    input queue and an output queue, one break job per worker, and an interrupt flag that a signal
    may raise at any moment.  Each action below is one atomic step; a run is any interleaving. */
module TestRunner {
  import opened Options

  datatype Job = Job(id: nat, isBreak: bool, isSkip: bool, returncode: int)

  /** The jobs to run and the return code each one's execution would give. */
  datatype Suite = Suite(jobs: seq<Job>, exitOf: nat -> int)

  /** A worker between two of its atomic steps: waiting for a job, holding one it has not looked at
      yet, executing one, or gone. */
  datatype Worker = Idle | Holding(job: Job) | Running(job: Job) | Exited

  datatype Tally = Tally(passed: nat, failed: nat, valgrind: nat, crashed: nat, skipped: nat)

  /** `pending` is what the dispatcher still has to queue, `sent` the break jobs it has queued,
      `collected` what the collector has taken, `joined` how many threads it has joined. */
  datatype State = State(
    pending: seq<Job>, sent: nat, collected: seq<Job>, tally: Tally, joined: nat, verdict: Option<int>,
    input: seq<Job>, output: seq<Job>, workers: seq<Worker>, threadExit: bool)

  datatype Action =
    | Dispatch | SendBreak | Collect | Join | Conclude
    | Get(w: nat) | Look(w: nat) | Complete(w: nat)
    | Interrupt

  const BREAK_JOB := Job(0, true, false, 0)

  /** What the collector's branches do with one returned job. */
  function Count(tally: Tally, job: Job): Tally {
    if job.isBreak then tally
    else if job.isSkip then tally.(skipped := tally.skipped + 1)
    else if job.returncode == 0 then tally.(passed := tally.passed + 1)
    else if job.returncode == 1 then tally.(failed := tally.failed + 1)
    else if job.returncode == 2 then tally.(valgrind := tally.valgrind + 1)
    else tally.(crashed := tally.crashed + 1)
  }

  /** The main thread is sequential: dispatch everything, queue the break jobs, collect as many
      results as were dispatched, join the threads, return the verdict. */
  predicate Enabled(suite: Suite, s: State, a: Action) {
    match a
    case Dispatch => s.pending != []
    case SendBreak => s.pending == [] && s.sent < |s.workers|
    case Collect => s.pending == [] && s.sent == |s.workers| && |s.collected| < |suite.jobs| && s.output != []
    case Join => s.sent == |s.workers| && |s.collected| == |suite.jobs| && s.joined < |s.workers|
        && s.workers[s.joined].Exited?
    case Conclude => s.sent == |s.workers| && |s.collected| == |suite.jobs| && s.joined == |s.workers|
        && s.verdict.None?
    case Get(w) => w < |s.workers| && s.workers[w].Idle? && s.input != []
    case Look(w) => w < |s.workers| && s.workers[w].Holding?
    case Complete(w) => w < |s.workers| && s.workers[w].Running?
    case Interrupt => !s.threadExit
  }

  function Dispatched(s: State): State
    requires s.pending != []
  {
    s.(pending := s.pending[1..], input := s.input + [s.pending[0]])
  }

  function BreakSent(s: State): State {
    s.(sent := s.sent + 1, input := s.input + [BREAK_JOB])
  }

  function Collected(s: State): State
    requires s.output != []
  {
    s.(output := s.output[1..], collected := s.collected + [s.output[0]], tally := Count(s.tally, s.output[0]))
  }

  function Joined(s: State): State {
    s.(joined := s.joined + 1)
  }

  function Concluded(total: nat, s: State): State {
    s.(verdict := Some(if s.tally.passed + s.tally.skipped == total then 0 else 1))
  }

  /** A worker takes the next job; a break job makes it return at once. */
  function Got(s: State, w: nat): State
    requires w < |s.workers| && s.input != []
  {
    s.(input := s.input[1..], workers := s.workers[w := if s.input[0].isBreak then Exited else Holding(s.input[0])])
  }

  /** A worker looks at the job it holds: after an interrupt it hands it back as a break, a job to be
      skipped goes straight back, any other is started. */
  function Looked(s: State, w: nat): State
    requires w < |s.workers| && s.workers[w].Holding?
  {
    var job := s.workers[w].job;
    if s.threadExit then s.(output := s.output + [job.(isBreak := true)], workers := s.workers[w := Idle])
    else if job.isSkip then s.(output := s.output + [job], workers := s.workers[w := Idle])
    else s.(workers := s.workers[w := Running(job)])
  }

  function Completed(s: State, w: nat, returncode: int): State
    requires w < |s.workers| && s.workers[w].Running?
  {
    s.(output := s.output + [s.workers[w].job.(returncode := returncode)], workers := s.workers[w := Idle])
  }

  function Interrupted(s: State): State {
    s.(threadExit := true)
  }

  function Apply(suite: Suite, s: State, a: Action): State
    requires Enabled(suite, s, a)
  {
    match a
    case Dispatch => Dispatched(s)
    case SendBreak => BreakSent(s)
    case Collect => Collected(s)
    case Join => Joined(s)
    case Conclude => Concluded(|suite.jobs|, s)
    case Get(w) => Got(s, w)
    case Look(w) => Looked(s, w)
    case Complete(w) => Completed(s, w, suite.exitOf(s.workers[w].job.id))
    case Interrupt => Interrupted(s)
  }

  /** The jobs a run starts from: numbered apart, and none of them a break job. */
  ghost predicate Jobs(jobs: seq<Job>) {
    forall i :: 0 <= i < |jobs| ==> jobs[i].id == i && !jobs[i].isBreak
  }

  function IdleWorkers(n: nat): seq<Worker> {
    seq(n, _ => Idle)
  }

  function Init(jobs: seq<Job>, processors: nat): State {
    State(jobs, 0, [], Tally(0, 0, 0, 0, 0), 0, None, [], [], IdleWorkers(processors), false)
  }

  ghost predicate IsRun(suite: Suite, s: State, trace: seq<Action>, t: State)
    decreases |trace|
  {
    if trace == [] then s == t
    else Enabled(suite, s, trace[0]) && IsRun(suite, Apply(suite, s, trace[0]), trace[1..], t)
  }

  /* ----- what is counted ----- */

  /** Counts the jobs with the given id, or all of them. */
  ghost function Hits(jobs: seq<Job>, key: Option<nat>): nat {
    if jobs == [] then 0 else Hits(jobs[..|jobs| - 1], key) + Hit(jobs[|jobs| - 1], key)
  }

  ghost function Hit(job: Job, key: Option<nat>): nat {
    if key.None? || key.value == job.id then 1 else 0
  }

  /** The same for the jobs of a queue that are real work. */
  ghost function WorkHits(jobs: seq<Job>, key: Option<nat>): nat {
    if jobs == [] then 0 else WorkHits(jobs[..|jobs| - 1], key) + WorkHit(jobs[|jobs| - 1], key)
  }

  ghost function WorkHit(job: Job, key: Option<nat>): nat {
    if job.isBreak then 0 else Hit(job, key)
  }

  ghost function Work(jobs: seq<Job>): nat {
    WorkHits(jobs, None)
  }

  predicate Busy(worker: Worker) {
    worker.Holding? || worker.Running?
  }

  ghost function HeldHits(workers: seq<Worker>, key: Option<nat>): nat {
    if workers == [] then 0
    else HeldHits(workers[..|workers| - 1], key) + HeldHit(workers[|workers| - 1], key)
  }

  ghost function HeldHit(worker: Worker, key: Option<nat>): nat {
    if Busy(worker) then Hit(worker.job, key) else 0
  }

  ghost function ExitedCount(workers: seq<Worker>): nat {
    if workers == [] then 0
    else ExitedCount(workers[..|workers| - 1]) + if workers[|workers| - 1].Exited? then 1 else 0
  }

  ghost function WorkerCost(worker: Worker): nat {
    match worker
    case Idle => 0
    case Holding(_) => 3
    case Running(_) => 2
    case Exited => 0
  }

  ghost function WorkersCost(workers: seq<Worker>): nat {
    if workers == [] then 0 else WorkersCost(workers[..|workers| - 1]) + WorkerCost(workers[|workers| - 1])
  }

  ghost function InputCost(input: seq<Job>): nat {
    |input| + 3 * Work(input)
  }

  /** How many steps are still to come at the very most. */
  ghost function Measure(s: State): int {
    5 * |s.pending| + InputCost(s.input) + WorkersCost(s.workers) + |s.output|
    + 2 * (|s.workers| - s.sent) + (|s.workers| - s.joined)
    + (if s.verdict.None? then 1 else 0) + (if s.threadExit then 0 else 1)
  }

  /** Where the jobs are: not yet queued, queued, held, returned or collected. */
  ghost function Everywhere(s: State, key: Option<nat>): nat {
    Hits(s.pending, key) + WorkHits(s.input, key) + HeldHits(s.workers, key)
    + Hits(s.output, key) + Hits(s.collected, key)
  }

  /** Break jobs stand behind all real jobs of the queue. */
  ghost predicate BreaksLast(input: seq<Job>) {
    forall i, j :: 0 <= i < j < |input| && input[i].isBreak ==> input[j].isBreak
  }

  /** A job on its way to a worker is as it was dispatched. */
  ghost predicate Fresh(jobs: seq<Job>, job: Job) {
    job.id < |jobs| && job == jobs[job.id]
  }

  /** What comes back when job `id` is not interrupted: a job to be skipped is never executed. */
  function ResultOf(suite: Suite, id: nat): Job
    requires id < |suite.jobs|
  {
    var job := suite.jobs[id];
    if job.isSkip then job else job.(returncode := suite.exitOf(id))
  }

  /** A job that comes back is its own result or, after an interrupt, a break. */
  ghost predicate Returned(suite: Suite, interrupted: bool, job: Job) {
    && job.id < |suite.jobs|
    && (job == ResultOf(suite, job.id) || (interrupted && job == suite.jobs[job.id].(isBreak := true)))
  }

  /** Which class a collected job is counted in. */
  datatype Class = Discarded | Skip | Pass | Fail | Valgr | Crash

  function ClassOf(job: Job): Class {
    if job.isBreak then Discarded
    else if job.isSkip then Skip
    else match job.returncode
      case 0 => Pass
      case 1 => Fail
      case 2 => Valgr
      case _ => Crash
  }

  ghost function InClass(jobs: seq<Job>, c: Class): nat {
    if jobs == [] then 0
    else InClass(jobs[..|jobs| - 1], c) + if ClassOf(jobs[|jobs| - 1]) == c then 1 else 0
  }

  ghost predicate Counted(tally: Tally, collected: seq<Job>) {
    && tally.passed == InClass(collected, Pass)
    && tally.failed == InClass(collected, Fail)
    && tally.valgrind == InClass(collected, Valgr)
    && tally.crashed == InClass(collected, Crash)
    && tally.skipped == InClass(collected, Skip)
  }

  /** No job is lost or duplicated. */
  ghost predicate Conserved(jobs: seq<Job>, s: State) {
    forall key :: Everywhere(s, key) == Hits(jobs, key)
  }

  /** Each break job queued is still in the queue, behind all real work, or has made one worker exit. */
  ghost predicate BreaksOk(s: State) {
    && s.sent <= |s.workers|
    && ExitedCount(s.workers) + |s.input| == s.sent + Work(s.input)
    && BreaksLast(s.input)
    && NoBreaks(s.pending)
    && (s.pending != [] ==> s.sent == 0)
    && (ExitedCount(s.workers) > 0 ==> Work(s.input) == 0)
  }

  /** The main thread's counters and the order of its phases. */
  ghost predicate MainOk(total: nat, s: State) {
    && Counted(s.tally, s.collected)
    && (s.collected != [] ==> s.pending == [] && s.sent == |s.workers|)
    && s.joined <= |s.workers|
    && (forall k :: 0 <= k < s.joined ==> s.workers[k].Exited?)
    && (s.joined > 0 || s.verdict.Some? ==> s.sent == |s.workers| && |s.collected| == total)
    && (s.verdict.Some? ==> s.joined == |s.workers|)
    && (s.verdict.Some? ==> s.verdict.value == if s.tally.passed + s.tally.skipped == total then 0 else 1)
  }

  /** Jobs keep their identity, only jobs not to be skipped are executed, each comes back with its own
      return code, and only an interrupt turns one into a break. */
  ghost predicate JobsOk(suite: Suite, s: State) {
    && (forall i :: 0 <= i < |s.pending| ==> Fresh(suite.jobs, s.pending[i]))
    && (forall i :: 0 <= i < |s.input| ==> s.input[i].isBreak || Fresh(suite.jobs, s.input[i]))
    && (forall i :: 0 <= i < |s.output| ==> Returned(suite, s.threadExit, s.output[i]))
    && (forall i :: 0 <= i < |s.collected| ==> Returned(suite, s.threadExit, s.collected[i]))
    && (forall w :: 0 <= w < |s.workers| && Busy(s.workers[w]) ==> Fresh(suite.jobs, s.workers[w].job))
    && (forall w :: 0 <= w < |s.workers| && s.workers[w].Running? ==> !s.workers[w].job.isSkip)
  }

  ghost predicate NoBreaks(js: seq<Job>) {
    forall i :: 0 <= i < |js| ==> !js[i].isBreak
  }

  ghost predicate Inv(suite: Suite, s: State) {
    Jobs(suite.jobs) && Conserved(suite.jobs, s) && BreaksOk(s) && MainOk(|suite.jobs|, s) && JobsOk(suite, s)
  }

  /* ----- sums over queues and workers ----- */

  lemma {:induction false} HitsConcat(a: seq<Job>, b: seq<Job>, key: Option<nat>)
    ensures Hits(a + b, key) == Hits(a, key) + Hits(b, key)
  {
    if b == [] {
      assert a + b == a;
    } else {
      assert (a + b)[..|a + b| - 1] == a + b[..|b| - 1];
      HitsConcat(a, b[..|b| - 1], key);
    }
  }

  lemma {:induction false} WorkConcat(a: seq<Job>, b: seq<Job>, key: Option<nat>)
    ensures WorkHits(a + b, key) == WorkHits(a, key) + WorkHits(b, key)
  {
    if b == [] {
      assert a + b == a;
    } else {
      assert (a + b)[..|a + b| - 1] == a + b[..|b| - 1];
      WorkConcat(a, b[..|b| - 1], key);
    }
  }

  lemma {:induction false} OneJob(job: Job, key: Option<nat>)
    ensures Hits([job], key) == Hit(job, key) && WorkHits([job], key) == WorkHit(job, key)
  {
    assert [job][..0] == [];
  }

  /** Taking the head of a queue. */
  lemma {:induction false} HeadTaken(q: seq<Job>, key: Option<nat>)
    requires q != []
    ensures Hits(q, key) == Hit(q[0], key) + Hits(q[1..], key)
    ensures WorkHits(q, key) == WorkHit(q[0], key) + WorkHits(q[1..], key)
  {
    assert q == [q[0]] + q[1..];
    OneJob(q[0], key);
    HitsConcat([q[0]], q[1..], key);
    WorkConcat([q[0]], q[1..], key);
  }

  lemma {:induction false} TailAdded(q: seq<Job>, job: Job, key: Option<nat>)
    ensures Hits(q + [job], key) == Hits(q, key) + Hit(job, key)
    ensures WorkHits(q + [job], key) == WorkHits(q, key) + WorkHit(job, key)
  {
    OneJob(job, key);
    HitsConcat(q, [job], key);
    WorkConcat(q, [job], key);
  }

  lemma {:induction false} ChangedFront(workers: seq<Worker>, w: nat, x: Worker)
    requires w < |workers|
    ensures var n := |workers| - 1; workers[w := x][..n] == if w == n then workers[..n] else workers[..n][w := x]
  {
  }

  lemma {:induction false} HeldChanged(workers: seq<Worker>, w: nat, x: Worker, key: Option<nat>)
    requires w < |workers|
    ensures HeldHits(workers[w := x], key) + HeldHit(workers[w], key) == HeldHits(workers, key) + HeldHit(x, key)
  {
    ChangedFront(workers, w, x);
    if w < |workers| - 1 {
      HeldChanged(workers[..|workers| - 1], w, x, key);
    }
  }

  lemma {:induction false} ExitedChanged(workers: seq<Worker>, w: nat, x: Worker)
    requires w < |workers|
    ensures ExitedCount(workers[w := x]) + (if workers[w].Exited? then 1 else 0) ==
            ExitedCount(workers) + if x.Exited? then 1 else 0
  {
    ChangedFront(workers, w, x);
    if w < |workers| - 1 {
      ExitedChanged(workers[..|workers| - 1], w, x);
    }
  }

  lemma {:induction false} CostChanged(workers: seq<Worker>, w: nat, x: Worker)
    requires w < |workers|
    ensures WorkersCost(workers[w := x]) + WorkerCost(workers[w]) == WorkersCost(workers) + WorkerCost(x)
  {
    ChangedFront(workers, w, x);
    if w < |workers| - 1 {
      CostChanged(workers[..|workers| - 1], w, x);
    }
  }

  lemma {:induction false} WorkSize(q: seq<Job>)
    ensures Work(q) <= |q| == Hits(q, None)
    ensures Work(q) == |q| <==> NoBreaks(q)
    ensures Work(q) == 0 <==> forall i :: 0 <= i < |q| ==> q[i].isBreak
  {
    if q != [] {
      WorkSize(q[..|q| - 1]);
      assert q == q[..|q| - 1] + [q[|q| - 1]];
    }
  }

  /* ----- every step keeps the invariant and brings the run closer to its end ----- */

  /** The part of the invariant that counts, and the measure. */
  ghost predicate CountsKept(s: State, t: State) {
    (forall key :: Everywhere(t, key) == Everywhere(s, key)) && BreaksOk(t) && Measure(t) < Measure(s)
  }

  lemma {:induction false} DispatchCounts(s: State)
    requires BreaksOk(s) && s.pending != []
    ensures CountsKept(s, Dispatched(s))
  {
    hide HeldHits, ExitedCount, WorkersCost, Hits, WorkHits;
    var job := s.pending[0];
    forall key
      ensures Everywhere(Dispatched(s), key) == Everywhere(s, key)
    {
      HeadTaken(s.pending, key);
      TailAdded(s.input, job, key);
    }
    TailAdded(s.input, job, None);
    WorkSize(s.input);
  }

  lemma {:induction false} BreakSentCounts(s: State)
    requires BreaksOk(s) && s.pending == [] && s.sent < |s.workers|
    ensures CountsKept(s, BreakSent(s))
  {
    forall key
      ensures Everywhere(BreakSent(s), key) == Everywhere(s, key)
    {
      TailAdded(s.input, BREAK_JOB, key);
    }
    TailAdded(s.input, BREAK_JOB, None);
  }

  lemma {:induction false} CollectCounts(s: State)
    requires BreaksOk(s) && s.output != []
    ensures CountsKept(s, Collected(s))
  {
    forall key
      ensures Everywhere(Collected(s), key) == Everywhere(s, key)
    {
      HeadTaken(s.output, key);
      TailAdded(s.collected, s.output[0], key);
    }
  }

  lemma {:induction false} HeadTakenInOrder(q: seq<Job>)
    requires BreaksLast(q) && q != []
    ensures BreaksLast(q[1..])
    ensures q[0].isBreak ==> Work(q) == 0
  {
    WorkSize(q);
  }

  lemma {:induction false} GetCounts(s: State, w: nat)
    requires BreaksOk(s) && w < |s.workers| && s.workers[w].Idle? && s.input != []
    ensures CountsKept(s, Got(s, w))
  {
    hide HeldHits, ExitedCount, WorkersCost, Hits, WorkHits;
    var job := s.input[0];
    var x := if job.isBreak then Exited else Holding(job);
    forall key
      ensures Everywhere(Got(s, w), key) == Everywhere(s, key)
    {
      HeadTaken(s.input, key);
      HeldChanged(s.workers, w, x, key);
    }
    HeadTaken(s.input, None);
    HeadTakenInOrder(s.input);
    ExitedChanged(s.workers, w, x);
    CostChanged(s.workers, w, x);
  }

  lemma {:induction false} LookCounts(s: State, w: nat)
    requires BreaksOk(s) && w < |s.workers| && s.workers[w].Holding?
    ensures CountsKept(s, Looked(s, w))
  {
    hide HeldHits, ExitedCount, WorkersCost, Hits, WorkHits, BreaksLast, NoBreaks;
    var job := s.workers[w].job;
    var x := if s.threadExit || job.isSkip then Idle else Running(job);
    forall key
      ensures Everywhere(Looked(s, w), key) == Everywhere(s, key)
    {
      HeldChanged(s.workers, w, x, key);
      TailAdded(s.output, if s.threadExit then job.(isBreak := true) else job, key);
    }
    ExitedChanged(s.workers, w, x);
    CostChanged(s.workers, w, x);
  }

  lemma {:induction false} CompleteCounts(s: State, w: nat, returncode: int)
    requires BreaksOk(s) && w < |s.workers| && s.workers[w].Running?
    ensures CountsKept(s, Completed(s, w, returncode))
  {
    var job := s.workers[w].job;
    forall key
      ensures Everywhere(Completed(s, w, returncode), key) == Everywhere(s, key)
    {
      HeldChanged(s.workers, w, Idle, key);
      TailAdded(s.output, job.(returncode := returncode), key);
    }
    ExitedChanged(s.workers, w, Idle);
    CostChanged(s.workers, w, Idle);
  }

  lemma {:induction false} CountedKept(tally: Tally, collected: seq<Job>, job: Job)
    requires Counted(tally, collected)
    ensures Counted(Count(tally, job), collected + [job])
  {
    assert (collected + [job])[..|collected|] == collected;
  }

  lemma {:induction false} MainKept(suite: Suite, s: State, a: Action)
    requires MainOk(|suite.jobs|, s) && Enabled(suite, s, a)
    ensures MainOk(|suite.jobs|, Apply(suite, s, a))
  {
    if a.Collect? {
      CountedKept(s.tally, s.collected, s.output[0]);
      assert Collected(s).joined == s.joined && Collected(s).verdict == s.verdict;
    } else {
      assert Apply(suite, s, a).collected == s.collected && Apply(suite, s, a).tally == s.tally;
    }
  }

  lemma {:induction false} JobsKept(suite: Suite, s: State, a: Action)
    requires JobsOk(suite, s) && Enabled(suite, s, a)
    ensures JobsOk(suite, Apply(suite, s, a))
  {
  }

  lemma {:induction false} StepCounts(suite: Suite, s: State, a: Action)
    requires BreaksOk(s) && s.joined <= |s.workers| && Enabled(suite, s, a)
    ensures CountsKept(s, Apply(suite, s, a))
  {
    match a
    case Dispatch => DispatchCounts(s);
    case SendBreak => BreakSentCounts(s);
    case Collect => CollectCounts(s);
    case Get(w) => GetCounts(s, w);
    case Look(w) => LookCounts(s, w);
    case Complete(w) => CompleteCounts(s, w, suite.exitOf(s.workers[w].job.id));
    case _ =>
  }
}
