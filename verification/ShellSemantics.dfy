/** What running a pipeline means: which commands are started, in which directories, which files are
    opened and closed, and which status comes back. */
module ShellSemantics {
  import opened Options
  import opened ShellSyntax

  /** A command with the `cd`s written directly before it, the directory they add up to, and whether an
      earlier command of the pipe feeds it. */
  datatype Job = Job(cds: seq<string>, cwd: string, command: Command, piped: bool)

  /** The reading the executor follows: pipes, nested to the right.  In a broken one an exception ends the
      run while the commands listed have been started and not been waited for. */
  datatype Chain = Last(pipe: seq<Job>) | Then(pipe: seq<Job>, op: Operator, rest: Chain) | Broken(pipe: seq<Job>)

  datatype Stream = Inherited | NewPipe | OutputOf(pid: nat) | OpenFile(handle: nat) | DevNull | ToStdout

  datatype Event =
    | Open(handle: nat, path: string, write: bool)
    | Start(pid: nat, command: Command, cwd: string, stdin: Stream, stdout: Stream, stderr: Stream)
    | Wait(pid: nat)
    | Close(handle: nat)

  /* ----- reading the node list ----- */

  /** What `run` asserts or takes for granted of the whole list: it ends in a command, every `cd` names a
      directory and stands before `&&`, and any other node is a command with an operator behind it. */
  ghost predicate Runnable(nodes: seq<Node>) {
    && nodes != []
    && match nodes[0]
      case Chdir(dir) => dir.Some? && |nodes| > 2 && nodes[1] == And && Runnable(nodes[2..])
      case Cmd(_) => |nodes| == 1 || (|nodes| > 2 && !nodes[1].Cmd? && !nodes[1].Chdir? && Runnable(nodes[2..]))
      case _ => false
  }

  /** `os.path.join` of POSIX. */
  function Join(a: string, b: string): string {
    if b != "" && b[0] == '/' then b
    else if a == "" || a[|a| - 1] == '/' then a + b
    else a + "/" + b
  }

  /** Reads the rest of a list behind the jobs of the current pipe and the `cd`s since the last job.
      A `cd` behind a pipe does not end it, and a directory once entered is never left.  A `cd` that ends
      the list or names no directory breaks it, as does whatever else `parse` never returns. */
  ghost function Grouped(nodes: seq<Node>, pipe: seq<Job>, cds: seq<string>, cwd: string): Chain {
    if nodes == [] then Broken(pipe)
    else
      match nodes[0]
      case Chdir(dir) =>
        if dir.None? || |nodes| == 1 || nodes[1] != And then Broken(pipe)
        else Grouped(nodes[2..], pipe, cds + [dir.value], Join(cwd, dir.value))
      case Cmd(c) =>
        var jobs := pipe + [Job(cds, cwd, c, pipe != [])];
        if |nodes| == 1 then Last(jobs)
        else if nodes[1] == Pipe then Grouped(nodes[2..], jobs, [], cwd)
        else if nodes[1] == And then Then(jobs, AndOp, Grouped(nodes[2..], [], [], cwd))
        else if nodes[1] == Or then Then(jobs, OrOp, Grouped(nodes[2..], [], [], cwd))
        else Broken(jobs)
      case _ => Broken(pipe)
  }

  /* ----- one command ----- */

  predicate IsNullDevice(file: string) {
    file == "NUL:" || file == "/dev/null"
  }

  /** The files a command's redirections open: standard input only when no pipe feeds it, and the shared
      null device never. */
  function StdinFile(job: Job): seq<(string, bool)> {
    if job.piped || job.command.stdin.None? then [] else [(job.command.stdin.value, false)]
  }

  function StdoutFiles(c: Command): seq<(string, bool)> {
    if c.stdout.StdoutFile? && !IsNullDevice(c.stdout.file) then [(c.stdout.file, true)] else []
  }

  function StderrFiles(c: Command): seq<(string, bool)> {
    if c.stderr.StderrFile? && !IsNullDevice(c.stderr.file) then [(c.stderr.file, true)] else []
  }

  function StdinStream(job: Job, pid: nat, handle: nat): Stream {
    if job.piped && pid > 0 then OutputOf(pid - 1)
    else if job.command.stdin.None? then Inherited
    else OpenFile(handle)
  }

  function StdoutStream(c: Command, handle: nat): Stream {
    match c.stdout
    case StdoutInherited => Inherited
    case StdoutPipe => NewPipe
    case StdoutFile(file) => if IsNullDevice(file) then DevNull else OpenFile(handle)
  }

  function StderrStream(c: Command, handle: nat): Stream {
    match c.stderr
    case StderrInherited => Inherited
    case StderrToStdout => ToStdout
    case StderrFile(file) => if IsNullDevice(file) then DevNull else OpenFile(handle)
  }

  function Opens(files: seq<(string, bool)>, handle: nat): seq<Event> {
    if files == [] then []
    else Opens(files[..|files| - 1], handle) + [Open(handle + |files| - 1, files[|files| - 1].0, files[|files| - 1].1)]
  }

  function JobEvents(job: Job, pid: nat, handle: nat): seq<Event> {
    var c := job.command;
    var h1 := handle + |StdinFile(job)|;
    var h2 := h1 + |StdoutFiles(c)|;
    Opens(StdinFile(job), handle) + Opens(StdoutFiles(c), h1) + Opens(StderrFiles(c), h2)
    + [Start(pid, c, job.cwd, StdinStream(job, pid, handle), StdoutStream(c, h1), StderrStream(c, h2))]
  }

  function OpenCount(job: Job): nat {
    |StdinFile(job)| + |StdoutFiles(job.command)| + |StderrFiles(job.command)|
  }

  /* ----- one pipe ----- */

  /** How many files the redirections of the first `k` commands of a pipe open. */
  function HandleCount(pipe: seq<Job>, k: nat): nat
    requires k <= |pipe|
  {
    if k == 0 then 0 else HandleCount(pipe, k - 1) + OpenCount(pipe[k - 1])
  }

  /** The commands of a pipe are all started before any is waited for: here the first `k`. */
  function Starts(pipe: seq<Job>, k: nat, pid: nat, handle: nat): seq<Event>
    requires k <= |pipe|
  {
    if k == 0 then []
    else Starts(pipe, k - 1, pid, handle) + JobEvents(pipe[k - 1], pid + k - 1, handle + HandleCount(pipe, k - 1))
  }

  function Waits(pid: nat, count: nat): seq<Event> {
    if count == 0 then [] else Waits(pid, count - 1) + [Wait(pid + count - 1)]
  }

  function Closes(handle: nat, count: nat): seq<Event> {
    if count == 0 then [] else Closes(handle, count - 1) + [Close(handle + count - 1)]
  }

  function PipeEvents(pipe: seq<Job>, pid: nat, handle: nat): seq<Event> {
    Starts(pipe, |pipe|, pid, handle) + Waits(pid, |pipe|) + Closes(handle, HandleCount(pipe, |pipe|))
  }

  /** A pipe's status is its last command's (section 2.9.2 of POSIX.1-2017 XCU). */
  function PipeStatus(pipe: seq<Job>, pid: nat, exitOf: nat -> int): int {
    if pipe == [] then 0 else exitOf(pid + |pipe| - 1)
  }

  predicate ShortCircuits(op: Operator, status: int) {
    (op == AndOp && status != 0) || (op == OrOp && status == 0)
  }

  /* ----- the whole list, nested to the right: a short circuit ends the run ----- */

  /** The pipes executed, one after the other, then the commands started and left behind by an exception,
      and the status returned if there was none. */
  datatype Execution = Execution(pipes: seq<seq<Job>>, abandoned: seq<Job>, status: Option<int>)

  function Nested(chain: Chain, pid: nat, exitOf: nat -> int): Execution {
    var status := PipeStatus(chain.pipe, pid, exitOf);
    match chain
    case Last(pipe) => Execution([pipe], [], Some(status))
    case Then(pipe, op, rest) =>
      if ShortCircuits(op, status) then Execution([pipe], [], Some(status))
      else
        var after := Nested(rest, pid + |pipe|, exitOf);
        after.(pipes := [pipe] + after.pipes)
    case Broken(pipe) => Execution([], pipe, None)
  }

  /** No part of the chain raises an exception. */
  ghost predicate Whole(chain: Chain) {
    !chain.Broken? && (chain.Then? ==> Whole(chain.rest))
  }

  /** A whole chain always returns, and only an exception leaves commands behind. */
  lemma {:induction false} WholeReturns(chain: Chain, pid: nat, exitOf: nat -> int)
    ensures Whole(chain) ==> Nested(chain, pid, exitOf).status.Some?
    ensures Nested(chain, pid, exitOf).status.Some? ==> Nested(chain, pid, exitOf).abandoned == []
    decreases chain
  {
    if chain.Then? {
      WholeReturns(chain.rest, pid + |chain.pipe|, exitOf);
    }
  }

  function JobCount(pipes: seq<seq<Job>>, k: nat): nat
    requires k <= |pipes|
  {
    if k == 0 then 0 else JobCount(pipes, k - 1) + |pipes[k - 1]|
  }

  function FileCount(pipes: seq<seq<Job>>, k: nat): nat
    requires k <= |pipes|
  {
    if k == 0 then 0 else FileCount(pipes, k - 1) + HandleCount(pipes[k - 1], |pipes[k - 1]|)
  }

  /** The events of the first `k` pipes executed. */
  function Effects(pipes: seq<seq<Job>>, k: nat, pid: nat, handle: nat): seq<Event>
    requires k <= |pipes|
  {
    if k == 0 then []
    else
      Effects(pipes, k - 1, pid, handle)
      + PipeEvents(pipes[k - 1], pid + JobCount(pipes, k - 1), handle + FileCount(pipes, k - 1))
  }

  /** The events of a run. */
  function RunEvents(run: Execution, pid: nat, handle: nat): seq<Event> {
    var n := |run.pipes|;
    Effects(run.pipes, n, pid, handle)
    + Starts(run.abandoned, |run.abandoned|, pid + JobCount(run.pipes, n), handle + FileCount(run.pipes, n))
  }

  /* ----- resources ----- */

  /** How many files have been opened and closed, and how many processes started and waited for. */
  datatype Resources = Resources(nOpened: nat, nClosed: nat, nStarted: nat, nWaited: nat)

  /** One event.  Files are closed in the order they were opened and processes waited for in the order
      they were started, so each is closed, or waited for, at most once and only after it began. */
  ghost predicate Plays1(e: Event, r: Resources, s: Resources) {
    match e
    case Open(h, _, _) => h == r.nOpened && s == r.(nOpened := h + 1)
    case Start(p, _, _, _, _, _) => p == r.nStarted && s == r.(nStarted := p + 1)
    case Wait(p) => p == r.nWaited < r.nStarted && s == r.(nWaited := p + 1)
    case Close(h) => h == r.nClosed < r.nOpened && s == r.(nClosed := h + 1)
  }

  ghost predicate PlaysAt(states: seq<Resources>, events: seq<Event>, i: nat)
    requires i < |events| && |states| == |events| + 1
  {
    Plays1(events[i], states[i], states[i + 1])
  }

  ghost predicate History(states: seq<Resources>, events: seq<Event>) {
    && |states| == |events| + 1
    && forall i {:trigger PlaysAt(states, events, i)} :: 0 <= i < |events| ==> PlaysAt(states, events, i)
  }

  /** The events can happen one after the other, leading from `r` to `s`. */
  ghost predicate Plays(events: seq<Event>, r: Resources, s: Resources) {
    exists states {:trigger History(states, events)} :: History(states, events) && states[0] == r
        && states[|events|] == s
  }

  lemma {:induction false} PlaysNothing(r: Resources)
    ensures Plays([], r, r)
  {
    assert History([r], []);
  }

  lemma {:induction false} PlaysOne(e: Event, r: Resources, s: Resources)
    requires Plays1(e, r, s)
    ensures Plays([e], r, s)
  {
    assert History([r, s], [e]);
  }

  lemma {:induction false} PlaysOn(a: seq<Event>, b: seq<Event>, r: Resources, s: Resources, t: Resources)
    requires Plays(a, r, s) && Plays(b, s, t)
    ensures Plays(a + b, r, t)
  {
    var u :| History(u, a) && u[0] == r && u[|a|] == s;
    var v :| History(v, b) && v[0] == s && v[|b|] == t;
    var w := u + v[1..];
    forall i | 0 <= i < |a + b|
      ensures PlaysAt(w, a + b, i)
    {
      if i < |a| {
        assert PlaysAt(u, a, i);
      } else {
        assert PlaysAt(v, b, i - |a|);
        assert w[i] == v[i - |a|] && w[i + 1] == v[i - |a| + 1];
      }
    }
    assert History(w, a + b);
  }

  lemma {:induction false} OpensPlay(files: seq<(string, bool)>, r: Resources)
    ensures Plays(Opens(files, r.nOpened), r, r.(nOpened := r.nOpened + |files|))
  {
    if files == [] {
      PlaysNothing(r);
    } else {
      var n := |files| - 1;
      var e := Open(r.nOpened + n, files[n].0, files[n].1);
      OpensPlay(files[..n], r);
      PlaysOne(e, r.(nOpened := r.nOpened + n), r.(nOpened := r.nOpened + n + 1));
      PlaysOn(Opens(files[..n], r.nOpened), [e], r, r.(nOpened := r.nOpened + n), r.(nOpened := r.nOpened + n + 1));
    }
  }

  lemma {:induction false} OpensPlayOn(before: seq<Event>, files: seq<(string, bool)>, q: Resources, r: Resources)
    requires Plays(before, q, r)
    ensures Plays(before + Opens(files, r.nOpened), q, r.(nOpened := r.nOpened + |files|))
  {
    OpensPlay(files, r);
    PlaysOn(before, Opens(files, r.nOpened), q, r, r.(nOpened := r.nOpened + |files|));
  }

  lemma {:induction false} StartPlayOn(before: seq<Event>, start: Event, q: Resources, r: Resources)
    requires Plays(before, q, r) && start.Start? && start.pid == r.nStarted
    ensures Plays(before + [start], q, r.(nStarted := r.nStarted + 1))
  {
    PlaysOne(start, r, r.(nStarted := r.nStarted + 1));
    PlaysOn(before, [start], q, r, r.(nStarted := r.nStarted + 1));
  }

  lemma {:induction false} JobPlays(job: Job, r: Resources)
    ensures Plays(JobEvents(job, r.nStarted, r.nOpened), r,
                  r.(nOpened := r.nOpened + OpenCount(job), nStarted := r.nStarted + 1))
  {
    var f1, f2, f3 := StdinFile(job), StdoutFiles(job.command), StderrFiles(job.command);
    var r1 := r.(nOpened := r.nOpened + |f1|);
    var r2 := r.(nOpened := r1.nOpened + |f2|);
    var r3 := r.(nOpened := r2.nOpened + |f3|);
    var events := JobEvents(job, r.nStarted, r.nOpened);
    OpensPlay(f1, r);
    OpensPlayOn(Opens(f1, r.nOpened), f2, r, r1);
    OpensPlayOn(Opens(f1, r.nOpened) + Opens(f2, r1.nOpened), f3, r, r2);
    StartPlayOn(Opens(f1, r.nOpened) + Opens(f2, r1.nOpened) + Opens(f3, r2.nOpened), events[|events| - 1], r, r3);
  }

  lemma {:induction false} JobPlaysOn(before: seq<Event>, job: Job, q: Resources, r: Resources)
    requires Plays(before, q, r)
    ensures Plays(before + JobEvents(job, r.nStarted, r.nOpened), q,
                  r.(nOpened := r.nOpened + OpenCount(job), nStarted := r.nStarted + 1))
  {
    JobPlays(job, r);
    PlaysOn(before, JobEvents(job, r.nStarted, r.nOpened), q, r,
            r.(nOpened := r.nOpened + OpenCount(job), nStarted := r.nStarted + 1));
  }

  lemma {:induction false} StartsPlay(pipe: seq<Job>, k: nat, r: Resources)
    requires k <= |pipe|
    ensures Plays(Starts(pipe, k, r.nStarted, r.nOpened), r,
                  r.(nOpened := r.nOpened + HandleCount(pipe, k), nStarted := r.nStarted + k))
  {
    hide Plays, JobEvents, OpenCount;
    if k == 0 {
      PlaysNothing(r);
    } else {
      StartsPlay(pipe, k - 1, r);
      JobPlaysOn(Starts(pipe, k - 1, r.nStarted, r.nOpened), pipe[k - 1], r,
                 r.(nOpened := r.nOpened + HandleCount(pipe, k - 1), nStarted := r.nStarted + k - 1));
    }
  }

  lemma {:induction false} WaitsPlay(count: nat, r: Resources)
    requires r.nWaited + count <= r.nStarted
    ensures Plays(Waits(r.nWaited, count), r, r.(nWaited := r.nWaited + count))
  {
    if count == 0 {
      PlaysNothing(r);
    } else {
      var s, t := r.(nWaited := r.nWaited + count - 1), r.(nWaited := r.nWaited + count);
      WaitsPlay(count - 1, r);
      PlaysOne(Wait(s.nWaited), s, t);
      PlaysOn(Waits(r.nWaited, count - 1), [Wait(s.nWaited)], r, s, t);
    }
  }

  lemma {:induction false} ClosesPlay(count: nat, r: Resources)
    requires r.nClosed + count <= r.nOpened
    ensures Plays(Closes(r.nClosed, count), r, r.(nClosed := r.nClosed + count))
  {
    if count == 0 {
      PlaysNothing(r);
    } else {
      var s, t := r.(nClosed := r.nClosed + count - 1), r.(nClosed := r.nClosed + count);
      ClosesPlay(count - 1, r);
      PlaysOne(Close(s.nClosed), s, t);
      PlaysOn(Closes(r.nClosed, count - 1), [Close(s.nClosed)], r, s, t);
    }
  }

  lemma {:induction false} WaitsPlayOn(before: seq<Event>, count: nat, q: Resources, r: Resources)
    requires Plays(before, q, r) && r.nWaited + count == r.nStarted
    ensures Plays(before + Waits(r.nWaited, count), q, r.(nWaited := r.nStarted))
  {
    WaitsPlay(count, r);
    PlaysOn(before, Waits(r.nWaited, count), q, r, r.(nWaited := r.nStarted));
  }

  lemma {:induction false} ClosesPlayOn(before: seq<Event>, count: nat, q: Resources, r: Resources)
    requires Plays(before, q, r) && r.nClosed + count == r.nOpened
    ensures Plays(before + Closes(r.nClosed, count), q, r.(nClosed := r.nOpened))
  {
    ClosesPlay(count, r);
    PlaysOn(before, Closes(r.nClosed, count), q, r, r.(nClosed := r.nOpened));
  }

  lemma {:induction false} AllStartsPlay(pipe: seq<Job>, pid: nat, handle: nat)
    ensures Plays(Starts(pipe, |pipe|, pid, handle), Settled(handle, pid),
                  Resources(handle + HandleCount(pipe, |pipe|), handle, pid + |pipe|, pid))
  {
    StartsPlay(pipe, |pipe|, Settled(handle, pid));
  }

  lemma {:induction false} WaitsPlayNext(before: seq<Event>, pid: nat, handle: nat, h: nat, count: nat)
    requires Plays(before, Settled(handle, pid), Resources(h, handle, pid + count, pid))
    ensures Plays(before + Waits(pid, count), Settled(handle, pid), Resources(h, handle, pid + count, pid + count))
  {
    WaitsPlayOn(before, count, Settled(handle, pid), Resources(h, handle, pid + count, pid));
  }

  lemma {:induction false} ClosesPlayLast(before: seq<Event>, pid: nat, handle: nat, p: nat, count: nat)
    requires Plays(before, Settled(handle, pid), Resources(handle + count, handle, p, p))
    ensures Plays(before + Closes(handle, count), Settled(handle, pid), Settled(handle + count, p))
  {
    ClosesPlayOn(before, count, Settled(handle, pid), Resources(handle + count, handle, p, p));
  }

  lemma {:induction false} PartsPlay(pipe: seq<Job>, pid: nat, handle: nat)
    ensures Plays(Starts(pipe, |pipe|, pid, handle) + Waits(pid, |pipe|) + Closes(handle, HandleCount(pipe, |pipe|)),
                  Settled(handle, pid), Settled(handle + HandleCount(pipe, |pipe|), pid + |pipe|))
  {
    AllStartsPlay(pipe, pid, handle);
    WaitsPlayNext(Starts(pipe, |pipe|, pid, handle), pid, handle, handle + HandleCount(pipe, |pipe|), |pipe|);
    ClosesPlayLast(Starts(pipe, |pipe|, pid, handle) + Waits(pid, |pipe|), pid, handle, pid + |pipe|,
        HandleCount(pipe, |pipe|));
  }

  lemma {:induction false} PipePlays(pipe: seq<Job>, pid: nat, handle: nat)
    ensures Plays(PipeEvents(pipe, pid, handle), Settled(handle, pid),
                  Settled(handle + HandleCount(pipe, |pipe|), pid + |pipe|))
  {
    PartsPlay(pipe, pid, handle);
  }

  /** Nothing open and nothing running. */
  ghost function Settled(handles: nat, pids: nat): Resources {
    Resources(handles, handles, pids, pids)
  }

  lemma {:induction false} PipePlaysOn(before: seq<Event>, pipe: seq<Job>, q: Resources, pid: nat, handle: nat)
    requires Plays(before, q, Settled(handle, pid))
    ensures Plays(before + PipeEvents(pipe, pid, handle), q, Settled(handle + HandleCount(pipe, |pipe|), pid + |pipe|))
  {
    PipePlays(pipe, pid, handle);
    PlaysOn(before, PipeEvents(pipe, pid, handle), q, Settled(handle, pid),
            Settled(handle + HandleCount(pipe, |pipe|), pid + |pipe|));
  }

  /** Whatever pipes are executed, each file opened is closed exactly once and each process started is
      waited for exactly once, before the next pipe begins: nothing is left when the run ends. */
  lemma {:induction false} NothingLeft(pipes: seq<seq<Job>>, k: nat, pid: nat, handle: nat)
    requires k <= |pipes|
    ensures Plays(Effects(pipes, k, pid, handle), Settled(handle, pid),
                  Settled(handle + FileCount(pipes, k), pid + JobCount(pipes, k)))
  {
    hide Plays, PipeEvents, HandleCount;
    if k == 0 {
      PlaysNothing(Settled(handle, pid));
    } else {
      NothingLeft(pipes, k - 1, pid, handle);
      PipePlaysOn(Effects(pipes, k - 1, pid, handle), pipes[k - 1], Settled(handle, pid),
                  pid + JobCount(pipes, k - 1), handle + FileCount(pipes, k - 1));
    }
  }

  /** When a run returns, each file it opened has been closed and each process it started waited for. */
  lemma {:induction false} ReturnLeavesNothing(run: Execution, pid: nat, handle: nat)
    requires run.abandoned == []
    ensures Plays(RunEvents(run, pid, handle), Settled(handle, pid),
                  Settled(handle + FileCount(run.pipes, |run.pipes|), pid + JobCount(run.pipes, |run.pipes|)))
  {
    hide Plays, Effects;
    NothingLeft(run.pipes, |run.pipes|, pid, handle);
    var none := Starts(run.abandoned, 0, pid, handle);
    assert Effects(run.pipes, |run.pipes|, pid, handle) + [] == Effects(run.pipes, |run.pipes|, pid, handle);
  }
}
