/** The executor's right-nested reading against the AND-OR lists of section 2.9.3 of POSIX.1-2017 XCU,
    where `&&` and `||` have equal precedence and associate to the left. */
module ShellAndOr {
  import opened Options
  import opened ShellSyntax
  import opened ShellSemantics

  /** A command started: its place in the list and its directory. */
  datatype Mark = Mark(place: nat, cwd: string)

  /** The commands started, and the status unless an exception ends the run. */
  datatype Ran = Ran(marks: seq<Mark>, status: Option<int>)

  ghost function Marks(pipe: seq<Job>, k: nat, n: nat): seq<Mark>
    requires k <= |pipe|
  {
    if k == 0 then [] else Marks(pipe, k - 1, n) + [Mark(n + k - 1, pipe[k - 1].cwd)]
  }

  /** What the executor starts and returns. */
  ghost function NestedRan(chain: Chain, n: nat, exitOf: nat -> int): Ran {
    var marks, status := Marks(chain.pipe, |chain.pipe|, n), PipeStatus(chain.pipe, n, exitOf);
    match chain
    case Last(_) => Ran(marks, Some(status))
    case Then(pipe, op, rest) =>
      if ShortCircuits(op, status) then Ran(marks, Some(status))
      else
        var after := NestedRan(rest, n + |pipe|, exitOf);
        Ran(marks + after.marks, after.status)
    case Broken(_) => Ran(marks, None)
  }

  ghost function MarksIn(k: nat, n: nat, cwd: string): seq<Mark> {
    if k == 0 then [] else MarksIn(k - 1, n, cwd) + [Mark(n + k - 1, cwd)]
  }

  /** What POSIX asks for: `run` says whether the next element is executed, `prev` is the status so far.
      `cds` are the `cd`s still before the first pipe, each an element of its own with `&&` behind it. */
  ghost function Posix(chain: Chain, cds: seq<string>, n: nat, cwd: string, run: bool, prev: int,
      exitOf: nat -> int): Ran
    decreases chain, |cds|
  {
    if cds != [] then
      if run then Posix(chain, cds[1..], n, Join(cwd, cds[0]), true, 0, exitOf)
      else Posix(chain, cds[1..], n, cwd, prev == 0, prev, exitOf)
    else
      var marks := if run then MarksIn(|chain.pipe|, n, cwd) else [];
      var status := if run then PipeStatus(chain.pipe, n, exitOf) else prev;
      match chain
      case Last(_) => Ran(marks, Some(status))
      case Then(pipe, op, rest) =>
        var goesOn := if op == AndOp then status == 0 else status != 0;
        var after := Posix(rest, FirstCds(rest), n + |pipe|, cwd, goesOn, status, exitOf);
        Ran(marks + after.marks, after.status)
      case Broken(_) => Ran(marks, None)
  }

  function FirstCds(chain: Chain): seq<string> {
    if chain.pipe == [] then [] else chain.pipe[0].cds
  }

  /** Only the first command of a pipe has `cd`s before it: no `cd` follows a pipe. */
  ghost predicate CdsLead(pipe: seq<Job>) {
    pipe != [] && forall i :: 1 <= i < |pipe| ==> pipe[i].cds == []
  }

  ghost predicate NoCdBehindPipe(chain: Chain) {
    CdsLead(chain.pipe) && (chain.Then? ==> chain.op != PipeOp && NoCdBehindPipe(chain.rest))
  }

  ghost function Through(cwd: string, cds: seq<string>): string
    decreases |cds|
  {
    if cds == [] then cwd else Through(Join(cwd, cds[0]), cds[1..])
  }

  /** Each command's directory is what its own and all earlier `cd`s add up to. */
  ghost predicate Directories(pipe: seq<Job>, cwd: string) {
    pipe == [] || (Directories(pipe[..|pipe| - 1], cwd) &&
                   pipe[|pipe| - 1].cwd == Through(EndCwd(pipe[..|pipe| - 1], cwd), pipe[|pipe| - 1].cds))
  }

  ghost function EndCwd(pipe: seq<Job>, cwd: string): string {
    if pipe == [] then cwd else pipe[|pipe| - 1].cwd
  }

  ghost predicate AllDirectories(chain: Chain, cwd: string) {
    Directories(chain.pipe, cwd) && (chain.Then? ==> AllDirectories(chain.rest, EndCwd(chain.pipe, cwd)))
  }

  lemma {:induction false} ThroughOneMore(cwd: string, cds: seq<string>, d: string)
    ensures Through(cwd, cds + [d]) == Join(Through(cwd, cds), d)
    decreases |cds|
  {
    if cds == [] {
      assert [d][1..] == [];
    } else {
      assert (cds + [d])[1..] == cds[1..] + [d];
      ThroughOneMore(Join(cwd, cds[0]), cds[1..], d);
    }
  }

  lemma {:induction false} NothingStarted(cwd: string)
    ensures Directories([], cwd) && EndCwd([], cwd) == cwd && Through(cwd, []) == cwd
  {
  }

  lemma {:induction false} OneMoreDirectory(pipe: seq<Job>, job: Job, start: string)
    requires Directories(pipe, start) && job.cwd == Through(EndCwd(pipe, start), job.cds)
    ensures Directories(pipe + [job], start) && EndCwd(pipe + [job], start) == job.cwd
    ensures Through(job.cwd, []) == job.cwd
  {
    assert (pipe + [job])[..|pipe|] == pipe;
  }

  /** Reading a node list gets the directories right. */
  lemma {:induction false} GroupedDirectories(nodes: seq<Node>, pipe: seq<Job>, cds: seq<string>, cwd: string,
      start: string)
    requires Directories(pipe, start) && cwd == Through(EndCwd(pipe, start), cds)
    ensures AllDirectories(Grouped(nodes, pipe, cds, cwd), start)
    ensures Grouped(nodes, pipe, cds, cwd).Then? ==> Grouped(nodes, pipe, cds, cwd).op != PipeOp
    decreases |nodes|
  {
    hide Directories, EndCwd, Through, Join;
    NothingStarted(cwd);
    if nodes != [] {
      match nodes[0]
      case Chdir(dir) =>
        if dir.Some? && |nodes| > 1 {
          ThroughOneMore(EndCwd(pipe, start), cds, dir.value);
          GroupedDirectories(nodes[2..], pipe, cds + [dir.value], Join(cwd, dir.value), start);
        }
      case Cmd(c) =>
        var jobs := pipe + [Job(cds, cwd, c, pipe != [])];
        OneMoreDirectory(pipe, jobs[|pipe|], start);
        if |nodes| > 1 {
          if nodes[1] == Pipe {
            GroupedDirectories(nodes[2..], jobs, [], cwd, start);
          } else {
            GroupedDirectories(nodes[2..], [], [], cwd, cwd);
          }
        }
      case _ =>
    }
  }

  /** A list is read as a chain without a break exactly when all of it can be run. */
  lemma {:induction false} WholeIff(nodes: seq<Node>, pipe: seq<Job>, cds: seq<string>, cwd: string)
    ensures Whole(Grouped(nodes, pipe, cds, cwd)) <==> Runnable(nodes)
    decreases |nodes|
  {
    hide Join;
    if nodes != [] {
      match nodes[0]
      case Chdir(dir) =>
        if dir.Some? && |nodes| > 1 {
          WholeIff(nodes[2..], pipe, cds + [dir.value], Join(cwd, dir.value));
        }
      case Cmd(c) =>
        if |nodes| > 1 {
          if nodes[1] == Pipe {
            WholeIff(nodes[2..], pipe + [Job(cds, cwd, c, pipe != [])], [], cwd);
          } else {
            WholeIff(nodes[2..], [], [], cwd);
          }
        }
      case _ =>
    }
  }

  /* ----- where the two readings agree ----- */

  /** Every operator of the chain, the `&&` behind each of its `cd`s included, is `op`. */
  ghost predicate Only(chain: Chain, cds: seq<string>, op: Operator) {
    && (cds != [] ==> op == AndOp)
    && (chain.Then? ==> chain.op == op && Only(chain.rest, FirstCds(chain.rest), op))
  }

  /** Behind the first pipe, only one of the two operators is used. */
  ghost predicate Uniform(chain: Chain) {
    chain.Then? ==> Only(chain.rest, FirstCds(chain.rest), chain.op)
  }

  lemma {:induction false} MarksAgree(pipe: seq<Job>, k: nat, n: nat, start: string)
    requires Directories(pipe, start) && CdsLead(pipe) && 0 < k <= |pipe|
    ensures Marks(pipe, k, n) == MarksIn(k, n, Through(start, pipe[0].cds))
    ensures pipe[k - 1].cwd == Through(start, pipe[0].cds)
  {
    DirectoryAt(pipe, k - 1, start);
    if k > 1 {
      MarksAgree(pipe, k - 1, n, start);
      assert pipe[k - 1].cds == [];
    }
  }

  lemma {:induction false} DirectoryAt(pipe: seq<Job>, i: nat, start: string)
    requires Directories(pipe, start) && i < |pipe|
    ensures pipe[i].cwd == Through(if i == 0 then start else pipe[i - 1].cwd, pipe[i].cds)
  {
    if i < |pipe| - 1 {
      DirectoryAt(pipe[..|pipe| - 1], i, start);
    }
  }

  /** Executing the leading `cd`s. */
  lemma {:induction false} CdsRun(chain: Chain, cds: seq<string>, n: nat, cwd: string, prev: int, exitOf: nat -> int)
    ensures Posix(chain, cds, n, cwd, true, prev, exitOf) == Posix(chain, [], n, Through(cwd, cds), true, prev, exitOf)
    decreases |cds|
  {
    if cds != [] {
      CdsRun(chain, cds[1..], n, Join(cwd, cds[0]), 0, exitOf);
      PrevUnused(chain, n, Through(cwd, cds), 0, prev, exitOf);
    }
  }

  lemma {:induction false} PrevUnused(chain: Chain, n: nat, cwd: string, prev: int, prev': int, exitOf: nat -> int)
    ensures Posix(chain, [], n, cwd, true, prev, exitOf) == Posix(chain, [], n, cwd, true, prev', exitOf)
  {
  }

  /** Once skipping, a chain of one operator is skipped to its end. */
  lemma {:induction false} SkipsOn(chain: Chain, cds: seq<string>, n: nat, cwd: string, prev: int, op: Operator,
      exitOf: nat -> int)
    requires Whole(chain) && Only(chain, cds, op) && ShortCircuits(op, prev)
    ensures Posix(chain, cds, n, cwd, false, prev, exitOf) == Ran([], Some(prev))
    decreases chain, |cds|
  {
    if cds != [] {
      SkipsOn(chain, cds[1..], n, cwd, prev, op, exitOf);
    } else if chain.Then? {
      SkipsOn(chain.rest, FirstCds(chain.rest), n + |chain.pipe|, cwd, prev, op, exitOf);
    }
  }

  lemma {:induction false} UniformAgrees(chain: Chain, n: nat, cwd: string, exitOf: nat -> int)
    requires Whole(chain) && NoCdBehindPipe(chain) && AllDirectories(chain, cwd) && Uniform(chain)
    ensures Posix(chain, FirstCds(chain), n, cwd, true, 0, exitOf) == NestedRan(chain, n, exitOf)
    decreases chain
  {
    var end := Through(cwd, FirstCds(chain));
    CdsRun(chain, FirstCds(chain), n, cwd, 0, exitOf);
    MarksAgree(chain.pipe, |chain.pipe|, n, cwd);
    if chain.Then? {
      var status := PipeStatus(chain.pipe, n, exitOf);
      var m := n + |chain.pipe|;
      if ShortCircuits(chain.op, status) {
        SkipsOn(chain.rest, FirstCds(chain.rest), m, end, status, chain.op, exitOf);
      } else {
        UniformAgrees(chain.rest, m, end, exitOf);
        CdsRun(chain.rest, FirstCds(chain.rest), m, end, status, exitOf);
        CdsRun(chain.rest, FirstCds(chain.rest), m, end, 0, exitOf);
        PrevUnused(chain.rest, m, Through(end, FirstCds(chain.rest)), status, 0, exitOf);
      }
    }
  }

  lemma {:induction false} RunStarts(chain: Chain, cds: seq<string>, n: nat, cwd: string, prev: int, exitOf: nat -> int)
    requires chain.pipe != [] && !chain.Broken?
    ensures Posix(chain, cds, n, cwd, true, prev, exitOf).marks != []
  {
    CdsRun(chain, cds, n, cwd, prev, exitOf);
    assert MarksIn(|chain.pipe|, n, Through(cwd, cds)) != [];
  }

  /** With a second operator further on, POSIX picks up again after skipping. */
  lemma {:induction false} ResumesLater(chain: Chain, cds: seq<string>, n: nat, cwd: string, prev: int, op: Operator,
      exitOf: nat -> int)
    requires Whole(chain) && NoCdBehindPipe(chain) && op != PipeOp && !Only(chain, cds, op) && ShortCircuits(op, prev)
    ensures Posix(chain, cds, n, cwd, false, prev, exitOf).marks != []
    decreases chain, |cds|
  {
    if cds != [] {
      if op == OrOp {
        RunStarts(chain, cds[1..], n, cwd, prev, exitOf);
      } else {
        ResumesLater(chain, cds[1..], n, cwd, prev, op, exitOf);
      }
    } else {
      var m := n + |chain.pipe|;
      if chain.op == op {
        ResumesLater(chain.rest, FirstCds(chain.rest), m, cwd, prev, op, exitOf);
      } else {
        RunStarts(chain.rest, FirstCds(chain.rest), m, cwd, prev, exitOf);
      }
    }
  }

  /** A list with two operators behind its first pipe is read differently as soon as that pipe's status
      short-circuits. */
  lemma {:induction false} MixedDiffers(chain: Chain, n: nat, cwd: string, exitOf: nat -> int)
    requires Whole(chain) && NoCdBehindPipe(chain) && AllDirectories(chain, cwd) && !Uniform(chain)
    requires ShortCircuits(chain.op, PipeStatus(chain.pipe, n, exitOf))
    ensures |Posix(chain, FirstCds(chain), n, cwd, true, 0, exitOf).marks| > |NestedRan(chain, n, exitOf).marks|
  {
    var status := PipeStatus(chain.pipe, n, exitOf);
    var end := Through(cwd, FirstCds(chain));
    CdsRun(chain, FirstCds(chain), n, cwd, 0, exitOf);
    MarksAgree(chain.pipe, |chain.pipe|, n, cwd);
    ResumesLater(chain.rest, FirstCds(chain.rest), n + |chain.pipe|, end, status, chain.op, exitOf);
  }

  ghost predicate Agrees(chain: Chain, cwd: string, exitOf: nat -> int) {
    Posix(chain, FirstCds(chain), 0, cwd, true, 0, exitOf) == NestedRan(chain, 0, exitOf)
  }

  /** The executor starts the commands and returns the status that POSIX asks for, whatever the commands
      return, exactly when only one of `&&` and `||` is used behind the first pipe. */
  lemma {:induction false} AgreesIffUniform(nodes: seq<Node>, cwd: string)
    requires Runnable(nodes) && NoCdBehindPipe(Grouped(nodes, [], [], cwd))
    ensures var chain := Grouped(nodes, [], [], cwd);
      (forall exitOf :: Agrees(chain, cwd, exitOf)) <==> Uniform(chain)
  {
    var chain := Grouped(nodes, [], [], cwd);
    GroupedDirectories(nodes, [], [], cwd, cwd);
    WholeIff(nodes, [], [], cwd);
    if Uniform(chain) {
      forall exitOf
        ensures Agrees(chain, cwd, exitOf)
      {
        UniformAgrees(chain, 0, cwd, exitOf);
      }
    } else {
      var exitOf: nat -> int := if chain.op == AndOp then _ => 1 else _ => 0;
      MixedDiffers(chain, 0, cwd, exitOf);
      assert !Agrees(chain, cwd, exitOf);
    }
  }

  /* ----- the executor's events show the same commands ----- */

  /** The starts among the first `n` events. */
  ghost function StartsAmong(events: seq<Event>, n: nat): seq<Mark>
    requires n <= |events|
  {
    if n == 0 then []
    else StartsAmong(events, n - 1) + if events[n - 1].Start? then [Mark(events[n - 1].pid, events[n - 1].cwd)] else []
  }

  ghost function StartMarks(events: seq<Event>): seq<Mark> {
    StartsAmong(events, |events|)
  }

  lemma {:induction false} StartsAmongConcat(a: seq<Event>, b: seq<Event>, n: nat)
    requires n <= |a| + |b|
    ensures StartsAmong(a + b, n) ==
            if n <= |a| then StartsAmong(a, n) else StartsAmong(a, |a|) + StartsAmong(b, n - |a|)
  {
    if n > 0 {
      StartsAmongConcat(a, b, n - 1);
    }
  }

  lemma {:induction false} StartMarksConcat(a: seq<Event>, b: seq<Event>)
    ensures StartMarks(a + b) == StartMarks(a) + StartMarks(b)
  {
    StartsAmongConcat(a, b, |a| + |b|);
  }

  lemma {:induction false} NoStarts(events: seq<Event>, n: nat)
    requires n <= |events| && forall i :: 0 <= i < |events| ==> !events[i].Start?
    ensures StartsAmong(events, n) == []
  {
    if n > 0 {
      NoStarts(events, n - 1);
    }
  }

  lemma {:induction false} OpensStartNothing(files: seq<(string, bool)>, handle: nat)
    ensures forall i :: 0 <= i < |Opens(files, handle)| ==> !Opens(files, handle)[i].Start?
  {
    if files != [] {
      OpensStartNothing(files[..|files| - 1], handle);
    }
  }

  lemma {:induction false} JobMarks(job: Job, pid: nat, handle: nat)
    ensures StartMarks(JobEvents(job, pid, handle)) == [Mark(pid, job.cwd)]
  {
    var events := JobEvents(job, pid, handle);
    var n := |events| - 1;
    var f1, f2, f3 := StdinFile(job), StdoutFiles(job.command), StderrFiles(job.command);
    var opens := Opens(f1, handle) + Opens(f2, handle + |f1|) + Opens(f3, handle + |f1| + |f2|);
    OpensStartNothing(f1, handle);
    OpensStartNothing(f2, handle + |f1|);
    OpensStartNothing(f3, handle + |f1| + |f2|);
    NoStarts(opens, n);
    StartsAmongConcat(opens, [events[n]], n);
    assert events == opens + [events[n]];
  }

  lemma {:induction false} JobMarksOn(before: seq<Event>, marks: seq<Mark>, job: Job, pid: nat, handle: nat)
    requires StartMarks(before) == marks
    ensures StartMarks(before + JobEvents(job, pid, handle)) == marks + [Mark(pid, job.cwd)]
  {
    JobMarks(job, pid, handle);
    StartMarksConcat(before, JobEvents(job, pid, handle));
  }

  lemma {:induction false} StartsMarks(pipe: seq<Job>, k: nat, pid: nat, handle: nat)
    requires k <= |pipe|
    ensures StartMarks(Starts(pipe, k, pid, handle)) == Marks(pipe, k, pid)
  {
    hide JobEvents;
    if k > 0 {
      hide StartMarks;
      StartsMarks(pipe, k - 1, pid, handle);
      JobMarksOn(Starts(pipe, k - 1, pid, handle), Marks(pipe, k - 1, pid), pipe[k - 1], pid + k - 1,
                 handle + HandleCount(pipe, k - 1));
    }
  }

  lemma {:induction false} EndsStartNothing(pid: nat, handle: nat, n: nat, m: nat)
    ensures |Waits(pid, n)| == n && |Closes(handle, m)| == m
    ensures forall i :: 0 <= i < n ==> !Waits(pid, n)[i].Start?
    ensures forall i :: 0 <= i < m ==> !Closes(handle, m)[i].Start?
    decreases n + m
  {
    if n > 0 {
      EndsStartNothing(pid, handle, n - 1, m);
    } else if m > 0 {
      EndsStartNothing(pid, handle, n, m - 1);
    }
  }

  lemma {:induction false} PipeMarks(pipe: seq<Job>, pid: nat, handle: nat)
    ensures StartMarks(PipeEvents(pipe, pid, handle)) == Marks(pipe, |pipe|, pid)
  {
    var starts, waits := Starts(pipe, |pipe|, pid, handle), Waits(pid, |pipe|);
    var closes := Closes(handle, HandleCount(pipe, |pipe|));
    StartsMarks(pipe, |pipe|, pid, handle);
    EndsStartNothing(pid, handle, |pipe|, HandleCount(pipe, |pipe|));
    NoStarts(waits, |waits|);
    NoStarts(closes, |closes|);
    StartMarksConcat(starts, waits);
    StartMarksConcat(starts + waits, closes);
  }

  ghost function AllMarks(pipes: seq<seq<Job>>, k: nat, n: nat): seq<Mark>
    requires k <= |pipes|
  {
    if k == 0 then []
    else AllMarks(pipes, k - 1, n) + Marks(pipes[k - 1], |pipes[k - 1]|, n + JobCount(pipes, k - 1))
  }

  lemma {:induction false} PipeMarksOn(before: seq<Event>, pipe: seq<Job>, pid: nat, handle: nat)
    ensures StartMarks(before + PipeEvents(pipe, pid, handle)) == StartMarks(before) + Marks(pipe, |pipe|, pid)
  {
    PipeMarks(pipe, pid, handle);
    StartMarksConcat(before, PipeEvents(pipe, pid, handle));
  }

  /** The events of the first `k` pipes show exactly their commands. */
  ghost predicate MarksShown(events: seq<Event>, marks: seq<Mark>) {
    StartMarks(events) == marks
  }

  lemma {:induction false} OneMorePipe(before: seq<Event>, marks: seq<Mark>, pipe: seq<Job>, pid: nat, handle: nat)
    requires MarksShown(before, marks)
    ensures MarksShown(before + PipeEvents(pipe, pid, handle), marks + Marks(pipe, |pipe|, pid))
  {
    PipeMarksOn(before, pipe, pid, handle);
  }

  lemma {:induction false} EffectMarks(pipes: seq<seq<Job>>, k: nat, pid: nat, handle: nat)
    requires k <= |pipes|
    ensures MarksShown(Effects(pipes, k, pid, handle), AllMarks(pipes, k, pid))
  {
    hide MarksShown, PipeEvents;
    if k == 0 {
      NoEffects();
    } else {
      EffectMarks(pipes, k - 1, pid, handle);
      OneMorePipe(Effects(pipes, k - 1, pid, handle), AllMarks(pipes, k - 1, pid), pipes[k - 1],
                  pid + JobCount(pipes, k - 1), handle + FileCount(pipes, k - 1));
    }
  }

  lemma {:induction false} NoEffects()
    ensures MarksShown([], [])
  {
  }

  lemma {:induction false} FirstPipe(pipe: seq<Job>, pipes: seq<seq<Job>>, k: nat, n: nat)
    requires k <= |pipes|
    ensures JobCount([pipe] + pipes, k + 1) == |pipe| + JobCount(pipes, k)
    ensures AllMarks([pipe] + pipes, k + 1, n) == Marks(pipe, |pipe|, n) + AllMarks(pipes, k, n + |pipe|)
  {
    hide Marks;
    if k > 0 {
      FirstPipe(pipe, pipes, k - 1, n);
      assert ([pipe] + pipes)[k] == pipes[k - 1];
    }
  }

  lemma {:induction false} NoMarks(n: nat)
    ensures AllMarks([], 0, n) == [] && Marks([], 0, n) == [] && JobCount([], 0) == 0
  {
  }

  /** The processes a run starts, numbered in order, are the commands `NestedRan` says, in their
      directories, and the status is the same. */
  lemma {:induction false} RunMarks(chain: Chain, n: nat, exitOf: nat -> int)
    ensures var run, ran := Nested(chain, n, exitOf), NestedRan(chain, n, exitOf);
      && AllMarks(run.pipes, |run.pipes|, n)
         + Marks(run.abandoned, |run.abandoned|, n + JobCount(run.pipes, |run.pipes|)) == ran.marks
      && run.status == ran.status
    decreases chain
  {
    hide Marks, PipeStatus, AllMarks, JobCount, ShortCircuits;
    NoMarks(n);
    NoMarks(n + |chain.pipe|);
    if chain.Broken? {
      assert [] + Marks(chain.pipe, |chain.pipe|, n) == Marks(chain.pipe, |chain.pipe|, n);
    } else if chain.Last? || ShortCircuits(chain.op, PipeStatus(chain.pipe, n, exitOf)) {
      FirstPipe(chain.pipe, [], 0, n);
      assert [chain.pipe] + [] == [chain.pipe];
    } else {
      var after := Nested(chain.rest, n + |chain.pipe|, exitOf);
      RunMarks(chain.rest, n + |chain.pipe|, exitOf);
      FirstPipe(chain.pipe, after.pipes, |after.pipes|, n);
    }
  }

  /** So the events of a run show the starts that the right-nested reading asks for, and no others. */
  lemma {:induction false} RunStartsRight(chain: Chain, pid: nat, handle: nat, exitOf: nat -> int)
    ensures StartMarks(RunEvents(Nested(chain, pid, exitOf), pid, handle)) == NestedRan(chain, pid, exitOf).marks
  {
    hide StartMarks, Effects, Starts, Marks, AllMarks, Nested, NestedRan;
    var run := Nested(chain, pid, exitOf);
    var n := |run.pipes|;
    RunMarks(chain, pid, exitOf);
    EffectMarks(run.pipes, n, pid, handle);
    var pid', handle' := pid + JobCount(run.pipes, n), handle + FileCount(run.pipes, n);
    StartsMarks(run.abandoned, |run.abandoned|, pid', handle');
    StartMarksConcat(Effects(run.pipes, n, pid, handle), Starts(run.abandoned, |run.abandoned|, pid', handle'));
  }
}
