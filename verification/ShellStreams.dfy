/** What each process that a run starts is given: which command of the list it runs, in which directory,
    and where its three streams lead. */
module ShellStreams {
  import opened Options
  import opened ShellSyntax
  import opened ShellPrinter
  import opened ShellSemantics
  import opened ShellAndOr
  import opened ShellLists

  /* ----- directories ----- */

  predicate Absolute(path: string) {
    path != "" && path[0] == '/'
  }

  /** An absolute second part is the result, and so is any second part behind an empty first.  Otherwise one
      slash joins the two parts, whether or not the first brings it along. */
  lemma {:induction false} JoinMeans(a: string, b: string)
    ensures Absolute(b) || a == "" ==> Join(a, b) == b
    ensures !Absolute(b) && a != "" ==>
              exists front :: (a == front + "/" || (a == front && front[|front| - 1] != '/'))
                && Join(a, b) == front + "/" + b
  {
    if !Absolute(b) && a != "" {
      var n := |a| - 1;
      var front := if a[n] == '/' then a[..n] else a;
      assert a[n] == '/' ==> a == front + "/";
      assert Join(a, b) == front + "/" + b;
    }
  }

  /** The slash that is missing behind a first part. */
  function Slash(a: string): string {
    if a != "" && a[|a| - 1] != '/' then "/" else ""
  }

  lemma {:induction false} JoinSlash(a: string, b: string)
    ensures Join(a, b) == if Absolute(b) then b else a + Slash(a) + b
    ensures b != "" ==> Slash(Join(a, b)) == Slash(b)
    ensures b == "" ==> Slash(Join(a, b)) == ""
    ensures !Absolute(b) ==> (Absolute(Join(a, b)) <==> Absolute(a))
  {
  }

  /** Two `cd`s in a row are one. */
  lemma {:induction false} JoinAssociative(a: string, b: string, c: string)
    ensures Join(Join(a, b), c) == Join(a, Join(b, c))
  {
    hide Join, Slash;
    JoinSlash(a, b);
    JoinSlash(b, c);
    JoinSlash(Join(a, b), c);
    JoinSlash(a, Join(b, c));
    if !Absolute(c) && !Absolute(b) {
      ThreeParts(a, Slash(a), b, Slash(b), c);
      NoSlash(b);
    }
  }

  lemma {:induction false} NoSlash(b: string)
    ensures b == "" ==> Slash(b) == ""
  {
  }

  lemma {:induction false} ThreeParts(a: string, s: string, b: string, t: string, c: string)
    ensures a + s + b + t + c == a + s + (b + t + c)
  {
  }

  /* ----- what a start shows of its command ----- */

  /** Handle `h` is that of the file, opened after all earlier starts. */
  ghost predicate Opened(events: seq<Event>, i: nat, h: nat, file: string, write: bool)
    requires i <= |events|
  {
    exists j :: 0 <= j < i && events[j] == Open(h, file, write) && forall m :: j < m < i ==> events[m].Open?
  }

  ghost predicate StartedBefore(events: seq<Event>, i: nat, pid: nat)
    requires i <= |events|
  {
    exists j :: 0 <= j < i && events[j].Start? && events[j].pid == pid
  }

  /** A file that is written to, or the shared null device. */
  ghost predicate Writes(events: seq<Event>, i: nat, stream: Stream, file: string)
    requires i <= |events|
  {
    if file in {"NUL:", "/dev/null"} then stream == DevNull
    else stream.OpenFile? && Opened(events, i, stream.handle, file, true)
  }

  /** Standard input is the output of the process before if the command is fed, else the file it names. */
  ghost predicate StdinRight(events: seq<Event>, i: nat, fed: bool)
    requires i < |events| && events[i].Start?
  {
    var e := events[i];
    if fed then e.pid > 0 && e.stdin == OutputOf(e.pid - 1)
    else
      match e.command.stdin
      case None => e.stdin == Inherited
      case Some(file) => e.stdin.OpenFile? && Opened(events, i, e.stdin.handle, file, false)
  }

  ghost predicate StdoutRight(events: seq<Event>, i: nat)
    requires i < |events| && events[i].Start?
  {
    match events[i].command.stdout
    case StdoutInherited => events[i].stdout == Inherited
    case StdoutPipe => events[i].stdout == NewPipe
    case StdoutFile(file) => Writes(events, i, events[i].stdout, file)
  }

  ghost predicate StderrRight(events: seq<Event>, i: nat)
    requires i < |events| && events[i].Start?
  {
    match events[i].command.stderr
    case StderrInherited => events[i].stderr == Inherited
    case StderrToStdout => events[i].stderr == ToStdout
    case StderrFile(file) => Writes(events, i, events[i].stderr, file)
  }

  ghost predicate StreamsRight(events: seq<Event>, i: nat, fed: bool)
    requires i < |events| && events[i].Start?
  {
    StdinRight(events, i, fed) && StdoutRight(events, i) && StderrRight(events, i)
  }

  /** Only the events up to the start matter, and none before its own. */
  lemma {:induction false} StreamsElsewhere(a: seq<Event>, b: seq<Event>, c: seq<Event>, i: nat, fed: bool)
    requires i < |b| && b[i].Start? && StreamsRight(b, i, fed)
    ensures (a + b + c)[|a| + i] == b[i] && StreamsRight(a + b + c, |a| + i, fed)
  {
    hide Opened;
    var all := a + b + c;
    forall h, file, write | Opened(b, i, h, file, write)
      ensures Opened(all, |a| + i, h, file, write)
    {
      OpenedElsewhere(a, b, c, i, h, file, write);
    }
  }

  lemma {:induction false} OpenedElsewhere(a: seq<Event>, b: seq<Event>, c: seq<Event>, i: nat, h: nat, file: string,
      write: bool)
    requires i <= |b| && Opened(b, i, h, file, write)
    ensures Opened(a + b + c, |a| + i, h, file, write)
  {
    var j :| 0 <= j < i && b[j] == Open(h, file, write) && forall m :: j < m < i ==> b[m].Open?;
    var all := a + b + c;
    assert all[|a| + j] == b[j];
    forall m | |a| + j < m < |a| + i
      ensures all[m].Open?
    {
      assert all[m] == b[m - |a|];
    }
  }

  /* ----- one command ----- */

  lemma {:induction false} OpensAreOpen(files: seq<(string, bool)>, handle: nat)
    ensures |Opens(files, handle)| == |files|
    ensures forall j :: 0 <= j < |files| ==> Opens(files, handle)[j] == Open(handle + j, files[j].0, files[j].1)
  {
    if files != [] {
      OpensAreOpen(files[..|files| - 1], handle);
    }
  }

  ghost predicate OnlyOpens(events: seq<Event>) {
    forall j :: 0 <= j < |events| ==> events[j].Open?
  }

  lemma {:induction false} OneOpened(before: seq<Event>, files: seq<(string, bool)>, handle: nat, after: seq<Event>,
      e: Event)
    requires |files| <= 1 && OnlyOpens(after)
    ensures var opens := before + Opens(files, handle) + after;
      |files| == 1 ==> Opened(opens + [e], |opens|, handle, files[0].0, files[0].1)
  {
    OpensAreOpen(files, handle);
    var opens := before + Opens(files, handle) + after;
    if |files| == 1 {
      assert (opens + [e])[|before|] == Open(handle, files[0].0, files[0].1);
    }
  }

  lemma {:induction false} OnlyOpensConcat(a: seq<Event>, b: seq<Event>)
    requires OnlyOpens(a) && OnlyOpens(b)
    ensures OnlyOpens(a + b)
  {
  }

  lemma {:induction false} OpensAreOnlyOpens(files: seq<(string, bool)>, handle: nat)
    ensures OnlyOpens(Opens(files, handle))
  {
    OpensAreOpen(files, handle);
  }

  ghost predicate FileOpened(events: seq<Event>, n: nat, files: seq<(string, bool)>, handle: nat)
    requires n <= |events|
  {
    |files| == 1 ==> Opened(events, n, handle, files[0].0, files[0].1)
  }

  /** Up to three files opened one after the other, and then something else. */
  lemma {:induction false} ThreeOpened(f1: seq<(string, bool)>, f2: seq<(string, bool)>, f3: seq<(string, bool)>,
      h1: nat, h2: nat, h3: nat, e: Event)
    requires |f1| <= 1 && |f2| <= 1 && |f3| <= 1
    ensures var opens := Opens(f1, h1) + Opens(f2, h2) + Opens(f3, h3);
      && OnlyOpens(opens)
      && FileOpened(opens + [e], |opens|, f1, h1) && FileOpened(opens + [e], |opens|, f2, h2)
      && FileOpened(opens + [e], |opens|, f3, h3)
  {
    hide Opened, Opens, OnlyOpens;
    var a, b, c := Opens(f1, h1), Opens(f2, h2), Opens(f3, h3);
    OpensAreOnlyOpens(f1, h1);
    OpensAreOnlyOpens(f2, h2);
    OpensAreOnlyOpens(f3, h3);
    OnlyOpensConcat(b, c);
    OnlyOpensConcat(a, b);
    OnlyOpensConcat(a + b, c);
    NothingOpened();
    OneOpened([], f1, h1, b + c, e);
    OneOpened(a, f2, h2, c, e);
    OneOpened(a + b, f3, h3, [], e);
    assert [] + a + (b + c) == a + b + c && a + b + c + [] == a + b + c;
  }

  lemma {:induction false} NothingOpened()
    ensures OnlyOpens([])
  {
  }

  /** All the files opened for a command, and its start behind them. */
  lemma {:induction false} JobOpened(job: Job, pid: nat, handle: nat)
    ensures var c, events := job.command, JobEvents(job, pid, handle);
      && events != []
      && var n := |events| - 1;
      && var h2, h3 := handle + |StdinFile(job)|, handle + |StdinFile(job)| + |StdoutFiles(c)|;
      && OnlyOpens(events[..n])
      && events[n] == Start(pid, c, job.cwd, StdinStream(job, pid, handle), StdoutStream(c, h2), StderrStream(c, h3))
      && FileOpened(events, n, StdinFile(job), handle)
      && FileOpened(events, n, StdoutFiles(c), h2)
      && FileOpened(events, n, StderrFiles(c), h3)
  {
    hide Opens, StdinStream, StdoutStream, StderrStream, OnlyOpens, FileOpened;
    var f1, f2, f3 := StdinFile(job), StdoutFiles(job.command), StderrFiles(job.command);
    assert |f1| <= 1 && |f2| <= 1 && |f3| <= 1;
    hide StdinFile, StdoutFiles, StderrFiles;
    var h2, h3 := handle + |f1|, handle + |f1| + |f2|;
    var e := Start(pid, job.command, job.cwd, StdinStream(job, pid, handle), StdoutStream(job.command, h2),
                   StderrStream(job.command, h3));
    var opens := Opens(f1, handle) + Opens(f2, h2) + Opens(f3, h3);
    ThreeOpened(f1, f2, f3, handle, h2, h3, e);
    assert JobEvents(job, pid, handle) == opens + [e];
    assert (opens + [e])[..|opens|] == opens;
  }

  /** The last event of a command is its start, with the streams it asks for. */
  lemma {:induction false} JobShown(job: Job, pid: nat, handle: nat)
    requires job.piped ==> pid > 0
    ensures var events := JobEvents(job, pid, handle);
      && events != []
      && var n := |events| - 1;
      && events[n].Start? && events[n].pid == pid && events[n].command == job.command && events[n].cwd == job.cwd
      && StreamsRight(events, n, job.piped)
      && OnlyOpens(events[..n])
  {
    hide Opened, Opens, JobEvents, OnlyOpens;
    JobOpened(job, pid, handle);
  }

  /* ----- no file is opened for nothing ----- */

  /** A file is opened for the next command started, as one of its three streams. */
  ghost predicate UsedAt(events: seq<Event>, i: nat)
    requires i < |events|
  {
    events[i].Open? ==>
      exists j ::
        && i < j < |events| && events[j].Start? && (forall m :: i < m < j ==> events[m].Open?)
        && OpenFile(events[i].handle) in {events[j].stdin, events[j].stdout, events[j].stderr}
  }

  ghost predicate AllUsed(events: seq<Event>) {
    forall i :: 0 <= i < |events| ==> UsedAt(events, i)
  }

  lemma {:induction false} UsedElsewhere(a: seq<Event>, b: seq<Event>, c: seq<Event>, i: nat)
    requires i < |b| && UsedAt(b, i)
    ensures UsedAt(a + b + c, |a| + i)
  {
    var all := a + b + c;
    assert all[|a| + i] == b[i];
    if b[i].Open? {
      var j :| i < j < |b| && b[j].Start? && (forall m :: i < m < j ==> b[m].Open?)
        && OpenFile(b[i].handle) in {b[j].stdin, b[j].stdout, b[j].stderr};
      assert all[|a| + j] == b[j];
      forall m | |a| + i < m < |a| + j
        ensures all[m].Open?
      {
        assert all[m] == b[m - |a|];
      }
    }
  }

  lemma {:induction false} UsedConcat(a: seq<Event>, b: seq<Event>)
    requires AllUsed(a) && AllUsed(b)
    ensures AllUsed(a + b)
  {
    hide UsedAt;
    assert [] + a + b == a + b && a + b + [] == a + b;
    forall i | 0 <= i < |a + b|
      ensures UsedAt(a + b, i)
    {
      if i < |a| {
        UsedElsewhere([], a, b, i);
      } else {
        UsedElsewhere(a, b, [], i - |a|);
      }
    }
  }

  /** The handles that a command is given are those of the files opened for it. */
  lemma {:induction false} HandlesGiven(job: Job, pid: nat, handle: nat)
    requires job.piped ==> pid > 0
    ensures var h2, h3 := handle + |StdinFile(job)|, handle + |StdinFile(job)| + |StdoutFiles(job.command)|;
      && (StdinFile(job) != [] ==> StdinStream(job, pid, handle) == OpenFile(handle))
      && (StdoutFiles(job.command) != [] ==> StdoutStream(job.command, h2) == OpenFile(h2))
      && (StderrFiles(job.command) != [] ==> StderrStream(job.command, h3) == OpenFile(h3))
  {
  }

  lemma {:induction false} ShortOpens(files: seq<(string, bool)>, handle: nat)
    requires |files| <= 1
    ensures Opens(files, handle) == if files == [] then [] else [Open(handle, files[0].0, files[0].1)]
  {
    OpensAreOpen(files, handle);
  }

  lemma {:induction false} OpensUsed(opens: seq<Event>, e: Event)
    requires OnlyOpens(opens) && e.Start?
    requires forall i :: 0 <= i < |opens| ==> OpenFile(opens[i].handle) in {e.stdin, e.stdout, e.stderr}
    ensures AllUsed(opens + [e])
  {
    var events := opens + [e];
    forall i | 0 <= i < |events|
      ensures UsedAt(events, i)
    {
      assert events[|opens|] == e;
    }
  }

  lemma {:induction false} ThreeUsed(f1: seq<(string, bool)>, f2: seq<(string, bool)>, f3: seq<(string, bool)>,
      h1: nat, h2: nat, h3: nat, e: Event)
    requires |f1| <= 1 && |f2| <= 1 && |f3| <= 1 && e.Start?
    requires f1 != [] ==> OpenFile(h1) == e.stdin
    requires f2 != [] ==> OpenFile(h2) == e.stdout
    requires f3 != [] ==> OpenFile(h3) == e.stderr
    ensures AllUsed(Opens(f1, h1) + Opens(f2, h2) + Opens(f3, h3) + [e])
  {
    hide Opens, AllUsed, OnlyOpens, FileOpened;
    ShortOpens(f1, h1);
    ShortOpens(f2, h2);
    ShortOpens(f3, h3);
    ThreeOpened(f1, f2, f3, h1, h2, h3, e);
    OpensUsed(Opens(f1, h1) + Opens(f2, h2) + Opens(f3, h3), e);
  }

  lemma {:induction false} JobUsed(job: Job, pid: nat, handle: nat)
    requires job.piped ==> pid > 0
    ensures AllUsed(JobEvents(job, pid, handle))
  {
    hide Opens, AllUsed;
    var f1, f2, f3 := StdinFile(job), StdoutFiles(job.command), StderrFiles(job.command);
    var h2, h3 := handle + |f1|, handle + |f1| + |f2|;
    HandlesGiven(job, pid, handle);
    assert |f1| <= 1 && |f2| <= 1 && |f3| <= 1;
    hide StdinFile, StdoutFiles, StderrFiles, StdinStream, StdoutStream, StderrStream;
    ThreeUsed(f1, f2, f3, handle, h2, h3,
              Start(pid, job.command, job.cwd, StdinStream(job, pid, handle), StdoutStream(job.command, h2),
                    StderrStream(job.command, h3)));
  }

  /* ----- one event after the other ----- */

  /** The starts run the jobs in order, and each job's streams are right. */
  ghost predicate StartShown(events: seq<Event>, i: nat, jobs: seq<Job>, pid0: nat)
    requires i < |events|
  {
    events[i].Start? ==>
      var e := events[i];
      && pid0 <= e.pid < pid0 + |jobs|
      && var job := jobs[e.pid - pid0];
      && e.command == job.command && e.cwd == job.cwd && StreamsRight(events, i, job.piped)
      && (e.pid > pid0 ==> StartedBefore(events, i, e.pid - 1))
  }

  ghost predicate Shows(events: seq<Event>, jobs: seq<Job>, pid0: nat) {
    && (forall i :: 0 <= i < |events| ==> StartShown(events, i, jobs, pid0))
    && (jobs != [] ==> StartedBefore(events, |events|, pid0 + |jobs| - 1))
    && AllUsed(events)
  }

  lemma {:induction false} StartedElsewhere(a: seq<Event>, b: seq<Event>, c: seq<Event>, i: nat, pid: nat)
    requires i <= |b| && StartedBefore(b, i, pid)
    ensures StartedBefore(a + b + c, |a| + i, pid)
  {
    var j :| 0 <= j < i && b[j].Start? && b[j].pid == pid;
    assert (a + b + c)[|a| + j] == b[j];
  }

  lemma {:induction false} StartedEarlier(events: seq<Event>, i: nat, k: nat, pid: nat)
    requires i <= k <= |events| && StartedBefore(events, i, pid)
    ensures StartedBefore(events, k, pid)
  {
  }

  lemma {:induction false} ShownInFront(a: seq<Event>, b: seq<Event>, js: seq<Job>, ks: seq<Job>, pid0: nat, i: nat)
    requires Shows(a, js, pid0) && i < |a|
    ensures StartShown(a + b, i, js + ks, pid0)
  {
    hide StreamsRight, StartedBefore;
    assert StartShown(a, i, js, pid0);
    assert [] + a + b == a + b;
    if a[i].Start? {
      StreamsElsewhere([], a, b, i, js[a[i].pid - pid0].piped);
      if a[i].pid > pid0 {
        StartedElsewhere([], a, b, i, a[i].pid - 1);
      }
    }
  }

  lemma {:induction false} ShownBehind(a: seq<Event>, b: seq<Event>, js: seq<Job>, ks: seq<Job>, pid0: nat, i: nat)
    requires Shows(a, js, pid0) && Shows(b, ks, pid0 + |js|) && i < |b|
    ensures StartShown(a + b, |a| + i, js + ks, pid0)
  {
    hide StreamsRight, StartedBefore;
    assert StartShown(b, i, ks, pid0 + |js|);
    assert a + b + [] == a + b && [] + a + b == a + b;
    if b[i].Start? {
      var pid := b[i].pid;
      assert (js + ks)[pid - pid0] == ks[pid - pid0 - |js|];
      StreamsElsewhere(a, b, [], i, ks[pid - pid0 - |js|].piped);
      if pid > pid0 + |js| {
        StartedElsewhere(a, b, [], i, pid - 1);
      } else if pid > pid0 {
        StartedElsewhere([], a, b, |a|, pid - 1);
        StartedEarlier(a + b, |a|, |a| + i, pid - 1);
      }
    }
  }

  lemma {:induction false} ShowsConcat(a: seq<Event>, b: seq<Event>, js: seq<Job>, ks: seq<Job>, pid0: nat)
    requires Shows(a, js, pid0) && Shows(b, ks, pid0 + |js|)
    ensures Shows(a + b, js + ks, pid0)
  {
    hide StartedBefore, StartShown, AllUsed;
    UsedConcat(a, b);
    forall i | 0 <= i < |a + b|
      ensures StartShown(a + b, i, js + ks, pid0)
    {
      if i < |a| {
        ShownInFront(a, b, js, ks, pid0, i);
      } else {
        ShownBehind(a, b, js, ks, pid0, i - |a|);
      }
    }
    assert a + b + [] == a + b && [] + a + b == a + b;
    if ks != [] {
      StartedElsewhere(a, b, [], |b|, pid0 + |js| + |ks| - 1);
    } else if js != [] {
      StartedElsewhere([], a, b, |a|, pid0 + |js| - 1);
      StartedEarlier(a + b, |a|, |a + b|, pid0 + |js| - 1);
    }
  }

  lemma {:induction false} JobShows(job: Job, pid: nat, handle: nat)
    requires job.piped ==> pid > 0
    ensures Shows(JobEvents(job, pid, handle), [job], pid)
  {
    hide JobEvents, StreamsRight, AllUsed;
    JobShown(job, pid, handle);
    JobUsed(job, pid, handle);
    var events := JobEvents(job, pid, handle);
    assert forall i :: 0 <= i < |events| - 1 ==> events[i] == events[..|events| - 1][i];
  }

  /** Only the first command of a run has no process before it. */
  ghost predicate Fed(jobs: seq<Job>, pid0: nat) {
    forall k :: 0 <= k < |jobs| && jobs[k].piped ==> pid0 + k > 0
  }

  lemma {:induction false} StartsShow(pipe: seq<Job>, k: nat, pid: nat, handle: nat)
    requires k <= |pipe| && Fed(pipe, pid)
    ensures Shows(Starts(pipe, k, pid, handle), pipe[..k], pid)
  {
    hide JobEvents, StartShown, StartedBefore, AllUsed;
    if k > 0 {
      hide Shows;
      StartsShow(pipe, k - 1, pid, handle);
      JobShows(pipe[k - 1], pid + k - 1, handle + HandleCount(pipe, k - 1));
      ShowsConcat(Starts(pipe, k - 1, pid, handle),
                  JobEvents(pipe[k - 1], pid + k - 1, handle + HandleCount(pipe, k - 1)), pipe[..k - 1],
                  [pipe[k - 1]], pid);
      assert pipe[..k] == pipe[..k - 1] + [pipe[k - 1]];
    } else {
      NoStartShows([], pid);
    }
  }

  lemma {:induction false} NoStartShows(events: seq<Event>, pid: nat)
    requires forall i :: 0 <= i < |events| ==> !events[i].Start? && !events[i].Open?
    ensures Shows(events, [], pid)
  {
  }

  lemma {:induction false} EndsBeginNothing(pid: nat, handle: nat, n: nat, m: nat)
    ensures forall i :: 0 <= i < |Waits(pid, n)| ==> Waits(pid, n)[i].Wait?
    ensures forall i :: 0 <= i < |Closes(handle, m)| ==> Closes(handle, m)[i].Close?
    decreases n + m
  {
    if n > 0 {
      EndsBeginNothing(pid, handle, n - 1, m);
    } else if m > 0 {
      EndsBeginNothing(pid, handle, n, m - 1);
    }
  }

  lemma {:induction false} PipeShows(pipe: seq<Job>, pid: nat, handle: nat)
    requires Fed(pipe, pid)
    ensures Shows(PipeEvents(pipe, pid, handle), pipe, pid)
  {
    hide Shows, Fed, Starts;
    var starts, n := Starts(pipe, |pipe|, pid, handle), HandleCount(pipe, |pipe|);
    StartsShow(pipe, |pipe|, pid, handle);
    assert pipe[..|pipe|] == pipe;
    EndsBeginNothing(pid, handle, |pipe|, n);
    NoStartShows(Waits(pid, |pipe|), pid + |pipe|);
    NoStartShows(Closes(handle, n), pid + |pipe|);
    ShowsConcat(starts, Waits(pid, |pipe|), pipe, [], pid);
    assert pipe + [] == pipe;
    ShowsConcat(starts + Waits(pid, |pipe|), Closes(handle, n), pipe, [], pid);
  }

  /* ----- a whole run ----- */

  /** The commands of the first `k` pipes. */
  ghost function Flat(pipes: seq<seq<Job>>, k: nat): seq<Job>
    requires k <= |pipes|
  {
    if k == 0 then [] else Flat(pipes, k - 1) + pipes[k - 1]
  }

  ghost function JobsRun(run: Execution): seq<Job> {
    Flat(run.pipes, |run.pipes|) + run.abandoned
  }

  lemma {:induction false} FlatCount(pipes: seq<seq<Job>>, k: nat)
    requires k <= |pipes|
    ensures |Flat(pipes, k)| == JobCount(pipes, k)
  {
    if k > 0 {
      FlatCount(pipes, k - 1);
    }
  }

  lemma {:induction false} FedParts(a: seq<Job>, b: seq<Job>, pid: nat)
    requires Fed(a + b, pid)
    ensures Fed(a, pid) && Fed(b, pid + |a|)
  {
    assert forall k :: 0 <= k < |a| ==> (a + b)[k] == a[k];
    assert forall k :: 0 <= k < |b| ==> (a + b)[|a| + k] == b[k];
  }

  lemma {:induction false} EffectsShow(pipes: seq<seq<Job>>, k: nat, pid: nat, handle: nat)
    requires k <= |pipes| && Fed(Flat(pipes, k), pid)
    ensures Shows(Effects(pipes, k, pid, handle), Flat(pipes, k), pid)
  {
    hide PipeEvents, StartShown, StartedBefore, AllUsed, Fed, HandleCount;
    if k > 0 {
      hide Shows;
      FedParts(Flat(pipes, k - 1), pipes[k - 1], pid);
      FlatCount(pipes, k - 1);
      EffectsShow(pipes, k - 1, pid, handle);
      var pid', handle' := pid + JobCount(pipes, k - 1), handle + FileCount(pipes, k - 1);
      PipeShows(pipes[k - 1], pid', handle');
      ShowsConcat(Effects(pipes, k - 1, pid, handle), PipeEvents(pipes[k - 1], pid', handle'), Flat(pipes, k - 1),
                  pipes[k - 1], pid);
    } else {
      NoStartShows([], pid);
    }
  }

  lemma {:induction false} RunShowsJobs(run: Execution, pid: nat, handle: nat)
    requires Fed(JobsRun(run), pid)
    ensures Shows(RunEvents(run, pid, handle), JobsRun(run), pid)
  {
    hide Shows, Effects, Starts, Fed, Flat;
    var n := |run.pipes|;
    FedParts(Flat(run.pipes, n), run.abandoned, pid);
    FlatCount(run.pipes, n);
    EffectsShow(run.pipes, n, pid, handle);
    var pid', handle' := pid + JobCount(run.pipes, n), handle + FileCount(run.pipes, n);
    StartsShow(run.abandoned, |run.abandoned|, pid', handle');
    assert run.abandoned[..|run.abandoned|] == run.abandoned;
    ShowsConcat(Effects(run.pipes, n, pid, handle), Starts(run.abandoned, |run.abandoned|, pid', handle'),
                Flat(run.pipes, n), run.abandoned, pid);
  }

  /* ----- the commands of the list ----- */

  /** The commands of a node list in order. */
  ghost function Commands(nodes: seq<Node>): seq<Command> {
    if nodes == [] then []
    else (if nodes[0].Cmd? then [nodes[0].command] else []) + Commands(nodes[1..])
  }

  /** The directories of all `cd`s in the list before its `k`-th command. */
  ghost function DirsBefore(nodes: seq<Node>, k: nat): seq<string> {
    if nodes == [] || (nodes[0].Cmd? && k == 0) then []
    else
      match nodes[0]
      case Cmd(_) => DirsBefore(nodes[1..], k - 1)
      case Chdir(Some(dir)) => [dir] + DirsBefore(nodes[1..], k)
      case _ => DirsBefore(nodes[1..], k)
  }

  /** The job is the `k`-th command of the list, read in directory `cwd`, in a pipe that has begun or not. */
  ghost predicate JobOf(job: Job, nodes: seq<Node>, k: nat, cwd: string, inPipe: bool) {
    && k < |Commands(nodes)|
    && job.command == Commands(nodes)[k]
    && job.cwd == Through(cwd, DirsBefore(nodes, k))
    && job.piped == if k == 0 then inPipe else Commands(nodes)[k - 1].stdout.StdoutPipe?
  }

  ghost function ChainJobs(chain: Chain): seq<Job> {
    chain.pipe + if chain.Then? then ChainJobs(chain.rest) else []
  }

  ghost predicate JobsFollow(jobs: seq<Job>, pipe: seq<Job>, nodes: seq<Node>, cwd: string) {
    && pipe <= jobs
    && forall k :: |pipe| <= k < |jobs| ==> JobOf(jobs[k], nodes, k - |pipe|, cwd, pipe != [])
  }

  lemma {:induction false} CommandsPair(nodes: seq<Node>)
    requires |nodes| > 1 && !nodes[1].Cmd?
    ensures Commands(nodes) == (if nodes[0].Cmd? then [nodes[0].command] else []) + Commands(nodes[2..])
  {
    assert nodes[1..][1..] == nodes[2..];
  }

  lemma {:induction false} DirsPair(nodes: seq<Node>, k: nat)
    requires |nodes| > 1 && !nodes[1].Cmd? && !nodes[1].Chdir?
    ensures nodes[0].Cmd? ==> DirsBefore(nodes, k) == if k == 0 then [] else DirsBefore(nodes[2..], k - 1)
    ensures nodes[0].Chdir? && nodes[0].dir.Some? ==>
              DirsBefore(nodes, k) == [nodes[0].dir.value] + DirsBefore(nodes[2..], k)
  {
    assert nodes[1..][1..] == nodes[2..];
  }

  /** A job of the rest of the list behind a `cd`. */
  lemma {:induction false} JobBehindCd(job: Job, nodes: seq<Node>, k: nat, cwd: string, inPipe: bool)
    requires |nodes| > 1 && nodes[0].Chdir? && nodes[0].dir.Some? && nodes[1] == And
    requires JobOf(job, nodes[2..], k, Join(cwd, nodes[0].dir.value), inPipe)
    ensures JobOf(job, nodes, k, cwd, inPipe)
  {
    hide Commands, DirsBefore, Join;
    CommandsPair(nodes);
    DirsPair(nodes, k);
    var dir, dirs := nodes[0].dir.value, DirsBefore(nodes[2..], k);
    assert ([dir] + dirs)[1..] == dirs;
  }

  /** A job of the rest of the list behind a command. */
  lemma {:induction false} JobBehindCommand(job: Job, nodes: seq<Node>, k: nat, cwd: string, inPipe: bool,
      was: bool)
    requires |nodes| > 1 && nodes[0].Cmd? && !nodes[1].Cmd? && !nodes[1].Chdir?
    requires nodes[0].command.stdout.StdoutPipe? <==> inPipe
    requires JobOf(job, nodes[2..], k, cwd, inPipe)
    ensures JobOf(job, nodes, k + 1, cwd, was)
  {
    hide Commands, DirsBefore, Through;
    CommandsPair(nodes);
    DirsPair(nodes, k + 1);
  }

  lemma {:induction false} FirstJob(job: Job, nodes: seq<Node>, cwd: string, inPipe: bool)
    requires nodes != [] && nodes[0].Cmd? && job.command == nodes[0].command && job.cwd == cwd && job.piped == inPipe
    ensures JobOf(job, nodes, 0, cwd, inPipe)
  {
  }

  lemma {:induction false} CdsFollow(jobs: seq<Job>, pipe: seq<Job>, nodes: seq<Node>, cwd: string)
    requires |nodes| > 1 && nodes[0].Chdir? && nodes[0].dir.Some? && nodes[1] == And
    requires JobsFollow(jobs, pipe, nodes[2..], Join(cwd, nodes[0].dir.value))
    ensures JobsFollow(jobs, pipe, nodes, cwd)
  {
    hide JobOf, Join;
    forall k | |pipe| <= k < |jobs|
      ensures JobOf(jobs[k], nodes, k - |pipe|, cwd, pipe != [])
    {
      JobBehindCd(jobs[k], nodes, k - |pipe|, cwd, pipe != []);
    }
  }

  /** Behind a command, in the same pipe or in the next. */
  lemma {:induction false} CommandFollows(jobs: seq<Job>, pipe: seq<Job>, job: Job, nodes: seq<Node>, cwd: string)
    requires |nodes| > 1 && nodes[0].Cmd? && !nodes[1].Cmd? && !nodes[1].Chdir?
    requires job.command == nodes[0].command && job.cwd == cwd && job.piped == (pipe != [])
    requires pipe + [job] <= jobs
    requires forall k :: |pipe| + 1 <= k < |jobs| ==>
               JobOf(jobs[k], nodes[2..], k - |pipe| - 1, cwd, nodes[0].command.stdout.StdoutPipe?)
    ensures JobsFollow(jobs, pipe, nodes, cwd)
  {
    hide JobOf;
    assert jobs[|pipe|] == (pipe + [job])[|pipe|];
    assert pipe <= pipe + [job];
    forall k | |pipe| <= k < |jobs|
      ensures JobOf(jobs[k], nodes, k - |pipe|, cwd, pipe != [])
    {
      if k == |pipe| {
        FirstJob(job, nodes, cwd, pipe != []);
      } else {
        JobBehindCommand(jobs[k], nodes, k - |pipe| - 1, cwd, nodes[0].command.stdout.StdoutPipe?, pipe != []);
      }
    }
  }

  lemma {:induction false} NoneFollow(pipe: seq<Job>, nodes: seq<Node>, cwd: string)
    ensures JobsFollow(pipe + [], pipe, nodes, cwd)
  {
  }

  lemma {:induction false} OneFollows(pipe: seq<Job>, job: Job, nodes: seq<Node>, cwd: string)
    requires nodes != [] && nodes[0].Cmd? && job.command == nodes[0].command && job.cwd == cwd
    requires job.piped == (pipe != [])
    ensures JobsFollow(pipe + [job] + [], pipe, nodes, cwd)
  {
    hide JobOf;
    FirstJob(job, nodes, cwd, pipe != []);
  }

  lemma {:induction false} NextPipeFollows(jobs: seq<Job>, rest: seq<Job>, pipe: seq<Job>, job: Job, nodes: seq<Node>,
      cwd: string)
    requires |nodes| > 1 && nodes[0].Cmd? && (nodes[1].And? || nodes[1].Or?) && !nodes[0].command.stdout.StdoutPipe?
    requires job.command == nodes[0].command && job.cwd == cwd && job.piped == (pipe != [])
    requires JobsFollow(rest, [], nodes[2..], cwd) && jobs == pipe + [job] + rest
    ensures JobsFollow(jobs, pipe, nodes, cwd)
  {
    hide JobOf;
    forall k | |pipe| + 1 <= k < |jobs|
      ensures JobOf(jobs[k], nodes[2..], k - |pipe| - 1, cwd, false)
    {
      assert jobs[k] == rest[k - |pipe| - 1];
    }
    CommandFollows(jobs, pipe, job, nodes, cwd);
  }

  /** The reading has the commands of the list in order, each in the directory that all `cd`s before it add
      up to, and fed exactly if the command before it writes into a pipe. */
  lemma {:induction false} GroupedJobs(nodes: seq<Node>, pipe: seq<Job>, cds: seq<string>, cwd: string)
    requires WellFormed(nodes)
    ensures JobsFollow(ChainJobs(Grouped(nodes, pipe, cds, cwd)), pipe, nodes, cwd)
    decreases |nodes|
  {
    hide JobsFollow, Join, NodeOk;
    ListHead(nodes);
    var rest := if |nodes| > 1 then nodes[2..] else [];
    match nodes[0]
    case Chdir(dir) =>
      if dir.None? || |nodes| == 1 {
        NoneFollow(pipe, nodes, cwd);
      } else {
        GroupedJobs(rest, pipe, cds + [dir.value], Join(cwd, dir.value));
        CdsFollow(ChainJobs(Grouped(nodes, pipe, cds, cwd)), pipe, nodes, cwd);
      }
    case Cmd(c) =>
      var job := Job(cds, cwd, c, pipe != []);
      if |nodes| == 1 {
        OneFollows(pipe, job, nodes, cwd);
      } else if nodes[1] == Pipe {
        GroupedJobs(rest, pipe + [job], [], cwd);
        FollowsInPipe(ChainJobs(Grouped(nodes, pipe, cds, cwd)), pipe, job, nodes, cwd);
      } else {
        GroupedJobs(rest, [], [], cwd);
        NextPipeFollows(ChainJobs(Grouped(nodes, pipe, cds, cwd)), ChainJobs(Grouped(rest, [], [], cwd)), pipe, job,
                        nodes, cwd);
      }
    case _ =>
  }

  lemma {:induction false} FollowsInPipe(jobs: seq<Job>, pipe: seq<Job>, job: Job, nodes: seq<Node>, cwd: string)
    requires |nodes| > 1 && nodes[0].Cmd? && nodes[1] == Pipe && nodes[0].command.stdout.StdoutPipe?
    requires job.command == nodes[0].command && job.cwd == cwd && job.piped == (pipe != [])
    requires JobsFollow(jobs, pipe + [job], nodes[2..], cwd)
    ensures JobsFollow(jobs, pipe, nodes, cwd)
  {
    hide JobOf;
    CommandFollows(jobs, pipe, job, nodes, cwd);
  }

  lemma {:induction false} ListHead(nodes: seq<Node>)
    requires WellFormed(nodes)
    ensures nodes != [] && (nodes[0].Cmd? || nodes[0].Chdir?)
    ensures |nodes| > 1 ==> |nodes| > 2 && WellFormed(nodes[2..]) && (nodes[1].Pipe? || nodes[1].And? || nodes[1].Or?)
    ensures |nodes| > 1 && nodes[0].Cmd? ==> (nodes[0].command.stdout.StdoutPipe? <==> nodes[1].Pipe?)
    ensures |nodes| > 1 && nodes[0].Chdir? ==> nodes[1] == And
  {
    assert NodeOk(nodes, 0);
    if |nodes| > 1 {
      WellFormedRest(nodes);
    }
  }

  /* ----- what a run starts of them ----- */

  lemma {:induction false} FlatFirst(pipe: seq<Job>, pipes: seq<seq<Job>>, k: nat)
    requires k <= |pipes|
    ensures Flat([pipe] + pipes, k + 1) == pipe + Flat(pipes, k)
  {
    if k > 0 {
      FlatFirst(pipe, pipes, k - 1);
      assert ([pipe] + pipes)[k] == pipes[k - 1];
    } else {
      assert Flat([pipe] + pipes, 0) == [];
    }
  }

  /** A run starts the reading's commands from the first on, without leaving one out. */
  lemma {:induction false} RunsPrefix(chain: Chain, pid: nat, exitOf: nat -> int)
    ensures JobsRun(Nested(chain, pid, exitOf)) <= ChainJobs(chain)
    decreases chain
  {
    hide PipeStatus, ShortCircuits, Flat;
    var run := Nested(chain, pid, exitOf);
    if chain.Broken? {
      assert Flat([], 0) == [] by {
        NothingFlat();
      }
    } else if chain.Then? && !ShortCircuits(chain.op, PipeStatus(chain.pipe, pid, exitOf)) {
      var after := Nested(chain.rest, pid + |chain.pipe|, exitOf);
      RunsPrefix(chain.rest, pid + |chain.pipe|, exitOf);
      FlatFirst(chain.pipe, after.pipes, |after.pipes|);
      assert JobsRun(run) == chain.pipe + JobsRun(after);
    } else {
      NothingFlat();
      FlatFirst(chain.pipe, [], 0);
      assert [chain.pipe] + [] == [chain.pipe];
    }
  }

  lemma {:induction false} NothingFlat()
    ensures Flat([], 0) == []
  {
  }

  /** A start runs the command of the list that its number says, in the directory that the `cd`s before it
      add up to, and its streams are right: it is fed by the process before, which has been started already,
      exactly if that one's command writes into a pipe. */
  ghost predicate StartRight(events: seq<Event>, i: nat, nodes: seq<Node>, pid0: nat)
    requires i < |events|
  {
    events[i].Start? ==>
      var e, commands := events[i], Commands(nodes);
      && pid0 <= e.pid < pid0 + |commands|
      && var k := e.pid - pid0;
      && var fed := k > 0 && commands[k - 1].stdout.StdoutPipe?;
      && e.command == commands[k] && e.cwd == Through(HERE, DirsBefore(nodes, k))
      && StreamsRight(events, i, fed)
      && (k > 0 ==> StartedBefore(events, i, e.pid - 1))
  }

  ghost predicate StartsRight(events: seq<Event>, nodes: seq<Node>, pid0: nat) {
    forall i :: 0 <= i < |events| ==> StartRight(events, i, nodes, pid0)
  }

  lemma {:induction false} RunStreams(nodes: seq<Node>, pid: nat, handle: nat, exitOf: nat -> int)
    requires WellFormed(nodes)
    ensures var events := RunEvents(Nested(Grouped(nodes, [], [], HERE), pid, exitOf), pid, handle);
      StartsRight(events, nodes, pid) && AllUsed(events)
  {
    hide WellFormed, Grouped, Nested, RunEvents, JobsRun, ChainJobs, JobOf, StreamsRight, StartedBefore, AllUsed;
    var chain := Grouped(nodes, [], [], HERE);
    var run := Nested(chain, pid, exitOf);
    GroupedJobs(nodes, [], [], HERE);
    RunsPrefix(chain, pid, exitOf);
    var jobs := JobsRun(run);
    forall k | 0 <= k < |jobs|
      ensures JobOf(jobs[k], nodes, k, HERE, false) && (jobs[k].piped ==> k > 0)
    {
      assert jobs[k] == ChainJobs(chain)[k];
      NotFedFirst(jobs[k], nodes, k);
    }
    RunShowsJobs(run, pid, handle);
    var events := RunEvents(run, pid, handle);
    forall i | 0 <= i < |events|
      ensures StartRight(events, i, nodes, pid)
    {
      assert StartShown(events, i, jobs, pid);
      if events[i].Start? {
        JobIsRight(events, i, nodes, pid, jobs[events[i].pid - pid]);
      }
    }
  }

  lemma {:induction false} NotFedFirst(job: Job, nodes: seq<Node>, k: nat)
    requires JobOf(job, nodes, k, HERE, false)
    ensures job.piped ==> k > 0
  {
  }

  lemma {:induction false} JobIsRight(events: seq<Event>, i: nat, nodes: seq<Node>, pid: nat, job: Job)
    requires i < |events| && events[i].Start? && events[i].pid >= pid
    requires JobOf(job, nodes, events[i].pid - pid, HERE, false)
    requires events[i].command == job.command && events[i].cwd == job.cwd && StreamsRight(events, i, job.piped)
    requires events[i].pid > pid ==> StartedBefore(events, i, events[i].pid - 1)
    ensures StartRight(events, i, nodes, pid)
  {
    hide StreamsRight, StartedBefore;
  }
}
