/** The class `Pipeline` of waf-tools/shellcmd.py: `parse` and `run` as they change their variables, and
    the operating system they drive. */
module ShellPipeline {
  import opened Options
  import opened ShellSyntax
  import opened ShellParser
  import opened ShellPrinter
  import opened ShellSemantics
  import opened ShellAndOr
  import opened ShellLists
  import opened ShellStreams

  /** Processes and files, numbered in the order in which they begin, and a log of what happened. */
  class Os {
    const exitOf: nat -> int
    var log: seq<Event>
    var nextPid: nat
    var nextHandle: nat

    constructor (exitOf: nat -> int)
      ensures this.exitOf == exitOf && log == [] && nextPid == 0 && nextHandle == 0
    {
      this.exitOf, log, nextPid, nextHandle := exitOf, [], 0, 0;
    }

    method OpenFile(path: string, write: bool) returns (stream: Stream)
      modifies this
      ensures stream == Stream.OpenFile(old(nextHandle))
      ensures log == old(log) + [Open(old(nextHandle), path, write)]
      ensures nextHandle == old(nextHandle) + 1 && nextPid == old(nextPid)
    {
      stream := Stream.OpenFile(nextHandle);
      log := log + [Open(nextHandle, path, write)];
      nextHandle := nextHandle + 1;
    }

    /** Without a directory of its own a process starts in the current one. */
    method Popen(command: Command, stdin: Stream, stdout: Stream, stderr: Stream, cwd: Option<string>)
        returns (pid: nat)
      modifies this
      ensures pid == old(nextPid) && nextPid == pid + 1 && nextHandle == old(nextHandle)
      ensures log == old(log) + [Start(pid, command, if cwd.Some? then cwd.value else ".", stdin, stdout, stderr)]
    {
      pid := nextPid;
      log := log + [Start(pid, command, if cwd.Some? then cwd.value else ".", stdin, stdout, stderr)];
      nextPid := nextPid + 1;
    }

    method WaitFor(pid: nat) returns (status: int)
      modifies this`log
      ensures status == exitOf(pid) && log == old(log) + [Wait(pid)]
    {
      log := log + [Wait(pid)];
      status := exitOf(pid);
    }

    method CloseFile(handle: nat)
      modifies this`log
      ensures log == old(log) + [Close(handle)]
    {
      log := log + [Close(handle)];
    }
  }

  /* ----- the lists `run` keeps ----- */

  ghost function Pids(first: nat, count: nat): seq<nat> {
    seq(count, i => first + i)
  }

  /** How many of the first `n` entries of `files_to_close` are not the shared null device. */
  ghost function OpenAmong(files: seq<Stream>, n: nat): nat
    requires n <= |files|
  {
    if n == 0 then 0 else OpenAmong(files, n - 1) + if files[n - 1] == DevNull then 0 else 1
  }

  ghost predicate OwnedAt(files: seq<Stream>, first: nat, i: nat)
    requires i < |files|
  {
    files[i] == DevNull || files[i] == OpenFile(first + OpenAmong(files, i))
  }

  /** `files_to_close` holds the handles from `first` on, in order, before `next`. */
  ghost predicate Owned(files: seq<Stream>, first: nat, next: nat) {
    && first + OpenAmong(files, |files|) == next
    && forall i {:trigger OwnedAt(files, first, i)} :: 0 <= i < |files| ==> OwnedAt(files, first, i)
  }

  lemma {:induction false} OpenAmongFront(files: seq<Stream>, file: Stream, n: nat)
    requires n <= |files|
    ensures OpenAmong(files + [file], n) == OpenAmong(files, n)
  {
    if n > 0 {
      OpenAmongFront(files, file, n - 1);
    }
  }

  lemma {:induction false} OwnedOneMore(files: seq<Stream>, first: nat, next: nat, file: Stream)
    requires Owned(files, first, next) && (file == DevNull || file == OpenFile(next))
    ensures Owned(files + [file], first, if file == DevNull then next else next + 1)
  {
    OpenAmongFront(files, file, |files|);
    forall i | 0 <= i < |files + [file]|
      ensures OwnedAt(files + [file], first, i)
    {
      OpenAmongFront(files, file, i);
      assert i < |files| ==> OwnedAt(files, first, i);
    }
  }

  /* ----- one command ----- */

  /** `_open_out_file`, and the entry it makes in `files_to_close`. */
  method OpenOutFile(os: Os, file: string, files: seq<Stream>, ghost first: nat)
      returns (stream: Stream, files': seq<Stream>)
    requires Owned(files, first, os.nextHandle)
    modifies os
    ensures stream == if IsNullDevice(file) then DevNull else OpenFile(old(os.nextHandle))
    ensures os.log == old(os.log) + if IsNullDevice(file) then [] else [Open(old(os.nextHandle), file, true)]
    ensures os.nextHandle == old(os.nextHandle) + (if IsNullDevice(file) then 0 else 1) && os.nextPid == old(os.nextPid)
    ensures Owned(files', first, os.nextHandle)
  {
    if file == "NUL:" || file == "/dev/null" {
      stream := DevNull;
    } else {
      stream := os.OpenFile(file, true);
    }
    OwnedOneMore(files, first, old(os.nextHandle), stream);
    files' := files + [stream];
  }

  lemma {:induction false} OpensShort(handle: nat, file: (string, bool))
    ensures Opens([], handle) == [] && Opens([file], handle) == [Open(handle, file.0, file.1)]
  {
    assert [file][..0] == [];
  }

  /** Standard input: the process before in the pipe, if there is one, or a file. */
  method OpenStdin(os: Os, ghost job: Job, stdin: Option<string>, feeder: Option<nat>, files: seq<Stream>,
      ghost first: nat)
    returns (stream: Stream, files': seq<Stream>)
    requires job.command.stdin == stdin && job.piped == feeder.Some?
    requires feeder.Some? ==> feeder.value + 1 == os.nextPid
    requires Owned(files, first, os.nextHandle)
    modifies os
    ensures stream == StdinStream(job, os.nextPid, old(os.nextHandle)) && os.nextPid == old(os.nextPid)
    ensures os.log == old(os.log) + Opens(StdinFile(job), old(os.nextHandle))
    ensures os.nextHandle == old(os.nextHandle) + |StdinFile(job)| && Owned(files', first, os.nextHandle)
  {
    files' := files;
    if feeder.Some? {
      stream := OutputOf(feeder.value);
    } else if stdin.Some? {
      OwnedOneMore(files, first, os.nextHandle, OpenFile(os.nextHandle));
      OpensShort(os.nextHandle, (stdin.value, false));
      stream := os.OpenFile(stdin.value, false);
      files' := files + [stream];
    } else {
      stream := Inherited;
    }
  }

  method OpenStdout(os: Os, command: Command, files: seq<Stream>, ghost first: nat)
      returns (stream: Stream, files': seq<Stream>)
    requires Owned(files, first, os.nextHandle)
    modifies os
    ensures stream == StdoutStream(command, old(os.nextHandle)) && os.nextPid == old(os.nextPid)
    ensures os.log == old(os.log) + Opens(StdoutFiles(command), old(os.nextHandle))
    ensures os.nextHandle == old(os.nextHandle) + |StdoutFiles(command)| && Owned(files', first, os.nextHandle)
  {
    files' := files;
    match command.stdout
    case StdoutInherited => stream := Inherited;
    case StdoutPipe => stream := NewPipe;
    case StdoutFile(file) =>
      OpensShort(os.nextHandle, (file, true));
      stream, files' := OpenOutFile(os, file, files, first);
  }

  method OpenStderr(os: Os, command: Command, files: seq<Stream>, ghost first: nat)
      returns (stream: Stream, files': seq<Stream>)
    requires Owned(files, first, os.nextHandle)
    modifies os
    ensures stream == StderrStream(command, old(os.nextHandle)) && os.nextPid == old(os.nextPid)
    ensures os.log == old(os.log) + Opens(StderrFiles(command), old(os.nextHandle))
    ensures os.nextHandle == old(os.nextHandle) + |StderrFiles(command)| && Owned(files', first, os.nextHandle)
  {
    files' := files;
    match command.stderr
    case StderrInherited => stream := Inherited;
    case StderrToStdout => stream := ToStdout;
    case StderrFile(file) =>
      OpensShort(os.nextHandle, (file, true));
      stream, files' := OpenOutFile(os, file, files, first);
  }

  /** The last event starts the command, with the streams it asks for. */
  ghost predicate StartsLast(log: seq<Event>, pid: nat, command: Command, cwd: string, fed: bool) {
    && log != []
    && var n := |log| - 1;
    && log[n].Start? && log[n].pid == pid && log[n].command == command && log[n].cwd == cwd
    && StreamsRight(log, n, fed)
  }

  lemma {:induction false} LogEndsIn(log: seq<Event>, job: Job, pid: nat, handle: nat)
    requires job.piped ==> pid > 0
    ensures StartsLast(log + JobEvents(job, pid, handle), pid, job.command, job.cwd, job.piped)
  {
    hide JobEvents, StreamsRight, OnlyOpens;
    var events := JobEvents(job, pid, handle);
    JobShown(job, pid, handle);
    StreamsElsewhere(log, events, [], |events| - 1, job.piped);
    assert log + events + [] == log + events;
  }

  /** Opens a command's redirections and starts it.  `feeder` is the process before it in the pipe. */
  method StartCommand(os: Os, ghost job: Job, command: Command, feeder: Option<nat>, cwd: string, files: seq<Stream>,
      ghost first: nat)
    returns (pid: nat, files': seq<Stream>)
    requires job.command == command && job.cwd == cwd && job.piped == feeder.Some?
    requires feeder.Some? ==> feeder.value + 1 == os.nextPid
    requires Owned(files, first, os.nextHandle)
    modifies os
    ensures pid == old(os.nextPid) && os.nextPid == pid + 1
    ensures os.log == old(os.log) + JobEvents(job, pid, old(os.nextHandle))
    ensures os.nextHandle == old(os.nextHandle) + OpenCount(job)
    ensures Owned(files', first, os.nextHandle)
    ensures StartsLast(os.log, pid, command, cwd, feeder.Some?)
  {
    hide Owned, Opens, StdinFile, StdoutFiles, StderrFiles, StdinStream, StdoutStream, StderrStream;
    var stdin, stdout, stderr;
    stdin, files' := OpenStdin(os, job, command.stdin, feeder, files, first);
    stdout, files' := OpenStdout(os, command, files', first);
    stderr, files' := OpenStderr(os, command, files', first);
    var procCwd := if cwd == "." then None else Some(cwd);
    pid := os.Popen(command, stdin, stdout, stderr, procCwd);
    LogEndsIn(old(os.log), job, pid, old(os.nextHandle));
  }

  /* ----- the end of a pipe ----- */

  /** `_exec_piped_commands`: all are waited for, and the last one's status counts. */
  method ExecPipedCommands(os: Os, commands: seq<nat>, ghost first: nat) returns (retval: int)
    requires commands == Pids(first, |commands|)
    modifies os`log
    ensures os.log == old(os.log) + Waits(first, |commands|)
    ensures retval == if commands == [] then 0 else os.exitOf(first + |commands| - 1)
  {
    var retvals: seq<int> := [];
    for i := 0 to |commands|
      invariant os.log == old(os.log) + Waits(first, i)
      invariant |retvals| == i && forall j :: 0 <= j < i ==> retvals[j] == os.exitOf(first + j)
    {
      var status := os.WaitFor(commands[i]);
      retvals := retvals + [status];
    }
    retval := 0;
    assert commands != [] ==> retvals[|retvals| - 1] == os.exitOf(first + |commands| - 1);
    var i := 0;
    while i < |retvals|
      invariant 0 <= i <= |retvals| && retval == 0 && forall j :: 0 <= j < i ==> retvals[j] == 0
    {
      if retvals[i] != 0 {
        retval := retvals[|retvals| - 1];
        break;
      }
      i := i + 1;
    }
  }

  method CloseFiles(os: Os, files: seq<Stream>, ghost first: nat)
    requires Owned(files, first, os.nextHandle)
    modifies os`log
    ensures os.log == old(os.log) + Closes(first, os.nextHandle - first)
  {
    for i := 0 to |files|
      invariant os.log == old(os.log) + Closes(first, OpenAmong(files, i))
    {
      assert OwnedAt(files, first, i);
      match files[i]
      case OpenFile(handle) => os.CloseFile(handle);
      case _ =>
    }
  }

  /** The `try` and `finally` at each of the three places where a pipe ends. */
  method FinishPipe(os: Os, ghost pipe: seq<Job>, commands: seq<nat>, files: seq<Stream>, ghost pid: nat,
      ghost handle: nat)
    returns (retval: int)
    requires commands == Pids(pid, |pipe|) && Owned(files, handle, os.nextHandle)
    requires os.nextHandle == handle + HandleCount(pipe, |pipe|)
    modifies os`log
    ensures os.log == old(os.log) + Waits(pid, |pipe|) + Closes(handle, HandleCount(pipe, |pipe|))
    ensures retval == PipeStatus(pipe, pid, os.exitOf)
  {
    retval := ExecPipedCommands(os, commands, pid);
    CloseFiles(os, files, handle);
  }

  /* ----- the whole list ----- */

  /** How far the run has come: the pipes done, the jobs started of the current one, and what the rest of
      the list will add. */
  ghost predicate Reached(whole: Execution, done: seq<seq<Job>>, nodes: seq<Node>, pipe: seq<Job>, cds: seq<string>,
                          cwd: string, pid: nat, exitOf: nat -> int)
  {
    && WellFormed(nodes)
    && var rest := Nested(Grouped(nodes, pipe, cds, cwd), pid, exitOf);
      whole == rest.(pipes := done + rest.pipes)
  }

  /** The current command after a token fails an assertion: the `cd` behind an assignment is already there. */
  function LeftBehind(s: ParserState, token: string): Option<Node> {
    if s.mode == BEGIN && s.current.None? && token == "cd" then Some(Chdir(None)) else s.current
  }

  /** How `parse` leaves the object when it fails at token `n`, or behind the last one. */
  ghost predicate FailsAt(tokens: seq<string>, n: nat, pipeline: seq<Node>, current: Option<Node>) {
    && n <= |tokens| && StateAfter(tokens[..n]).Some?
    && var s := StateAfter(tokens[..n]).value;
      && pipeline == s.pipeline
      && if n == |tokens| then s.current.None? && current == None
         else Step(s, tokens[n]).None? && current == LeftBehind(s, tokens[n])
  }

  class Pipeline {
    var currentCommand: Option<Node>
    var pipeline: seq<Node>

    constructor ()
      ensures currentCommand == None && pipeline == []
    {
      currentCommand, pipeline := None, [];
    }

    /** `None` is a failed assertion. */
    method CommitCommand() returns (ok: bool)
      modifies this
      ensures ok == old(currentCommand).Some?
      ensures ok ==> pipeline == old(pipeline) + [old(currentCommand).value] && currentCommand == None
      ensures !ok ==> pipeline == old(pipeline) && currentCommand == None
    {
      if currentCommand.None? {
        return false;
      }
      pipeline := pipeline + [currentCommand.value];
      currentCommand := None;
      ok := true;
    }

    /** Commits the command and the operator behind it. */
    method CommitBefore(op: Node) returns (ok: bool)
      modifies this
      ensures ok == old(currentCommand).Some?
      ensures ok ==> pipeline == old(pipeline) + [old(currentCommand).value, op] && currentCommand == None
    {
      ok := CommitCommand();
      if ok {
        pipeline := pipeline + [op];
      }
    }

    /** A token of a command. */
    method ReadInCommand(state: Mode, token: string, ghost env: map<string, string>) returns (ok: bool, state': Mode)
      requires state == COMMAND
      modifies this
      ensures var s := Step(ParserState(state, old(currentCommand), env, old(pipeline)), token);
        ok == s.Some? && (ok ==> s.value == ParserState(state', currentCommand, env, pipeline))
      ensures !ok ==> pipeline == old(pipeline) && currentCommand == old(currentCommand)
    {
      ok, state' := false, state;
      if currentCommand.None? || !currentCommand.value.Cmd? {
        return;
      }
      var command := currentCommand.value.command;
      if token == ">" {
        ok, state' := true, STDOUT;
      } else if token == "2>" {
        ok, state' := true, STDERR;
      } else if token == "2>&1" {
        if command.stderr == StderrInherited {
          currentCommand := Some(Cmd(command.(stderr := StderrToStdout)));
          ok := true;
        }
      } else if token == "<" {
        ok, state' := true, STDIN;
      } else if token == "|" {
        if command.stdout == StdoutInherited {
          currentCommand := Some(Cmd(command.(stdout := StdoutPipe)));
          ok := CommitBefore(Pipe);
          state' := BEGIN;
        }
      } else if token == "&&" {
        ok := CommitBefore(And);
        state' := BEGIN;
      } else if token == "||" {
        ok := CommitBefore(Or);
        state' := BEGIN;
      } else {
        currentCommand := Some(Cmd(command.(argv := command.argv + [token])));
        ok := true;
      }
    }

    /** The file name behind a redirection operator. */
    method ReadFileName(state: Mode, token: string, ghost env: map<string, string>) returns (ok: bool, state': Mode)
      requires state == STDOUT || state == STDERR || state == STDIN
      modifies this
      ensures var s := Step(ParserState(state, old(currentCommand), env, old(pipeline)), token);
        ok == s.Some? && (ok ==> s.value == ParserState(state', currentCommand, env, pipeline))
      ensures !ok ==> pipeline == old(pipeline) && currentCommand == old(currentCommand)
    {
      ok, state' := false, COMMAND;
      if currentCommand.None? || !currentCommand.value.Cmd? {
        return;
      }
      var command := currentCommand.value.command;
      if state == STDOUT && command.stdout == StdoutInherited {
        currentCommand := Some(Cmd(command.(stdout := StdoutFile(token))));
        ok := true;
      } else if state == STDERR && command.stderr == StderrInherited {
        currentCommand := Some(Cmd(command.(stderr := StderrFile(token))));
        ok := true;
      } else if state == STDIN && command.stdin == None {
        currentCommand := Some(Cmd(command.(stdin := Some(token))));
        ok := true;
      }
    }

    /** One turn of the loop over the tokens. */
    method Read(state: Mode, token: string, env: map<string, string>)
      returns (ok: bool, state': Mode, env': map<string, string>)
      modifies this
      ensures var s := Step(ParserState(state, old(currentCommand), env, old(pipeline)), token);
        ok == s.Some? && (ok ==> s.value == ParserState(state', currentCommand, env', pipeline))
      ensures !ok ==> pipeline == old(pipeline)
      ensures !ok ==> currentCommand == LeftBehind(ParserState(state, old(currentCommand), env, old(pipeline)), token)
    {
      ok, state', env' := false, state, env;
      match state
      case BEGIN =>
        match EnvMatch(token) {
          case Some((name, value)) =>
            env' := env[name := value];
            ok := true;
          case None =>
            if currentCommand.Some? {
              return;
            }
            if token == "cd" {
              currentCommand := Some(Chdir(None));
              ok := env == map[];
              state' := CHDIR;
            } else {
              currentCommand := Some(Cmd(Command(token, [token], None, StdoutInherited, StderrInherited, env)));
              env' := map[];
              state' := COMMAND;
              ok := true;
            }
        }
      case COMMAND =>
        ok, state' := ReadInCommand(state, token, env);
      case CHDIR =>
        if currentCommand.None? || !currentCommand.value.Chdir? {
          return;
        }
        if token == "&&" {
          ok := CommitBefore(And);
          state' := BEGIN;
        } else if currentCommand.value.dir.None? {
          currentCommand := Some(Chdir(Some(token)));
          ok := true;
        }
      case _ =>
        ok, state' := ReadFileName(state, token, env);
    }

    /** `parse` of a list of tokens. */
    method Parse(tokens: seq<string>) returns (result: Option<seq<Node>>)
      modifies this
      ensures result == Parsed(tokens)
      ensures result.Some? ==> pipeline == result.value && currentCommand == None
      ensures result.None? ==> exists n: nat :: FailsAt(tokens, n, pipeline, currentCommand)
    {
      currentCommand, pipeline := None, [];
      var state, env := BEGIN, map[];
      var i := 0;
      while i < |tokens|
        invariant 0 <= i <= |tokens|
        invariant StateAfter(tokens[..i]) == Some(ParserState(state, currentCommand, env, pipeline))
      {
        ghost var s := ParserState(state, currentCommand, env, pipeline);
        var ok;
        ok, state, env := Read(state, tokens[i], env);
        assert tokens[..i + 1][..i] == tokens[..i] && tokens[..i + 1][i] == tokens[i];
        if !ok {
          StuckOn(tokens, i + 1);
          assert FailsAt(tokens, i, pipeline, currentCommand);
          return None;
        }
        i := i + 1;
      }
      assert tokens[..i] == tokens;
      var ok := CommitCommand();
      assert !ok ==> FailsAt(tokens, i, pipeline, currentCommand);
      result := if ok then Some(pipeline) else None;
    }

    /** `run`, not verbose, of a list that `parse` can return: starts what the right-nested reading of the
        list starts, in that order and in those directories, and returns that reading's status; then it has
        waited for all of it and closed all it opened.  `None` is an exception: a `cd` was reached that
        ends the list or names no directory. */
    method Run(os: Os) returns (status: Option<int>)
      requires WellFormed(pipeline)
      modifies os
      ensures var run := Nested(Grouped(pipeline, [], [], HERE), old(os.nextPid), os.exitOf);
        && os.log == old(os.log) + RunEvents(run, old(os.nextPid), old(os.nextHandle))
        && status == run.status
      ensures StartsRight(os.log[|old(os.log)|..], pipeline, old(os.nextPid)) && AllUsed(os.log[|old(os.log)|..])
      ensures StartMarks(os.log[|old(os.log)|..]) ==
              NestedRan(Grouped(pipeline, [], [], HERE), old(os.nextPid), os.exitOf).marks
      ensures status.Some? ==>
                Plays(os.log[|old(os.log)|..], Settled(old(os.nextHandle), old(os.nextPid)),
                      Settled(os.nextHandle, os.nextPid))
    {
      hide Reached, Logged, Grouped, Nested, NestedRan, Effects, WellFormed, HandleCount, JobCount, FileCount;
      hide RunEvents, JobEvents, OpenCount, Waits, Closes, Owned, PipeStatus, Plays, StartMarks;
      hide StartsRight, AllUsed, StartsLast;
      var nodes, files, commands, piped, cwd := pipeline, [], [], false, ".";
      ghost var log0, pid0, handle0 := os.log, os.nextPid, os.nextHandle;
      ghost var chain := Grouped(pipeline, [], [], HERE);
      ghost var whole := Nested(chain, pid0, os.exitOf);
      ghost var done, pipe, cds := [], [], [];
      ghost var pid: nat, handle: nat := pid0, handle0;
      AtStart(pipeline, log0, pid0, handle0, os.exitOf);
      while true
        invariant Reached(whole, done, nodes, pipe, cds, cwd, pid, os.exitOf)
        invariant Logged(os.log, log0, done, pipe, pid0, handle0, pid, handle)
        invariant os.nextPid == pid + |pipe| && os.nextHandle == handle + HandleCount(pipe, |pipe|)
        invariant commands == Pids(pid, |pipe|) && Owned(files, handle, os.nextHandle) && piped == (pipe != [])
        decreases |nodes|
      {
        InList(whole, done, nodes, pipe, cds, cwd, pid, os.exitOf);
        var node := nodes[0];
        if node.Chdir? {
          CdNext(whole, done, nodes, pipe, cds, cwd, pid, os.exitOf);
          if |nodes| == 1 || nodes[1] != And || node.dir.None? {
            RunShows(os.log, log0, pipeline, done, pipe, None, pid0, handle0, pid, handle, os.exitOf);
            return None;
          }
          cwd, cds, nodes := Join(cwd, node.dir.value), cds + [node.dir.value], nodes[2..];
          continue;
        }
        var feeder := if piped then Some(commands[|commands| - 1]) else None;
        ghost var job := Job(cds, cwd, node.command, piped);
        ghost var log1 := os.log;
        var started;
        started, files := StartCommand(os, job, node.command, feeder, cwd, files, handle);
        commands := commands + [started];
        OneMoreJob(log1, log0, done, pipe, job, pid0, handle0, pid, handle);
        JobNext(whole, done, nodes, pipe, cds, cwd, pid, os.exitOf);
        pipe, cds := pipe + [job], [];
        if |nodes| == 1 {
          PipeDone(os.log, log0, done, pipe, pid0, handle0, pid, handle);
          var retval := FinishPipe(os, pipe, commands, files, pid, handle);
          status := Some(retval);
          RunShows(os.log, log0, pipeline, done + [pipe], [], status, pid0, handle0, os.nextPid, os.nextHandle,
                   os.exitOf);
          return;
        }
        var next := nodes[1];
        nodes := nodes[2..];
        if next.Pipe? {
          piped := true;
        } else {
          PipeDone(os.log, log0, done, pipe, pid0, handle0, pid, handle);
          var retval := FinishPipe(os, pipe, commands, files, pid, handle);
          if (next.Or? && retval == 0) || (next.And? && retval != 0) {
            status := Some(retval);
            RunShows(os.log, log0, pipeline, done + [pipe], [], status, pid0, handle0, os.nextPid, os.nextHandle,
                     os.exitOf);
            return;
          }
          done, pid, handle := done + [pipe], os.nextPid, os.nextHandle;
          pipe, commands, files, piped := [], [], [], false;
        }
      }
    }
  }

  /* ----- what each turn of the loop does to its invariant ----- */

  /** The log so far, and where the current pipe's numbers begin. */
  ghost predicate Logged(log: seq<Event>, log0: seq<Event>, done: seq<seq<Job>>, pipe: seq<Job>,
                         pid0: nat, handle0: nat, pid: nat, handle: nat)
  {
    && log == log0 + Effects(done, |done|, pid0, handle0) + Starts(pipe, |pipe|, pid, handle)
    && pid == pid0 + JobCount(done, |done|)
    && handle == handle0 + FileCount(done, |done|)
  }

  lemma {:induction false} AtStart(nodes: seq<Node>, log0: seq<Event>, pid0: nat, handle0: nat, exitOf: nat -> int)
    requires WellFormed(nodes)
    ensures Reached(Nested(Grouped(nodes, [], [], HERE), pid0, exitOf), [], nodes, [], [], ".", pid0, exitOf)
    ensures Logged(log0, log0, [], [], pid0, handle0, pid0, handle0)
    ensures HandleCount([], 0) == 0 && forall h :: Owned([], h, h)
  {
    var run := Nested(Grouped(nodes, [], [], HERE), pid0, exitOf);
    assert [] + run.pipes == run.pipes;
  }

  /** A list being read has a command or a `cd` at its head, and an operator behind that unless it ends. */
  lemma {:induction false} InList(whole: Execution, done: seq<seq<Job>>, nodes: seq<Node>, pipe: seq<Job>,
                                  cds: seq<string>, cwd: string, pid: nat, exitOf: nat -> int)
    requires Reached(whole, done, nodes, pipe, cds, cwd, pid, exitOf)
    ensures nodes != [] && (nodes[0].Cmd? || nodes[0].Chdir?)
    ensures |nodes| > 1 ==> |nodes| > 2 && WellFormed(nodes[2..]) && (nodes[1].Pipe? || nodes[1].And? || nodes[1].Or?)
  {
    hide Grouped, Nested;
    assert NodeOk(nodes, 0);
    if |nodes| > 1 {
      WellFormedRest(nodes);
    }
  }

  /** A `cd` is passed, or raises an exception. */
  lemma {:induction false} CdNext(whole: Execution, done: seq<seq<Job>>, nodes: seq<Node>, pipe: seq<Job>,
                                  cds: seq<string>, cwd: string, pid: nat, exitOf: nat -> int)
    requires Reached(whole, done, nodes, pipe, cds, cwd, pid, exitOf) && nodes != [] && nodes[0].Chdir?
    requires |nodes| > 1 ==> |nodes| > 2 && WellFormed(nodes[2..])
    ensures if |nodes| == 1 || nodes[1] != And || nodes[0].dir.None? then whole == Execution(done, pipe, None)
            else
              var dir := nodes[0].dir.value;
              Reached(whole, done, nodes[2..], pipe, cds + [dir], Join(cwd, dir), pid, exitOf)
  {
    hide Join, PipeStatus, WellFormed;
    assert done + [] == done;
  }

  ghost predicate EndsHere(nodes: seq<Node>, status: int)
    requires |nodes| > 1
  {
    (nodes[1].Or? && status == 0) || (nodes[1].And? && status != 0)
  }

  /** Behind a command the run ends, the pipe goes on, or the next pipe begins. */
  lemma {:induction false} JobNext(whole: Execution, done: seq<seq<Job>>, nodes: seq<Node>, pipe: seq<Job>,
                                   cds: seq<string>, cwd: string, pid: nat, exitOf: nat -> int)
    requires Reached(whole, done, nodes, pipe, cds, cwd, pid, exitOf) && nodes != [] && nodes[0].Cmd?
    requires |nodes| > 1 ==> |nodes| > 2 && WellFormed(nodes[2..]) && (nodes[1].Pipe? || nodes[1].And? || nodes[1].Or?)
    ensures var jobs := pipe + [Job(cds, cwd, nodes[0].command, pipe != [])];
      var status := PipeStatus(jobs, pid, exitOf);
      if |nodes| == 1 then whole == Execution(done + [jobs], [], Some(status))
      else if nodes[1].Pipe? then Reached(whole, done, nodes[2..], jobs, [], cwd, pid, exitOf)
      else if EndsHere(nodes, status) then whole == Execution(done + [jobs], [], Some(status))
      else Reached(whole, done + [jobs], nodes[2..], [], [], cwd, pid + |jobs|, exitOf)
  {
    hide PipeStatus, WellFormed;
    var jobs := pipe + [Job(cds, cwd, nodes[0].command, pipe != [])];
    if |nodes| > 1 && !nodes[1].Pipe? {
      var after := Nested(Grouped(nodes[2..], [], [], cwd), pid + |jobs|, exitOf);
      assert done + ([jobs] + after.pipes) == (done + [jobs]) + after.pipes;
    }
  }

  /** What the log shows at the end. */
  lemma {:induction false} RunShows(log: seq<Event>, log0: seq<Event>, nodes: seq<Node>, done: seq<seq<Job>>,
                                    pipe: seq<Job>, status: Option<int>, pid0: nat, handle0: nat, pid: nat, handle: nat,
                                    exitOf: nat -> int)
    requires WellFormed(nodes) && Nested(Grouped(nodes, [], [], HERE), pid0, exitOf) == Execution(done, pipe, status)
    requires Logged(log, log0, done, pipe, pid0, handle0, pid, handle)
    ensures log == log0 + RunEvents(Execution(done, pipe, status), pid0, handle0)
    ensures StartsRight(log[|log0|..], nodes, pid0) && AllUsed(log[|log0|..])
    ensures StartMarks(log[|log0|..]) == NestedRan(Grouped(nodes, [], [], HERE), pid0, exitOf).marks
    ensures status.Some? ==> Plays(log[|log0|..], Settled(handle0, pid0), Settled(handle, pid))
  {
    hide Nested, NestedRan, Effects, Starts, Plays, StartMarks, JobCount, FileCount, StartsRight, AllUsed, Grouped,
        WellFormed;
    var chain := Grouped(nodes, [], [], HERE);
    var run := Execution(done, pipe, status);
    assert log == log0 + RunEvents(run, pid0, handle0);
    assert log[|log0|..] == RunEvents(run, pid0, handle0);
    RunStartsRight(chain, pid0, handle0, exitOf);
    RunStreams(nodes, pid0, handle0, exitOf);
    WholeReturns(chain, pid0, exitOf);
    if status.Some? {
      ReturnLeavesNothing(run, pid0, handle0);
    }
  }

  lemma {:induction false} StuckOn(tokens: seq<string>, n: nat)
    requires n <= |tokens| && StateAfter(tokens[..n]).None?
    ensures StateAfter(tokens).None?
    decreases |tokens| - n
  {
    if n < |tokens| {
      assert tokens[..n + 1][..n] == tokens[..n];
      StuckOn(tokens, n + 1);
    } else {
      assert tokens[..n] == tokens;
    }
  }

  lemma {:induction false} StartsFront(pipe: seq<Job>, job: Job, k: nat, pid: nat, handle: nat)
    requires k <= |pipe|
    ensures HandleCount(pipe + [job], k) == HandleCount(pipe, k)
    ensures Starts(pipe + [job], k, pid, handle) == Starts(pipe, k, pid, handle)
  {
    hide JobEvents, OpenCount;
    if k > 0 {
      StartsFront(pipe, job, k - 1, pid, handle);
    }
  }

  /** A command has been started. */
  lemma {:induction false} OneMoreJob(log: seq<Event>, log0: seq<Event>, done: seq<seq<Job>>, pipe: seq<Job>, job: Job,
                                      pid0: nat, handle0: nat, pid: nat, handle: nat)
    requires Logged(log, log0, done, pipe, pid0, handle0, pid, handle)
    ensures HandleCount(pipe + [job], |pipe| + 1) == HandleCount(pipe, |pipe|) + OpenCount(job)
    ensures Logged(log + JobEvents(job, pid + |pipe|, handle + HandleCount(pipe, |pipe|)), log0, done, pipe + [job],
                   pid0, handle0, pid, handle)
  {
    hide JobEvents, OpenCount, Effects, JobCount, FileCount;
    StartsFront(pipe, job, |pipe|, pid, handle);
  }

  lemma {:induction false} EffectsFront(done: seq<seq<Job>>, pipe: seq<Job>, k: nat, pid: nat, handle: nat)
    requires k <= |done|
    ensures JobCount(done + [pipe], k) == JobCount(done, k) && FileCount(done + [pipe], k) == FileCount(done, k)
    ensures Effects(done + [pipe], k, pid, handle) == Effects(done, k, pid, handle)
  {
    hide PipeEvents, HandleCount;
    if k > 0 {
      EffectsFront(done, pipe, k - 1, pid, handle);
    }
  }

  lemma {:induction false} LastPipe(done: seq<seq<Job>>, pipe: seq<Job>, pid0: nat, handle0: nat)
    ensures var n := |done|;
      && Effects(done + [pipe], n + 1, pid0, handle0) ==
         Effects(done, n, pid0, handle0) + PipeEvents(pipe, pid0 + JobCount(done, n), handle0 + FileCount(done, n))
      && JobCount(done + [pipe], n + 1) == JobCount(done, n) + |pipe|
      && FileCount(done + [pipe], n + 1) == FileCount(done, n) + HandleCount(pipe, |pipe|)
  {
    hide PipeEvents, HandleCount;
    EffectsFront(done, pipe, |done|, pid0, handle0);
  }

  lemma {:induction false} Reassociate(a: seq<Event>, b: seq<Event>, c: seq<Event>, d: seq<Event>, e: seq<Event>)
    ensures a + b + c + d + e == a + (b + (c + d + e))
  {
  }

  /** A pipe has been waited for and its files closed. */
  lemma {:induction false} PipeDone(log: seq<Event>, log0: seq<Event>, done: seq<seq<Job>>, pipe: seq<Job>,
                                    pid0: nat, handle0: nat, pid: nat, handle: nat)
    requires Logged(log, log0, done, pipe, pid0, handle0, pid, handle)
    ensures var after := log + Waits(pid, |pipe|) + Closes(handle, HandleCount(pipe, |pipe|));
      && after == log0 + Effects(done + [pipe], |done + [pipe]|, pid0, handle0)
      && Logged(after, log0, done + [pipe], [], pid0, handle0, pid + |pipe|, handle + HandleCount(pipe, |pipe|))
  {
    hide Waits, Closes, HandleCount, Effects, JobCount, FileCount;
    LastPipe(done, pipe, pid0, handle0);
    Reassociate(log0, Effects(done, |done|, pid0, handle0), Starts(pipe, |pipe|, pid, handle), Waits(pid, |pipe|),
                Closes(handle, HandleCount(pipe, |pipe|)));
    assert Starts([], 0, pid + |pipe|, handle + HandleCount(pipe, |pipe|)) == [];
  }
}
