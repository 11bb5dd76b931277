/** What a caller can check of a parsed list before running it: that `run` can run it, and that it will
    be read as POSIX reads it. */
module ShellLists {
  import opened Options
  import opened ShellSyntax
  import opened ShellParser
  import opened ShellPrinter
  import opened ShellSemantics
  import opened ShellAndOr

  /* ----- which parsed lists run ----- */

  ghost predicate CdsComplete(p: seq<Node>) {
    p == [] || ((p[0].Chdir? ==> p[0].dir.Some? && |p| > 1) && CdsComplete(p[1..]))
  }

  lemma {:induction false} WellFormedRest(p: seq<Node>)
    requires WellFormed(p) && |p| > 1
    ensures |p| > 2 && WellFormed(p[2..]) && (p[0].Cmd? || p[0].Chdir?) && (p[1].Pipe? || p[1].And? || p[1].Or?)
  {
    assert NodeOk(p, 0) && NodeOk(p, 1);
    forall i | 0 <= i < |p| - 2
      ensures NodeOk(p[2..], i)
    {
      assert NodeOk(p, i + 2);
    }
  }

  /** Of what `parse` returns, exactly the lists without a dangling or directory-less `cd` can be run. */
  lemma {:induction false} RunnableIff(p: seq<Node>)
    requires WellFormed(p)
    ensures Runnable(p) <==> CdsComplete(p)
    decreases |p|
  {
    assert NodeOk(p, 0);
    if |p| > 1 {
      WellFormedRest(p);
      RunnableIff(p[2..]);
      assert p[1..][1..] == p[2..] && p[1..][0] == p[1];
    } else {
      assert p[1..] == [];
    }
  }

  /* ----- one operator, and no `cd` behind a pipe ----- */

  ghost predicate UsesOnly(nodes: seq<Node>, op: Operator) {
    nodes == [] || ((nodes[0].And? ==> op == AndOp) && (nodes[0].Or? ==> op == OrOp) && UsesOnly(nodes[1..], op))
  }

  /** What follows the first pipe's `cd`s. */
  ghost function AfterCds(nodes: seq<Node>): seq<Node> {
    if |nodes| < 2 || !nodes[0].Chdir? then nodes else AfterCds(nodes[2..])
  }

  ghost predicate PipeThenCd(nodes: seq<Node>) {
    |nodes| > 1 && ((nodes[0].Pipe? && nodes[1].Chdir?) || PipeThenCd(nodes[1..]))
  }

  lemma {:induction false} UsesOnlyPair(nodes: seq<Node>, op: Operator)
    requires |nodes| > 1 && !nodes[0].And? && !nodes[0].Or?
    ensures UsesOnly(nodes, op) <==>
            (nodes[1].And? ==> op == AndOp) && (nodes[1].Or? ==> op == OrOp) && UsesOnly(nodes[2..], op)
  {
    assert nodes[1..][1..] == nodes[2..];
  }

  lemma {:induction false} PipeThenCdPair(nodes: seq<Node>)
    requires |nodes| > 2 && !nodes[0].Pipe?
    ensures PipeThenCd(nodes) <==> (nodes[1].Pipe? && nodes[2].Chdir?) || PipeThenCd(nodes[2..])
  {
    assert nodes[1..][1..] == nodes[2..] && nodes[1..][0] == nodes[1] && nodes[1..][1] == nodes[2];
  }

  ghost function LeadingCds(pipe: seq<Job>, cds: seq<string>): seq<string> {
    if pipe == [] then cds else pipe[0].cds
  }

  lemma {:induction false} CdsLeadMore(pipe: seq<Job>, job: Job)
    requires pipe == [] || CdsLead(pipe)
    ensures CdsLead(pipe + [job]) <==> pipe == [] || job.cds == []
    ensures pipe != [] ==> (pipe + [job])[0] == pipe[0]
  {
    if pipe != [] {
      assert (pipe + [job])[|pipe|] == job;
    }
  }

  /** A `cd` stands behind a pipe in the chain exactly when it does in the list. */
  lemma {:induction false} NoCdBehindPipeIff(nodes: seq<Node>, pipe: seq<Job>, cds: seq<string>, cwd: string)
    requires Runnable(nodes) && (pipe == [] || (CdsLead(pipe) && cds == [])) 
    requires pipe != [] ==> !nodes[0].Chdir?
    ensures NoCdBehindPipe(Grouped(nodes, pipe, cds, cwd)) <==> !PipeThenCd(nodes)
    decreases |nodes|
  {
    if |nodes| > 2 {
      PipeThenCdPair(nodes);
    }
    match nodes[0]
    case Chdir(dir) =>
      NoCdBehindPipeIff(nodes[2..], pipe, cds + [dir.value], Join(cwd, dir.value));
    case Cmd(c) =>
      CdsLeadMore(pipe, Job(cds, cwd, c, pipe != []));
      if |nodes| > 1 {
        if !nodes[1].Pipe? {
          NoCdBehindPipeIff(nodes[2..], [], [], cwd);
        } else if nodes[2].Chdir? {
          CdInPipe(nodes[2..], pipe + [Job(cds, cwd, c, pipe != [])], [], cwd);
        } else {
          NoCdBehindPipeIff(nodes[2..], pipe + [Job(cds, cwd, c, pipe != [])], [], cwd);
        }
      }
    case _ =>
  }

  /** The `cd` is remembered with the command behind it, which still belongs to the pipe. */
  lemma {:induction false} CdInPipe(nodes: seq<Node>, pipe: seq<Job>, cds: seq<string>, cwd: string)
    requires Runnable(nodes) && pipe != [] && (nodes[0].Chdir? || cds != [])
    ensures Grouped(nodes, pipe, cds, cwd).pipe != [] && !CdsLead(Grouped(nodes, pipe, cds, cwd).pipe)
    decreases |nodes|
  {
    match nodes[0]
    case Chdir(dir) =>
      CdInPipe(nodes[2..], pipe, cds + [dir.value], Join(cwd, dir.value));
    case Cmd(c) =>
      var jobs := pipe + [Job(cds, cwd, c, pipe != [])];
      assert jobs[|pipe|].cds == cds;
      if |nodes| > 1 && nodes[1].Pipe? {
        PipeGrows(nodes[2..], jobs, [], cwd, |pipe|);
      }
    case _ =>
  }

  lemma {:induction false} PipeGrows(nodes: seq<Node>, pipe: seq<Job>, cds: seq<string>, cwd: string, i: nat)
    requires Runnable(nodes) && i < |pipe|
    ensures i < |Grouped(nodes, pipe, cds, cwd).pipe| && Grouped(nodes, pipe, cds, cwd).pipe[i] == pipe[i]
    decreases |nodes|
  {
    match nodes[0]
    case Chdir(dir) =>
      PipeGrows(nodes[2..], pipe, cds + [dir.value], Join(cwd, dir.value), i);
    case Cmd(c) =>
      if |nodes| > 1 && nodes[1].Pipe? {
        PipeGrows(nodes[2..], pipe + [Job(cds, cwd, c, pipe != [])], [], cwd, i);
      }
    case _ =>
  }

  lemma {:induction false} OnlyIff(nodes: seq<Node>, pipe: seq<Job>, cds: seq<string>, cwd: string, op: Operator)
    requires Runnable(nodes) && !PipeThenCd(nodes) && (pipe != [] ==> !nodes[0].Chdir? && cds == [])
    ensures var chain := Grouped(nodes, pipe, cds, cwd);
      Only(chain, FirstCds(chain), op) <==> UsesOnly(nodes, op) && (LeadingCds(pipe, cds) != [] ==> op == AndOp)
    decreases |nodes|
  {
    if |nodes| > 2 {
      UsesOnlyPair(nodes, op);
      PipeThenCdPair(nodes);
    }
    match nodes[0]
    case Chdir(dir) =>
      OnlyIff(nodes[2..], pipe, cds + [dir.value], Join(cwd, dir.value), op);
    case Cmd(c) =>
      if |nodes| > 1 {
        if nodes[1].Pipe? {
          OnlyIff(nodes[2..], pipe + [Job(cds, cwd, c, pipe != [])], [], cwd, op);
        } else {
          OnlyIff(nodes[2..], [], [], cwd, op);
        }
      } else {
        assert nodes[1..] == [];
      }
    case _ =>
  }

  /** Behind its leading `cd`s, the list uses one of the two operators at most. */
  ghost predicate OneOperator(nodes: seq<Node>) {
    UsesOnly(AfterCds(nodes), AndOp) || UsesOnly(AfterCds(nodes), OrOp)
  }

  lemma {:induction false} UniformIff(nodes: seq<Node>, pipe: seq<Job>, cds: seq<string>, cwd: string)
    requires Runnable(nodes) && !PipeThenCd(nodes) && (pipe != [] ==> !nodes[0].Chdir? && cds == [])
    ensures Uniform(Grouped(nodes, pipe, cds, cwd)) <==> OneOperator(nodes)
    decreases |nodes|
  {
    if |nodes| > 2 {
      PipeThenCdPair(nodes);
      UsesOnlyPair(nodes, AndOp);
      UsesOnlyPair(nodes, OrOp);
    }
    match nodes[0]
    case Chdir(dir) =>
      UniformIff(nodes[2..], pipe, cds + [dir.value], Join(cwd, dir.value));
    case Cmd(c) =>
      if |nodes| == 1 {
        assert UsesOnly(nodes[1..], AndOp);
      } else if nodes[1].Pipe? {
        UniformIff(nodes[2..], pipe + [Job(cds, cwd, c, pipe != [])], [], cwd);
      } else {
        OnlyIff(nodes[2..], [], [], cwd, if nodes[1].And? then AndOp else OrOp);
      }
    case _ =>
  }

  /** The directory `run` starts in. */
  const HERE := "."

  ghost predicate ReadAsPosix(nodes: seq<Node>, exitOf: nat -> int)
    requires Runnable(nodes)
  {
    Agrees(Grouped(nodes, [], [], HERE), HERE, exitOf)
  }

  /** A list without a `cd` behind a pipe starts the commands, in the directories, and returns the status
      that section 2.9.3 of POSIX.1-2017 XCU asks for, whatever its commands return, exactly when it uses
      one of `&&` and `||` only, `cd`s before the first pipe aside. */
  lemma {:induction false} PosixIffOneOperator(nodes: seq<Node>)
    requires Runnable(nodes) && !PipeThenCd(nodes)
    ensures (forall exitOf :: ReadAsPosix(nodes, exitOf)) <==> OneOperator(nodes)
  {
    NoCdBehindPipeIff(nodes, [], [], HERE);
    UniformIff(nodes, [], [], HERE);
    AgreesIffUniform(nodes, HERE);
    assert forall exitOf :: ReadAsPosix(nodes, exitOf) == Agrees(Grouped(nodes, [], [], HERE), HERE, exitOf);
  }

  /** `a && b || c`: when `a` fails, POSIX goes on to `c`, and the executor returns. */
  lemma {:induction false} MixedExample(a: Command, b: Command, c: Command)
    ensures var nodes := [Cmd(a), And, Cmd(b), Or, Cmd(c)];
      Runnable(nodes) && !PipeThenCd(nodes) && exists exitOf :: !ReadAsPosix(nodes, exitOf)
  {
    hide ReadAsPosix, Grouped;
    var last, middle, nodes := [Cmd(c)], [Cmd(b), Or, Cmd(c)], [Cmd(a), And, Cmd(b), Or, Cmd(c)];
    assert nodes[2..] == middle && middle[2..] == last && nodes[1..][1..] == middle && middle[1..][1..] == last;
    assert Runnable(last) && Runnable(middle) && Runnable(nodes);
    PipeThenCdPair(nodes);
    PipeThenCdPair(middle);
    forall op
      ensures !UsesOnly(nodes, op)
    {
      UsesOnlyPair(nodes, op);
      UsesOnlyPair(middle, op);
    }
    PosixIffOneOperator(nodes);
  }

  /* ----- which lists always return ----- */

  /** Exit codes with which no operator ends the run. */
  ghost function Proceeding(chain: Chain, n: nat, pid: nat): int
    decreases chain
  {
    if !chain.Then? then 0
    else if pid < n + |chain.pipe| then if chain.op == AndOp then 0 else 1
    else Proceeding(chain.rest, n + |chain.pipe|, pid)
  }

  /** Every pipe has a command, and no two are joined by a pipe. */
  ghost predicate Filled(chain: Chain) {
    chain.Then? ==> chain.pipe != [] && chain.op != PipeOp && Filled(chain.rest)
  }

  lemma {:induction false} GroupedFilled(nodes: seq<Node>, pipe: seq<Job>, cds: seq<string>, cwd: string)
    ensures Filled(Grouped(nodes, pipe, cds, cwd))
    decreases |nodes|
  {
    hide Join;
    if nodes != [] {
      match nodes[0]
      case Chdir(dir) =>
        if dir.Some? && |nodes| > 1 {
          GroupedFilled(nodes[2..], pipe, cds + [dir.value], Join(cwd, dir.value));
        }
      case Cmd(c) =>
        if |nodes| > 1 {
          if nodes[1] == Pipe {
            GroupedFilled(nodes[2..], pipe + [Job(cds, cwd, c, pipe != [])], [], cwd);
          } else {
            GroupedFilled(nodes[2..], [], [], cwd);
          }
        }
      case _ =>
    }
  }

  lemma {:induction false} ProceedsToBreak(chain: Chain, n: nat, exitOf: nat -> int)
    requires Filled(chain) && !Whole(chain) && forall p :: p >= n ==> exitOf(p) == Proceeding(chain, n, p)
    ensures Nested(chain, n, exitOf).status.None?
    decreases chain
  {
    if chain.Then? {
      assert exitOf(n + |chain.pipe| - 1) == Proceeding(chain, n, n + |chain.pipe| - 1);
      ProceedsToBreak(chain.rest, n + |chain.pipe|, exitOf);
    }
  }

  ghost predicate Returns(nodes: seq<Node>, exitOf: nat -> int) {
    Nested(Grouped(nodes, [], [], HERE), 0, exitOf).status.Some?
  }

  /** Whatever the commands return, no exception ends the run, exactly of the lists that can be run. */
  lemma {:induction false} ReturnsIffRunnable(nodes: seq<Node>)
    ensures (forall exitOf :: Returns(nodes, exitOf)) <==> Runnable(nodes)
  {
    hide Grouped, Runnable;
    var chain := Grouped(nodes, [], [], HERE);
    WholeIff(nodes, [], [], HERE);
    if Runnable(nodes) {
      forall exitOf
        ensures Returns(nodes, exitOf)
      {
        WholeReturns(chain, 0, exitOf);
      }
    } else {
      GroupedFilled(nodes, [], [], HERE);
      var exitOf := (pid: nat) => Proceeding(chain, 0, pid);
      ProceedsToBreak(chain, 0, exitOf);
      assert !Returns(nodes, exitOf);
    }
  }
}
