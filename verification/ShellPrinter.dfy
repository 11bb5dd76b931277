/** Pipelines written back as tokens, and `Pipeline.parse` as the program has it. */
module ShellPrinter {
  import opened Options
  import opened ShellSyntax
  import opened ShellParser

  /** Nodes and operators alternate, beginning and ending with a node; output goes into a pipe exactly
      before a pipe; only `&&` follows a `cd`. */
  ghost predicate WellFormed(p: seq<Node>) {
    && |p| % 2 == 1
    && forall i :: 0 <= i < |p| ==> NodeOk(p, i)
  }

  ghost predicate NodeOk(p: seq<Node>, i: nat)
    requires i < |p|
  {
    match p[i]
    case Cmd(c) =>
      && i % 2 == 0 && c.argv != [] && c.argv[0] == c.name
      && (c.stdout == StdoutPipe <==> i + 1 < |p| && p[i + 1] == Pipe)
    case Chdir(_) => i % 2 == 0 && (i + 1 < |p| ==> p[i + 1] == And)
    case _ => i % 2 == 1
  }

  /** Nodes and operators alternate, each as it should be before or behind the other. */
  ghost predicate PairOk(a: Node, b: Node) {
    match a
    case Cmd(c) => c.argv != [] && c.argv[0] == c.name && (c.stdout == StdoutPipe <==> b == Pipe) && !b.Cmd?
        && !b.Chdir?
    case Chdir(_) => b == And
    case _ => false
  }

  lemma {:induction false} NotPiped(items: seq<Item>)
    ensures StdoutOf(items) != StdoutPipe
  {
    if items != [] {
      NotPiped(items[..|items| - 1]);
    }
  }

  lemma {:induction false} StageWellFormed(stage: Stage, op: Operator)
    ensures match StageNode(stage)
      case Cmd(c) => c.argv != [] && c.argv[0] == c.name && c.stdout != StdoutPipe
      case Chdir(_) => true
      case _ => false
    ensures MayFollow(stage, op) ==> PairOk(NodeBefore(stage, op), OperatorNode(op))
  {
    if stage.Simple? {
      NotPiped(stage.items);
    }
  }

  ghost predicate PairsOk(p: seq<Node>) {
    |p| % 2 == 0 && (p == [] || (PairsOk(p[..|p| - 2]) && PairOk(p[|p| - 2], p[|p| - 1])))
  }

  lemma {:induction false} PairAdded(front: seq<Node>, a: Node, b: Node)
    requires PairsOk(front) && PairOk(a, b)
    ensures PairsOk(front + [a, b])
  {
    hide PairOk;
    assert (front + [a, b])[..|front|] == front;
  }

  lemma {:induction false} DoneWellFormed(done: seq<(Stage, Operator)>)
    requires ValidDone(done)
    ensures PairsOk(DoneNodes(done))
  {
    if done != [] {
      hide ValidStage, MayFollow, NodeBefore, PairOk, PairsOk;
      var n := |done| - 1;
      DoneWellFormed(done[..n]);
      StageWellFormed(done[n].0, done[n].1);
      PairAdded(DoneNodes(done[..n]), NodeBefore(done[n].0, done[n].1), OperatorNode(done[n].1));
    }
  }

  lemma {:induction false} PairAt(p: seq<Node>, i: nat)
    requires PairsOk(p) && i < |p|
    ensures PairOk(p[2 * (i / 2)], p[2 * (i / 2) + 1])
  {
    if i < |p| - 2 {
      PairAt(p[..|p| - 2], i);
    }
  }

  lemma {:induction false} PairsWellFormed(p: seq<Node>, last: Node)
    requires PairsOk(p) && match last
      case Cmd(c) => c.argv != [] && c.argv[0] == c.name && c.stdout != StdoutPipe
      case Chdir(_) => true
      case _ => false
    ensures WellFormed(p + [last])
  {
    var q := p + [last];
    forall i | 0 <= i < |q|
      ensures NodeOk(q, i)
    {
      if i < |p| {
        PairAt(p, i);
      }
    }
  }

  lemma {:induction false} MeaningWellFormed(t: Sentence)
    requires Valid(t) && t.last.InStage?
    ensures WellFormed(Meaning(t).value)
  {
    DoneWellFormed(t.done);
    StageWellFormed(t.last.stage, AndOp);
    PairsWellFormed(DoneNodes(t.done), StageNode(t.last.stage));
  }

  /** `parse` only ever returns well-formed pipelines. */
  lemma {:induction false} ParsedWellFormed(tokens: seq<string>)
    requires Parsed(tokens).Some?
    ensures WellFormed(Parsed(tokens).value)
  {
    var t := StateSentence(tokens);
    MeaningWellFormed(t);
  }

  /* ----- printing ----- */

  ghost predicate PrintableEnv(env: map<string, string>) {
    forall k :: k in env ==> IsName(k) && IsValue(env[k])
  }

  ghost predicate PrintableNode(node: Node) {
    match node
    case Cmd(c) =>
      && c.name != "cd" && EnvMatch(c.name).None? && PrintableEnv(c.envVars)
      && forall i :: 1 <= i < |c.argv| ==> KindOf(c.argv[i]).Plain?
    case Chdir(Some(dir)) => dir != "&&"
    case _ => true
  }

  ghost predicate AllPrintable(p: seq<Node>) {
    p == [] || (AllPrintable(p[..|p| - 1]) && PrintableNode(p[|p| - 1]))
  }

  ghost function AnyKey(env: map<string, string>): (k: string)
    requires env != map[]
    ensures k in env
  {
    var k :| k in env;
    k
  }

  function EnvToken(name: string, value: string): string {
    name + "=" + value
  }

  /** The assignments in some order. */
  ghost function EnvTokens(env: map<string, string>): seq<string>
    decreases |env|
  {
    if env == map[] then []
    else
      var k := AnyKey(env);
      KeyTakenOut(env, k);
      EnvTokens(env - {k}) + [EnvToken(k, env[k])]
  }

  function InItems(stdin: Option<string>): seq<Item> {
    match stdin case None => [] case Some(file) => [In(file)]
  }

  function OutItems(stdout: Stdout): seq<Item> {
    match stdout case StdoutFile(file) => [Out(file)] case _ => []
  }

  function ErrItems(stderr: Stderr): seq<Item> {
    match stderr
    case StderrFile(file) => [Err(file)]
    case StderrToStdout => [ErrToOut]
    case StderrInherited => []
  }

  function WordItems(words: seq<string>): seq<Item> {
    if words == [] then [] else WordItems(words[..|words| - 1]) + [Word(words[|words| - 1])]
  }

  /** Assignments, name, arguments, then `<`, `>` and `2>`. */
  ghost function CommandStage(c: Command): Stage
    requires c.argv != []
  {
    Simple(EnvTokens(c.envVars), c.name,
        WordItems(c.argv[1..]) + InItems(c.stdin) + OutItems(c.stdout) + ErrItems(c.stderr))
  }

  ghost function NodeTokens(node: Node): seq<string> {
    match node
    case Cmd(c) => if c.argv == [] then [] else StageTokens(CommandStage(c))
    case Chdir(dir) => if dir.None? then ["cd"] else ["cd", dir.value]
    case Pipe => ["|"]
    case And => ["&&"]
    case Or => ["||"]
  }

  /** The canonical printing of a pipeline, node by node. */
  ghost function Printed(p: seq<Node>): seq<string> {
    if p == [] then [] else Printed(p[..|p| - 1]) + NodeTokens(p[|p| - 1])
  }

  lemma {:induction false} KeyTakenOut(env: map<string, string>, k: string)
    requires k in env
    ensures |env - {k}| < |env| && (env - {k})[k := env[k]] == env
  {
    assert (env - {k}).Keys == env.Keys - {k};
  }

  lemma {:induction false} EnvTokensMean(env: map<string, string>)
    requires PrintableEnv(env)
    ensures ValidEnvs(EnvTokens(env)) && EnvOf(EnvTokens(env)) == env
    decreases |env|
  {
    if env != map[] {
      var k := AnyKey(env);
      KeyTakenOut(env, k);
      EnvTokensMean(env - {k});
      EnvTokenMatches(k, env[k]);
      EnvAdded(EnvTokens(env - {k}), EnvToken(k, env[k]));
    }
  }

  lemma {:induction false} NameHasNoEquals(name: string)
    requires AllNameChars(name)
    ensures forall i :: 0 <= i < |name| ==> name[i] != '='
  {
    if name != "" {
      NameHasNoEquals(name[1..]);
      assert forall i :: 1 <= i < |name| ==> name[i] == name[1..][i - 1];
    }
  }

  lemma {:induction false} EnvTokenMatches(name: string, value: string)
    requires IsName(name) && IsValue(value)
    ensures EnvMatch(EnvToken(name, value)) == Some((name, value))
  {
    var token := EnvToken(name, value);
    assert token[|name|] == '=';
    NameHasNoEquals(name);
    assert forall i :: 0 <= i < |name| ==> token[i] == name[i];
    assert FirstEquals(token) == |name|;
    assert token[..|name|] == name && token[|name| + 1..] == value;
    assert IsSpace('\n') && value[|value| - 1] != '\n';
  }

  lemma {:induction false} WordAdded(items: seq<Item>, word: string)
    requires ValidItems(items) && KindOf(word).Plain?
    ensures var more := items + [Word(word)];
      && ValidItems(more) && Words(more) == Words(items) + [word]
      && StdinOf(more) == StdinOf(items) && StdoutOf(more) == StdoutOf(items) && StderrOf(more) == StderrOf(items)
  {
    hide KindOf;
    assert (items + [Word(word)])[..|items|] == items;
  }

  lemma {:induction false} WordItemsMean(words: seq<string>)
    requires forall i :: 0 <= i < |words| ==> KindOf(words[i]).Plain?
    ensures ValidItems(WordItems(words)) && Words(WordItems(words)) == words
    ensures StdinOf(WordItems(words)) == None
    ensures StdoutOf(WordItems(words)) == StdoutInherited && StderrOf(WordItems(words)) == StderrInherited
  {
    hide KindOf;
    if words != [] {
      hide ValidItems, Words, StdinOf, StdoutOf, StderrOf;
      var n := |words| - 1;
      WordItemsMean(words[..n]);
      WordAdded(WordItems(words[..n]), words[n]);
      assert words[..n] + [words[n]] == words;
    }
  }

  lemma {:induction false} WithIn(items: seq<Item>, stdin: Option<string>)
    requires ValidItems(items) && StdinOf(items) == None
    ensures var more := items + InItems(stdin);
      ValidItems(more) && Words(more) == Words(items)
      && StdinOf(more) == stdin && StdoutOf(more) == StdoutOf(items) && StderrOf(more) == StderrOf(items)
  {
    if stdin.Some? {
      assert (items + InItems(stdin))[..|items|] == items;
      ItemAdded([], "", items, In(stdin.value));
    } else {
      assert items + [] == items;
    }
  }

  lemma {:induction false} WithOut(items: seq<Item>, stdout: Stdout)
    requires ValidItems(items) && StdoutOf(items) == StdoutInherited
    ensures var more := items + OutItems(stdout);
      ValidItems(more) && Words(more) == Words(items)
      && StdinOf(more) == StdinOf(items) && StderrOf(more) == StderrOf(items)
      && StdoutOf(more) == if stdout.StdoutPipe? then StdoutInherited else stdout
  {
    if stdout.StdoutFile? {
      assert (items + OutItems(stdout))[..|items|] == items;
      ItemAdded([], "", items, Out(stdout.file));
    } else {
      assert items + [] == items;
    }
  }

  lemma {:induction false} WithErr(items: seq<Item>, stderr: Stderr)
    requires ValidItems(items) && StderrOf(items) == StderrInherited
    ensures var more := items + ErrItems(stderr);
      ValidItems(more) && Words(more) == Words(items)
      && StdinOf(more) == StdinOf(items) && StdoutOf(more) == StdoutOf(items) && StderrOf(more) == stderr
  {
    assert (items + ErrItems(stderr))[..|items|] == items;
    match stderr
    case StderrFile(file) => ItemAdded([], "", items, Err(file));
    case StderrToStdout => ItemAdded([], "", items, ErrToOut);
    case StderrInherited => assert items + [] == items;
  }

  lemma {:induction false} ItemsMean(args: seq<string>, stdin: Option<string>, stdout: Stdout, stderr: Stderr)
    requires forall i :: 0 <= i < |args| ==> KindOf(args[i]).Plain?
    ensures var items := WordItems(args) + InItems(stdin) + OutItems(stdout) + ErrItems(stderr);
      && ValidItems(items)
      && Words(items) == args && StdinOf(items) == stdin && StderrOf(items) == stderr
      && StdoutOf(items) == if stdout.StdoutPipe? then StdoutInherited else stdout
  {
    WordItemsMean(args);
    WithIn(WordItems(args), stdin);
    WithOut(WordItems(args) + InItems(stdin), stdout);
    WithErr(WordItems(args) + InItems(stdin) + OutItems(stdout), stderr);
  }

  /** The printed command reads as the command, apart from a pipe behind it. */
  lemma {:induction false} StageMeans(c: Command)
    requires c.argv != [] && c.argv[0] == c.name && PrintableNode(Cmd(c))
    ensures ValidStage(CommandStage(c))
    ensures StageNode(CommandStage(c)) == Cmd(if c.stdout.StdoutPipe? then c.(stdout := StdoutInherited) else c)
  {
    var args := c.argv[1..];
    assert c.argv == [c.name] + args;
    assert forall i :: 0 <= i < |args| ==> args[i] == c.argv[i + 1];
    ItemsMean(args, c.stdin, c.stdout, c.stderr);
    EnvTokensMean(c.envVars);
  }

  /* ----- the round trip ----- */

  ghost function StageFor(node: Node): Stage {
    match node
    case Cmd(c) => if c.argv == [] then Cd([]) else CommandStage(c)
    case Chdir(dir) => Cd(if dir.None? then [] else [dir.value])
    case _ => Cd([])
  }

  function OperatorFor(node: Node): Operator {
    match node
    case Pipe => PipeOp
    case And => AndOp
    case _ => OrOp
  }

  /** The stages of a pipeline's front, each with the operator behind it. */
  ghost function DoneFor(p: seq<Node>): seq<(Stage, Operator)> {
    if |p| < 2 then [] else DoneFor(p[..|p| - 2]) + [(StageFor(p[|p| - 2]), OperatorFor(p[|p| - 1]))]
  }

  lemma {:induction false} StageForMeans(node: Node)
    requires PrintableNode(node) && (node.Cmd? ==> node.command.argv != [] && node.command.argv[0] == node.command.name)
    requires node.Cmd? || node.Chdir?
    ensures ValidStage(StageFor(node)) && StageTokens(StageFor(node)) == NodeTokens(node)
    ensures StageFor(node).Cd? <==> node.Chdir?
    ensures StageNode(StageFor(node)) ==
      if node.Cmd? && node.command.stdout.StdoutPipe? then Cmd(node.command.(stdout := StdoutInherited)) else node
  {
    if node.Cmd? {
      StageMeans(node.command);
    }
  }

  lemma {:induction false} NodePairMeans(a: Node, b: Node)
    requires PrintableNode(a) && PairOk(a, b)
    ensures ValidStage(StageFor(a)) && MayFollow(StageFor(a), OperatorFor(b))
    ensures NodeBefore(StageFor(a), OperatorFor(b)) == a && OperatorNode(OperatorFor(b)) == b
    ensures StageTokens(StageFor(a)) + [OperatorToken(OperatorFor(b))] == NodeTokens(a) + NodeTokens(b)
  {
    StageForMeans(a);
  }

  lemma {:induction false} DoneForMeans(p: seq<Node>)
    requires PairsOk(p) && AllPrintable(p)
    ensures ValidDone(DoneFor(p)) && DoneNodes(DoneFor(p)) == p && DoneTokens(DoneFor(p)) == Printed(p)
  {
    if p != [] {
      var front, a, b := p[..|p| - 2], p[|p| - 2], p[|p| - 1];
      assert p[..|p| - 1][..|p| - 2] == front;
      assert p == front + [a, b];
      DoneForMeans(front);
      DoneForStep(front, a, b);
    }
  }

  lemma {:induction false} DoneForStep(front: seq<Node>, a: Node, b: Node)
    requires PrintableNode(a) && PairOk(a, b)
    requires ValidDone(DoneFor(front)) && DoneNodes(DoneFor(front)) == front && DoneTokens(DoneFor(front))
        == Printed(front)
    ensures var p := front + [a, b];
      ValidDone(DoneFor(p)) && DoneNodes(DoneFor(p)) == p && DoneTokens(DoneFor(p)) == Printed(p)
  {
    assert (front + [a, b])[..|front|] == front;
    NodePairMeans(a, b);
    OneMorePair(DoneFor(front), StageFor(a), OperatorFor(b));
    PrintedPair(front, a, b);
  }

  lemma {:induction false} OneMorePair(front: seq<(Stage, Operator)>, stage: Stage, op: Operator)
    ensures DoneNodes(front + [(stage, op)]) == DoneNodes(front) + [NodeBefore(stage, op), OperatorNode(op)]
    ensures DoneTokens(front + [(stage, op)]) == DoneTokens(front) + (StageTokens(stage) + [OperatorToken(op)])
    ensures ValidDone(front + [(stage, op)]) <==> ValidDone(front) && ValidStage(stage) && MayFollow(stage, op)
  {
    assert (front + [(stage, op)])[..|front|] == front;
  }

  lemma {:induction false} PrintedPair(p: seq<Node>, a: Node, b: Node)
    ensures Printed(p + [a, b]) == Printed(p) + (NodeTokens(a) + NodeTokens(b))
  {
    assert (p + [a, b])[..|p| + 1] == p + [a];
    assert (p + [a])[..|p|] == p;
  }

  lemma {:induction false} FrontPairsOk(p: seq<Node>, k: nat)
    requires WellFormed(p) && 2 * k < |p|
    ensures PairsOk(p[..2 * k])
  {
    if k > 0 {
      FrontPairsOk(p, k - 1);
      assert NodeOk(p, 2 * k - 2) && NodeOk(p, 2 * k - 1);
      assert p[..2 * k][..2 * k - 2] == p[..2 * k - 2];
    }
  }

  lemma {:induction false} FrontAndLast(p: seq<Node>)
    requires WellFormed(p)
    ensures var front, last := p[..|p| - 1], p[|p| - 1];
      && PairsOk(front) && (last.Cmd? || last.Chdir?)
      && (last.Cmd? ==>
            var c := last.command;
            c.argv != [] && c.argv[0] == c.name && !c.stdout.StdoutPipe?)
  {
    var n := |p| - 1;
    assert 2 * (n / 2) == n;
    FrontPairsOk(p, n / 2);
    assert NodeOk(p, n);
  }

  /** Parsing the canonical printing of any printable pipeline gives it back. */
  lemma {:induction false} RoundTrip(p: seq<Node>)
    requires WellFormed(p) && AllPrintable(p)
    ensures Parsed(Printed(p)) == Some(p)
  {
    FrontAndLast(p);
    var front, last := p[..|p| - 1], p[|p| - 1];
    assert p == front + [last];
    StageForMeans(last);
    DoneForMeans(front);
    WholeSentence(DoneFor(front), StageFor(last), front, last);
    SentenceParsed(Sentence(DoneFor(front), InStage(StageFor(last), Nothing)), Printed(p), p);
  }

  lemma {:induction false} WholeSentence(done: seq<(Stage, Operator)>, stage: Stage, front: seq<Node>, last: Node)
    requires ValidDone(done) && ValidStage(stage)
    requires DoneNodes(done) == front && DoneTokens(done) == Printed(front)
    requires StageNode(stage) == last && StageTokens(stage) == NodeTokens(last)
    ensures var t := Sentence(done, InStage(stage, Nothing));
      Valid(t) && Meaning(t) == Some(front + [last]) && Tokens(t) == Printed(front + [last])
  {
    assert (front + [last])[..|front|] == front;
    assert StageTokens(stage) + [] == NodeTokens(last);
  }

  /* ----- what `parse` can return ----- */

  lemma {:induction false} EnvPrintable(envs: seq<string>)
    ensures PrintableEnv(EnvOf(envs))
  {
    if envs != [] {
      EnvPrintable(envs[..|envs| - 1]);
    }
  }

  lemma {:induction false} WordsPlain(items: seq<Item>)
    requires ValidItems(items)
    ensures forall i :: 0 <= i < |Words(items)| ==> KindOf(Words(items)[i]).Plain?
  {
    hide KindOf;
    if items != [] {
      WordsPlain(items[..|items| - 1]);
    }
  }

  lemma {:induction false} StagePrintable(stage: Stage, op: Operator)
    requires ValidStage(stage)
    ensures PrintableNode(StageNode(stage)) && PrintableNode(NodeBefore(stage, op))
  {
    hide KindOf, EnvMatch;
    if stage.Simple? {
      EnvPrintable(stage.envs);
      WordsPlain(stage.items);
    }
  }

  lemma {:induction false} PrintablePair(front: seq<Node>, a: Node, b: Node)
    requires AllPrintable(front) && PrintableNode(a) && PrintableNode(b)
    ensures AllPrintable(front + [a]) && AllPrintable(front + [a, b])
  {
    assert (front + [a])[..|front|] == front;
    assert (front + [a, b])[..|front| + 1] == front + [a];
  }

  lemma {:induction false} DonePrintable(done: seq<(Stage, Operator)>)
    requires ValidDone(done)
    ensures AllPrintable(DoneNodes(done))
  {
    if done != [] {
      var n := |done| - 1;
      DonePrintable(done[..n]);
      StagePrintable(done[n].0, done[n].1);
      PrintablePair(DoneNodes(done[..n]), NodeBefore(done[n].0, done[n].1), OperatorNode(done[n].1));
    }
  }

  lemma {:induction false} ParsedPrintable(tokens: seq<string>)
    requires Parsed(tokens).Some?
    ensures AllPrintable(Parsed(tokens).value)
  {
    var t := StateSentence(tokens);
    DonePrintable(t.done);
    StagePrintable(t.last.stage, AndOp);
    PrintablePair(DoneNodes(t.done), StageNode(t.last.stage), And);
  }

  /** The pipelines that `parse` can return are exactly the well-formed, printable ones, and printing any
      of them gives tokens for it. */
  lemma {:induction false} RangeOfParse(p: seq<Node>)
    ensures (exists tokens :: Parsed(tokens) == Some(p)) <==> WellFormed(p) && AllPrintable(p)
    ensures (exists tokens :: Parsed(tokens) == Some(p)) ==> Parsed(Printed(p)) == Some(p)
  {
    hide WellFormed, AllPrintable, Parsed, Printed;
    if tokens :| Parsed(tokens) == Some(p) {
      ParsedWellFormed(tokens);
      ParsedPrintable(tokens);
    }
    if WellFormed(p) && AllPrintable(p) {
      RoundTrip(p);
    }
  }
}
