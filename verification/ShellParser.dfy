/** `Pipeline.parse` of waf-tools/shellcmd.py, a token-driven state machine. */
module ShellParser {
  import opened Options
  import opened ShellSyntax

  datatype Mode = BEGIN | COMMAND | CHDIR | STDERR | STDOUT | STDIN

  datatype ParserState = ParserState(mode: Mode, current: Option<Node>, env: map<string, string>, pipeline: seq<Node>)

  const START := ParserState(BEGIN, None, map[], [])

  /** One token.  `None` is a failed assertion. */
  function Step(s: ParserState, token: string): Option<ParserState> {
    match s.mode
    case BEGIN =>
      (match EnvMatch(token)
       case Some((name, value)) => Some(s.(env := s.env[name := value]))
       case None =>
         if s.current.Some? then None
         else if token == "cd" then
           if s.env != map[] then None else Some(s.(mode := CHDIR, current := Some(Chdir(None))))
         else
           var command := Command(token, [token], None, StdoutInherited, StderrInherited, s.env);
           Some(s.(mode := COMMAND, current := Some(Cmd(command)), env := map[])))
    case CHDIR =>
      if s.current.None? || !s.current.value.Chdir? then None
      else if token == "&&" then Some(Committed(s, And))
      else if s.current.value.dir.Some? then None
      else Some(s.(current := Some(Chdir(Some(token)))))
    case COMMAND =>
      if s.current.None? || !s.current.value.Cmd? then None else CommandStep(s, s.current.value.command, token)
    case STDOUT =>
      if s.current.None? || !s.current.value.Cmd? || s.current.value.command.stdout != StdoutInherited then None
      else Some(WithCommand(s, s.current.value.command.(stdout := StdoutFile(token))))
    case STDERR =>
      if s.current.None? || !s.current.value.Cmd? || s.current.value.command.stderr != StderrInherited then None
      else Some(WithCommand(s, s.current.value.command.(stderr := StderrFile(token))))
    case STDIN =>
      if s.current.None? || !s.current.value.Cmd? || s.current.value.command.stdin != None then None
      else Some(WithCommand(s, s.current.value.command.(stdin := Some(token))))
  }

  function WithCommand(s: ParserState, command: Command): ParserState {
    s.(mode := COMMAND, current := Some(Cmd(command)))
  }

  function Committed(s: ParserState, op: Node): ParserState
    requires s.current.Some?
  {
    s.(mode := BEGIN, current := None, pipeline := s.pipeline + [s.current.value, op])
  }

  function CommandStep(s: ParserState, command: Command, token: string): Option<ParserState>
    requires s.current == Some(Cmd(command))
  {
    match KindOf(token)
    case OutKind => Some(s.(mode := STDOUT))
    case ErrKind => Some(s.(mode := STDERR))
    case ErrToOutKind =>
      if command.stderr != StderrInherited then None
      else Some(WithCommand(s, command.(stderr := StderrToStdout)))
    case InKind => Some(s.(mode := STDIN))
    case PipeKind =>
      if command.stdout != StdoutInherited then None
      else Some(Committed(WithCommand(s, command.(stdout := StdoutPipe)), Pipe))
    case AndKind => Some(Committed(s, And))
    case OrKind => Some(Committed(s, Or))
    case Plain => Some(WithCommand(s, command.(argv := command.argv + [token])))
  }

  function StateAfter(tokens: seq<string>): Option<ParserState> {
    if tokens == [] then Some(START)
    else
      match StateAfter(tokens[..|tokens| - 1])
      case None => None
      case Some(s) => Step(s, tokens[|tokens| - 1])
  }

  /** The whole of `parse`: the last command is committed, which asserts that there is one. */
  function Parsed(tokens: seq<string>): Option<seq<Node>> {
    match StateAfter(tokens)
    case None => None
    case Some(s) => if s.current.None? then None else Some(s.pipeline + [s.current.value])
  }

  /* ----- the machine's states are the readings of sentences ----- */

  function ModeOf(last: Partial): Mode {
    match last
    case AtBegin(_) => BEGIN
    case InStage(stage, dangling) =>
      if stage.Cd? then CHDIR
      else match dangling
        case Nothing => COMMAND
        case OutDue => STDOUT
        case ErrDue => STDERR
        case InDue => STDIN
  }

  function StateOf(s: Sentence): ParserState {
    ParserState(
      ModeOf(s.last),
      if s.last.AtBegin? then None else Some(StageNode(s.last.stage)),
      if s.last.AtBegin? then EnvOf(s.last.envs) else map[],
      DoneNodes(s.done))
  }

  /** A command with one more item, and whether the item may still be added. */
  function Grown(command: Command, item: Item): Command {
    match item
    case Word(text) => command.(argv := command.argv + [text])
    case Out(file) => command.(stdout := StdoutFile(file))
    case Err(file) => command.(stderr := StderrFile(file))
    case ErrToOut => command.(stderr := StderrToStdout)
    case In(file) => command.(stdin := Some(file))
  }

  function SimpleCommand(envs: seq<string>, name: string, items: seq<Item>): Command {
    Command(name, [name] + Words(items), StdinOf(items), StdoutOf(items), StderrOf(items), EnvOf(envs))
  }

  lemma {:induction false} ItemAdded(envs: seq<string>, name: string, items: seq<Item>, item: Item)
    ensures ItemsTokens(items + [item]) == ItemsTokens(items) + ItemTokens(item)
    ensures SimpleCommand(envs, name, items + [item]) == Grown(SimpleCommand(envs, name, items), item)
    ensures ValidItems(items + [item]) <==> ValidItems(items) && MayAdd(items, item)
  {
    assert (items + [item])[..|items|] == items;
  }

  lemma {:induction false} EnvAdded(envs: seq<string>, token: string)
    requires ValidEnvs(envs) && EnvMatch(token).Some?
    ensures ValidEnvs(envs + [token])
    ensures EnvOf(envs + [token]) == EnvOf(envs)[EnvMatch(token).value.0 := EnvMatch(token).value.1]
  {
    assert (envs + [token])[..|envs|] == envs;
  }

  lemma {:induction false} EnvEmpty(envs: seq<string>)
    requires ValidEnvs(envs)
    ensures EnvOf(envs) == map[] <==> envs == []
  {
    if envs != [] {
      var (name, value) := EnvMatch(envs[|envs| - 1]).value;
      assert name in EnvOf(envs);
    }
  }

  lemma {:induction false} StageClosed(s: Sentence, op: Operator)
    requires Valid(s) && s.last.InStage? && s.last.dangling.Nothing? && MayFollow(s.last.stage, op)
    ensures var t := Sentence(s.done + [(s.last.stage, op)], AtBegin([]));
      && Valid(t) && Tokens(t) == Tokens(s) + [OperatorToken(op)]
      && var nodes := DoneNodes(s.done) + [NodeBefore(s.last.stage, op), OperatorNode(op)];
      StateOf(t) == ParserState(BEGIN, None, map[], nodes)
  {
    hide ValidStage, MayFollow, NodeBefore, StageTokens, Words;
    var more := s.done + [(s.last.stage, op)];
    assert more[..|s.done|] == s.done;
    assert DoneTokens(more) == DoneTokens(s.done) + (StageTokens(s.last.stage) + [OperatorToken(op)]);
    assert Tokens(Sentence(more, AtBegin([]))) == DoneTokens(more);
  }

  lemma {:induction false} Regroup<T>(a: seq<T>, b: seq<T>, c: seq<T>, d: seq<T>, e: seq<T>)
    ensures a + ((b + (c + (d + e))) + []) == (a + ((b + c) + d)) + e
  {
  }

  /** A stage whose item list has just been completed by `token`. */
  lemma {:induction false} ItemClosed(done: seq<(Stage, Operator)>, envs: seq<string>, name: string, items: seq<Item>,
      item: Item,
                   dangling: Dangling, token: string)
    requires ItemTokens(item) == DanglingTokens(dangling) + [token]
    ensures Tokens(Sentence(done, InStage(Simple(envs, name, items + [item]), Nothing))) ==
            Tokens(Sentence(done, InStage(Simple(envs, name, items), dangling))) + [token]
  {
    var before, after := Simple(envs, name, items), Simple(envs, name, items + [item]);
    ItemAdded(envs, name, items, item);
    assert StageTokens(after) == (envs + [name]) + (ItemsTokens(items) + (DanglingTokens(dangling) + [token]));
    assert StageTokens(before) == (envs + [name]) + ItemsTokens(items);
    Regroup(DoneTokens(done), envs + [name], ItemsTokens(items), DanglingTokens(dangling), [token]);
  }

  /** `t` is `s` with one token more, both as text and as the parser reads it. */
  ghost predicate Reads(s: Sentence, token: string, t: Sentence) {
    Valid(t) && Tokens(t) == Tokens(s) + [token] && Step(StateOf(s), token) == Some(StateOf(t))
  }

  /** Every accepted token leads from the state of one legal sentence to that of a longer one. */
  lemma {:induction false} ReadBegin(s: Sentence, token: string) returns (t: Sentence)
    requires Valid(s) && s.last.AtBegin? && Step(StateOf(s), token).Some?
    ensures Reads(s, token, t)
  {
    if EnvMatch(token).Some? {
      t := ReadEnv(s, token);
    } else if token == "cd" {
      EnvEmpty(s.last.envs);
      t := ReadCdWord(s, token);
    } else {
      t := ReadName(s, token);
    }
  }

  lemma {:induction false} ReadEnv(s: Sentence, token: string) returns (t: Sentence)
    requires Valid(s) && s.last.AtBegin? && EnvMatch(token).Some?
    ensures Reads(s, token, t)
  {
    EnvAdded(s.last.envs, token);
    t := s.(last := AtBegin(s.last.envs + [token]));
  }

  lemma {:induction false} ReadCdWord(s: Sentence, token: string) returns (t: Sentence)
    requires Valid(s) && s.last == AtBegin([]) && token == "cd"
    ensures Reads(s, token, t)
  {
    t := s.(last := InStage(Cd([]), Nothing));
    assert PartialTokens(t.last) == ["cd"];
  }

  lemma {:induction false} ReadName(s: Sentence, token: string) returns (t: Sentence)
    requires Valid(s) && s.last.AtBegin? && token != "cd" && EnvMatch(token).None?
    ensures Reads(s, token, t)
  {
    t := s.(last := InStage(Simple(s.last.envs, token, []), Nothing));
    assert PartialTokens(t.last) == s.last.envs + [token];
    assert [token] + Words([]) == [token];
  }

  lemma {:induction false} ReadCd(s: Sentence, token: string) returns (t: Sentence)
    requires Valid(s) && s.last.InStage? && s.last.stage.Cd? && Step(StateOf(s), token).Some?
    ensures Reads(s, token, t)
  {
    var dirs := s.last.stage.dirs;
    if token == "&&" {
      StageClosed(s, AndOp);
      t := Sentence(s.done + [(s.last.stage, AndOp)], AtBegin([]));
    } else {
      t := s.(last := InStage(Cd([token]), Nothing));
      assert PartialTokens(t.last) == PartialTokens(s.last) + [token];
    }
  }

  lemma {:induction false} ReadItem(s: Sentence, item: Item, token: string) returns (t: Sentence)
    requires Valid(s) && s.last.InStage? && s.last.stage.Simple?
    requires ItemTokens(item) == DanglingTokens(s.last.dangling) + [token]
    requires MayAdd(s.last.stage.items, item)
    ensures Valid(t) && Tokens(t) == Tokens(s) + [token]
    ensures t == Sentence(s.done, InStage(s.last.stage.(items := s.last.stage.items + [item]), Nothing))
    ensures StateOf(t) == WithCommand(StateOf(s), Grown(StageNode(s.last.stage).command, item))
  {
    var Simple(envs, name, items) := s.last.stage;
    ItemAdded(envs, name, items, item);
    ItemClosed(s.done, envs, name, items, item, s.last.dangling, token);
    t := s.(last := InStage(Simple(envs, name, items + [item]), Nothing));
  }

  lemma {:induction false} ReadFile(s: Sentence, token: string) returns (t: Sentence)
    requires Valid(s) && s.last.InStage? && !s.last.dangling.Nothing? && Step(StateOf(s), token).Some?
    ensures Reads(s, token, t)
  {
    hide Tokens, DoneTokens, DoneNodes, ValidDone, ValidItems, EnvOf, EnvMatch, Words, StdinOf, StdoutOf, StderrOf,
        KindOf;
    match s.last.dangling
    case OutDue => t := ReadItem(s, Out(token), token);
    case ErrDue => t := ReadItem(s, Err(token), token);
    case InDue => t := ReadItem(s, In(token), token);
  }

  lemma {:induction false} ReadOperator(s: Sentence, op: Operator, token: string) returns (t: Sentence)
    requires Valid(s) && s.last.InStage? && s.last.stage.Simple? && s.last.dangling.Nothing?
    requires token == OperatorToken(op)
    requires op.PipeOp? ==> StageNode(s.last.stage).command.stdout == StdoutInherited
    ensures Valid(t) && Tokens(t) == Tokens(s) + [token]
    ensures StateOf(t) == Committed(StateOf(s).(current := Some(NodeBefore(s.last.stage, op))), OperatorNode(op))
  {
    StageClosed(s, op);
    t := Sentence(s.done + [(s.last.stage, op)], AtBegin([]));
  }

  lemma {:induction false} ReadArrow(s: Sentence, dangling: Dangling, token: string) returns (t: Sentence)
    requires Valid(s) && s.last.InStage? && s.last.stage.Simple? && s.last.dangling.Nothing?
    requires DanglingTokens(dangling) == [token]
    ensures Valid(t) && Tokens(t) == Tokens(s) + [token]
    ensures StateOf(t) == StateOf(s).(mode := ModeOf(InStage(s.last.stage, dangling)))
  {
    t := s.(last := InStage(s.last.stage, dangling));
    assert StageTokens(s.last.stage) + [] == StageTokens(s.last.stage);
  }

  lemma {:induction false} ReadCommand(s: Sentence, token: string) returns (t: Sentence)
    requires Valid(s) && s.last.InStage? && s.last.stage.Simple? && s.last.dangling.Nothing?
    requires Step(StateOf(s), token).Some?
    ensures Reads(s, token, t)
  {
    hide Tokens, DoneTokens, DoneNodes, ValidDone, ValidItems, EnvOf, EnvMatch, Words, StdinOf, StdoutOf, StderrOf;
    match KindOf(token)
    case OutKind => t := ReadArrow(s, OutDue, token);
    case ErrKind => t := ReadArrow(s, ErrDue, token);
    case InKind => t := ReadArrow(s, InDue, token);
    case PipeKind => t := ReadOperator(s, PipeOp, token);
    case AndKind => t := ReadOperator(s, AndOp, token);
    case OrKind => t := ReadOperator(s, OrOp, token);
    case ErrToOutKind => t := ReadItem(s, ErrToOut, token);
    case Plain => t := ReadItem(s, Word(token), token);
  }

  lemma {:induction false} Read(s: Sentence, token: string) returns (t: Sentence)
    requires Valid(s) && Step(StateOf(s), token).Some?
    ensures Reads(s, token, t)
  {
    if s.last.AtBegin? {
      t := ReadBegin(s, token);
    } else if s.last.stage.Cd? {
      t := ReadCd(s, token);
    } else if s.last.dangling.Nothing? {
      t := ReadCommand(s, token);
    } else {
      t := ReadFile(s, token);
    }
  }

  /* ----- and back: every legal sentence is what some accepted tokens read as ----- */

  lemma {:induction false} UnreadEnv(t: Sentence) returns (s: Sentence, token: string)
    requires Valid(t) && t.last.AtBegin? && t.last.envs != []
    ensures Valid(s) && Tokens(t) == Tokens(s) + [token] && Step(StateOf(s), token) == Some(StateOf(t))
  {
    hide EnvMatch, ValidDone, DoneNodes, DoneTokens;
    var front := t.last.envs[..|t.last.envs| - 1];
    token := t.last.envs[|t.last.envs| - 1];
    s := t.(last := AtBegin(front));
    assert t.last.envs == front + [token];
    EnvAdded(front, token);
  }

  lemma {:induction false} UnreadOperator(t: Sentence) returns (s: Sentence, token: string)
    requires Valid(t) && t.last == AtBegin([]) && t.done != []
    ensures Valid(s) && Tokens(t) == Tokens(s) + [token] && Step(StateOf(s), token) == Some(StateOf(t))
  {
    var front := t.done[..|t.done| - 1];
    var (stage, op) := t.done[|t.done| - 1];
    token := OperatorToken(op);
    s := Sentence(front, InStage(stage, Nothing));
    assert t.done == front + [(stage, op)];
    StageClosed(s, op);
    StepsByOperator(s, op);
  }

  lemma {:induction false} OperatorKind(op: Operator)
    ensures KindOf(OperatorToken(op)) == match op case PipeOp => PipeKind case AndOp => AndKind case OrOp => OrKind
  {
  }

  lemma {:induction false} StepsByOperator(s: Sentence, op: Operator)
    requires Valid(s) && s.last.InStage? && s.last.dangling.Nothing? && MayFollow(s.last.stage, op)
    ensures Step(StateOf(s), OperatorToken(op)) ==
            Some(Committed(StateOf(s).(current := Some(NodeBefore(s.last.stage, op))), OperatorNode(op)))
  {
    hide DoneNodes, ValidDone, ValidItems, ValidEnvs, EnvOf, EnvMatch, Words, StdinOf, StdoutOf, StderrOf, KindOf;
    OperatorKind(op);
  }

  /** An item is its last token behind the redirection operator it may begin with. */
  function DueBefore(item: Item): Dangling {
    match item
    case Out(_) => OutDue
    case Err(_) => ErrDue
    case In(_) => InDue
    case _ => Nothing
  }

  function LastToken(item: Item): string {
    match item
    case Word(text) => text
    case ErrToOut => "2>&1"
    case _ => item.file
  }

  lemma {:induction false} UnreadItem(t: Sentence) returns (s: Sentence, token: string)
    requires Valid(t) && t.last.InStage? && t.last.stage.Simple? && t.last.dangling.Nothing? && t.last.stage.items != []
    ensures Valid(s) && Tokens(t) == Tokens(s) + [token] && Step(StateOf(s), token) == Some(StateOf(t))
  {
    var Simple(envs, name, items) := t.last.stage;
    var front, item := items[..|items| - 1], items[|items| - 1];
    assert items == front + [item];
    s := t.(last := InStage(Simple(envs, name, front), DueBefore(item)));
    token := LastToken(item);
    StepsByItem(s, item);
    var t' := ReadItem(s, item, token);
    assert t' == t;
  }

  lemma {:induction false} StepsByItem(s: Sentence, item: Item)
    requires Valid(s) && s.last.InStage? && s.last.stage.Simple? && s.last.dangling == DueBefore(item)
    requires MayAdd(s.last.stage.items, item)
    ensures Step(StateOf(s), LastToken(item)) ==
            Some(WithCommand(StateOf(s), Grown(StageNode(s.last.stage).command, item)))
  {
    hide DoneNodes, ValidDone, EnvOf, EnvMatch, Words;
    match item
    case Word(text) => assert KindOf(text).Plain?;
    case ErrToOut => assert KindOf("2>&1").ErrToOutKind?;
    case _ =>
  }

  lemma {:induction false} UnreadCd(t: Sentence) returns (s: Sentence, token: string)
    requires Valid(t) && t.last.InStage? && t.last.stage.Cd?
    ensures Valid(s) && Tokens(t) == Tokens(s) + [token] && Step(StateOf(s), token) == Some(StateOf(t))
  {
    var dirs := t.last.stage.dirs;
    if dirs == [] {
      s, token := t.(last := AtBegin([])), "cd";
      assert PartialTokens(t.last) == ["cd"];
    } else {
      s, token := t.(last := InStage(Cd([]), Nothing)), dirs[0];
      assert PartialTokens(t.last) == PartialTokens(s.last) + [token];
    }
  }

  lemma {:induction false} UnreadName(t: Sentence) returns (s: Sentence, token: string)
    requires Valid(t) && t.last.InStage? && t.last.stage.Simple? && t.last.stage.items == [] && t.last.dangling.Nothing?
    ensures Valid(s) && Tokens(t) == Tokens(s) + [token] && Step(StateOf(s), token) == Some(StateOf(t))
  {
    s, token := t.(last := AtBegin(t.last.stage.envs)), t.last.stage.name;
    assert PartialTokens(t.last) == t.last.stage.envs + [token];
    assert [token] + Words([]) == [token];
  }

  lemma {:induction false} UnreadArrow(t: Sentence) returns (s: Sentence, token: string)
    requires Valid(t) && t.last.InStage? && !t.last.dangling.Nothing?
    ensures Valid(s) && Tokens(t) == Tokens(s) + [token] && Step(StateOf(s), token) == Some(StateOf(t))
  {
    hide DoneNodes, DoneTokens, ValidDone, ValidItems, ValidEnvs, EnvOf, EnvMatch, Words, StdinOf, StdoutOf, StderrOf;
    s := t.(last := InStage(t.last.stage, Nothing));
    token := DanglingTokens(t.last.dangling)[0];
    assert StageTokens(t.last.stage) + [] == StageTokens(t.last.stage);
  }

  lemma {:induction false} Unread(t: Sentence) returns (s: Sentence, token: string)
    requires Valid(t) && (t.last == AtBegin([]) ==> t.done != [])
    ensures Valid(s) && Tokens(t) == Tokens(s) + [token] && Step(StateOf(s), token) == Some(StateOf(t))
  {
    match t.last
    case AtBegin(envs) =>
      if envs != [] {
        s, token := UnreadEnv(t);
      } else {
        s, token := UnreadOperator(t);
      }
    case InStage(stage, dangling) =>
      if stage.Cd? {
        s, token := UnreadCd(t);
      } else if !dangling.Nothing? {
        s, token := UnreadArrow(t);
      } else if stage.items == [] {
        s, token := UnreadName(t);
      } else {
        s, token := UnreadItem(t);
      }
  }

  lemma {:induction false} EmptySentence()
    ensures var t := Sentence([], AtBegin([])); Valid(t) && Tokens(t) == [] && StateOf(t) == START
  {
  }

  /** Every legal sentence is accepted token by token. */
  lemma {:induction false} SentenceState(t: Sentence)
    requires Valid(t)
    ensures StateAfter(Tokens(t)) == Some(StateOf(t))
    decreases |Tokens(t)|
  {
    if t == Sentence([], AtBegin([])) {
      EmptySentence();
    } else {
      var s, token := Unread(t);
      assert Tokens(t)[..|Tokens(t)| - 1] == Tokens(s);
      SentenceState(s);
    }
  }

  /** Whatever is accepted reads as a legal sentence. */
  lemma {:induction false} StateSentence(tokens: seq<string>) returns (t: Sentence)
    requires StateAfter(tokens).Some?
    ensures Valid(t) && Tokens(t) == tokens && StateAfter(tokens) == Some(StateOf(t))
  {
    if tokens == [] {
      t := Sentence([], AtBegin([]));
      EmptySentence();
    } else {
      var front, token := tokens[..|tokens| - 1], tokens[|tokens| - 1];
      assert tokens == front + [token];
      var s := StateSentence(front);
      t := Read(s, token);
    }
  }

  lemma {:induction false} SentenceParsed(t: Sentence, tokens: seq<string>, pipeline: seq<Node>)
    requires Valid(t) && Tokens(t) == tokens && Meaning(t) == Some(pipeline)
    ensures Parsed(tokens) == Some(pipeline)
  {
    SentenceState(t);
  }

  /** `parse` accepts exactly the legal sentences that end in a stage, and returns what they mean. */
  lemma {:induction false} ParsedIff(tokens: seq<string>, pipeline: seq<Node>)
    ensures Parsed(tokens) == Some(pipeline) <==>
            exists t :: Valid(t) && Tokens(t) == tokens && Meaning(t) == Some(pipeline)
  {
    if Parsed(tokens) == Some(pipeline) {
      var t := StateSentence(tokens);
      assert Meaning(t) == Some(pipeline);
    }
    if t :| Valid(t) && Tokens(t) == tokens && Meaning(t) == Some(pipeline) {
      SentenceParsed(t, tokens, pipeline);
    }
  }
}
