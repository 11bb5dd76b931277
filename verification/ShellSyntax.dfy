/** The nodes of a parsed command line in waf-tools/shellcmd.py, and the sentences that read as them. */
module ShellSyntax {
  import opened Options

  datatype Stdout = StdoutInherited | StdoutPipe | StdoutFile(file: string)
  datatype Stderr = StderrInherited | StderrToStdout | StderrFile(file: string)

  /** `envVars` is empty where the source holds `None`. */
  datatype Command = Command(name: string, argv: seq<string>, stdin: Option<string>, stdout: Stdout, stderr: Stderr,
                             envVars: map<string, string>)

  datatype Node = Cmd(command: Command) | Chdir(dir: Option<string>) | Pipe | And | Or

  /* ----- tokens ----- */

  /** What a token is to a command: one of seven operators, or a plain word. */
  datatype Kind = OutKind | ErrKind | ErrToOutKind | InKind | PipeKind | AndKind | OrKind | Plain

  function KindOf(token: string): Kind {
    if token == ">" then OutKind
    else if token == "2>" then ErrKind
    else if token == "2>&1" then ErrToOutKind
    else if token == "<" then InKind
    else if token == "|" then PipeKind
    else if token == "&&" then AndKind
    else if token == "||" then OrKind
    else Plain
  }

  predicate IsNameChar(c: char) {
    'a' <= c <= 'z' || 'A' <= c <= 'Z' || '0' <= c <= '9' || c == '_'
  }

  /** ASCII white space, as the regular expression class of non-spaces leaves it out. */
  predicate IsSpace(c: char) {
    c == ' ' || '\t' <= c <= '\r' || '\U{1C}' <= c <= '\U{1F}'
  }

  function FirstEquals(token: string): (i: nat)
    ensures i <= |token| && (i < |token| ==> token[i] == '=') && forall j :: 0 <= j < i ==> token[j] != '='
  {
    if token == [] || token[0] == '=' then 0 else 1 + FirstEquals(token[1..])
  }

  predicate AllNameChars(s: string) {
    s == "" || (IsNameChar(s[0]) && AllNameChars(s[1..]))
  }

  predicate NoSpaces(s: string) {
    s == "" || (!IsSpace(s[|s| - 1]) && NoSpaces(s[..|s| - 1]))
  }

  predicate IsName(s: string) {
    s != "" && AllNameChars(s)
  }

  predicate IsValue(s: string) {
    s != "" && NoSpaces(s)
  }

  /** The pattern for `NAME=value`.  As `$` does, it looks past one newline at the very end. */
  function EnvMatch(token: string): Option<(string, string)> {
    var e := FirstEquals(token);
    if e == |token| then None
    else
      var name, rest := token[..e], token[e + 1..];
      var value := if rest != [] && rest[|rest| - 1] == '\n' then rest[..|rest| - 1] else rest;
      if IsName(name) && IsValue(value) then Some((name, value)) else None
  }

  /* ----- sentences: every way of writing a pipeline down ----- */

  datatype Item = Word(text: string) | Out(file: string) | Err(file: string) | ErrToOut | In(file: string)

  datatype Stage = Simple(envs: seq<string>, name: string, items: seq<Item>) | Cd(dirs: seq<string>)

  datatype Operator = PipeOp | AndOp | OrOp

  /** A redirection operator whose file name has not come yet. */
  datatype Dangling = Nothing | OutDue | ErrDue | InDue

  /** Where a left-to-right reading stands: among assignments, in a command, or in a `cd`. */
  datatype Partial = AtBegin(envs: seq<string>) | InStage(stage: Stage, dangling: Dangling)

  /** The stages read so far with the operator behind each, and the one being read. */
  datatype Sentence = Sentence(done: seq<(Stage, Operator)>, last: Partial)

  function ItemTokens(item: Item): seq<string> {
    match item
    case Word(text) => [text]
    case Out(file) => [">", file]
    case Err(file) => ["2>", file]
    case ErrToOut => ["2>&1"]
    case In(file) => ["<", file]
  }

  function ItemsTokens(items: seq<Item>): seq<string> {
    if items == [] then [] else ItemsTokens(items[..|items| - 1]) + ItemTokens(items[|items| - 1])
  }

  function StageTokens(stage: Stage): seq<string> {
    match stage
    case Simple(envs, name, items) => envs + [name] + ItemsTokens(items)
    case Cd(dirs) => ["cd"] + dirs
  }

  function OperatorToken(op: Operator): string {
    match op
    case PipeOp => "|"
    case AndOp => "&&"
    case OrOp => "||"
  }

  function DoneTokens(done: seq<(Stage, Operator)>): seq<string> {
    if done == [] then []
    else
      var (stage, op) := done[|done| - 1];
      DoneTokens(done[..|done| - 1]) + (StageTokens(stage) + [OperatorToken(op)])
  }

  function DanglingTokens(dangling: Dangling): seq<string> {
    match dangling
    case Nothing => []
    case OutDue => [">"]
    case ErrDue => ["2>"]
    case InDue => ["<"]
  }

  function PartialTokens(last: Partial): seq<string> {
    match last
    case AtBegin(envs) => envs
    case InStage(stage, dangling) => StageTokens(stage) + DanglingTokens(dangling)
  }

  function Tokens(s: Sentence): seq<string> {
    DoneTokens(s.done) + PartialTokens(s.last)
  }

  /* ----- which sentences are legal ----- */

  predicate ValidEnvs(envs: seq<string>) {
    envs == [] || (ValidEnvs(envs[..|envs| - 1]) && EnvMatch(envs[|envs| - 1]).Some?)
  }

  /** Each stream is redirected at most once; a bare word is not an operator.  A file name may be any
      token, even one that reads as an operator elsewhere. */
  predicate ValidItems(items: seq<Item>) {
    items == [] || (ValidItems(items[..|items| - 1]) && MayAdd(items[..|items| - 1], items[|items| - 1]))
  }

  predicate MayAdd(items: seq<Item>, item: Item) {
    match item
    case Word(text) => KindOf(text).Plain?
    case Out(_) => StdoutOf(items) == StdoutInherited
    case Err(_) => StderrOf(items) == StderrInherited
    case ErrToOut => StderrOf(items) == StderrInherited
    case In(_) => StdinOf(items) == None
  }

  predicate ValidStage(stage: Stage) {
    match stage
    case Simple(envs, name, items) => ValidEnvs(envs) && name != "cd" && EnvMatch(name).None? && ValidItems(items)
    case Cd(dirs) => dirs == [] || (|dirs| == 1 && dirs[0] != "&&")
  }

  /** An operator may follow: only `&&` a `cd`, and no pipe a stage whose output is already redirected. */
  predicate MayFollow(stage: Stage, op: Operator) {
    && (stage.Cd? ==> op.AndOp?)
    && (stage.Simple? && op.PipeOp? ==> StdoutOf(stage.items) == StdoutInherited)
  }

  predicate ValidPartial(last: Partial) {
    match last
    case AtBegin(envs) => ValidEnvs(envs)
    case InStage(stage, dangling) => ValidStage(stage) && (stage.Cd? ==> dangling.Nothing?)
  }

  predicate ValidDone(done: seq<(Stage, Operator)>) {
    done == [] ||
    var last := done[|done| - 1];
    ValidDone(done[..|done| - 1]) && ValidStage(last.0) && MayFollow(last.0, last.1)
  }

  predicate Valid(s: Sentence) {
    ValidDone(s.done) && ValidPartial(s.last)
  }

  /* ----- what they mean ----- */

  function Words(items: seq<Item>): seq<string> {
    if items == [] then []
    else Words(items[..|items| - 1]) + if items[|items| - 1].Word? then [items[|items| - 1].text] else []
  }

  function StdinOf(items: seq<Item>): Option<string> {
    if items == [] then None
    else if items[|items| - 1].In? then Some(items[|items| - 1].file)
    else StdinOf(items[..|items| - 1])
  }

  function StdoutOf(items: seq<Item>): Stdout {
    if items == [] then StdoutInherited
    else if items[|items| - 1].Out? then StdoutFile(items[|items| - 1].file)
    else StdoutOf(items[..|items| - 1])
  }

  function StderrOf(items: seq<Item>): Stderr {
    if items == [] then StderrInherited
    else if items[|items| - 1].Err? then StderrFile(items[|items| - 1].file)
    else if items[|items| - 1].ErrToOut? then StderrToStdout
    else StderrOf(items[..|items| - 1])
  }

  /** A later assignment to the same variable wins. */
  function EnvOf(envs: seq<string>): map<string, string> {
    if envs == [] then map[]
    else
      match EnvMatch(envs[|envs| - 1])
      case None => EnvOf(envs[..|envs| - 1])
      case Some((name, value)) => EnvOf(envs[..|envs| - 1])[name := value]
  }

  function StageNode(stage: Stage): Node {
    match stage
    case Simple(envs, name, items) =>
      Cmd(Command(name, [name] + Words(items), StdinOf(items), StdoutOf(items), StderrOf(items), EnvOf(envs)))
    case Cd(dirs) => Chdir(if dirs == [] then None else Some(dirs[0]))
  }

  function OperatorNode(op: Operator): Node {
    match op
    case PipeOp => Pipe
    case AndOp => And
    case OrOp => Or
  }

  /** A stage before a pipe writes into it. */
  function NodeBefore(stage: Stage, op: Operator): Node {
    match StageNode(stage)
    case Cmd(command) => Cmd(if op.PipeOp? then command.(stdout := StdoutPipe) else command)
    case node => node
  }

  function DoneNodes(done: seq<(Stage, Operator)>): seq<Node> {
    if done == [] then []
    else
      var (stage, op) := done[|done| - 1];
      DoneNodes(done[..|done| - 1]) + [NodeBefore(stage, op), OperatorNode(op)]
  }

  /** The pipeline a whole sentence denotes; one that stops among assignments denotes none. */
  function Meaning(s: Sentence): Option<seq<Node>> {
    if s.last.AtBegin? then None else Some(DoneNodes(s.done) + [StageNode(s.last.stage)])
  }
}
