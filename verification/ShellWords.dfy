/** `Pipeline.parse` of waf-tools/shellcmd.py seen from the tokens: what counts as an assignment, how one
    command is read, and how operators join what stands on their two sides. */
module ShellWords {
  import opened Options
  import opened ShellSyntax
  import opened ShellParser
  import opened ShellPrinter

  /* ----- assignments ----- */

  ghost predicate NameOnly(s: string) {
    forall i :: 0 <= i < |s| ==> 'a' <= s[i] <= 'z' || 'A' <= s[i] <= 'Z' || '0' <= s[i] <= '9' || s[i] == '_'
  }

  ghost predicate WithoutSpace(s: string) {
    forall i :: 0 <= i < |s| ==>
      s[i] !in {' ', '\t', '\n', '\U{0B}', '\U{0C}', '\r', '\U{1C}', '\U{1D}', '\U{1E}', '\U{1F}'}
  }

  lemma {:induction false} NameCharsIff(s: string)
    ensures AllNameChars(s) <==> NameOnly(s)
  {
    if s != "" {
      NameCharsIff(s[1..]);
      assert s == [s[0]] + s[1..];
    }
  }

  lemma {:induction false} SpaceIs(c: char)
    ensures IsSpace(c) <==> c in {' ', '\t', '\n', '\U{0B}', '\U{0C}', '\r', '\U{1C}', '\U{1D}', '\U{1E}', '\U{1F}'}
  {
  }

  lemma {:induction false} NoSpacesIff(s: string)
    ensures NoSpaces(s) <==> WithoutSpace(s)
  {
    hide IsSpace;
    if s != "" {
      NoSpacesIff(s[..|s| - 1]);
      SpaceIs(s[|s| - 1]);
      assert s == s[..|s| - 1] + [s[|s| - 1]];
    }
  }

  /** What `EnvMatch` looks at. */
  lemma {:induction false} EnvParts(token: string, name: string, rest: string)
    requires IsName(name) && token == name + "=" + rest
    ensures FirstEquals(token) == |name| && token[..|name|] == name && token[|name| + 1..] == rest
  {
    NameHasNoEquals(name);
    assert token[|name|] == '=';
    assert forall i :: 0 <= i < |name| ==> token[i] == name[i];
  }

  lemma {:induction false} ValueEnds(value: string)
    requires IsValue(value)
    ensures value[|value| - 1] != '\n' && (value + "\n")[..|value|] == value
  {
    assert IsSpace('\n');
  }

  lemma {:induction false} Assigns(token: string, name: string, value: string)
    requires IsName(name) && IsValue(value) && (token == name + "=" + value || token == name + "=" + value + "\n")
    ensures EnvMatch(token) == Some((name, value))
  {
    hide IsName, IsValue, FirstEquals;
    ValueEnds(value);
    var rest := if token == name + "=" + value then value else value + "\n";
    assert token == name + "=" + rest;
    EnvParts(token, name, rest);
  }

  lemma {:induction false} Assigned(token: string)
    requires EnvMatch(token).Some?
    ensures var (name, value) := EnvMatch(token).value;
      IsName(name) && IsValue(value) && (token == name + "=" + value || token == name + "=" + value + "\n")
  {
    hide IsName, IsValue;
    var e := FirstEquals(token);
    var rest := token[e + 1..];
    assert token == token[..e] + "=" + rest;
    if rest != "" && rest[|rest| - 1] == '\n' {
      assert rest == rest[..|rest| - 1] + "\n";
      assert token == token[..e] + "=" + rest[..|rest| - 1] + "\n";
    }
  }

  /** A token assigns to a variable exactly if it is a name, `=` and a value without white space, one newline
      at its end aside. */
  lemma {:induction false} EnvMatchIff(token: string, name: string, value: string)
    ensures EnvMatch(token) == Some((name, value)) <==>
            && name != "" && NameOnly(name) && value != "" && WithoutSpace(value)
            && (token == name + "=" + value || token == name + "=" + value + "\n")
  {
    NameCharsIff(name);
    NoSpacesIff(value);
    hide AllNameChars, NoSpaces, NameOnly, WithoutSpace, EnvMatch;
    if EnvMatch(token) == Some((name, value)) {
      Assigned(token);
    }
    if IsName(name) && IsValue(value) && (token == name + "=" + value || token == name + "=" + value + "\n") {
      Assigns(token, name, value);
    }
  }

  /* ----- one command ----- */

  /** Two items that redirect the same stream. */
  predicate SameStream(a: Item, b: Item) {
    || (a.In? && b.In?) || (a.Out? && b.Out?)
    || ((a.Err? || a.ErrToOut?) && (b.Err? || b.ErrToOut?))
  }

  ghost predicate NoneTwice(items: seq<Item>) {
    forall i, j :: 0 <= i < j < |items| ==> !SameStream(items[i], items[j])
  }

  ghost predicate PlainWords(items: seq<Item>) {
    forall i :: 0 <= i < |items| && items[i].Word? ==>
      items[i].text !in {">", "2>", "2>&1", "<", "|", "&&", "||"}
  }

  /** What the items of a command say of it. */
  ghost predicate Says(c: Command, items: seq<Item>) {
    && (forall i :: 0 <= i < |items| ==>
          match items[i]
          case Word(_) => true
          case In(file) => c.stdin == Some(file)
          case Out(file) => c.stdout == StdoutFile(file)
          case Err(file) => c.stderr == StderrFile(file)
          case ErrToOut => c.stderr == StderrToStdout)
    && ((forall i :: 0 <= i < |items| ==> !items[i].In?) ==> c.stdin == None)
    && ((forall i :: 0 <= i < |items| ==> !items[i].Out?) ==> c.stdout == StdoutInherited)
    && ((forall i :: 0 <= i < |items| ==> !items[i].Err? && !items[i].ErrToOut?) ==> c.stderr == StderrInherited)
  }

  /** The name and the words behind it, in order. */
  ghost function Argv(name: string, items: seq<Item>): seq<string> {
    if items == [] then [name]
    else
      match items[|items| - 1]
      case Word(text) => Argv(name, items[..|items| - 1]) + [text]
      case _ => Argv(name, items[..|items| - 1])
  }

  lemma {:induction false} StreamsOf(items: seq<Item>)
    ensures StdinOf(items) == None <==> forall i :: 0 <= i < |items| ==> !items[i].In?
    ensures StdoutOf(items) == StdoutInherited <==> forall i :: 0 <= i < |items| ==> !items[i].Out?
    ensures StderrOf(items) == StderrInherited <==>
            forall i :: 0 <= i < |items| ==> !items[i].Err? && !items[i].ErrToOut?
  {
    if items != [] {
      StreamsOf(items[..|items| - 1]);
      assert items == items[..|items| - 1] + [items[|items| - 1]];
    }
  }

  /** Items may be written one after the other exactly if no stream is redirected twice. */
  lemma {:induction false} ValidIff(items: seq<Item>)
    requires PlainWords(items)
    ensures ValidItems(items) <==> NoneTwice(items)
  {
    if items != [] {
      var front, last := items[..|items| - 1], items[|items| - 1];
      ValidIff(front);
      StreamsOf(front);
      LastTwice(items);
      hide ValidItems, NoneTwice, StdinOf, StdoutOf, StderrOf;
      ValidLast(items);
    }
  }

  lemma {:induction false} ValidLast(items: seq<Item>)
    requires items != []
    ensures ValidItems(items) <==>
            ValidItems(items[..|items| - 1]) && MayAdd(items[..|items| - 1], items[|items| - 1])
  {
  }

  lemma {:induction false} LastTwice(items: seq<Item>)
    requires items != []
    ensures var front, last := items[..|items| - 1], items[|items| - 1];
      NoneTwice(items) <==> NoneTwice(front) && forall i :: 0 <= i < |front| ==> !SameStream(front[i], last)
  {
    var n := |items| - 1;
    assert forall i :: 0 <= i < n ==> items[i] == items[..n][i];
  }

  lemma {:induction false} SaysOf(envs: seq<string>, name: string, items: seq<Item>)
    requires ValidItems(items)
    ensures Says(SimpleCommand(envs, name, items), items)
    ensures SimpleCommand(envs, name, items).argv == Argv(name, items)
  {
    StreamsOf(items);
    ArgvIs(name, items);
    forall i | 0 <= i < |items|
      ensures match items[i]
        case Word(_) => true
        case In(file) => StdinOf(items) == Some(file)
        case Out(file) => StdoutOf(items) == StdoutFile(file)
        case Err(file) => StderrOf(items) == StderrFile(file)
        case ErrToOut => StderrOf(items) == StderrToStdout
    {
      ItemCounts(items, i);
    }
  }

  lemma {:induction false} ArgvIs(name: string, items: seq<Item>)
    ensures [name] + Words(items) == Argv(name, items)
  {
    if items != [] {
      ArgvIs(name, items[..|items| - 1]);
      assert [name] + Words(items[..|items| - 1]) + [] == [name] + Words(items[..|items| - 1]);
    }
  }

  /** Each redirection among valid items is the one that counts. */
  lemma {:induction false} ItemCounts(items: seq<Item>, i: nat)
    requires ValidItems(items) && i < |items|
    ensures match items[i]
      case Word(_) => true
      case In(file) => StdinOf(items) == Some(file)
      case Out(file) => StdoutOf(items) == StdoutFile(file)
      case Err(file) => StderrOf(items) == StderrFile(file)
      case ErrToOut => StderrOf(items) == StderrToStdout
  {
    hide KindOf;
    if i < |items| - 1 {
      ItemCounts(items[..|items| - 1], i);
    }
  }

  /* ----- reading it ----- */

  lemma {:induction false} OneMoreToken(tokens: seq<string>, token: string)
    ensures StateAfter(tokens + [token]) ==
            match StateAfter(tokens) { case None => None case Some(s) => Step(s, token) }
  {
    assert (tokens + [token])[..|tokens|] == tokens;
  }

  lemma {:induction false} TwoMoreTokens(tokens: seq<string>, a: string, b: string)
    ensures tokens + [a, b] == tokens + [a] + [b]
  {
  }

  /** The tokens of a command. */
  function CommandTokens(envs: seq<string>, name: string, items: seq<Item>): seq<string> {
    envs + [name] + ItemsTokens(items)
  }

  function CommandSentence(envs: seq<string>, name: string, items: seq<Item>): Sentence {
    Sentence([], InStage(Simple(envs, name, items), Nothing))
  }

  lemma {:induction false} CommandSentenceIs(envs: seq<string>, name: string, items: seq<Item>)
    ensures Tokens(CommandSentence(envs, name, items)) == CommandTokens(envs, name, items)
    ensures StateOf(CommandSentence(envs, name, items)) ==
            ParserState(COMMAND, Some(Cmd(SimpleCommand(envs, name, items))), map[], [])
  {
    assert [] + (CommandTokens(envs, name, items) + []) == CommandTokens(envs, name, items);
  }

  ghost predicate MayName(envs: seq<string>, name: string) {
    (forall i :: 0 <= i < |envs| ==> EnvMatch(envs[i]).Some?) && name != "cd" && EnvMatch(name).None?
  }

  lemma {:induction false} EnvsValid(envs: seq<string>)
    requires forall i :: 0 <= i < |envs| ==> EnvMatch(envs[i]).Some?
    ensures ValidEnvs(envs)
  {
    hide EnvMatch;
    if envs != [] {
      EnvsValid(envs[..|envs| - 1]);
    }
  }

  /** Valid items are read one after the other; none is read behind one that is refused. */
  lemma {:induction false} ItemsState(envs: seq<string>, name: string, items: seq<Item>)
    requires MayName(envs, name) && PlainWords(items)
    ensures StateAfter(CommandTokens(envs, name, items)) ==
            if NoneTwice(items) then Some(ParserState(COMMAND, Some(Cmd(SimpleCommand(envs, name, items))), map[], []))
            else None
    decreases |items|
  {
    hide EnvMatch, StateAfter, Step, KindOf;
    ValidIff(items);
    if NoneTwice(items) {
      hide NoneTwice, ValidItems, PlainWords;
      EnvsValid(envs);
      SentenceState(CommandSentence(envs, name, items));
      CommandSentenceIs(envs, name, items);
    } else {
      NothingTwice();
      var front, last := items[..|items| - 1], items[|items| - 1];
      assert PlainWords(front);
      ItemsState(envs, name, front);
      ValidLast(items);
      ValidIff(front);
      CommandGrows(envs, name, items);
      hide NoneTwice, ValidItems, PlainWords, CommandTokens;
      RefusedItem(CommandTokens(envs, name, front), envs, name, front, last);
    }
  }

  lemma {:induction false} NothingTwice()
    ensures NoneTwice([])
  {
  }

  lemma {:induction false} CommandGrows(envs: seq<string>, name: string, items: seq<Item>)
    requires items != []
    ensures CommandTokens(envs, name, items) ==
            CommandTokens(envs, name, items[..|items| - 1]) + ItemTokens(items[|items| - 1])
  {
  }

  /** Behind tokens that were refused, or that leave the parser in a command to which the item may not be
      added, the item is refused. */
  lemma {:induction false} RefusedItem(tokens: seq<string>, envs: seq<string>, name: string, front: seq<Item>,
      item: Item)
    requires var s := StateAfter(tokens);
      s == None ||
      (s == Some(ParserState(COMMAND, Some(Cmd(SimpleCommand(envs, name, front))), map[], []))
       && !item.Word? && !MayAdd(front, item))
    ensures StateAfter(tokens + ItemTokens(item)) == None
  {
    hide StateAfter, EnvOf, Words, StdinOf, StdoutOf, StderrOf, EnvMatch;
    match item
    case Word(text) => OneMoreToken(tokens, text);
    case ErrToOut => OneMoreToken(tokens, "2>&1");
    case Out(file) =>
      OneMoreToken(tokens, ">");
      OneMoreToken(tokens + [">"], file);
      TwoMoreTokens(tokens, ">", file);
    case Err(file) =>
      OneMoreToken(tokens, "2>");
      OneMoreToken(tokens + ["2>"], file);
      TwoMoreTokens(tokens, "2>", file);
    case In(file) =>
      OneMoreToken(tokens, "<");
      OneMoreToken(tokens + ["<"], file);
      TwoMoreTokens(tokens, "<", file);
  }

  /** Assignments, a name and plain words with redirections between them are read exactly if no stream is
      redirected twice, and as one command that has what they say. */
  lemma {:induction false} CommandRead(envs: seq<string>, name: string, items: seq<Item>)
    requires MayName(envs, name) && PlainWords(items)
    ensures Parsed(CommandTokens(envs, name, items)).Some? <==> NoneTwice(items)
    ensures NoneTwice(items) ==> exists c ::
              && Parsed(CommandTokens(envs, name, items)) == Some([Cmd(c)])
              && c.name == name && c.argv == Argv(name, items) && Says(c, items) && c.envVars == EnvOf(envs)
  {
    hide MayName, PlainWords, NoneTwice, Says, Argv, StateAfter, CommandTokens;
    ItemsState(envs, name, items);
    if NoneTwice(items) {
      ValidIff(items);
      SaysOf(envs, name, items);
      assert [] + [Cmd(SimpleCommand(envs, name, items))] == [Cmd(SimpleCommand(envs, name, items))];
    }
  }

  /** The last assignment to a variable counts. */
  lemma {:induction false} LastAssignment(envs: seq<string>, i: nat)
    requires i < |envs| && EnvMatch(envs[i]).Some?
    requires forall j :: i < j < |envs| && EnvMatch(envs[j]).Some? ==>
               EnvMatch(envs[j]).value.0 != EnvMatch(envs[i]).value.0
    ensures EnvMatch(envs[i]).value.0 in EnvOf(envs)
    ensures EnvOf(envs)[EnvMatch(envs[i]).value.0] == EnvMatch(envs[i]).value.1
  {
    hide EnvMatch;
    if i < |envs| - 1 {
      LastAssignment(envs[..|envs| - 1], i);
    }
  }

  lemma {:induction false} OnlyAssigned(envs: seq<string>, k: string)
    requires k in EnvOf(envs)
    ensures exists i :: 0 <= i < |envs| && EnvMatch(envs[i]).Some? && EnvMatch(envs[i]).value.0 == k
  {
    hide EnvMatch;
    var n := |envs| - 1;
    if !(EnvMatch(envs[n]).Some? && EnvMatch(envs[n]).value.0 == k) {
      OnlyAssigned(envs[..n], k);
    }
  }

  /* ----- what operators join ----- */

  /** The state with nodes put in front of the list. */
  function Behind(front: seq<Node>, s: ParserState): ParserState {
    s.(pipeline := front + s.pipeline)
  }

  lemma {:induction false} StepBehind(front: seq<Node>, s: ParserState, token: string)
    ensures Step(Behind(front, s), token) ==
            match Step(s, token) { case None => None case Some(t) => Some(Behind(front, t)) }
  {
    hide EnvMatch, KindOf;
    if s.current.Some? {
      assert forall a: Node, b: Node {:trigger [a, b]} :: front + s.pipeline + [a, b] == front + (s.pipeline + [a, b]);
    }
  }

  /** Behind an operator, tokens are read as if nothing stood before them. */
  lemma {:induction false} RestRead(tokens: seq<string>, front: seq<Node>, rest: seq<string>)
    requires StateAfter(tokens) == Some(Behind(front, START))
    ensures StateAfter(tokens + rest) ==
            match StateAfter(rest) { case None => None case Some(t) => Some(Behind(front, t)) }
  {
    hide Step, Behind;
    if rest == [] {
      assert tokens + [] == tokens;
    } else {
      var n := |rest| - 1;
      RestRead(tokens, front, rest[..n]);
      assert tokens + rest == tokens + rest[..n] + [rest[n]];
      assert rest == rest[..n] + [rest[n]];
      hide StateAfter;
      OneMoreToken(tokens + rest[..n], rest[n]);
      OneMoreToken(rest[..n], rest[n]);
      if StateAfter(rest[..n]).Some? {
        StepBehind(front, StateAfter(rest[..n]).value, rest[n]);
      }
    }
  }

  lemma {:induction false} StillRefused(tokens: seq<string>, rest: seq<string>)
    requires StateAfter(tokens).None?
    ensures StateAfter(tokens + rest).None?
  {
    if rest == [] {
      assert tokens + [] == tokens;
    } else {
      var n := |rest| - 1;
      StillRefused(tokens, rest[..n]);
      hide StateAfter;
      OneMoreToken(tokens + rest[..n], rest[n]);
      assert tokens + rest == tokens + rest[..n] + [rest[n]];
    }
  }

  /** The list of the rest behind a front. */
  ghost function Joined(front: seq<Node>, rest: Option<seq<Node>>): Option<seq<Node>> {
    match rest case None => None case Some(nodes) => Some(front + nodes)
  }

  lemma {:induction false} RestParsed(tokens: seq<string>, front: seq<Node>, rest: seq<string>)
    requires StateAfter(tokens) == Some(Behind(front, START))
    ensures Parsed(tokens + rest) == Joined(front, Parsed(rest))
  {
    hide StateAfter;
    RestRead(tokens, front, rest);
    if StateAfter(rest).Some? && StateAfter(rest).value.current.Some? {
      var s := StateAfter(rest).value;
      assert front + s.pipeline + [s.current.value] == front + (s.pipeline + [s.current.value]);
    }
  }

  predicate HasOut(items: seq<Item>) {
    exists i :: 0 <= i < |items| && items[i].Out?
  }

  /** A command and an operator join what the command is read as, writing into the pipe if the operator is
      one, and what stands behind it; a command with redirected output takes no pipe. */
  lemma {:induction false} OperatorRead(envs: seq<string>, name: string, items: seq<Item>, op: Operator,
      rest: seq<string>)
    requires MayName(envs, name) && PlainWords(items) && NoneTwice(items)
    ensures var tokens, c := CommandTokens(envs, name, items) + [OperatorToken(op)], SimpleCommand(envs, name, items);
      var node := Cmd(if op == PipeOp then c.(stdout := StdoutPipe) else c);
      Parsed(tokens + rest) ==
      if op == PipeOp && HasOut(items) then None else Joined([node, OperatorNode(op)], Parsed(rest))
  {
    hide MayName, PlainWords, NoneTwice, StateAfter, CommandTokens, EnvMatch, Parsed, EnvOf, Words;
    ItemsState(envs, name, items);
    StreamsOf(items);
    var tokens := CommandTokens(envs, name, items);
    OneMoreToken(tokens, OperatorToken(op));
    OperatorKind(op);
    hide StdinOf, StdoutOf, StderrOf, KindOf;
    if StateAfter(tokens + [OperatorToken(op)]).Some? {
      var c := SimpleCommand(envs, name, items);
      var node := Cmd(if op == PipeOp then c.(stdout := StdoutPipe) else c);
      assert [] + [node, OperatorNode(op)] == [node, OperatorNode(op)] + [];
      RestParsed(tokens + [OperatorToken(op)], [node, OperatorNode(op)], rest);
    } else {
      StillRefused(tokens + [OperatorToken(op)], rest);
      RefusedParsed(tokens + [OperatorToken(op)] + rest);
    }
  }

  lemma {:induction false} RefusedParsed(tokens: seq<string>)
    requires StateAfter(tokens).None?
    ensures Parsed(tokens).None?
  {
  }

  lemma {:induction false} CdBegun()
    ensures StateAfter(["cd"]) == Some(ParserState(CHDIR, Some(Chdir(None)), map[], []))
  {
    assert EnvMatch("cd") == None;
    OneMoreToken([], "cd");
    assert [] + ["cd"] == ["cd"];
  }

  lemma {:induction false} CdState(dirs: seq<string>)
    requires forall i :: 0 <= i < |dirs| ==> dirs[i] != "&&"
    ensures StateAfter(["cd"] + dirs) ==
            if |dirs| > 1 then None
            else Some(ParserState(CHDIR, Some(Chdir(if dirs == [] then None else Some(dirs[0]))), map[], []))
  {
    hide StateAfter;
    if dirs == [] {
      CdBegun();
      assert ["cd"] + [] == ["cd"];
    } else {
      var n := |dirs| - 1;
      CdState(dirs[..n]);
      OneMoreToken(["cd"] + dirs[..n], dirs[n]);
      assert ["cd"] + dirs == ["cd"] + dirs[..n] + [dirs[n]];
    }
  }

  /** A `cd` takes one directory at most, and `&&` joins it to what stands behind. */
  lemma {:induction false} CdRead(dirs: seq<string>, rest: seq<string>)
    requires forall i :: 0 <= i < |dirs| ==> dirs[i] != "&&"
    ensures var node := Chdir(if dirs == [] then None else Some(dirs[0]));
      && Parsed(["cd"] + dirs) == (if |dirs| > 1 then None else Some([node]))
      && Parsed(["cd"] + dirs + ["&&"] + rest) == (if |dirs| > 1 then None else Joined([node, And], Parsed(rest)))
  {
    hide StateAfter, KindOf, EnvMatch;
    var tokens := ["cd"] + dirs;
    CdState(dirs);
    OneMoreToken(tokens, "&&");
    if |dirs| > 1 {
      StillRefused(tokens + ["&&"], rest);
    } else {
      var node := Chdir(if dirs == [] then None else Some(dirs[0]));
      assert [] + [node] == [node];
      assert [] + [node, And] == [node, And] + [];
      RestParsed(tokens + ["&&"], [node, And], rest);
    }
  }

  /** No assignment may stand before a `cd`. */
  lemma {:induction false} NoEnvBeforeCd(envs: seq<string>, rest: seq<string>)
    requires envs != [] && forall i :: 0 <= i < |envs| ==> EnvMatch(envs[i]).Some?
    ensures Parsed(envs + ["cd"] + rest) == None
  {
    var s := Sentence([], AtBegin(envs));
    EnvsValid(envs);
    SentenceState(s);
    assert Tokens(s) == envs by {
      assert [] + envs == envs;
    }
    EnvEmpty(envs);
    assert EnvMatch("cd") == None;
    hide StateAfter, EnvMatch;
    OneMoreToken(envs, "cd");
    StillRefused(envs + ["cd"], rest);
  }
}
