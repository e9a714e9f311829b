/** The interactive front end of `chat_loop`: what one input line asks
    for, and how `/prompt` arguments are read. */
module ChatInput {
  import opened Wrappers
  import opened Strings
  import opened OrderedMaps
  import Routing
  import Registration

  /** What one input line asks the chatbot to do */
  datatype Command =
    | Skip                                              // blank line
    | Quit
    | ReadResource(uri: string)                         // `@topic`
    | ListPrompts                                       // `/prompts`
    | PromptUsage                                       // `/prompt` with no name
    | RunPrompt(name: string, args: OrderedMap<string>) // `/prompt name k=v ...`
    | UnknownCommand(command: string)                   // any other `/word`
    | Query(text: string)                               // everything else

  /** The URI an `@topic` line reads; `@folders` is spelled out separately
      in the chatbot but lands on the same URI. */
  function ResourceUri(topic: string): (uri: string)
    ensures uri == Routing.PapersScheme + topic
  {
    if topic == "folders" then "papers://folders" else Routing.PapersScheme + topic
  }

  // -----------------------------------------------------------------------
  // `/prompt` arguments

  /** One argument token: a token containing `=` assigns the text after its
      first `=` to the text before it; any other token is ignored. */
  function ArgStep(args: OrderedMap<string>, token: string): OrderedMap<string> {
    if '=' in token then
      var kv := SplitOnce(token, '=');
      Put(args, kv.0, kv.1)
    else args
  }

  /** The `for arg in parts[2:]` loop, starting from the arguments so far */
  function ParseArgsFrom(args: OrderedMap<string>, tokens: seq<string>): OrderedMap<string>
    decreases |tokens|
  {
    if tokens == [] then args else ParseArgsFrom(ArgStep(args, tokens[0]), tokens[1..])
  }

  /** The parsed arguments form a dict in which every key holds the value
      of its last assignment, and nothing else is present. */
  function ParseArgs(tokens: seq<string>): (args: OrderedMap<string>)
    ensures UniqueKeys(args)
    ensures forall k :: Get(args, k) == LastAssigned(tokens, k)
  {
    ParseArgsFromUnique([], tokens);
    forall k ensures Get(ParseArgsFrom([], tokens), k) == LastAssigned(tokens, k) {
      ParseArgsFromMeaning([], tokens, k);
    }
    ParseArgsFrom([], tokens)
  }

  /** Reference meaning of the arguments: the value given by the last token
      that assigns `k`, if any does. */
  function LastAssigned(tokens: seq<string>, k: string): Option<string> {
    if tokens == [] then None
    else
      var t := tokens[|tokens| - 1];
      if '=' in t && SplitOnce(t, '=').0 == k then Some(SplitOnce(t, '=').1)
      else LastAssigned(tokens[..|tokens| - 1], k)
  }

  lemma {:induction false} LastAssignedCons(t: string, ts: seq<string>, k: string)
    ensures LastAssigned([t] + ts, k) ==
      if LastAssigned(ts, k).Some? then LastAssigned(ts, k)
      else if '=' in t && SplitOnce(t, '=').0 == k then Some(SplitOnce(t, '=').1)
      else None
    decreases |ts|
  {
    if ts == [] {
      assert ([t] + ts)[..0] == [];
    } else {
      var n := |ts| - 1;
      assert ([t] + ts)[..|ts|] == [t] + ts[..n];
      LastAssignedCons(t, ts[..n], k);
    }
  }

  lemma {:induction false} ParseArgsFromMeaning(args: OrderedMap<string>, tokens: seq<string>, k: string)
    ensures Get(ParseArgsFrom(args, tokens), k) ==
      if LastAssigned(tokens, k).Some? then LastAssigned(tokens, k) else Get(args, k)
    decreases |tokens|
  {
    if tokens != [] {
      var t := tokens[0];
      ParseArgsFromMeaning(ArgStep(args, t), tokens[1..], k);
      assert tokens == [t] + tokens[1..];
      LastAssignedCons(t, tokens[1..], k);
    }
  }

  lemma {:induction false} ParseArgsFromUnique(args: OrderedMap<string>, tokens: seq<string>)
    requires UniqueKeys(args)
    ensures UniqueKeys(ParseArgsFrom(args, tokens))
    decreases |tokens|
  {
    if tokens != [] {
      ParseArgsFromUnique(ArgStep(args, tokens[0]), tokens[1..]);
    }
  }

  /** The token `k=v` */
  function Assignment(k: string, v: string): string {
    k + "=" + v
  }

  function Assignments(m: OrderedMap<string>): (ts: seq<string>)
    ensures |ts| == |m|
  {
    seq(|m|, i requires 0 <= i < |m| => Assignment(m[i].0, m[i].1))
  }

  lemma {:induction false} PutNewKey(m: OrderedMap<string>, k: string, v: string)
    requires k !in Keys(m)
    ensures Put(m, k, v) == m + [(k, v)]
  {
    if m != [] {
      assert m == [m[0]] + m[1..];
      KeysCons(m[0], m[1..]);
      PutNewKey(m[1..], k, v);
      assert Put(m, k, v) == [m[0]] + Put(m[1..], k, v);
      assert [m[0]] + (m[1..] + [(k, v)]) == m + [(k, v)];
    }
  }

  lemma AssignmentsCons(m: OrderedMap<string>)
    requires m != []
    ensures Assignments(m) == [m[0].0 + ['='] + m[0].1] + Assignments(m[1..])
  {
    assert Assignments(m)[1..] == Assignments(m[1..]);
  }

  /** Under distinct keys, the first key of `m` is not among those before it */
  lemma FreshKey(acc: OrderedMap<string>, m: OrderedMap<string>)
    requires m != [] && Distinct(Keys(acc + m))
    ensures m[0].0 !in Keys(acc)
  {
    assert Keys(acc + m)[|acc|] == m[0].0;
    assert forall i :: 0 <= i < |acc| ==> Keys(acc + m)[i] == Keys(acc)[i];
  }

  lemma {:induction false} ParseAssignmentsFrom(acc: OrderedMap<string>, m: OrderedMap<string>)
    requires forall i :: 0 <= i < |m| ==> '=' !in m[i].0
    requires Distinct(Keys(acc + m))
    ensures ParseArgsFrom(acc, Assignments(m)) == acc + m
    decreases |m|
  {
    if m != [] {
      var k, v := m[0].0, m[0].1;
      var acc' := acc + [(k, v)];
      SplitOnceOfJoin(k, '=', v);
      AssignmentsCons(m);
      FreshKey(acc, m);
      PutNewKey(acc, k, v);
      assert ArgStep(acc, k + ['='] + v) == acc';
      assert acc' + m[1..] == acc + m;
      ParseAssignmentsFrom(acc', m[1..]);
    } else {
      assert acc + m == acc;
    }
  }

  /** Writing a dict out as `k=v` tokens and parsing them gives the same
      dict back, order included, when no key contains `=`. */
  lemma ParseAssignments(m: OrderedMap<string>)
    requires UniqueKeys(m)
    requires forall i :: 0 <= i < |m| ==> '=' !in m[i].0
    ensures ParseArgs(Assignments(m)) == m
  {
    assert [] + m == m;
    ParseAssignmentsFrom([], m);
  }

  // -----------------------------------------------------------------------
  // Classifying a line

  /** `chat_loop` on one raw input line, checked in the chatbot's order on
      the stripped line: blank, `quit` in any case, `@topic`, `/command`,
      and otherwise a query for the model. */
  function Classify(line: string): (c: Command)
    ensures c.Skip? <==> AllSpace(line)
    ensures c.ReadResource? ==> StartsWith(c.uri, Routing.PapersScheme)
    ensures c.RunPrompt? ==> IsWord(c.name) && UniqueKeys(c.args)
    ensures c.UnknownCommand? ==> c.command != [] && c.command[0] == '/' && c.command != "/prompt" && c.command != "/prompts"
    ensures var q := Strip(line);
      c.Query? <==> q != [] && AsciiLower(q) != "quit" && q[0] != '@' && q[0] != '/'
    ensures c.Query? ==> c.text == Strip(line)
  {
    Interpret(Strip(line))
  }

  /** The checks of `chat_loop` on an already stripped line */
  function Interpret(q: string): (c: Command)
    requires Trimmed(q)
    ensures c.Skip? <==> q == []
    ensures c.Quit? <==> q != [] && AsciiLower(q) == "quit"
    ensures c.ReadResource? <==> q != [] && AsciiLower(q) != "quit" && q[0] == '@'
    ensures c.ReadResource? ==> c.uri == Routing.PapersScheme + q[1..]
    ensures (c.ListPrompts? || c.PromptUsage? || c.RunPrompt? || c.UnknownCommand?) <==>
      q != [] && AsciiLower(q) != "quit" && q[0] == '/'
    ensures c.RunPrompt? ==> IsWord(c.name) && UniqueKeys(c.args)
    ensures c.UnknownCommand? ==> c.command != [] && c.command[0] == '/' && c.command != "/prompt" && c.command != "/prompts"
    ensures c.Query? <==> q != [] && AsciiLower(q) != "quit" && q[0] != '@' && q[0] != '/'
    ensures c.Query? ==> c.text == q
  {
    if q == [] then Skip
    else if AsciiLower(q) == "quit" then Quit
    else if q[0] == '@' then ReadResource(ResourceUri(q[1..]))
    else if q[0] == '/' then SlashCommand(Split(q))
    else Query(q)
  }

  /** The `/command` branch, on the whitespace-separated words of the line:
      the first word, lowered, picks the command. */
  function SlashCommand(parts: seq<string>): (c: Command)
    requires parts != [] && Words(parts) && parts[0][0] == '/'
    ensures c.ListPrompts? || c.PromptUsage? || c.RunPrompt? || c.UnknownCommand?
    ensures c.ListPrompts? <==> AsciiLower(parts[0]) == "/prompts"
    ensures c.PromptUsage? <==> AsciiLower(parts[0]) == "/prompt" && |parts| < 2
    ensures c.RunPrompt? ==>
      && AsciiLower(parts[0]) == "/prompt" && |parts| >= 2
      && c.name == parts[1] && IsWord(c.name)
      && UniqueKeys(c.args) && forall k :: Get(c.args, k) == LastAssigned(parts[2..], k)
    ensures c.UnknownCommand? <==> AsciiLower(parts[0]) != "/prompt" && AsciiLower(parts[0]) != "/prompts"
    ensures c.UnknownCommand? ==>
      && c.command == AsciiLower(parts[0])
      && c.command != [] && c.command[0] == '/' && c.command != "/prompt" && c.command != "/prompts"
  {
    var command := AsciiLower(parts[0]);
    if command == "/prompts" then ListPrompts
    else if command == "/prompt" then
      if |parts| < 2 then PromptUsage
      else RunPrompt(parts[1], ParseArgs(parts[2..]))
    else UnknownCommand(command)
  }

  /** Surrounding whitespace never changes what a line means */
  lemma ClassifyIgnoresPadding(p: string, line: string, q: string)
    requires AllSpace(p) && AllSpace(q)
    ensures Classify(p + line + q) == Classify(line)
  {
    StripPadding(p, line, q);
  }

  /** `quit`, in any mix of cases and with any padding, and nothing else, quits */
  lemma QuitInAnyCase(line: string)
    ensures Classify(line) == Quit <==> SameIgnoringCase(Strip(line), "quit")
  {
    LowerMatches(Strip(line), "quit");
  }

  /** `@topic` reads `papers://topic` */
  lemma ResourceShortcut(topic: string)
    requires topic == [] || !IsSpace(topic[|topic| - 1])
    ensures Classify("@" + topic) == ReadResource(Routing.PapersScheme + topic)
  {
    var line := "@" + topic;
    assert line[0] == '@' && line[1..] == topic;
    assert Trimmed(line);
    StripTrimmed(line);
    assert AsciiLower(line) != "quit" by {
      assert AsciiLower(line)[0] == '@';
    }
    assert Interpret(line) == ReadResource(ResourceUri(topic));
  }

  /** A word that matches a lower-case `/command` in any case lowers to it
      and starts with `/` itself. */
  lemma CommandWord(cmd: string, w: string)
    requires w != [] && w[0] == '/' && forall i :: 0 <= i < |w| ==> !('A' <= w[i] <= 'Z')
    requires SameIgnoringCase(cmd, w)
    ensures AsciiLower(cmd) == w && cmd != [] && cmd[0] == '/'
  {
    LowerMatches(cmd, w);
  }

  /** A line of words starting with `/`, separated by any runs of
      whitespace, is handled by the `/command` branch on exactly those
      words. */
  lemma SlashLine(ws: seq<string>, seps: seq<string>)
    requires ws != [] && |seps| == |ws| - 1
    requires Words(ws) && Separators(seps) && ws[0][0] == '/'
    ensures Classify(JoinWith(ws, seps)) == SlashCommand(ws)
  {
    var line := JoinWith(ws, seps);
    JoinWithTrimmed(ws, seps);
    assert line[0] == '/';
    assert AsciiLower(line) != "quit" by {
      assert AsciiLower(line)[0] == LowerChar('/') == '/';
    }
    StripTrimmed(line);
    assert Classify(line) == Interpret(line);
    assert Interpret(line) == SlashCommand(Split(line));
    SplitJoinWith(ws, seps);
  }

  /** `/prompt name k1=v1 k2=v2 ...`, the command word in any case and the
      words separated by any whitespace, runs the named prompt with the
      parsed arguments. */
  lemma PromptCommand(cmd: string, name: string, tokens: seq<string>, seps: seq<string>)
    requires SameIgnoringCase(cmd, "/prompt")
    requires Words([cmd, name] + tokens)
    requires Separators(seps) && |seps| == |tokens| + 1
    ensures Classify(JoinWith([cmd, name] + tokens, seps)) == RunPrompt(name, ParseArgs(tokens))
  {
    var ws := [cmd, name] + tokens;
    CommandWord(cmd, "/prompt");
    assert ws[0] == cmd && ws[1] == name && ws[2..] == tokens;
    SlashLine(ws, seps);
  }

  /** `/prompt` with no name is a usage error, whatever the case of the word */
  lemma PromptWithoutName(cmd: string)
    requires SameIgnoringCase(cmd, "/prompt")
    ensures Classify(cmd) == PromptUsage
  {
    CommandWord(cmd, "/prompt");
    assert Words([cmd]);
    assert JoinWith([cmd], []) == cmd;
    SlashLine([cmd], []);
  }

  /** `/prompts`, in any case and whatever follows it, lists the prompts */
  lemma ListPromptsCommand(cmd: string, rest: seq<string>, seps: seq<string>)
    requires SameIgnoringCase(cmd, "/prompts")
    requires Words([cmd] + rest)
    requires Separators(seps) && |seps| == |rest|
    ensures Classify(JoinWith([cmd] + rest, seps)) == ListPrompts
  {
    PromptsWord(cmd);
    ListPromptsLine(cmd, rest, seps);
  }

  lemma PromptsWord(cmd: string)
    requires SameIgnoringCase(cmd, "/prompts")
    ensures AsciiLower(cmd) == "/prompts" && cmd != [] && cmd[0] == '/'
  {
    CommandWord(cmd, "/prompts");
  }

  lemma ListPromptsLine(cmd: string, rest: seq<string>, seps: seq<string>)
    requires AsciiLower(cmd) == "/prompts" && cmd != [] && cmd[0] == '/'
    requires Words([cmd] + rest)
    requires Separators(seps) && |seps| == |rest|
    ensures Classify(JoinWith([cmd] + rest, seps)) == ListPrompts
  {
    var ws := [cmd] + rest;
    assert ws[0] == cmd;
    SlashLine(ws, seps);
  }

  /** Any other `/word` is an unknown command, reported as the lowered word */
  lemma UnknownCommandWord(cmd: string, rest: seq<string>, seps: seq<string>)
    requires IsWord(cmd) && cmd[0] == '/'
    requires AsciiLower(cmd) != "/prompt" && AsciiLower(cmd) != "/prompts"
    requires Words([cmd] + rest)
    requires Separators(seps) && |seps| == |rest|
    ensures Classify(JoinWith([cmd] + rest, seps)) == UnknownCommand(AsciiLower(cmd))
  {
    var ws := [cmd] + rest;
    assert ws[0] == cmd;
    SlashLine(ws, seps);
  }

  /** End to end: an `@topic` line finds a session whenever any `papers://`
      resource is registered, even if `topic` names none of them, and the
      read still asks for the URI built from `topic`. */
  lemma ShortcutAlwaysFindsPapers(sessions: OrderedMap<Registration.SessionId>, topic: string, i: nat)
    requires topic == [] || !IsSpace(topic[|topic| - 1])
    requires i < |sessions| && StartsWith(sessions[i].0, Routing.PapersScheme)
    ensures var c := Classify("@" + topic);
      && c.ReadResource?
      && var r := Routing.ResolveResource(sessions, c.uri);
         r.Some? && r.value.uri == Routing.PapersScheme + topic
  {
    ResourceShortcut(topic);
    var uri := Routing.PapersScheme + topic;
    assert StartsWith(uri, Routing.PapersScheme);
  }
}
