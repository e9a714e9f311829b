/** Routing: how the chatbot finds the session for a tool call, a resource
    read or a prompt, and how it walks one model response's content blocks. */
module Routing {
  import opened Wrappers
  import opened Strings
  import opened OrderedMaps
  import opened Registration

  /** The URI prefix that enables the resource fallback */
  const PapersScheme: string := "papers://"

  // -----------------------------------------------------------------------
  // Tools

  /** Where a tool call goes and the name the server is asked for */
  datatype ToolTarget = ToolTarget(session: SessionId, localName: string)

  /** The name sent to the server after an exact hit: the text after the
      first underscore, or the whole name when it has none. */
  function LocalName(name: string): (r: string)
    ensures '_' !in name ==> r == name
    ensures '_' in name ==> |r| < |name| && r == name[|name| - |r|..]
    ensures '_' in name ==> name[|name| - |r| - 1] == '_' && '_' !in name[..|name| - |r| - 1]
  {
    if '_' in name then
      var parts := SplitOnce(name, '_');
      assert name == parts.0 + ("_" + parts.1);
      parts.1
    else name
  }

  /** `i` is the first entry, in insertion order, whose key ends with `_name` */
  predicate FirstSuffixMatch(sessions: OrderedMap<SessionId>, name: string, i: int) {
    && 0 <= i < |sessions|
    && EndsWith(sessions[i].0, "_" + name)
    && forall j :: 0 <= j < i ==> !EndsWith(sessions[j].0, "_" + name)
  }

  /** What a correct tool lookup returns, stated without the search: on an
      exact key, its session and the local name; otherwise a target exactly
      when some key ends with `_` + name, namely the first such key's
      session, with the name passed on as given. */
  ghost predicate ToolResolution(sessions: OrderedMap<SessionId>, name: string, r: Option<ToolTarget>) {
    match Get(sessions, name)
    case Some(s) => r == Some(ToolTarget(s, LocalName(name)))
    case None =>
      && (r.Some? <==> exists i :: 0 <= i < |sessions| && EndsWith(sessions[i].0, "_" + name))
      && (r.Some? ==>
            && r.value.localName == name
            && exists i :: FirstSuffixMatch(sessions, name, i) && sessions[i].1 == r.value.session)
  }

  /** Tool lookup in `process_query`: an exact key first; otherwise the first
      key in insertion order, of any class, that ends with `_` + name. */
  function ResolveTool(sessions: OrderedMap<SessionId>, name: string): (r: Option<ToolTarget>)
    ensures ToolResolution(sessions, name, r)
  {
    match Get(sessions, name)
    case Some(s) => Some(ToolTarget(s, LocalName(name)))
    case None =>
      match FirstWhere(sessions, k => EndsWith(k, "_" + name))
      case Some(i) =>
        assert FirstSuffixMatch(sessions, name, i);
        Some(ToolTarget(sessions[i].1, name))
      case None => None
  }

  /** For a server name without an underscore, the exact hit recovers the
      tool's own name. */
  lemma LocalNameOfNamespaced(server: string, tool: string)
    requires '_' !in server
    ensures LocalName(Namespaced(server, tool)) == tool
  {
    SplitOnceOfJoin(server, '_', tool);
    assert Namespaced(server, tool) == server + ['_'] + tool;
  }

  /** For a server name with an underscore, the exact hit sends the server
      a name that is not the tool's own: the split happens inside the server
      name. */
  lemma LocalNameLosesTool(server: string, tool: string)
    requires '_' in server
    ensures LocalName(Namespaced(server, tool)) != tool
  {
    var name := Namespaced(server, tool);
    var r := LocalName(name);
    var u :| 0 <= u < |server| && server[u] == '_';
    assert name[u] == '_';
    var cut := |name| - |r| - 1;
    assert forall x :: 0 <= x < cut ==> name[..cut][x] == name[x];
    assert cut <= u;
    assert |r| > |tool|;
  }

  /** End to end: once start-up is over, a tool whose namespaced key no
      later server overwrote resolves to its own server's session under its
      own name, provided the server name has no underscore. */
  lemma ResolveRegisteredTool(servers: seq<Server>, i: nat, j: nat)
    requires i < |servers| && servers[i].connection.Connected?
    requires j < |Listed(servers[i].connection.found.tools)|
    requires '_' !in servers[i].name
    requires var key := Namespaced(servers[i].name, Listed(servers[i].connection.found.tools)[j].name);
             forall n :: i < n < |servers| ==> key !in ProducedKeys(servers[n])
    ensures var tool := Listed(servers[i].connection.found.tools)[j].name;
            ResolveTool(Startup(servers).sessions, Namespaced(servers[i].name, tool))
              == Some(ToolTarget(servers[i].connection.session, tool))
  {
    var s := servers[i];
    var ts := Listed(s.connection.found.tools);
    var key := Namespaced(s.name, ts[j].name);
    ToolKeyAt(s.name, ts, j);
    assert key in ProducedKeys(s);
    LastWriterWins(servers, i, key);
    LocalNameOfNamespaced(s.name, ts[j].name);
  }

  /** Two servers offering `fetch`: the bare name goes to whichever was
      registered first, not to an ambiguity error. */
  lemma AmbiguousToolTakesFirst(a: SessionId, b: SessionId)
    ensures ResolveTool([("A_fetch", a), ("B_fetch", b)], "fetch") == Some(ToolTarget(a, "fetch"))
  {
    assert |"A_fetch"| == |"B_fetch"| == 7 != |"fetch"|;
    assert "A_fetch"[2..] == "fetch";
    FirstOfTwoSuffixes("A_fetch", "B_fetch", a, b, "fetch");
  }

  /** A prompt whose name ends in `_` + a tool's name, registered by a
      server that finished before the tool's server (say `quick_fetch`
      before `web` with the tool `fetch`): the bare tool name is captured
      by the prompt's key, so the tool call goes to the prompt's server. */
  lemma PromptKeyCapturesTool(first: string, p: SessionId, prompt: PromptInfo,
                              second: string, w: SessionId, tool: ToolInfo)
    requires EndsWith(prompt.name, "_" + tool.name) && prompt.name != Namespaced(second, tool.name)
    ensures var servers := [Server(first, Connected(p, Discovery(None, Some([prompt]), None))),
                            Server(second, Connected(w, Discovery(Some([tool]), None, None)))];
      ResolveTool(Startup(servers).sessions, tool.name) == Some(ToolTarget(p, tool.name))
  {
    PromptThenToolSessions(first, p, prompt, second, w, tool);
    FirstOfTwoSuffixes(prompt.name, Namespaced(second, tool.name), p, w, tool.name);
  }

  lemma PromptThenToolSessions(first: string, p: SessionId, prompt: PromptInfo,
                               second: string, w: SessionId, tool: ToolInfo)
    requires prompt.name != Namespaced(second, tool.name)
    ensures var servers := [Server(first, Connected(p, Discovery(None, Some([prompt]), None))),
                            Server(second, Connected(w, Discovery(Some([tool]), None, None)))];
      Startup(servers).sessions == [(prompt.name, p), (Namespaced(second, tool.name), w)]
  {
    var key := Namespaced(second, tool.name);
    var s0 := Server(first, Connected(p, Discovery(None, Some([prompt]), None)));
    var s1 := Server(second, Connected(w, Discovery(Some([tool]), None, None)));
    var servers := [s0, s1];
    assert servers[..1] == [s0];
    PromptServerAlone(s0, p, prompt);
    ToolServerAfter(Startup([s0]), s1, w, tool);
    assert Put([(prompt.name, p)], key, w) == [(prompt.name, p), (key, w)];
  }

  lemma PromptServerAlone(s: Server, p: SessionId, prompt: PromptInfo)
    requires s.connection == Connected(p, Discovery(None, Some([prompt]), None))
    ensures Startup([s]).sessions == [(prompt.name, p)]
  {
    assert [s][..0] == [];
    assert Startup([s]) == RegisterServer(Empty, s);
    assert PromptNames([prompt]) == [prompt.name];
    assert RegisterServer(Empty, s) == AddPrompts(Empty, p, [prompt]);
    assert [prompt.name][1..] == [];
    assert PutAll([], [prompt.name], p) == PutAll(Put([], prompt.name, p), [], p);
    assert Put([], prompt.name, p) == [(prompt.name, p)];
  }

  lemma ToolServerAfter(r: Registry, s: Server, w: SessionId, tool: ToolInfo)
    requires s.connection == Connected(w, Discovery(Some([tool]), None, None))
    ensures RegisterServer(r, s).sessions == Put(r.sessions, Namespaced(s.name, tool.name), w)
  {
    var key := Namespaced(s.name, tool.name);
    assert ToolKeys(s.name, [tool]) == [key];
    assert RegisterServer(r, s) == AddTools(r, s.name, w, [tool]);
    assert [key][1..] == [];
    assert PutAll(r.sessions, [key], w) == PutAll(Put(r.sessions, key, w), [], w);
  }

  /** With two keys that both end in `_name` and neither equal to it, the
      bare name resolves to the first key's session. */
  lemma FirstOfTwoSuffixes(k1: string, k2: string, a: SessionId, b: SessionId, name: string)
    requires k1 != name && k2 != name
    requires EndsWith(k1, "_" + name)
    ensures ResolveTool([(k1, a), (k2, b)], name) == Some(ToolTarget(a, name))
  {
    var sessions := [(k1, a), (k2, b)];
    var rest := [(k2, b)];
    assert sessions[1..] == rest && rest[1..] == [];
    assert Get(rest, name) == Get([], name) == None;
    assert Get(sessions, name) == None;
    var r := ResolveTool(sessions, name);
    var i :| FirstSuffixMatch(sessions, name, i) && sessions[i].1 == r.value.session;
    assert i == 0;
  }

  // -----------------------------------------------------------------------
  // Resources

  /** A resource read: the owning session, and the URI exactly as asked */
  datatype ResourceRead = ResourceRead(session: SessionId, uri: string)

  predicate FirstPrefixMatch(sessions: OrderedMap<SessionId>, prefix: string, i: int) {
    && 0 <= i < |sessions|
    && StartsWith(sessions[i].0, prefix)
    && forall j :: 0 <= j < i ==> !StartsWith(sessions[j].0, prefix)
  }

  /** `get_resource`: an exact key first; for a `papers://` URI that is not
      a key, the first `papers://` key in insertion order. The read always
      carries the URI that was asked for. */
  function ResolveResource(sessions: OrderedMap<SessionId>, uri: string): (r: Option<ResourceRead>)
    ensures r.Some? ==> r.value.uri == uri
    ensures Get(sessions, uri).Some? ==> r == Some(ResourceRead(Get(sessions, uri).value, uri))
    ensures r.Some? <==>
      || uri in Keys(sessions)
      || (StartsWith(uri, PapersScheme) && exists i :: 0 <= i < |sessions| && StartsWith(sessions[i].0, PapersScheme))
    ensures Get(sessions, uri).None? && r.Some? ==>
      exists i :: FirstPrefixMatch(sessions, PapersScheme, i) && sessions[i].1 == r.value.session
  {
    match Get(sessions, uri)
    case Some(s) => Some(ResourceRead(s, uri))
    case None =>
      if StartsWith(uri, PapersScheme) then
        match FirstWhere(sessions, k => StartsWith(k, PapersScheme))
        case Some(i) =>
          assert FirstPrefixMatch(sessions, PapersScheme, i);
          Some(ResourceRead(sessions[i].1, uri))
        case None => None
      else None
  }

  // -----------------------------------------------------------------------
  // Prompts

  /** A `get_prompt` request: the owning session, the prompt name and its arguments */
  datatype PromptCall = PromptCall(session: SessionId, name: string, args: OrderedMap<string>)

  /** `execute_prompt`: exact lookup only, no fallback of any kind */
  function ResolvePrompt(sessions: OrderedMap<SessionId>, name: string, args: OrderedMap<string>): (r: Option<PromptCall>)
    ensures r.Some? <==> name in Keys(sessions)
    ensures r.Some? ==> Get(sessions, name) == Some(r.value.session) && r.value.name == name && r.value.args == args
  {
    match Get(sessions, name)
    case Some(s) => Some(PromptCall(s, name, args))
    case None => None
  }

  /** End to end: once start-up is over, a prompt whose name no later
      server wrote is fetched from its own server's session, under its
      name and with the arguments given. */
  lemma ResolveRegisteredPrompt(servers: seq<Server>, i: nat, j: nat, args: OrderedMap<string>)
    requires i < |servers| && servers[i].connection.Connected?
    requires j < |Listed(servers[i].connection.found.prompts)|
    requires var name := Listed(servers[i].connection.found.prompts)[j].name;
             forall n :: i < n < |servers| ==> name !in ProducedKeys(servers[n])
    ensures var name := Listed(servers[i].connection.found.prompts)[j].name;
            ResolvePrompt(Startup(servers).sessions, name, args)
              == Some(PromptCall(servers[i].connection.session, name, args))
  {
    var s := servers[i];
    var ps := Listed(s.connection.found.prompts);
    PromptNameAt(ps, j);
    assert ps[j].name in ProducedKeys(s);
    LastWriterWins(servers, i, ps[j].name);
  }

  /** End to end: a resource URI no later server wrote is read from its own
      server's session, with the URI unchanged. */
  lemma ResolveRegisteredResource(servers: seq<Server>, i: nat, j: nat)
    requires i < |servers| && servers[i].connection.Connected?
    requires j < |Listed(servers[i].connection.found.resources)|
    requires var uri := Listed(servers[i].connection.found.resources)[j];
             forall n :: i < n < |servers| ==> uri !in ProducedKeys(servers[n])
    ensures var uri := Listed(servers[i].connection.found.resources)[j];
            ResolveResource(Startup(servers).sessions, uri)
              == Some(ResourceRead(servers[i].connection.session, uri))
  {
    var s := servers[i];
    var us := Listed(s.connection.found.resources);
    assert us[j] in ProducedKeys(s);
    LastWriterWins(servers, i, us[j]);
  }

  /** One item of a list-shaped prompt content: it has a `.text`, or it is
      rendered with `str()`. */
  datatype ContentItem = TextItem(text: string) | OtherItem(repr: string)

  /** The content of a prompt message: a plain string, a single object with
      a `.text`, or a list of items. */
  datatype PromptContent = Plain(s: string) | SingleText(text: string) | ItemList(items: seq<ContentItem>)

  function ItemText(item: ContentItem): string {
    match item
    case TextItem(t) => t
    case OtherItem(r) => r
  }

  function ItemTexts(items: seq<ContentItem>): (ts: seq<string>)
    ensures |ts| == |items|
  {
    seq(|items|, i requires 0 <= i < |items| => ItemText(items[i]))
  }

  /** The query text `execute_prompt` hands to the turn loop. A plain
      string passes through unchanged and a single text object gives its
      text; a list of items contributes every item's text and one space
      between neighbours, and an empty list gives the empty query. */
  function ContentText(c: PromptContent): (r: string)
    ensures c.Plain? ==> r == c.s
    ensures c.SingleText? ==> r == c.text
    ensures c.ItemList? && c.items == [] ==> r == ""
    ensures c.ItemList? && c.items != [] ==>
      |r| == SumLengths(ItemTexts(c.items)) + |c.items| - 1
  {
    match c
    case Plain(s) => s
    case SingleText(t) => t
    case ItemList(items) =>
      if items == [] then "" else JoinSpacesLength(ItemTexts(items)); JoinSpaces(ItemTexts(items))
  }

  /** The text of the first message of a `get_prompt` answer; nothing when
      the answer has no messages. */
  function PromptQuery(messages: seq<PromptContent>): (q: Option<string>)
    ensures q.Some? <==> messages != []
    ensures q.Some? ==> q.value == ContentText(messages[0])
  {
    if messages == [] then None else Some(ContentText(messages[0]))
  }

  /** Only the first message counts: whatever follows it is ignored */
  lemma PromptQueryFirst(c: PromptContent, rest: seq<PromptContent>)
    ensures PromptQuery([c] + rest) == Some(ContentText(c))
    ensures PromptQuery([c] + rest) == PromptQuery([c])
  {
    assert ([c] + rest)[0] == c;
  }

  /** A first message holding a plain string, or a single text object,
      becomes the query exactly as written, whatever follows it */
  lemma PromptQueryVerbatim(s: string, t: string, rest: seq<PromptContent>)
    ensures PromptQuery([Plain(s)] + rest) == Some(s)
    ensures PromptQuery([SingleText(t)] + rest) == Some(t)
  {
    PromptQueryFirst(Plain(s), rest);
    PromptQueryFirst(SingleText(t), rest);
  }

  lemma ItemTextsAppend(a: seq<ContentItem>, b: seq<ContentItem>)
    ensures ItemTexts(a + b) == ItemTexts(a) + ItemTexts(b)
  {
    assert forall i :: 0 <= i < |a + b| ==> ItemTexts(a + b)[i] == (ItemTexts(a) + ItemTexts(b))[i];
  }

  /** A one-item list gives that item's text unchanged, and two non-empty
      lists of items concatenate with exactly one space between them. */
  lemma ItemListJoin(a: seq<ContentItem>, b: seq<ContentItem>)
    requires a != [] && b != []
    ensures ContentText(ItemList([a[0]])) == ItemText(a[0])
    ensures ContentText(ItemList(a + b)) == ContentText(ItemList(a)) + " " + ContentText(ItemList(b))
  {
    ItemTextsAppend(a, b);
    JoinSpacesAppend(ItemTexts(a), ItemTexts(b));
  }

  /** The items of a list-shaped content are joined by single spaces: when
      each item's text is a non-empty word, splitting the query gives them
      back, and the query is exactly their lengths plus the separators. */
  lemma ItemListText(items: seq<ContentItem>)
    requires items != [] && Words(ItemTexts(items))
    ensures Split(ContentText(ItemList(items))) == ItemTexts(items)
    ensures |ContentText(ItemList(items))| == SumLengths(ItemTexts(items)) + |items| - 1
  {
    SplitJoinSpaces(ItemTexts(items));
    JoinSpacesLength(ItemTexts(items));
  }

  // -----------------------------------------------------------------------
  // One model response

  datatype Block = TextBlock(text: string) | ToolUseBlock(id: string, name: string, input: string)

  /** A dispatched tool call, correlated with the block that asked for it */
  datatype ToolCall = ToolCall(id: string, session: SessionId, localName: string, input: string)

  /** What walking one response produced: texts printed, calls issued, the
      name that could not be resolved (if any), and whether the turn loop
      asks the model again. */
  datatype WalkResult = WalkResult(texts: seq<string>, calls: seq<ToolCall>, missing: Option<string>, continues: bool)

  function ToolUses(blocks: seq<Block>): (us: seq<Block>)
    ensures forall i :: 0 <= i < |us| ==> us[i].ToolUseBlock?
  {
    if blocks == [] then []
    else if blocks[0].ToolUseBlock? then [blocks[0]] + ToolUses(blocks[1..])
    else ToolUses(blocks[1..])
  }

  function Texts(blocks: seq<Block>): seq<string> {
    if blocks == [] then []
    else if blocks[0].TextBlock? then [blocks[0].text] + Texts(blocks[1..])
    else Texts(blocks[1..])
  }

  /** The call a tool-use block turns into, given how names are resolved */
  function Dispatch(resolve: string -> Option<ToolTarget>, b: Block): Option<ToolCall>
    requires b.ToolUseBlock?
  {
    match resolve(b.name)
    case Some(t) => Some(ToolCall(b.id, t.session, t.localName, b.input))
    case None => None
  }

  /** The block loop of `process_query` for a given resolver: texts are
      emitted, tool uses are resolved and dispatched in order, and the first
      one that cannot be resolved ends the walk. */
  function Walk(resolve: string -> Option<ToolTarget>, blocks: seq<Block>): WalkResult {
    if blocks == [] then WalkResult([], [], None, false)
    else
      match blocks[0]
      case TextBlock(t) =>
        var rest := Walk(resolve, blocks[1..]);
        rest.(texts := [t] + rest.texts)
      case ToolUseBlock(id, name, input) =>
        match Dispatch(resolve, blocks[0])
        case None => WalkResult([], [], Some(name), true)
        case Some(call) =>
          var rest := Walk(resolve, blocks[1..]);
          rest.(calls := [call] + rest.calls, continues := true)
  }

  /** One model response routed against the registry: the model is asked
      again exactly when the response held a tool use; the calls answer the
      leading tool uses one by one, each with its block's id and input and
      the session and local name the tool name resolves to; when no name is
      missing every tool use is dispatched, and otherwise the missing name
      is that of the first tool use that resolves nowhere, and none after
      it is dispatched. */
  function RouteResponse(sessions: OrderedMap<SessionId>, blocks: seq<Block>): (r: WalkResult)
    ensures var uses := ToolUses(blocks);
      && (r.continues <==> uses != [])
      && |r.calls| <= |uses|
      && (forall i :: 0 <= i < |r.calls| ==>
            && r.calls[i].id == uses[i].id
            && r.calls[i].input == uses[i].input
            && ResolveTool(sessions, uses[i].name) == Some(ToolTarget(r.calls[i].session, r.calls[i].localName)))
      && (r.missing.None? ==> |r.calls| == |uses|)
      && (r.missing.Some? ==>
            && |r.calls| < |uses|
            && r.missing.value == uses[|r.calls|].name
            && ResolveTool(sessions, r.missing.value).None?)
  {
    var resolve := name => ResolveTool(sessions, name);
    WalkSpec(resolve, blocks);
    Walk(resolve, blocks)
  }

  /** The calls issued are the dispatches of the response's tool uses, in
      the order the model emitted them; on a name that resolves nowhere the
      walk stops there, so that tool use and every later one are dropped;
      and the model is asked again exactly when the response held a tool
      use, whether or not every one was resolved. */
  lemma {:induction false} WalkSpec(resolve: string -> Option<ToolTarget>, blocks: seq<Block>)
    ensures var r := Walk(resolve, blocks);
      var uses := ToolUses(blocks);
      && (r.continues <==> uses != [])
      && |r.calls| <= |uses|
      && (forall i :: 0 <= i < |r.calls| ==> Dispatch(resolve, uses[i]) == Some(r.calls[i]))
      && (r.missing.None? ==> |r.calls| == |uses| && r.texts == Texts(blocks))
      && (r.missing.Some? ==>
            && |r.calls| < |uses|
            && Dispatch(resolve, uses[|r.calls|]).None?
            && r.missing.value == uses[|r.calls|].name)
  {
    if blocks != [] {
      var b := blocks[0];
      var r := Walk(resolve, blocks[1..]);
      var uses := ToolUses(blocks[1..]);
      WalkSpec(resolve, blocks[1..]);
      match b
      case TextBlock(t) =>
        assert ToolUses(blocks) == uses;
        assert Texts(blocks) == [t] + Texts(blocks[1..]);
        assert Walk(resolve, blocks) == r.(texts := [t] + r.texts);
      case ToolUseBlock(id, name, input) =>
        assert ToolUses(blocks) == [b] + uses;
        match Dispatch(resolve, b)
        case None =>
          assert Walk(resolve, blocks) == WalkResult([], [], Some(name), true);
        case Some(call) =>
          var r' := r.(calls := [call] + r.calls, continues := true);
          assert Walk(resolve, blocks) == r';
          assert Texts(blocks) == Texts(blocks[1..]);
          assert forall i :: 1 <= i < |r'.calls| ==> r'.calls[i] == r.calls[i - 1] && ([b] + uses)[i] == uses[i - 1];
    }
  }

  /** A response whose tool uses all name registered keys is routed in full:
      one call per tool use, in order, each to the session stored under
      that exact name. */
  lemma RouteExactNames(sessions: OrderedMap<SessionId>, blocks: seq<Block>)
    requires forall i :: 0 <= i < |ToolUses(blocks)| ==> ToolUses(blocks)[i].name in Keys(sessions)
    ensures var r := RouteResponse(sessions, blocks);
      && r.missing.None?
      && |r.calls| == |ToolUses(blocks)|
      && forall i :: 0 <= i < |r.calls| ==>
           && r.calls[i].id == ToolUses(blocks)[i].id
           && Some(r.calls[i].session) == Get(sessions, ToolUses(blocks)[i].name)
           && r.calls[i].localName == LocalName(ToolUses(blocks)[i].name)
  {
    var resolve := name => ResolveTool(sessions, name);
    WalkSpec(resolve, blocks);
    var uses := ToolUses(blocks);
    assert forall i :: 0 <= i < |uses| ==> Dispatch(resolve, uses[i]).Some?;
  }
}
