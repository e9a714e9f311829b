# MCP chatbot: registry, routing and command line

This project models, in Dafny, the core of the `MCP_ChatBot` client in
`mcp_project/mcp_chatbot.py`. The client connects to a set of MCP servers
and records what each one offers. It then routes the language model's tool
calls, `@topic` resource reads and `/prompt` commands to the server session
that owns them. The model covers:

- **Registration** (`registration.dfy`). `connect_to_server` discovers a
  server's tools, prompts and resources. Start-up runs it for every server.
  The `sessions` dict is a single insertion-ordered map:
  - a tool is stored under `server_tool`;
  - a prompt is stored under its bare name;
  - a resource is stored under its URI.

  The three classes therefore share one key space, and a later write
  replaces the owner of an existing key in place. The tool catalog handed
  to the model and the prompt list are appended to alongside the map.
- **Routing** (`routing.dfy`):
  - tool lookup: exact key, then the first key ending in `_name`;
  - the local name a call is forwarded under;
  - resource lookup: exact key, then the first `papers://` key;
  - prompt lookup: exact only;
  - the text extracted from a prompt's first message;
  - the walk over one model response. It dispatches tool uses in order and
    stops at the first name that resolves nowhere.
- **Command line** (`chat_input.dfy`). `chat_loop` classifies one input
  line as one of:
  - blank;
  - `quit` in any case;
  - `@topic`;
  - `/prompts`, `/prompt`, or another `/command`;
  - a query.

  The `key=value` arguments of `/prompt` are parsed into a dict.
- **Support** (`strings.dfy`, `ordered_maps.dfy`, `wrappers.dfy`):
  - the Python `str` operations used: `isspace`, `strip`, `split()`,
    `" ".join`, `lower`, `startswith`/`endswith`, `split(c, 1)`;
  - a Python dict as a sequence of unique-key pairs;
  - an `Option` type.

Sessions are opaque identifiers (`SessionId`). A server's connection
outcome and the answers to its three listings are inputs to the model. A
listing that raised is `None`. `asyncio.gather` runs the connection tasks
concurrently, and each task writes to the dict between its awaits (after
`list_tools`, `list_prompts` and `list_resources` at lines 45, 62 and 79).
The model chooses to apply each server's writes as one step and to order
the servers by a given sequence, standing for the order their tasks
reached those writes. Start-up is a fold over that sequence. The finer
interleaving is listed under "Left out".

Two behaviours are kept as the code has them, although the comments
around them suggest a narrower intent:

- **Several keys ending in `_name`.** The comment at line 161 speaks of
  finding "any session that has this tool". The loop takes the first key
  in insertion order that ends in `_name` and does not report an
  ambiguity (`AmbiguousToolTakesFirst`). That key need not be a tool's:
  a prompt or resource key with that ending captures the call
  (`PromptKeyCapturesTool`).
- **Server names containing `_`.** The comment at line 157 speaks of
  extracting "the original tool name". After an exact hit, the name sent to
  the server is the text after the *first* underscore of the namespaced
  key. For such a server it is not the tool's own name
  (`LocalNameLosesTool`). The model keeps this behaviour as written.
  `ResolveRegisteredTool` states the round trip for server names without
  an underscore.

## Model

| member | source | states |
|---|---|---|
| OrderedMaps.Get | mcp_project/mcp_chatbot.py:154 | `dict.get` finds a value exactly when the key has been stored |
| OrderedMaps.GetEntry | mcp_project/mcp_chatbot.py:23 | in a dict (unique keys) the value read under an entry's key is that entry's value |
| OrderedMaps.Put | mcp_project/mcp_chatbot.py:51 | `d[k] = v`: afterwards `k` reads `v` and every other key reads as before; an existing key keeps its position, a new key is appended at the end, and keys stay unique |
| OrderedMaps.PutAllKeys | mcp_project/mcp_chatbot.py:48-51 | storing a run of keys keeps every earlier key in its place, adds exactly the stored keys and keeps keys unique |
| OrderedMaps.FirstWhere | mcp_project/mcp_chatbot.py:162-166 | the scan with `break` finds the first entry, in insertion order, whose key passes the test, and finds none exactly when no key passes |
| Strings.Strip | mcp_project/mcp_chatbot.py:265 | the stripped line neither starts nor ends with whitespace, and is empty exactly when the line is all whitespace |
| Strings.StripSlice | mcp_project/mcp_chatbot.py:265 | the stripped line is the slice of the input right after its leading whitespace, followed only by whitespace |
| Strings.StripPadding | mcp_project/mcp_chatbot.py:265 | whitespace added on either side of a line does not change what `strip` returns |
| Strings.Split | mcp_project/mcp_chatbot.py:285 | `split()` yields non-empty whitespace-free tokens, and none exactly when the line is all whitespace |
| Strings.SplitJoinSpaces | mcp_project/mcp_chatbot.py:285 | `split()` recovers the tokens of a single-space join of non-empty whitespace-free tokens |
| Strings.SplitRuns | mcp_project/mcp_chatbot.py:285 | `split()` skips a whole run of leading whitespace and takes a maximal run of non-whitespace as one token |
| Strings.SplitJoinWith | mcp_project/mcp_chatbot.py:285 | `split()` recovers the tokens of a line whose tokens are separated by arbitrary non-empty runs of whitespace |
| Strings.JoinSpacesAppend | mcp_project/mcp_chatbot.py:247 | a `" ".join` of two non-empty runs of parts is the two joins with exactly one space between |
| Strings.JoinSpacesLength | mcp_project/mcp_chatbot.py:247 | a `" ".join` is as long as its parts plus one separator between neighbours |
| Strings.LowerMatches | mcp_project/mcp_chatbot.py:269 | lowering a word gives a lower-case target exactly when each character is the target's or its capital |
| Strings.SplitOnce | mcp_project/mcp_chatbot.py:301 | `split('=', 1)` gives the text before the first `=` (which holds no `=`) and the text after it, which rejoin to the token |
| Strings.SplitOnceOfJoin | mcp_project/mcp_chatbot.py:159 | splitting `before + c + after` at its first `c` gives back `before` and `after` when `before` holds no `c` |
| Registration.CatalogEntryParts | mcp_project/mcp_chatbot.py:52-56 | a catalog entry's name is the server name, `_` and the tool name; its description is `[server] ` followed by the rendered description; its schema is the tool's |
| Registration.RegisterServer | mcp_project/mcp_chatbot.py:25-104 | a failed connection records nothing; otherwise every key the server lists is owned by its session, every other key keeps its owner, and the catalog and prompt list gain exactly the server's entries in listing order |
| Registration.RegisterServerKeys | mcp_project/mcp_chatbot.py:43-88 | registering keeps existing keys in place, adds exactly the server's keys and keeps the dict's keys unique |
| Registration.StartupValid | mcp_project/mcp_chatbot.py:106-120 | after start-up, however the servers' keys overlap, every key of `sessions` occurs once |
| Registration.LastWriterWins | mcp_project/mcp_chatbot.py:114-120 | a key ends up owned by the last server, in completion order, that wrote it, whatever class it was written as |
| Registration.UnwrittenKeyAbsent | mcp_project/mcp_chatbot.py:114-120 | a key no server wrote is absent after start-up |
| Registration.CatalogSize | mcp_project/mcp_chatbot.py:48-56 | the tool catalog has one entry per listed tool of every connected server, colliding names included |
| Registration.CatalogContents | mcp_project/mcp_chatbot.py:48-56 | after start-up the tool catalog is exactly every server's entries in registration order, and every name it shows the language model is a key of `sessions`, so a call under that name takes the exact lookup at line 154 |
| Registration.ListingFailureIsolated | mcp_project/mcp_chatbot.py:43-88 | a listing that raised has the same effect as an empty listing and leaves the other classes of the server untouched |
| Registration.SharedKeyFollowsCompletionOrder | mcp_project/mcp_chatbot.py:114-120 | when two servers write the same key, swapping their completion order swaps its owner |
| Registration.NamespaceCollision | mcp_project/mcp_chatbot.py:50-56 | server `a_b` with tool `c` and server `a` with tool `b_c` share the key `a_b_c`; the later one owns it and the catalog names it twice |
| Routing.LocalName | mcp_project/mcp_chatbot.py:158-159 | the forwarded name is the whole name when it has no `_`, else the suffix after its first `_` |
| Routing.ResolveTool | mcp_project/mcp_chatbot.py:149-170 | an exact key wins; otherwise a session is found exactly when some key ends in `_name`, it is that of the first such key, and the call keeps the bare name |
| Routing.LocalNameOfNamespaced | mcp_project/mcp_chatbot.py:158-159 | for a server name without `_`, the forwarded name of `server_tool` is `tool` |
| Routing.LocalNameLosesTool | mcp_project/mcp_chatbot.py:158-159 | for a server name with `_`, the forwarded name of `server_tool` is not `tool` |
| Routing.ResolveRegisteredTool | mcp_project/mcp_chatbot.py:149-159 | after start-up, a tool whose key no later server wrote resolves to its own session under its own name |
| Routing.AmbiguousToolTakesFirst | mcp_project/mcp_chatbot.py:161-166 | with `A_fetch` and `B_fetch` registered, `fetch` goes to the first, with no ambiguity error |
| Routing.PromptKeyCapturesTool | mcp_project/mcp_chatbot.py:161-166 | a prompt named like `quick_fetch`, registered before the server that owns the tool `fetch`, captures the bare name `fetch`: the call goes to the prompt's server |
| Routing.ResolveResource | mcp_project/mcp_chatbot.py:188-203 | an exact key wins; a `papers://` URI that is no key falls back to the first `papers://` key; otherwise nothing; the read always asks for the original URI |
| Routing.ResolveRegisteredResource | mcp_project/mcp_chatbot.py:188-203 | after start-up, a resource URI no later server wrote is read from its own session |
| Routing.ResolvePrompt | mcp_project/mcp_chatbot.py:228-236 | a prompt is found exactly when its name is a key, with no fallback, and is fetched with the given name and arguments |
| Routing.ResolveRegisteredPrompt | mcp_project/mcp_chatbot.py:228-236 | after start-up, a prompt whose name no later server wrote is fetched from its own session |
| Routing.PromptQuery | mcp_project/mcp_chatbot.py:237-238 | a query text exists exactly when the prompt answer has messages, and it is the text of the first message |
| Routing.PromptQueryFirst | mcp_project/mcp_chatbot.py:237-238 | messages after the first never change the query |
| Routing.ContentText | mcp_project/mcp_chatbot.py:241-248 | a plain string passes through unchanged; a single text object gives its `.text`; an empty item list gives the empty text; a non-empty one gives text as long as its items plus one separator between neighbours |
| Routing.PromptQueryVerbatim | mcp_project/mcp_chatbot.py:237-244 | a first message holding a plain string or a single text object becomes the query exactly as written, whatever messages follow |
| Routing.ItemListJoin | mcp_project/mcp_chatbot.py:246-248 | one item gives its text unchanged; two non-empty item lists give their texts with exactly one space between |
| Routing.ItemListText | mcp_project/mcp_chatbot.py:246-248 | the items of a list content are joined by single spaces: splitting the text gives back word-like items, and its length is theirs plus the separators |
| Routing.WalkSpec | mcp_project/mcp_chatbot.py:139-186 | tool uses are dispatched in order; the walk stops at the first unresolved name and drops it and every later use; the model is asked again exactly when the response held a tool use |
| Routing.RouteResponse | mcp_project/mcp_chatbot.py:139-186 | the model is asked again exactly when the response held a tool use; each call answers one leading tool use, with its id and input and the session and name that tool name resolves to; with no missing name every tool use is dispatched; otherwise the missing name is the first tool use that resolves nowhere, it and every later use are dropped |
| Routing.RouteExactNames | mcp_project/mcp_chatbot.py:149-182 | when every tool-use name is a key, each use becomes one call, in order, with its id, the key's session and the forwarded name |
| ChatInput.ResourceUri | mcp_project/mcp_chatbot.py:275-279 | the `@folders` special case gives the same URI as the general `papers://topic` rule |
| ChatInput.ParseArgs | mcp_project/mcp_chatbot.py:296-302 | the parsed arguments form a dict in which each key holds the value of its last `key=value` token, and only assigned keys are present |
| ChatInput.ParseAssignments | mcp_project/mcp_chatbot.py:299-302 | writing a dict out as `k=v` tokens and parsing them gives the same dict, in order, when no key contains `=` |
| ChatInput.Classify | mcp_project/mcp_chatbot.py:263-309 | a line is skipped exactly when it is blank; a resource read targets `papers://`; a prompt has a word as name and a dict of arguments; an unknown command is a `/word` other than the two known ones; a line is a query exactly when, stripped, it is non-blank, not `quit` in any case and starts with neither `@` nor `/`, and the query is the stripped line |
| ChatInput.Interpret | mcp_project/mcp_chatbot.py:266-309 | on a stripped line, each outcome holds exactly under its condition in the chatbot's order: blank, `quit`, `@` (reading `papers://` + the rest), `/`, otherwise the line itself as a query |
| ChatInput.SlashCommand | mcp_project/mcp_chatbot.py:285-307 | the lowered first word decides, in both directions: `/prompts` lists, `/prompt` with fewer than two words is a usage error, `/prompt name ...` runs `name` with the dict of the last value per key, anything else is an unknown command reported in lower case |
| ChatInput.ClassifyIgnoresPadding | mcp_project/mcp_chatbot.py:265 | surrounding whitespace never changes what a line means |
| ChatInput.QuitInAnyCase | mcp_project/mcp_chatbot.py:269-270 | a line quits exactly when, stripped, it is `quit` in some mix of cases |
| ChatInput.ResourceShortcut | mcp_project/mcp_chatbot.py:273-281 | `@topic` reads `papers://topic` |
| ChatInput.PromptCommand | mcp_project/mcp_chatbot.py:284-304 | `/prompt name k=v ...`, command word in any case and words separated by any runs of whitespace, runs `name` with the parsed arguments |
| ChatInput.ListPromptsCommand | mcp_project/mcp_chatbot.py:284-289 | `/prompts` in any case, with any words after it, lists the prompts |
| ChatInput.UnknownCommandWord | mcp_project/mcp_chatbot.py:284-306 | any other `/word`, with any words after it, is an unknown command reported as the lowered word |
| ChatInput.PromptWithoutName | mcp_project/mcp_chatbot.py:290-293 | `/prompt` alone, in any case, is a usage error |
| ChatInput.ShortcutAlwaysFindsPapers | mcp_project/mcp_chatbot.py:192-196 | once any `papers://` resource is registered, every `@topic` line finds a session, even for an unknown topic, and still asks for `papers://topic` |

## Left out

- The language-model call and the turn loop around it: the request
  parameters, the `messages` list, the tool results appended to it and
  repeated turns. One response is modelled as a sequence of blocks, and
  `continues` says whether the loop asks again.
- The MCP transport, `initialize`, `call_tool`, `read_resource`,
  `get_prompt` and their failures. Sessions are opaque identifiers, and a
  connection or listing outcome is an input.
- Concurrency below server granularity. Each server's three listings are
  applied together, in the given server order. Between its awaits, the
  real tasks can interleave the listings of different servers class by
  class, so one server's prompts may land between another's tools and
  resources.
- `AsyncExitStack`, `cleanup`, and loading `server_config.json`.
- All printing: the per-server summary, `list_prompts` output, error
  messages and the contents of a read resource.
- `main.py` at the repository root and the servers themselves are not
  part of this model.
- Non-text content objects are represented by their `str()` rendering, a
  given string. A message content that is neither a string, nor an object
  with `.text`, nor iterable is not modelled.
- ChatInput.SlashCommand: the command word is lowered for ASCII letters
  only. For the words `quit`, `/prompt` and `/prompts` this is exact. The
  text reported for an unknown command can differ from Python's `lower()`
  when it holds non-ASCII capitals.
- Routing.WalkSpec: when a tool name resolves nowhere, it does not state
  which of the texts before that block were printed.
