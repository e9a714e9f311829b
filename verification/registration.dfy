/** Capability registration: what `connect_to_server` records for one
    server, and what the whole start-up records for all of them.

    The registry is one insertion-ordered map from a string key to the
    session that owns it. Tools go in under `server_tool`, prompts under
    their bare name and resources under their bare URI, so the three
    classes share one key space. Beside the map sit the tool catalog
    handed to the language model and the list of prompts for display. */
module Registration {
  import opened Wrappers
  import opened OrderedMaps

  /** An established client session, opaque to the registry */
  type SessionId = nat

  /** A tool's JSON input schema, carried through verbatim */
  type Schema = string

  /** One entry of a server's `list_tools` answer */
  datatype ToolInfo = ToolInfo(name: string, description: Option<string>, inputSchema: Schema)

  /** One entry of a server's `list_prompts` answer; the prompt list keeps it as it came */
  datatype PromptInfo = PromptInfo(name: string, description: Option<string>, arguments: Option<seq<string>>)

  /** One entry of the tool catalog passed to the language model */
  datatype ToolEntry = ToolEntry(name: string, description: string, inputSchema: Schema)

  /** What one server's three listings returned; `None` where the request
      raised (the class is not supported, or the call failed). */
  datatype Discovery = Discovery(
    tools: Option<seq<ToolInfo>>,
    prompts: Option<seq<PromptInfo>>,
    resources: Option<seq<string>>)

  /** Transport setup and `initialize` either fail, or yield a session whose
      listings are then tried one class at a time. */
  datatype Connection = ConnectFailed | Connected(session: SessionId, found: Discovery)

  datatype Server = Server(name: string, connection: Connection)

  datatype Registry = Registry(
    sessions: OrderedMap<SessionId>,
    tools: seq<ToolEntry>,
    prompts: seq<PromptInfo>)

  const Empty: Registry := Registry([], [], [])

  predicate Valid(r: Registry) {
    UniqueKeys(r.sessions)
  }

  /** The public name of a tool: server name, underscore, tool name */
  function Namespaced(server: string, tool: string): string {
    server + "_" + tool
  }

  /** How an f-string renders an optional description */
  function Render(d: Option<string>): string {
    match d
    case Some(s) => s
    case None => "None"
  }

  function CatalogEntry(server: string, t: ToolInfo): ToolEntry {
    ToolEntry(Namespaced(server, t.name), "[" + server + "] " + Render(t.description), t.inputSchema)
  }

  /** The catalog entry of one tool: its public name splits back into the
      server name, an underscore and the tool's own name; its description
      is the bracketed server name and a space followed by the rendered
      description; and the schema passes through unchanged. */
  lemma CatalogEntryParts(server: string, t: ToolInfo)
    ensures var e := CatalogEntry(server, t);
      && |e.name| == |server| + 1 + |t.name|
      && e.name[..|server|] == server && e.name[|server|] == '_' && e.name[|server| + 1..] == t.name
      && e.description[..|server| + 3] == "[" + server + "] "
      && e.description[|server| + 3..] == Render(t.description)
      && e.inputSchema == t.inputSchema
  {
  }

  /** The keys a server's tools go in under, in listing order */
  function ToolKeys(server: string, ts: seq<ToolInfo>): seq<string> {
    if ts == [] then [] else [Namespaced(server, ts[0].name)] + ToolKeys(server, ts[1..])
  }

  lemma {:induction false} ToolKeyAt(server: string, ts: seq<ToolInfo>, j: nat)
    requires j < |ts|
    ensures Namespaced(server, ts[j].name) in ToolKeys(server, ts)
  {
    if j > 0 {
      ToolKeyAt(server, ts[1..], j - 1);
    }
  }

  lemma {:induction false} PromptNameAt(ps: seq<PromptInfo>, j: nat)
    requires j < |ps|
    ensures ps[j].name in PromptNames(ps)
  {
    if j > 0 {
      PromptNameAt(ps[1..], j - 1);
    }
  }

  function CatalogEntries(server: string, ts: seq<ToolInfo>): seq<ToolEntry> {
    seq(|ts|, i requires 0 <= i < |ts| => CatalogEntry(server, ts[i]))
  }

  function PromptNames(ps: seq<PromptInfo>): seq<string> {
    if ps == [] then [] else [ps[0].name] + PromptNames(ps[1..])
  }

  function Listed<T>(o: Option<seq<T>>): seq<T> {
    o.GetOr([])
  }

  /** Every key one server writes, in the order it writes them */
  function ProducedKeys(s: Server): seq<string> {
    match s.connection
    case ConnectFailed => []
    case Connected(_, d) =>
      ToolKeys(s.name, Listed(d.tools)) + PromptNames(Listed(d.prompts)) + Listed(d.resources)
  }

  /** The tool-catalog entries one server contributes */
  function ToolCatalog(s: Server): seq<ToolEntry> {
    match s.connection
    case ConnectFailed => []
    case Connected(_, d) => CatalogEntries(s.name, Listed(d.tools))
  }

  /** The prompt-list entries one server contributes */
  function PromptCatalog(s: Server): seq<PromptInfo> {
    match s.connection
    case ConnectFailed => []
    case Connected(_, d) => Listed(d.prompts)
  }

  /** The tools block of `connect_to_server`: each tool is stored under its
      namespaced key and appended to the catalog. */
  function AddTools(r: Registry, server: string, session: SessionId, ts: seq<ToolInfo>): Registry {
    r.(sessions := PutAll(r.sessions, ToolKeys(server, ts), session),
       tools := r.tools + CatalogEntries(server, ts))
  }

  /** The prompts block: each prompt is stored under its bare name */
  function AddPrompts(r: Registry, session: SessionId, ps: seq<PromptInfo>): Registry {
    r.(sessions := PutAll(r.sessions, PromptNames(ps), session),
       prompts := r.prompts + ps)
  }

  /** The resources block: each resource is stored under its URI string */
  function AddResources(r: Registry, session: SessionId, uris: seq<string>): Registry {
    r.(sessions := PutAll(r.sessions, uris, session))
  }

  /** `connect_to_server`: nothing is recorded when the connection fails;
      otherwise each listing that answered is recorded, tools first, then
      prompts, then resources, and a listing that raised is skipped
      without touching the others. */
  function RegisterServer(r: Registry, s: Server): (r': Registry)
    ensures s.connection.ConnectFailed? ==> r' == r
    ensures s.connection.Connected? ==>
      forall k :: k in ProducedKeys(s) ==> Get(r'.sessions, k) == Some(s.connection.session)
    ensures forall k :: k !in ProducedKeys(s) ==> Get(r'.sessions, k) == Get(r.sessions, k)
    ensures r'.tools == r.tools + ToolCatalog(s)
    ensures r'.prompts == r.prompts + PromptCatalog(s)
  {
    match s.connection
    case ConnectFailed => r
    case Connected(session, d) =>
      var r1 := if d.tools.Some? then AddTools(r, s.name, session, d.tools.value) else r;
      var r2 := if d.prompts.Some? then AddPrompts(r1, session, d.prompts.value) else r1;
      var r3 := if d.resources.Some? then AddResources(r2, session, d.resources.value) else r2;
      r3
  }

  /** Registering a server keeps every key already present where it was,
      appends only keys the server wrote, and keeps the dict invariant. */
  lemma RegisterServerKeys(r: Registry, s: Server)
    ensures Keys(r.sessions) <= Keys(RegisterServer(r, s).sessions)
    ensures forall k :: k in Keys(RegisterServer(r, s).sessions) <==> k in Keys(r.sessions) || k in ProducedKeys(s)
    ensures Valid(r) ==> Valid(RegisterServer(r, s))
  {
    match s.connection
    case ConnectFailed =>
    case Connected(session, d) =>
      var ts, ps, us := Listed(d.tools), Listed(d.prompts), Listed(d.resources);
      var m1 := PutAll(r.sessions, ToolKeys(s.name, ts), session);
      var m2 := PutAll(m1, PromptNames(ps), session);
      var m3 := PutAll(m2, us, session);
      assert ToolKeys(s.name, []) == [] && PromptNames([]) == [];
      PutAllKeys(r.sessions, ToolKeys(s.name, ts), session);
      PutAllKeys(m1, PromptNames(ps), session);
      PutAllKeys(m2, us, session);
      assert RegisterServer(r, s).sessions == m3;
  }

  /** Start-up: every configured server registered one after another, in
      the order the model fixes for their connection tasks (see README).
      Its properties are the lemmas below. */
  function Startup(servers: seq<Server>): Registry {
    if servers == [] then Empty
    else RegisterServer(Startup(servers[..|servers| - 1]), servers[|servers| - 1])
  }

  // -----------------------------------------------------------------------
  // Properties of start-up

  /** However the servers' keys overlap, every key of the resulting dict
      occurs exactly once. */
  lemma {:induction false} StartupValid(servers: seq<Server>)
    ensures Valid(Startup(servers))
  {
    if servers != [] {
      StartupValid(servers[..|servers| - 1]);
      RegisterServerKeys(Startup(servers[..|servers| - 1]), servers[|servers| - 1]);
    }
  }

  /** Last write wins: a key ends up owned by the last server, in completion
      order, that wrote it, whatever the class it wrote it as. */
  lemma {:induction false} LastWriterWins(servers: seq<Server>, i: nat, k: string)
    requires i < |servers| && servers[i].connection.Connected?
    requires k in ProducedKeys(servers[i])
    requires forall j :: i < j < |servers| ==> k !in ProducedKeys(servers[j])
    ensures Get(Startup(servers).sessions, k) == Some(servers[i].connection.session)
  {
    var n := |servers| - 1;
    var prev, last := servers[..n], servers[n];
    assert servers == prev + [last];
    if i < n {
      assert forall j :: i < j < n ==> prev[j] == servers[j];
      LastWriterWins(prev, i, k);
      StartupKeeps(prev, last, k);
    } else {
      StartupWrites(prev, last, k);
    }
  }

  /** A server that does not write `k` leaves its owner as it was */
  lemma StartupKeeps(prev: seq<Server>, last: Server, k: string)
    requires k !in ProducedKeys(last)
    ensures Get(Startup(prev + [last]).sessions, k) == Get(Startup(prev).sessions, k)
  {
    assert (prev + [last])[..|prev|] == prev;
    RegisterServerKeeps(Startup(prev), last, k);
  }

  /** A connected server that writes `k` owns it right afterwards */
  lemma StartupWrites(prev: seq<Server>, last: Server, k: string)
    requires last.connection.Connected? && k in ProducedKeys(last)
    ensures Get(Startup(prev + [last]).sessions, k) == Some(last.connection.session)
  {
    assert (prev + [last])[..|prev|] == prev;
    RegisterServerWrites(Startup(prev), last, k);
  }

  lemma RegisterServerWrites(r: Registry, s: Server, k: string)
    requires s.connection.Connected? && k in ProducedKeys(s)
    ensures Get(RegisterServer(r, s).sessions, k) == Some(s.connection.session)
  {
  }

  lemma RegisterServerKeeps(r: Registry, s: Server, k: string)
    requires k !in ProducedKeys(s)
    ensures Get(RegisterServer(r, s).sessions, k) == Get(r.sessions, k)
  {
  }

  /** A key no server wrote is absent from the registry */
  lemma {:induction false} UnwrittenKeyAbsent(servers: seq<Server>, k: string)
    requires forall j :: 0 <= j < |servers| ==> k !in ProducedKeys(servers[j])
    ensures Get(Startup(servers).sessions, k) == None
  {
    if servers != [] {
      UnwrittenKeyAbsent(servers[..|servers| - 1], k);
    }
  }

  /** Number of tools a server listed successfully; zero if it did not connect */
  function ListedToolCount(s: Server): nat {
    match s.connection
    case ConnectFailed => 0
    case Connected(_, d) => |Listed(d.tools)|
  }

  function TotalToolCount(servers: seq<Server>): nat {
    if servers == [] then 0 else ListedToolCount(servers[0]) + TotalToolCount(servers[1..])
  }

  lemma {:induction false} TotalToolCountSnoc(servers: seq<Server>, s: Server)
    ensures TotalToolCount(servers + [s]) == TotalToolCount(servers) + ListedToolCount(s)
  {
    if servers != [] {
      assert (servers + [s])[1..] == servers[1..] + [s];
      TotalToolCountSnoc(servers[1..], s);
    }
  }

  /** The tool catalog holds one entry per listed tool of every connected
      server, even when two of those entries share a name. */
  lemma {:induction false} CatalogSize(servers: seq<Server>)
    ensures |Startup(servers).tools| == TotalToolCount(servers)
  {
    if servers != [] {
      var n := |servers| - 1;
      var prev := servers[..n];
      var last := servers[n];
      CatalogSize(prev);
      TotalToolCountSnoc(prev, last);
      assert prev + [last] == servers;
      assert Startup(servers) == RegisterServer(Startup(prev), last);
      RegisterServerToolCount(Startup(prev), last);
    }
  }

  /** Every server's catalog entries, in the order the servers registered */
  function Catalogs(servers: seq<Server>): seq<ToolEntry> {
    if servers == [] then []
    else Catalogs(servers[..|servers| - 1]) + ToolCatalog(servers[|servers| - 1])
  }

  /** The tool catalog after start-up is exactly each server's entries, in
      registration order, and every name it shows the language model is a
      key of `sessions`, so a call under that name takes the exact lookup. */
  lemma {:induction false} CatalogContents(servers: seq<Server>)
    ensures Startup(servers).tools == Catalogs(servers)
    ensures forall e :: e in Startup(servers).tools ==> e.name in Keys(Startup(servers).sessions)
  {
    if servers != [] {
      var n := |servers| - 1;
      var prev := servers[..n];
      var last := servers[n];
      var r := Startup(prev);
      CatalogContents(prev);
      assert Startup(servers) == RegisterServer(r, last);
      RegisterServerKeys(r, last);
      ToolCatalogNames(last);
      var r' := RegisterServer(r, last);
      assert r'.tools == r.tools + ToolCatalog(last);
      forall e | e in r'.tools
        ensures e.name in Keys(r'.sessions)
      {
        if e in r.tools {
          assert e.name in Keys(r.sessions);
        } else {
          assert e in ToolCatalog(last);
        }
      }
    }
  }

  /** The names of a server's catalog entries are among the keys it writes */
  lemma ToolCatalogNames(s: Server)
    ensures forall e :: e in ToolCatalog(s) ==> e.name in ProducedKeys(s)
  {
    match s.connection
    case ConnectFailed =>
    case Connected(_, d) =>
      var ts := Listed(d.tools);
      forall e | e in ToolCatalog(s)
        ensures e.name in ProducedKeys(s)
      {
        var j :| 0 <= j < |ts| && CatalogEntries(s.name, ts)[j] == e;
        ToolKeyAt(s.name, ts, j);
      }
  }

  lemma RegisterServerToolCount(r: Registry, s: Server)
    ensures |RegisterServer(r, s).tools| == |r.tools| + ListedToolCount(s)
  {
  }

  /** A listing that raised leaves the registry exactly as an empty listing
      of that class would: the other classes of the server are unaffected. */
  lemma ListingFailureIsolated(r: Registry, name: string, session: SessionId, d: Discovery)
    ensures RegisterServer(r, Server(name, Connected(session, d)))
         == RegisterServer(r, Server(name, Connected(session,
              Discovery(Some(Listed(d.tools)), Some(Listed(d.prompts)), Some(Listed(d.resources))))))
  {
    var d' := Discovery(Some(Listed(d.tools)), Some(Listed(d.prompts)), Some(Listed(d.resources)));
    var r1 := if d.tools.Some? then AddTools(r, name, session, d.tools.value) else r;
    assert AddTools(r, name, session, []) == r by {
      assert ToolKeys(name, []) == [] && CatalogEntries(name, []) == [];
      assert r.tools + [] == r.tools;
    }
    assert AddTools(r, name, session, Listed(d.tools)) == r1;
    var r2 := if d.prompts.Some? then AddPrompts(r1, session, d.prompts.value) else r1;
    assert AddPrompts(r1, session, []) == r1 by {
      assert PromptNames([]) == [];
      assert r1.prompts + [] == r1.prompts;
    }
    assert AddPrompts(r1, session, Listed(d.prompts)) == r2;
    assert AddResources(r2, session, []) == r2;
  }

  /** Two servers exposing the same resource URI (or prompt name): the one
      whose connection finished later owns it, so the outcome depends on
      completion order. */
  lemma SharedKeyFollowsCompletionOrder(a: Server, b: Server, k: string)
    requires a.connection.Connected? && b.connection.Connected?
    requires k in ProducedKeys(a) && k in ProducedKeys(b)
    ensures Get(Startup([a, b]).sessions, k) == Some(b.connection.session)
    ensures Get(Startup([b, a]).sessions, k) == Some(a.connection.session)
  {
    LastWriterWins([a, b], 1, k);
    LastWriterWins([b, a], 1, k);
  }

  /** Namespacing is not collision-free: server `a_b` with tool `c` and
      server `a` with tool `b_c` both write `a_b_c`, and the later one wins
      while the catalog shows the name twice. */
  lemma NamespaceCollision(s1: SessionId, s2: SessionId, t1: ToolInfo, t2: ToolInfo)
    requires t1.name == "c" && t2.name == "b_c"
    ensures var servers := [Server("a_b", Connected(s1, Discovery(Some([t1]), None, None))),
                            Server("a", Connected(s2, Discovery(Some([t2]), None, None)))];
            var r := Startup(servers);
            && r.sessions == [("a_b_c", s2)]
            && |r.tools| == 2 && r.tools[0].name == r.tools[1].name == "a_b_c"
  {
    var servers := [Server("a_b", Connected(s1, Discovery(Some([t1]), None, None))),
                    Server("a", Connected(s2, Discovery(Some([t2]), None, None)))];
    assert Namespaced("a_b", "c") == "a_b_c";
    assert Namespaced("a", "b_c") == "a_b_c";
    assert ToolKeys("a_b", [t1]) == ["a_b_c"];
    assert ToolKeys("a", [t2]) == ["a_b_c"];
    assert servers[..1] == [servers[0]];
    var r0 := Startup(servers[..1]);
    assert Startup(servers[..0]) == Empty;
    assert r0 == RegisterServer(Empty, servers[0]);
    assert r0 == AddTools(Empty, "a_b", s1, [t1]);
    assert r0.sessions == PutAll([], ["a_b_c"], s1);
    assert r0.sessions == [("a_b_c", s1)];
    assert Startup(servers) == AddTools(r0, "a", s2, [t2]);
    assert Startup(servers).sessions == PutAll([("a_b_c", s1)], ["a_b_c"], s2);
    assert CatalogEntries("a_b", [t1]) == [CatalogEntry("a_b", t1)];
    assert CatalogEntries("a", [t2]) == [CatalogEntry("a", t2)];
  }
}
