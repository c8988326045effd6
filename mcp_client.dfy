/** `McpClientManager` of `templateer.py`: one stdio session per configured MCP server, the
    tools and resources each lists, and calls routed to a session. Launching a server, the
    protocol handshake and the calls themselves are outside the model: a `Transport` says how
    connecting to each server goes, and `ToolCall` / `ResourceRead` what a call returns or the
    text of the exception it raises. */
module McpClient {
  import opened Wrappers
  import opened Json
  import opened Templateer

  /** How far connecting to one server gets inside `initialize`. */
  datatype Connection =
    | LaunchFailed                            // `stdio_client` raised
    | SessionFailed                           // entering `ClientSession` raised
    | HandshakeFailed                         // `session.initialize()` raised
    | ToolListFailed                          // `list_tools()` raised
    | ResourceListFailed(tools: seq<Json>)    // `list_resources()` raised
    | Connected(tools: seq<Json>, resources: seq<Json>)

  type Transport = (string, ServerConfig) -> Connection

  /** A session with one server. */
  datatype Session = Session(server: string, config: ServerConfig)

  /** A context on the exit stack. */
  datatype Handle = StdioHandle(server: string) | SessionHandle(server: string)

  /** The fields `initialize` updates. */
  datatype State = State(sessions: map<string, Session>, tools: map<string, seq<Json>>,
                         resources: map<string, seq<Json>>, stack: seq<Handle>)

  /** `session.call_tool(tool, arguments)`: the result, or the text of the exception. */
  type ToolCall = (Session, string, Json) -> Result<Json, string>

  /** `session.read_resource(uri)`: the result, or the text of the exception. */
  type ResourceRead = (Session, string) -> Result<Json, string>

  /** The session was registered: the handshake succeeded. */
  predicate HasSession(c: Connection) {
    c.ToolListFailed? || c.ResourceListFailed? || c.Connected?
  }

  /** The tool list was fetched. */
  predicate HasTools(c: Connection) {
    c.ResourceListFailed? || c.Connected?
  }

  /** The contexts connecting to `server` entered on the exit stack, in order. */
  function EnteredBy(server: string, c: Connection): seq<Handle> {
    match c
    case LaunchFailed => []
    case SessionFailed => [StdioHandle(server)]
    case _ => [StdioHandle(server), SessionHandle(server)]
  }

  /** The sessions registered for the servers in `names`. */
  function SessionsFor(servers: map<string, ServerConfig>, transport: Transport, names: set<string>): map<string, Session> {
    map n | n in names && n in servers && HasSession(transport(n, servers[n])) :: Session(n, servers[n])
  }

  /** The tool lists fetched for the servers in `names`. */
  function ToolsFor(servers: map<string, ServerConfig>, transport: Transport, names: set<string>): map<string, seq<Json>> {
    map n | n in names && n in servers && HasTools(transport(n, servers[n])) :: transport(n, servers[n]).tools
  }

  /** The resource lists fetched for the servers in `names`. */
  function ResourcesFor(servers: map<string, ServerConfig>, transport: Transport, names: set<string>): map<string, seq<Json>> {
    map n | n in names && n in servers && transport(n, servers[n]).Connected? :: transport(n, servers[n]).resources
  }

  /** The handles entered for the servers of `order`, in that order. */
  function HandlesOf(servers: map<string, ServerConfig>, transport: Transport, order: seq<string>): seq<Handle>
    requires forall i :: 0 <= i < |order| ==> order[i] in servers
  {
    if order == [] then []
    else
      var n := order[|order| - 1];
      HandlesOf(servers, transport, order[..|order| - 1]) + EnteredBy(n, transport(n, servers[n]))
  }

  /** `{"<key>": [{"type": "text", "text": <text>}]}`: the placeholder reply of a call that
      could not reach a server. */
  function TextReply(key: string, text: string): Json {
    JObject([(key, JArray([JObject([("type", JString("text")), ("text", JString(text))])]))])
  }

  /** The text of a placeholder reply under `key`, if `j` is one. */
  function ReplyText(j: Json, key: string): Option<string> {
    if j.JObject? && |j.members| == 1 && j.members[0].0 == key && j.members[0].1.JArray?
       && |j.members[0].1.items| == 1
    then
      var item := j.members[0].1.items[0];
      if item.JObject? && |item.members| == 2 && item.members[0] == ("type", JString("text"))
         && item.members[1].0 == "text" && item.members[1].1.JString?
      then Some(item.members[1].1.s)
      else None
    else None
  }

  /** A placeholder reply carries its text back out. */
  lemma ReplyRoundTrip(key: string, text: string)
    ensures ReplyText(TextReply(key, text), key) == Some(text)
  {
  }

  class McpClientManager {
    const config: TemplateConfig
    var sessions: map<string, Session>
    var serverTools: map<string, seq<Json>>
    var serverResources: map<string, seq<Json>>
    /** The contexts entered on the `AsyncExitStack`, oldest first. */
    var exitStack: seq<Handle>
    /** The contexts closed so far, in closing order. */
    var released: seq<Handle>
    var closed: bool

    /** Resources are only listed for servers whose tools were listed, and tools only for
        registered sessions, each a session with the configured server of its name. */
    ghost predicate Valid()
      reads this
    {
      && serverResources.Keys <= serverTools.Keys <= sessions.Keys <= config.mcpServers.Keys
      && forall n :: n in sessions ==> sessions[n] == Session(n, config.mcpServers[n])
    }

    constructor (config: TemplateConfig)
      ensures this.config == config && Valid()
      ensures sessions == map[] && serverTools == map[] && serverResources == map[]
      ensures exitStack == [] && released == [] && !closed
    {
      this.config := config;
      sessions := map[];
      serverTools := map[];
      serverResources := map[];
      exitStack := [];
      released := [];
      closed := false;
    }

    /** The fields `initialize` updates. */
    ghost function Snapshot(): State
      reads this
    {
      State(sessions, serverTools, serverResources, exitStack)
    }

    /** `initialize`: tries every configured server, in the order of the configuration, and
        keeps whatever each attempt got as far as; no failure stops the loop. */
    method Initialize(transport: Transport) returns (ghost order: seq<string>)
      requires Valid()
      modifies this
      ensures Valid()
      ensures Distinct(order) && forall n :: n in order <==> n in config.mcpServers
      ensures Snapshot() == After(old(Snapshot()), config.mcpServers, transport, config.mcpServers.Keys, order)
      ensures released == old(released) && closed == old(closed)
    {
      var remaining := config.mcpServers.Keys;
      ghost var start := Snapshot();
      ghost var done: set<string> := {};
      order := [];
      AfterNothing(start, config.mcpServers, transport);
      while remaining != {}
        invariant Progress(start, transport, remaining, done, order)
        invariant released == old(released) && closed == old(closed)
        decreases remaining
      {
        var name :| name in remaining;
        ConnectNext(name, transport, start, remaining, done, order);
        remaining := remaining - {name};
        done := done + {name};
        order := order + [name];
      }
    }

    /** The invariant of that loop: `done` holds the servers tried so far, in the order
        `order`, and `remaining` the rest. */
    ghost predicate Progress(start: State, transport: Transport, remaining: set<string>, done: set<string>, order: seq<string>)
      reads this
    {
      && Valid()
      && remaining + done == config.mcpServers.Keys && remaining !! done
      && Distinct(order) && (forall n :: n in order <==> n in done)
      && Snapshot() == After(start, config.mcpServers, transport, done, order)
    }

    /** One pass of that loop, with the bookkeeping that extends `Progress` by one server. */
    method ConnectNext(name: string, transport: Transport, ghost start: State, ghost remaining: set<string>,
                       ghost done: set<string>, ghost order: seq<string>)
      requires Progress(start, transport, remaining, done, order) && name in remaining
      modifies this
      ensures Progress(start, transport, remaining - {name}, done + {name}, order + [name])
      ensures released == old(released) && closed == old(closed)
    {
      ghost var before := Snapshot();
      assert before == After(start, config.mcpServers, transport, done, order);
      assert name !in order;
      Connect(name, transport);
      assert Snapshot() == Advance(before, name, config.mcpServers[name], transport(name, config.mcpServers[name]));
      AfterNext(start, config.mcpServers, transport, done, order, name);
      DistinctSnoc(order, name);
      assert forall n :: n in order + [name] <==> n in order || n == name;
    }

    /** One pass of the loop's body: the `try` block for `name`. */
    method Connect(name: string, transport: Transport)
      requires Valid() && name in config.mcpServers
      modifies this
      ensures Valid()
      ensures Snapshot() == Advance(old(Snapshot()), name, config.mcpServers[name], transport(name, config.mcpServers[name]))
      ensures released == old(released) && closed == old(closed)
    {
      var cfg := config.mcpServers[name];
      var outcome := transport(name, cfg);
      ghost var s0 := Snapshot();
      if outcome.LaunchFailed? {
        assert Snapshot() == Advance(s0, name, cfg, outcome);
        return;
      }
      exitStack := exitStack + [StdioHandle(name)];
      if outcome.SessionFailed? {
        assert Snapshot() == Advance(s0, name, cfg, outcome);
        return;
      }
      exitStack := exitStack + [SessionHandle(name)];
      assert exitStack == s0.stack + [StdioHandle(name), SessionHandle(name)];
      if outcome.HandshakeFailed? {
        assert Snapshot() == Advance(s0, name, cfg, outcome);
        return;
      }
      sessions := sessions[name := Session(name, cfg)];
      if outcome.ToolListFailed? {
        assert Snapshot() == Advance(s0, name, cfg, outcome);
        return;
      }
      serverTools := serverTools[name := outcome.tools];
      if outcome.ResourceListFailed? {
        assert Snapshot() == Advance(s0, name, cfg, outcome);
        return;
      }
      serverResources := serverResources[name := outcome.resources];
      assert Snapshot() == Advance(s0, name, cfg, outcome);
    }

    /** `call_tool`: the session's reply, or a placeholder naming the server that is not
        connected, or the error the call raised. It never raises. */
    function CallTool(server: string, tool: string, arguments: Json, call: ToolCall): (r: Json)
      reads this
      ensures server !in sessions ==>
        ReplyText(r, "content") == Some("[Tool execution failed: MCP server '" + server + "' is not connected]")
      ensures server in sessions && call(sessions[server], tool, arguments).Success? ==>
        r == call(sessions[server], tool, arguments).value
      ensures server in sessions && call(sessions[server], tool, arguments).Failure? ==>
        ReplyText(r, "content") == Some("[Tool execution error: " + call(sessions[server], tool, arguments).error + "]")
    {
      if server !in sessions then
        ReplyRoundTrip("content", "[Tool execution failed: MCP server '" + server + "' is not connected]");
        TextReply("content", "[Tool execution failed: MCP server '" + server + "' is not connected]")
      else
        match call(sessions[server], tool, arguments)
        case Success(result) => result
        case Failure(e) =>
          ReplyRoundTrip("content", "[Tool execution error: " + e + "]");
          TextReply("content", "[Tool execution error: " + e + "]")
    }

    /** `read_resource`: the same shape under the key `contents`. */
    function ReadResource(server: string, uri: string, read: ResourceRead): (r: Json)
      reads this
      ensures server !in sessions ==>
        ReplyText(r, "contents") == Some("[Resource read failed: MCP server '" + server + "' is not connected]")
      ensures server in sessions && read(sessions[server], uri).Success? ==>
        r == read(sessions[server], uri).value
      ensures server in sessions && read(sessions[server], uri).Failure? ==>
        ReplyText(r, "contents") == Some("[Resource read error: " + read(sessions[server], uri).error + "]")
    {
      if server !in sessions then
        ReplyRoundTrip("contents", "[Resource read failed: MCP server '" + server + "' is not connected]");
        TextReply("contents", "[Resource read failed: MCP server '" + server + "' is not connected]")
      else
        match read(sessions[server], uri)
        case Success(result) => result
        case Failure(e) =>
          ReplyRoundTrip("contents", "[Resource read error: " + e + "]");
          TextReply("contents", "[Resource read error: " + e + "]")
    }

    /** `close`: `exit_stack.aclose()` closes every entered context, newest first. */
    method Close()
      modifies this
      ensures released == old(released) + Reversed(old(exitStack))
      ensures exitStack == [] && closed
      ensures sessions == old(sessions) && serverTools == old(serverTools) && serverResources == old(serverResources)
    {
      released := released + Reversed(exitStack);
      exitStack := [];
      closed := true;
    }
  }

  /** `xs` backwards. */
  function Reversed<T>(xs: seq<T>): (r: seq<T>)
    ensures |r| == |xs| && forall i :: 0 <= i < |xs| ==> r[i] == xs[|xs| - 1 - i]
  {
    if xs == [] then [] else Reversed(xs[1..]) + [xs[0]]
  }

  /** Reversing keeps the elements. */
  lemma ReversedMembers<T>(xs: seq<T>)
    ensures forall x :: x in Reversed(xs) <==> x in xs
  {
    var r := Reversed(xs);
    forall x | x in xs ensures x in r {
      var i :| 0 <= i < |xs| && xs[i] == x;
      assert r[|xs| - 1 - i] == x;
    }
  }

  /** The state after the `try` block for `server` ran into `c`. */
  function Advance(s: State, server: string, config: ServerConfig, c: Connection): State {
    State(
      if HasSession(c) then s.sessions[server := Session(server, config)] else s.sessions,
      if HasTools(c) then s.tools[server := c.tools] else s.tools,
      if c.Connected? then s.resources[server := c.resources] else s.resources,
      s.stack + EnteredBy(server, c))
  }

  /** The state after trying the servers of `done`, in the order `order`, from `start`. */
  function After(start: State, servers: map<string, ServerConfig>, transport: Transport,
                 done: set<string>, order: seq<string>): State
    requires forall i :: 0 <= i < |order| ==> order[i] in servers
  {
    State(
      start.sessions + SessionsFor(servers, transport, done),
      start.tools + ToolsFor(servers, transport, done),
      start.resources + ResourcesFor(servers, transport, done),
      start.stack + HandlesOf(servers, transport, order))
  }

  /** Before any server is tried nothing has changed. */
  lemma AfterNothing(start: State, servers: map<string, ServerConfig>, transport: Transport)
    ensures After(start, servers, transport, {}, []) == start
  {
    assert SessionsFor(servers, transport, {}) == map[];
    assert ToolsFor(servers, transport, {}) == map[];
    assert ResourcesFor(servers, transport, {}) == map[];
  }

  /** From a fresh manager, the state after trying every server. */
  lemma AfterFresh(servers: map<string, ServerConfig>, transport: Transport, order: seq<string>)
    requires forall i :: 0 <= i < |order| ==> order[i] in servers
    ensures After(State(map[], map[], map[], []), servers, transport, servers.Keys, order)
         == State(SessionsFor(servers, transport, servers.Keys), ToolsFor(servers, transport, servers.Keys),
                  ResourcesFor(servers, transport, servers.Keys), HandlesOf(servers, transport, order))
  {
    EmptyUnion(SessionsFor(servers, transport, servers.Keys));
    EmptyUnion(ToolsFor(servers, transport, servers.Keys));
    EmptyUnion(ResourcesFor(servers, transport, servers.Keys));
    assert [] + HandlesOf(servers, transport, order) == HandlesOf(servers, transport, order);
  }

  /** The empty map adds nothing. */
  lemma EmptyUnion<K, V>(m: map<K, V>)
    ensures map[] + m == m
  {
  }

  /** Trying one more server takes one `Advance`. */
  lemma AfterNext(start: State, servers: map<string, ServerConfig>, transport: Transport,
                  done: set<string>, order: seq<string>, n: string)
    requires forall i :: 0 <= i < |order| ==> order[i] in servers
    requires n in servers
    ensures forall i :: 0 <= i < |order + [n]| ==> (order + [n])[i] in servers
    ensures After(start, servers, transport, done + {n}, order + [n])
         == Advance(After(start, servers, transport, done, order), n, servers[n], transport(n, servers[n]))
  {
    var c := transport(n, servers[n]);
    var a := After(start, servers, transport, done, order);
    var b := After(start, servers, transport, done + {n}, order + [n]);
    var d := Advance(a, n, servers[n], c);
    ForNext(servers, transport, done, n);
    assert b.sessions == d.sessions by {
      if HasSession(c) {
        UnionUpdate(start.sessions, SessionsFor(servers, transport, done), n, Session(n, servers[n]));
      }
    }
    assert b.tools == d.tools by {
      if HasTools(c) {
        UnionUpdate(start.tools, ToolsFor(servers, transport, done), n, c.tools);
      }
    }
    assert b.resources == d.resources by {
      if c.Connected? {
        UnionUpdate(start.resources, ResourcesFor(servers, transport, done), n, c.resources);
      }
    }
    assert b.stack == d.stack by {
      HandlesSnoc(servers, transport, order, n);
    }
  }

  /** Adding one more server to `names` adds at most its own entry. */
  lemma ForNext(servers: map<string, ServerConfig>, transport: Transport, names: set<string>, n: string)
    requires n in servers
    ensures var c := transport(n, servers[n]);
      && SessionsFor(servers, transport, names + {n}) ==
           (if HasSession(c) then SessionsFor(servers, transport, names)[n := Session(n, servers[n])] else SessionsFor(servers, transport, names))
      && ToolsFor(servers, transport, names + {n}) ==
           (if HasTools(c) then ToolsFor(servers, transport, names)[n := c.tools] else ToolsFor(servers, transport, names))
      && ResourcesFor(servers, transport, names + {n}) ==
           (if c.Connected? then ResourcesFor(servers, transport, names)[n := c.resources] else ResourcesFor(servers, transport, names))
  {
  }

  lemma UnionUpdate<V>(a: map<string, V>, b: map<string, V>, n: string, v: V)
    ensures (a + b)[n := v] == a + b[n := v]
  {
  }

  lemma HandlesSnoc(servers: map<string, ServerConfig>, transport: Transport, order: seq<string>, n: string)
    requires forall i :: 0 <= i < |order| ==> order[i] in servers
    requires n in servers
    ensures HandlesOf(servers, transport, order + [n]) == HandlesOf(servers, transport, order) + EnteredBy(n, transport(n, servers[n]))
  {
    assert (order + [n])[..|order|] == order;
  }

  /** No name occurs twice. */
  predicate Distinct(order: seq<string>) {
    forall i, j :: 0 <= i < j < |order| ==> order[i] != order[j]
  }

  /** Appending a new name keeps the names distinct. */
  lemma DistinctSnoc(order: seq<string>, n: string)
    requires Distinct(order) && n !in order
    ensures Distinct(order + [n])
  {
    assert forall i :: 0 <= i < |order| ==> (order + [n])[i] == order[i];
  }

  /** A server's stdio transport is on the exit stack exactly when it was tried and launched,
      and its session exactly when that session was also entered. */
  lemma {:induction false} HandlesOfEntered(servers: map<string, ServerConfig>, transport: Transport, order: seq<string>, n: string)
    requires forall i :: 0 <= i < |order| ==> order[i] in servers
    ensures StdioHandle(n) in HandlesOf(servers, transport, order) <==>
      n in order && !transport(n, servers[n]).LaunchFailed?
    ensures SessionHandle(n) in HandlesOf(servers, transport, order) <==>
      n in order && !transport(n, servers[n]).LaunchFailed? && !transport(n, servers[n]).SessionFailed?
  {
    if order != [] {
      var init := order[..|order| - 1];
      var last := order[|order| - 1];
      HandlesOfEntered(servers, transport, init, n);
      var h := HandlesOf(servers, transport, init);
      var e := EnteredBy(last, transport(last, servers[last]));
      assert HandlesOf(servers, transport, order) == h + e;
      EnteredByHandles(last, transport(last, servers[last]), n);
      assert StdioHandle(n) in h + e <==> StdioHandle(n) in h || StdioHandle(n) in e;
      assert SessionHandle(n) in h + e <==> SessionHandle(n) in h || SessionHandle(n) in e;
      assert order == init + [last];
      assert n in order <==> n in init || n == last;
    }
  }

  /** The handles one attempt enters name its server. */
  lemma EnteredByHandles(server: string, c: Connection, n: string)
    ensures StdioHandle(n) in EnteredBy(server, c) <==> n == server && !c.LaunchFailed?
    ensures SessionHandle(n) in EnteredBy(server, c) <==> n == server && !c.LaunchFailed? && !c.SessionFailed?
  {
  }
}
