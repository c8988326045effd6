/** `TemplateProcessor.async_process` of `templateer.py`: read the template, connect to its MCP
    servers, load its Python part, render, and name the output. Everything the program does
    through the outside world is a parameter: the files it can read, the JSON decoder, the MCP
    transport, the module loader and the Jinja renderer. */
module Processor {
  import opened Wrappers
  import opened Text
  import opened Json
  import opened Paths
  import opened Schema
  import opened Context
  import Parsing
  import opened Templateer
  import opened McpClient

  /** Running the template's Python code: the module handle and its members, or the text of
      the exception it raised. */
  type ModuleLoader = string -> Result<(ModuleHandle, seq<(string, MemberValue)>), string>

  /** Rendering a template text with a context: the text, or the text of the exception. */
  type Renderer = (string, map<string, Value<TemplateConfig>>) -> Result<string, string>

  /** What `async_process` reaches outside the program. */
  datatype Environment = Environment(
    files: map<string, string>,
    decode: Decoder,
    transport: Transport,
    loadModule: ModuleLoader,
    render: Renderer)

  /** Why `async_process` raised. */
  datatype ProcessError =
    | TemplateError(error: Parsing.LoadError)   // `from_file` raised
    | ModuleError(message: string)      // running the Python code raised
    | NoPydanticClasses                 // `ValueError("No Pydantic classes found ...")`
    | RenderError(message: string)      // Jinja raised

  /** The file to write: its path and its content. */
  datatype Output = Output(path: string, content: string)

  /** The steps `async_process` takes, in order. */
  datatype Step = McpInit | ModuleLoad | Render | Write | McpClose

  /** The four names the template always gets. */
  const McpNames: set<string> := {"mcp_tools", "mcp_resources", "mcp_call_tool", "mcp_read_resource"}

  /** `template_file.config.output_file or self.template_path.stem + ".md"`. */
  function OutputFilename(outputFile: Option<string>, templatePath: string): (name: string)
    ensures outputFile.Some? && outputFile.value != [] ==> name == outputFile.value
    ensures (outputFile.None? || outputFile.value == []) ==> name == Stem(templatePath) + ".md"
  {
    match outputFile
    case Some(name) => if name != [] then name else Stem(templatePath) + ".md"
    case None => Stem(templatePath) + ".md"
  }

  /** The default name keeps the template's stem and replaces its suffix by `.md`. */
  lemma DefaultOutputName(templatePath: string)
    ensures Name(templatePath) == Stem(templatePath) + Suffix(templatePath)
    ensures OutputFilename(None, templatePath) == Stem(templatePath) + ".md"
    ensures OutputFilename(Some([]), templatePath) == Stem(templatePath) + ".md"
  {
    StemSuffix(templatePath);
  }

  /** A template `<dir>/<stem>.py` renders to `<stem>.md` unless it names a file, as
      `templates/person_template.py` renders to `person_template.md`. */
  lemma PyTemplateOutputName(dir: string, stem: string)
    requires stem != [] && '/' !in stem && '.' !in stem
    ensures OutputFilename(None, dir + "/" + stem + ".py") == stem + ".md"
  {
    var n := stem + ".py";
    var p := dir + "/" + stem + ".py";
    assert p == dir + "/" + n;
    NameAfterSlash(dir, n);
    SuffixStartAtDot(stem, "py");
    assert n == stem + "." + "py";
    assert n[..|stem|] == stem;
    assert Stem(p) == stem;
  }

  /** The context extension when there is no MCP manager: empty catalogs and stand-ins. */
  function StubExtension(): map<string, Value<TemplateConfig>> {
    map[
      "mcp_tools" := CatalogValue(map[]),
      "mcp_resources" := CatalogValue(map[]),
      "mcp_call_tool" := CallToolValue(NotConnectedStub),
      "mcp_read_resource" := ReadResourceValue(NotConnectedStub)]
  }

  /** The context extension when there is a manager: its catalogs and the functions that call
      through it. */
  function ManagerExtension(tools: map<string, seq<Json>>, resources: map<string, seq<Json>>): map<string, Value<TemplateConfig>> {
    map[
      "mcp_tools" := CatalogValue(tools),
      "mcp_resources" := CatalogValue(resources),
      "mcp_call_tool" := CallToolValue(ManagerBacked),
      "mcp_read_resource" := ReadResourceValue(ManagerBacked)]
  }

  /** The extension for a configuration: a manager exists exactly when servers are
      configured, and its catalogs are those `initialize` fetched. */
  function Extension(servers: map<string, ServerConfig>, transport: Transport): map<string, Value<TemplateConfig>> {
    if servers == map[] then StubExtension()
    else ManagerExtension(ToolsFor(servers, transport, servers.Keys), ResourcesFor(servers, transport, servers.Keys))
  }

  /** The context the template is rendered with. */
  function RenderedContext(config: TemplateConfig, info: ModuleInfo, transport: Transport): map<string, Value<TemplateConfig>> {
    RenderContext(BaseContext(config, info), Extension(config.mcpServers, transport))
  }

  /** The four MCP names are always in the context, bound by the extension whatever the
      module defines, and the catalogs list exactly the servers whose tools (resources) were
      fetched. */
  lemma McpNamesBound(config: TemplateConfig, info: ModuleInfo, transport: Transport)
    ensures McpNames <= RenderedContext(config, info, transport).Keys
    ensures forall k :: k in McpNames ==>
      RenderedContext(config, info, transport)[k] == Extension(config.mcpServers, transport)[k]
    ensures var servers := config.mcpServers;
      && RenderedContext(config, info, transport)["mcp_tools"].CatalogValue?
      && (forall n :: n in RenderedContext(config, info, transport)["mcp_tools"].catalog <==>
            n in servers && HasTools(transport(n, servers[n])))
  {
    var ext := Extension(config.mcpServers, transport);
    RenderContextMerge(BaseContext(config, info), ext);
    ExtensionCatalog(config.mcpServers, transport);
    assert "mcp_tools" in ext;
  }

  /** The extension binds exactly the four MCP names, and its tool catalog lists the servers
      whose tools were fetched. */
  lemma ExtensionCatalog(servers: map<string, ServerConfig>, transport: Transport)
    ensures Extension(servers, transport).Keys == McpNames
    ensures Extension(servers, transport)["mcp_tools"].CatalogValue?
    ensures forall n :: n in Extension(servers, transport)["mcp_tools"].catalog <==>
      n in servers && HasTools(transport(n, servers[n]))
  {
  }

  /** Without configured servers the template gets the stand-ins; with them, the functions
      that call through the manager, even when no server connected. */
  lemma CallersChosen(config: TemplateConfig, info: ModuleInfo, transport: Transport)
    ensures RenderedContext(config, info, transport)["mcp_call_tool"]
         == CallToolValue(if config.mcpServers == map[] then NotConnectedStub else ManagerBacked)
    ensures RenderedContext(config, info, transport)["mcp_read_resource"]
         == ReadResourceValue(if config.mcpServers == map[] then NotConnectedStub else ManagerBacked)
  {
    RenderContextMerge(BaseContext(config, info), Extension(config.mcpServers, transport));
  }

  /** The template file `from_file` reads, or why it raised. */
  type Loaded = Result<TemplateFile, Parsing.LoadError>

  /** What `async_process` returns, or why it raised, given what `from_file` gave. */
  function Outcome(file: Loaded, outputDir: string, env: Environment): Result<Output, ProcessError> {
    match file
    case Failure(e) => Failure(TemplateError(e))
    case Success(tf) => OutcomeAfterInit(tf, outputDir, env)
  }

  /** How far the `try` block gets: the module raised, it defined no model class, the
      renderer raised, or the template was rendered to a text. */
  datatype Stage = LoadRaised(message: string) | NoClasses | RenderRaised(message: string) | Rendered(text: string)

  /** The stage the `try` block reaches. */
  function TryStage(tf: TemplateFile, env: Environment): Stage {
    match env.loadModule(tf.pythonCode)
    case Failure(message) => LoadRaised(message)
    case Success(loaded) =>
      var info := Load(loaded.0, loaded.1);
      if !HasClasses(info) then NoClasses
      else
        match env.render(tf.templateContent, RenderedContext(tf.config, info, env.transport))
        case Failure(message) => RenderRaised(message)
        case Success(text) => Rendered(text)
  }

  /** The outcome of the `try` block. */
  function OutcomeAfterInit(tf: TemplateFile, outputDir: string, env: Environment): Result<Output, ProcessError> {
    match TryStage(tf, env)
    case LoadRaised(message) => Failure(ModuleError(message))
    case NoClasses => Failure(NoPydanticClasses)
    case RenderRaised(message) => Failure(RenderError(message))
    case Rendered(text) => Success(Output(JoinPath(outputDir, OutputFilename(tf.config.outputFile, tf.path)), text))
  }

  /** The steps taken, in order. */
  function Steps(file: Loaded, env: Environment): seq<Step> {
    match file
    case Failure(_) => []
    case Success(tf) =>
      var mcp := tf.config.mcpServers != map[];
      (if mcp then [McpInit] else []) + StepsAfterInit(tf, env) + (if mcp then [McpClose] else [])
  }

  /** The steps of the `try` block. */
  function StepsAfterInit(tf: TemplateFile, env: Environment): seq<Step> {
    StageSteps(TryStage(tf, env))
  }

  /** The steps taken to reach a stage. */
  function StageSteps(stage: Stage): (r: seq<Step>)
    ensures |r| >= 1 && r[0] == ModuleLoad
  {
    match stage
    case LoadRaised(_) => [ModuleLoad]
    case NoClasses => [ModuleLoad]
    case RenderRaised(_) => [ModuleLoad, Render]
    case Rendered(_) => [ModuleLoad, Render, Write]
  }

  /** When the Python code raises, only the module load was attempted. */
  lemma LoadFailed(tf: TemplateFile, env: Environment)
    requires env.loadModule(tf.pythonCode).Failure?
    ensures TryStage(tf, env) == LoadRaised(env.loadModule(tf.pythonCode).error)
  {
  }

  /** When the module defines no classes, nothing is rendered. */
  lemma LoadedWithoutClasses(tf: TemplateFile, env: Environment, info: ModuleInfo)
    requires env.loadModule(tf.pythonCode).Success?
    requires info == Load(env.loadModule(tf.pythonCode).value.0, env.loadModule(tf.pythonCode).value.1)
    requires !HasClasses(info)
    ensures TryStage(tf, env) == NoClasses
  {
  }

  /** Once rendering ran on the base context merged with the extension, its result decides
      the rest. */
  lemma RenderedWith(tf: TemplateFile, env: Environment, info: ModuleInfo,
                     base: map<string, Value<TemplateConfig>>, extension: map<string, Value<TemplateConfig>>,
                     rendered: Result<string, string>, outputDir: string)
    requires env.loadModule(tf.pythonCode).Success?
    requires info == Load(env.loadModule(tf.pythonCode).value.0, env.loadModule(tf.pythonCode).value.1)
    requires HasClasses(info)
    requires base == BaseContext(tf.config, info) && extension == Extension(tf.config.mcpServers, env.transport)
    requires rendered == env.render(tf.templateContent, RenderContext(base, extension))
    ensures TryStage(tf, env) == if rendered.Failure? then RenderRaised(rendered.error) else Rendered(rendered.value)
    ensures StepsAfterInit(tf, env)[1..] == if rendered.Failure? then [Render] else [Render, Write]
    ensures OutcomeAfterInit(tf, outputDir, env)
         == if rendered.Failure? then Failure(RenderError(rendered.error))
            else Success(Output(JoinPath(outputDir, OutputFilename(tf.config.outputFile, tf.path)), rendered.value))
  {
  }

  /** Appending two steps one at a time appends both. */
  lemma AppendTwo(s: seq<Step>, a: Step, b: Step)
    ensures s + [a] + [b] == s + [a, b]
  {
  }

  /** Appending the module load and then the rest of the steps appends them all. */
  lemma AppendAfterLoad(s: seq<Step>, steps: seq<Step>)
    requires |steps| >= 1 && steps[0] == ModuleLoad
    ensures s + [ModuleLoad] + steps[1..] == s + steps
  {
    assert steps == [ModuleLoad] + steps[1..];
  }

  /** MCP connections are set up before the Python code runs, and closed last on every path
      that opened them, whether the rest succeeded or raised. */
  lemma McpInitThenLoadThenClose(file: Loaded, env: Environment)
    ensures McpInit in Steps(file, env) <==> McpClose in Steps(file, env)
    ensures McpInit in Steps(file, env) <==> file.Success? && file.value.config.mcpServers != map[]
    ensures McpInit in Steps(file, env) ==>
      && Steps(file, env)[0] == McpInit
      && Steps(file, env)[1] == ModuleLoad
      && Steps(file, env)[|Steps(file, env)| - 1] == McpClose
  {
    if file.Success? {
      var tf := file.value;
      var t := StepsAfterInit(tf, env);
      StageStepsShape(TryStage(tf, env));
      if tf.config.mcpServers != map[] {
        assert Steps(file, env) == [McpInit] + t + [McpClose];
      } else {
        assert Steps(file, env) == [] + t + [];
        assert [] + t + [] == t;
      }
    }
  }

  /** The `try` block starts by loading the module and neither opens nor closes MCP
      connections. */
  lemma StageStepsShape(stage: Stage)
    ensures McpInit !in StageSteps(stage) && McpClose !in StageSteps(stage)
  {
  }

  /** A file is written exactly when `async_process` returns its path, and only after the
      template was rendered. */
  lemma WriteIffSuccess(file: Loaded, outputDir: string, env: Environment)
    ensures Write in Steps(file, env) <==> Outcome(file, outputDir, env).Success?
    ensures Write in Steps(file, env) ==> Render in Steps(file, env)
  {
  }

  /** A module without model classes is an error, and nothing is rendered. */
  lemma NoClassesNoRender(tf: TemplateFile, outputDir: string, env: Environment)
    requires env.loadModule(tf.pythonCode).Success?
    requires forall j :: 0 <= j < |env.loadModule(tf.pythonCode).value.1| ==>
      !IsModelClass(env.loadModule(tf.pythonCode).value.1[j].1)
    ensures Outcome(Success(tf), outputDir, env) == Failure(NoPydanticClasses)
    ensures Render !in Steps(Success(tf), env)
  {
    var loaded := env.loadModule(tf.pythonCode).value;
    HasClassesIff(loaded.0, loaded.1);
  }

  /** The error text every call through the manager gets while a template renders: the
      renderer runs inside the event loop of `async_process`. */
  const RunningLoopError: string := "asyncio.run() cannot be called from a running event loop"

  /** The reply of both stubs the template gets when no manager exists. */
  function NotConnectedReply(key: string, server: string): (r: Json)
    ensures ReplyText(r, key) == Some("MCP server '" + server + "' not connected")
  {
    ReplyRoundTrip(key, "MCP server '" + server + "' not connected");
    TextReply(key, "MCP server '" + server + "' not connected")
  }

  /** `mcp_call_tool` when no manager exists. */
  function StubCallTool(server: string): Json {
    NotConnectedReply("content", server)
  }

  /** `mcp_read_resource` when no manager exists. */
  function StubReadResource(server: string): Json {
    NotConnectedReply("contents", server)
  }

  /** `safe_call_tool` as written: `asyncio.run` raises when an event loop is already running
      in the thread, and the handler turns that into an error reply, so the manager is never
      reached. */
  function SafeCallToolAsWritten(m: McpClientManager, loopRunning: bool, server: string, tool: string,
                                 arguments: Json, call: ToolCall): (r: Json)
    reads m
    ensures loopRunning ==> ReplyText(r, "content") == Some("[Tool execution error: " + RunningLoopError + "]")
    ensures !loopRunning ==> r == m.CallTool(server, tool, arguments, call)
  {
    if loopRunning then
      ReplyRoundTrip("content", "[Tool execution error: " + RunningLoopError + "]");
      TextReply("content", "[Tool execution error: " + RunningLoopError + "]")
    else m.CallTool(server, tool, arguments, call)
  }

  /** `safe_read_resource` as written, for the same reason. */
  function SafeReadResourceAsWritten(m: McpClientManager, loopRunning: bool, server: string, uri: string,
                                     read: ResourceRead): (r: Json)
    reads m
    ensures loopRunning ==> ReplyText(r, "contents") == Some("[Resource read error: " + RunningLoopError + "]")
    ensures !loopRunning ==> r == m.ReadResource(server, uri, read)
  {
    if loopRunning then
      ReplyRoundTrip("contents", "[Resource read error: " + RunningLoopError + "]");
      TextReply("contents", "[Resource read error: " + RunningLoopError + "]")
    else m.ReadResource(server, uri, read)
  }

  /** During rendering, a tool call to a connected server whose call succeeds loses the
      server's reply. */
  lemma SafeCallToolLosesReply(m: McpClientManager, server: string, tool: string, arguments: Json, call: ToolCall)
    requires server in m.sessions && call(m.sessions[server], tool, arguments).Success?
    requires ReplyText(call(m.sessions[server], tool, arguments).value, "content").None?
    ensures SafeCallToolAsWritten(m, true, server, tool, arguments, call) != m.CallTool(server, tool, arguments, call)
  {
  }

  /** During rendering, a resource read from a connected server whose read succeeds loses
      the server's reply. */
  lemma SafeReadResourceLosesReply(m: McpClientManager, server: string, uri: string, read: ResourceRead)
    requires server in m.sessions && read(m.sessions[server], uri).Success?
    requires ReplyText(read(m.sessions[server], uri).value, "contents").None?
    ensures SafeReadResourceAsWritten(m, true, server, uri, read) != m.ReadResource(server, uri, read)
  {
  }

  /** `safe_call_tool` as intended: the manager's reply, which is the server's own reply for
      a connected server whose call succeeds. */
  function SafeCallTool(m: McpClientManager, server: string, tool: string, arguments: Json, call: ToolCall): (r: Json)
    reads m
    ensures server in m.sessions && call(m.sessions[server], tool, arguments).Success? ==>
      r == call(m.sessions[server], tool, arguments).value
    ensures server !in m.sessions ==>
      ReplyText(r, "content") == Some("[Tool execution failed: MCP server '" + server + "' is not connected]")
    ensures server in m.sessions && call(m.sessions[server], tool, arguments).Failure? ==>
      ReplyText(r, "content") == Some("[Tool execution error: " + call(m.sessions[server], tool, arguments).error + "]")
  {
    m.CallTool(server, tool, arguments, call)
  }

  /** `safe_read_resource` as intended. */
  function SafeReadResource(m: McpClientManager, server: string, uri: string, read: ResourceRead): (r: Json)
    reads m
    ensures server in m.sessions && read(m.sessions[server], uri).Success? ==>
      r == read(m.sessions[server], uri).value
    ensures server !in m.sessions ==>
      ReplyText(r, "contents") == Some("[Resource read failed: MCP server '" + server + "' is not connected]")
    ensures server in m.sessions && read(m.sessions[server], uri).Failure? ==>
      ReplyText(r, "contents") == Some("[Resource read error: " + read(m.sessions[server], uri).error + "]")
  {
    m.ReadResource(server, uri, read)
  }

  /** What a template's `mcp_call_tool(server, tool, args)` returns as written: the stub's
      reply without a manager, and with one the error of calling `asyncio.run` inside the
      running event loop. */
  function TemplateCallTool(caller: Caller, m: McpClientManager?, server: string, tool: string,
                            arguments: Json, call: ToolCall): (r: Json)
    requires caller.ManagerBacked? ==> m != null
    reads m
    ensures caller.NotConnectedStub? ==>
      ReplyText(r, "content") == Some("MCP server '" + server + "' not connected")
    ensures caller.ManagerBacked? ==>
      ReplyText(r, "content") == Some("[Tool execution error: " + RunningLoopError + "]")
  {
    match caller
    case NotConnectedStub => StubCallTool(server)
    case ManagerBacked => SafeCallToolAsWritten(m, true, server, tool, arguments, call)
  }

  /** What a template's `mcp_read_resource(server, uri)` returns as written. */
  function TemplateReadResource(caller: Caller, m: McpClientManager?, server: string, uri: string,
                                read: ResourceRead): (r: Json)
    requires caller.ManagerBacked? ==> m != null
    reads m
    ensures caller.NotConnectedStub? ==>
      ReplyText(r, "contents") == Some("MCP server '" + server + "' not connected")
    ensures caller.ManagerBacked? ==>
      ReplyText(r, "contents") == Some("[Resource read error: " + RunningLoopError + "]")
  {
    match caller
    case NotConnectedStub => StubReadResource(server)
    case ManagerBacked => SafeReadResourceAsWritten(m, true, server, uri, read)
  }

  /** `mcp_call_tool` as intended: with a manager, the reply of the connected server. */
  function IntendedCallTool(caller: Caller, m: McpClientManager?, server: string, tool: string,
                            arguments: Json, call: ToolCall): (r: Json)
    requires caller.ManagerBacked? ==> m != null
    reads m
    ensures caller.NotConnectedStub? ==>
      ReplyText(r, "content") == Some("MCP server '" + server + "' not connected")
    ensures caller.ManagerBacked? && server in m.sessions && call(m.sessions[server], tool, arguments).Success? ==>
      r == call(m.sessions[server], tool, arguments).value
    ensures caller.ManagerBacked? && server !in m.sessions ==>
      ReplyText(r, "content") == Some("[Tool execution failed: MCP server '" + server + "' is not connected]")
  {
    match caller
    case NotConnectedStub => StubCallTool(server)
    case ManagerBacked => SafeCallTool(m, server, tool, arguments, call)
  }

  /** `mcp_read_resource` as intended. */
  function IntendedReadResource(caller: Caller, m: McpClientManager?, server: string, uri: string,
                                read: ResourceRead): (r: Json)
    requires caller.ManagerBacked? ==> m != null
    reads m
    ensures caller.NotConnectedStub? ==>
      ReplyText(r, "contents") == Some("MCP server '" + server + "' not connected")
    ensures caller.ManagerBacked? && server in m.sessions && read(m.sessions[server], uri).Success? ==>
      r == read(m.sessions[server], uri).value
    ensures caller.ManagerBacked? && server !in m.sessions ==>
      ReplyText(r, "contents") == Some("[Resource read failed: MCP server '" + server + "' is not connected]")
  {
    match caller
    case NotConnectedStub => StubReadResource(server)
    case ManagerBacked => SafeReadResource(m, server, uri, read)
  }

  class TemplateProcessor {
    const templatePath: string
    const outputDir: string
    var mcpManager: McpClientManager?
    /** The steps taken by the last `AsyncProcess`. */
    ghost var steps: seq<Step>

    constructor (templatePath: string, outputDir: string)
      ensures this.templatePath == templatePath && this.outputDir == outputDir
      ensures mcpManager == null && steps == []
    {
      this.templatePath := templatePath;
      this.outputDir := outputDir;
      mcpManager := null;
      steps := [];
    }

    /** `async_process`. */
    method AsyncProcess(env: Environment) returns (r: Result<Output, ProcessError>)
      modifies this
      ensures r == Outcome(TemplateFileOf(templatePath, env.files, env.decode), outputDir, env)
      ensures steps == Steps(TemplateFileOf(templatePath, env.files, env.decode), env)
      ensures TemplateFileOf(templatePath, env.files, env.decode).Failure? ==> mcpManager == old(mcpManager)
      ensures TemplateFileOf(templatePath, env.files, env.decode).Success? ==>
        (mcpManager != null <==> TemplateFileOf(templatePath, env.files, env.decode).value.config.mcpServers != map[])
      ensures TemplateFileOf(templatePath, env.files, env.decode).Success? && mcpManager != null ==>
        var servers := TemplateFileOf(templatePath, env.files, env.decode).value.config.mcpServers;
        && fresh(mcpManager) && mcpManager.Valid()
        && mcpManager.config == TemplateFileOf(templatePath, env.files, env.decode).value.config
        && mcpManager.sessions == SessionsFor(servers, env.transport, servers.Keys)
        && mcpManager.closed && mcpManager.exitStack == []
        && (forall n :: StdioHandle(n) in mcpManager.released <==>
              n in servers && !env.transport(n, servers[n]).LaunchFailed?)
        && (forall n :: SessionHandle(n) in mcpManager.released <==>
              n in servers && !env.transport(n, servers[n]).LaunchFailed? && !env.transport(n, servers[n]).SessionFailed?)
    {
      steps := [];
      var loaded := FromFile(templatePath, env.files, env.decode);
      if loaded.Failure? {
        return Failure(TemplateError(loaded.error));
      }
      var tf := loaded.value;
      ghost var order;
      var extension;
      ghost var mcpSteps: seq<Step> := if tf.config.mcpServers != map[] then [McpInit] else [];
      ghost var closeSteps: seq<Step> := if tf.config.mcpServers != map[] then [McpClose] else [];
      order, extension := StartMcp(tf.config, env.transport);
      assert steps == mcpSteps;
      r := RenderAndName(tf, extension, env);
      assert steps == mcpSteps + StepsAfterInit(tf, env);
      if mcpManager != null {
        CloseMcp(env.transport, order);
      }
      assert steps == mcpSteps + StepsAfterInit(tf, env) + closeSteps;
    }

    /** Creating and initialising the manager when servers are configured, and the context
        extension that follows from it. */
    method StartMcp(config: TemplateConfig, transport: Transport)
      returns (ghost order: seq<string>, extension: map<string, Value<TemplateConfig>>)
      modifies this
      ensures steps == old(steps) + (if config.mcpServers != map[] then [McpInit] else [])
      ensures extension == Extension(config.mcpServers, transport)
      ensures mcpManager != null <==> config.mcpServers != map[]
      ensures mcpManager != null ==>
        && fresh(mcpManager) && mcpManager.Valid() && mcpManager.config == config
        && !mcpManager.closed && mcpManager.released == []
        && mcpManager.sessions == SessionsFor(config.mcpServers, transport, config.mcpServers.Keys)
        && (forall n :: n in order <==> n in config.mcpServers)
        && mcpManager.exitStack == HandlesOf(config.mcpServers, transport, order)
    {
      mcpManager := null;
      order := [];
      extension := StubExtension();
      if config.mcpServers != map[] {
        var manager := new McpClientManager(config);
        order := manager.Initialize(transport);
        AfterFresh(config.mcpServers, transport, order);
        mcpManager := manager;
        steps := steps + [McpInit];
        extension := ManagerExtension(manager.serverTools, manager.serverResources);
      }
    }

    /** The `finally` block. */
    method CloseMcp(transport: Transport, ghost order: seq<string>)
      requires mcpManager != null && mcpManager.Valid()
      requires forall n :: n in order <==> n in mcpManager.config.mcpServers
      requires mcpManager.exitStack == HandlesOf(mcpManager.config.mcpServers, transport, order)
      requires mcpManager.released == []
      modifies this, mcpManager
      ensures steps == old(steps) + [McpClose]
      ensures mcpManager == old(mcpManager) && mcpManager.config == old(mcpManager.config)
      ensures mcpManager.Valid() && mcpManager.sessions == old(mcpManager.sessions)
      ensures mcpManager.closed && mcpManager.exitStack == []
      ensures var servers := mcpManager.config.mcpServers;
        && (forall n :: StdioHandle(n) in mcpManager.released <==>
              n in servers && !transport(n, servers[n]).LaunchFailed?)
        && (forall n :: SessionHandle(n) in mcpManager.released <==>
              n in servers && !transport(n, servers[n]).LaunchFailed? && !transport(n, servers[n]).SessionFailed?)
    {
      var servers := mcpManager.config.mcpServers;
      ReversedMembers(mcpManager.exitStack);
      mcpManager.Close();
      steps := steps + [McpClose];
      forall n
        ensures StdioHandle(n) in mcpManager.released <==> n in servers && !transport(n, servers[n]).LaunchFailed?
        ensures SessionHandle(n) in mcpManager.released <==>
          n in servers && !transport(n, servers[n]).LaunchFailed? && !transport(n, servers[n]).SessionFailed?
      {
        HandlesOfEntered(servers, transport, order, n);
      }
    }

    /** The `try` block: load, check for classes, render and name the output. */
    method RenderAndName(tf: TemplateFile, extension: map<string, Value<TemplateConfig>>, env: Environment)
      returns (r: Result<Output, ProcessError>)
      requires extension == Extension(tf.config.mcpServers, env.transport)
      modifies this`steps
      ensures steps == old(steps) + StepsAfterInit(tf, env)
      ensures r == OutcomeAfterInit(tf, outputDir, env)
    {
      ghost var s0 := steps;
      steps := steps + [ModuleLoad];
      var ran := env.loadModule(tf.pythonCode);
      if ran.Failure? {
        LoadFailed(tf, env);
        return Failure(ModuleError(ran.error));
      }
      var classes := ExtractPydanticClasses(ran.value.1);
      var info := ModuleInfo(ran.value.0, classes);
      if !HasClasses(info) {
        LoadedWithoutClasses(tf, env, info);
        return Failure(NoPydanticClasses);
      }
      r := RenderLoaded(tf, extension, env, info);
      AppendAfterLoad(s0, StepsAfterInit(tf, env));
    }

    /** The rest of the `try` block once the module defined model classes: render the
        template and name the output. */
    method RenderLoaded(tf: TemplateFile, extension: map<string, Value<TemplateConfig>>, env: Environment,
                        info: ModuleInfo)
      returns (r: Result<Output, ProcessError>)
      requires extension == Extension(tf.config.mcpServers, env.transport)
      requires env.loadModule(tf.pythonCode).Success?
      requires info == Load(env.loadModule(tf.pythonCode).value.0, env.loadModule(tf.pythonCode).value.1)
      requires HasClasses(info)
      modifies this`steps
      ensures steps == old(steps) + StepsAfterInit(tf, env)[1..]
      ensures r == OutcomeAfterInit(tf, outputDir, env)
    {
      ghost var s0 := steps;
      var base := BuildContext(tf.config, info);
      steps := steps + [Render];
      var rendered := env.render(tf.templateContent, RenderContext(base, extension));
      RenderedWith(tf, env, info, base, extension, rendered, outputDir);
      if rendered.Failure? {
        return Failure(RenderError(rendered.error));
      }
      var name := OutputFilename(tf.config.outputFile, tf.path);
      steps := steps + [Write];
      AppendTwo(s0, Render, Write);
      r := Success(Output(JoinPath(outputDir, name), rendered.value));
    }
  }
}
