/** The configuration side of `templateer.py`: `McpServerConfig`, the MCP-aware
    `TemplateConfig.from_raw_config` and `TemplateFile.from_file`. The line parser and the
    section split are the ones of `parsing.py`, which this file repeats verbatim. */
module Templateer {
  import opened Wrappers
  import opened Text
  import opened Json
  import opened Paths
  import opened ConfigLines
  import opened Parsing

  /** `McpServerConfig`: how to launch one MCP server. */
  datatype ServerConfig = ServerConfig(command: string, args: seq<string>, env: Option<map<string, string>>)

  /** The typed configuration of `templateer.py`. */
  datatype TemplateConfig = TemplateConfig(
    outputFile: Option<string>,
    imports: seq<string>,
    referenceFile: Option<string>,
    mcpServers: map<string, ServerConfig>,
    mcpTools: seq<string>,
    mcpResources: seq<string>,
    extraParams: map<string, Json>)

  /** The MCP keys popped besides the basic ones. */
  const McpKeys: set<string> := {"mcp-servers", "mcp-tools", "mcp-resources"}

  /** The value of every member is a string: `Dict[str, str]` validation. */
  function StringDict(members: seq<(string, Json)>): (r: Option<map<string, string>>)
    ensures r.Some? <==> forall i :: 0 <= i < |members| ==> members[i].1.JString?
    ensures r.Some? ==> r.value.Keys == NameSet(members)
    decreases |members|
  {
    if members == [] then Some(map[])
    else
      var last := members[|members| - 1];
      var init := members[..|members| - 1];
      assert forall i :: 0 <= i < |init| ==> init[i] == members[i];
      assert NameSet(members) == NameSet(init) + {last.0};
      match StringDict(init)
      case None => None
      case Some(d) => if last.1.JString? then Some(d[last.0 := last.1.s]) else None
  }

  /** Each name maps to the string of its last member. */
  lemma {:induction false} StringDictValue(members: seq<(string, Json)>, i: nat)
    requires StringDict(members).Some?
    requires i < |members| && forall j :: i < j < |members| ==> members[j].0 != members[i].0
    ensures StringDict(members).value[members[i].0] == members[i].1.s
    decreases |members|
  {
    if i < |members| - 1 {
      var init := members[..|members| - 1];
      assert init[i] == members[i];
      StringDictValue(init, i);
    }
  }

  /** What `McpServerConfig(**value)` does with one decoded server entry. */
  datatype ServerOutcome =
    | Built(config: ServerConfig)
    | NotAMapping  // `**` on a value that is not a mapping raises `TypeError`
    | Invalid      // the model rejects the entry: `ValidationError`

  /** `McpServerConfig(**value)`: `command` is a required string, `args` a list of strings
      (default empty), `env` null or an object of strings (default null); other keys are
      ignored. */
  function BuildServer(v: Json): (r: ServerOutcome)
    ensures r.NotAMapping? <==> !v.JObject?
    ensures r.Built? ==> Get(v.members, "command") == Some(JString(r.config.command))
    ensures r.Built? ==> (Get(v.members, "args").None? ==> r.config.args == [])
    ensures r.Built? && Get(v.members, "args").Some? ==> Get(v.members, "args") == Some(JArray(FromStrings(r.config.args)))
    ensures r.Built? ==> (r.config.env.None? <==> Get(v.members, "env").None? || Get(v.members, "env") == Some(JNull))
    ensures v.JObject? && Get(v.members, "command").None? ==> r.Invalid?
    ensures v.JObject? ==> (r.Built? <==>
      Get(v.members, "command").Some? && Get(v.members, "command").value.JString? &&
      (Get(v.members, "args").None? || StrList("args", Get(v.members, "args").value).Success?) &&
      (Get(v.members, "env").None? || Get(v.members, "env").value.JNull? ||
       (Get(v.members, "env").value.JObject? && StringDict(Get(v.members, "env").value.members).Some?)))
    ensures r.Built? && Get(v.members, "env").Some? && Get(v.members, "env").value.JObject? ==>
      r.config.env == StringDict(Get(v.members, "env").value.members)
  {
    if !v.JObject? then NotAMapping
    else
      var args := match Get(v.members, "args")
        case None => Success([])
        case Some(a) => StrList("args", a);
      var env := match Get(v.members, "env")
        case None => Some(None)
        case Some(JNull) => Some(None)
        case Some(JObject(ms)) => (match StringDict(ms) case Some(d) => Some(Some(d)) case None => None)
        case Some(_) => None;
      match Get(v.members, "command")
      case Some(JString(command)) =>
        if args.Success? && env.Some? then Built(ServerConfig(command, args.value, env.value)) else Invalid
      case _ => Invalid
  }

  /** How the loop over the servers ended. */
  datatype Stop =
    | Completed
    | TypeErrorStop   // a non-mapping entry: caught, the servers added so far are kept
    | Rejected        // an invalid entry: the error propagates out of `from_raw_config`

  /** A builder of one server entry. */
  type Builder = Json -> ServerOutcome

  /** The servers the loop `for server_name, server_config in servers_config.items()` has
      added after seeing `members`, and how it stopped. */
  function ServersOf(members: seq<(string, Json)>, build: Builder): (r: (map<string, ServerConfig>, Stop))
    decreases |members|
  {
    if members == [] then (map[], Completed)
    else
      var prev := ServersOf(members[..|members| - 1], build);
      var last := members[|members| - 1];
      if prev.1 != Completed then prev
      else
        match build(last.1)
        case Built(c) => (prev.0[last.0 := c], Completed)
        case NotAMapping => (prev.0, TypeErrorStop)
        case Invalid => (prev.0, Rejected)
  }

  /** Once the loop has stopped, later entries change nothing. */
  lemma {:induction false} ServersOfStopped(members: seq<(string, Json)>, build: Builder, i: nat)
    requires i <= |members|
    requires ServersOf(members[..i], build).1 != Completed
    ensures ServersOf(members, build) == ServersOf(members[..i], build)
    decreases |members|
  {
    if i < |members| {
      var init := members[..|members| - 1];
      assert init[..i] == members[..i];
      ServersOfStopped(init, build, i);
    } else {
      assert members[..i] == members;
    }
  }

  /** The loop over the decoded server table. */
  method LoadServers(members: seq<(string, Json)>) returns (servers: map<string, ServerConfig>, stop: Stop)
    ensures (servers, stop) == ServersOf(members, BuildServer)
  {
    servers := map[];
    stop := Completed;
    var i := 0;
    while i < |members|
      invariant 0 <= i <= |members|
      invariant (servers, Completed) == ServersOf(members[..i], BuildServer)
    {
      assert members[..i + 1][..i] == members[..i];
      var (name, entry) := members[i];
      var outcome := BuildServer(entry);
      if outcome.NotAMapping? {
        stop := TypeErrorStop;
        ServersOfStopped(members, BuildServer, i + 1);
        return;
      } else if outcome.Invalid? {
        stop := Rejected;
        ServersOfStopped(members, BuildServer, i + 1);
        return;
      }
      servers := servers[name := outcome.config];
      i := i + 1;
    }
    assert members[..i] == members;
  }

  /** When every entry is a valid server the loop completes and configures every name. */
  lemma {:induction false} ServersOfAllBuilt(members: seq<(string, Json)>, build: Builder)
    requires forall i :: 0 <= i < |members| ==> build(members[i].1).Built?
    ensures ServersOf(members, build).1 == Completed
    ensures ServersOf(members, build).0.Keys == NameSet(members)
    decreases |members|
  {
    if members != [] {
      var init := members[..|members| - 1];
      assert forall i :: 0 <= i < |init| ==> init[i] == members[i];
      ServersOfAllBuilt(init, build);
      assert NameSet(members) == NameSet(init) + {members[|members| - 1].0};
    }
  }

  /** ... each with the entry that comes last for its name. */
  lemma {:induction false} ServersOfLastWins(members: seq<(string, Json)>, build: Builder, i: nat)
    requires forall j :: 0 <= j < |members| ==> build(members[j].1).Built?
    requires i < |members| && forall j :: i < j < |members| ==> members[j].0 != members[i].0
    ensures members[i].0 in ServersOf(members, build).0
    ensures ServersOf(members, build).0[members[i].0] == build(members[i].1).config
    decreases |members|
  {
    var init := members[..|members| - 1];
    assert forall j :: 0 <= j < |init| ==> init[j] == members[j];
    ServersOfAllBuilt(init, build);
    if i < |members| - 1 {
      ServersOfLastWins(init, build, i);
    }
  }

  /** The first entry that is not a valid server stops the loop: the entries before it are
      kept, nothing after it is looked at. */
  lemma ServersOfStopsAt(members: seq<(string, Json)>, build: Builder, k: nat)
    requires k < |members|
    requires forall i :: 0 <= i < k ==> build(members[i].1).Built?
    requires !build(members[k].1).Built?
    ensures ServersOf(members, build).0 == ServersOf(members[..k], build).0
    ensures ServersOf(members, build).1 == (if build(members[k].1).Invalid? then Rejected else TypeErrorStop)
  {
    var prefix := members[..k];
    assert forall i :: 0 <= i < k ==> prefix[i] == members[i];
    ServersOfAllBuilt(prefix, build);
    assert members[..k + 1][..k] == prefix;
    ServersOfStopped(members, build, k + 1);
  }

  /** The `mcp-servers` value names a file: it ends with `.json` or starts with `file:`. */
  predicate IsFileReference(v: Json) {
    v.JString? && (EndsWith(v.s, ".json") || StartsWith(v.s, "file:"))
  }

  /** The file a reference names: without its `file:` prefix, under `baseDir` if given. */
  function ServersFilePath(reference: string, baseDir: Option<string>): (path: string)
    ensures StartsWith(reference, "file:") && baseDir.None? ==> path == reference[5..]
    ensures !StartsWith(reference, "file:") && baseDir.None? ==> path == reference
    ensures StartsWith(reference, "file:") && baseDir.Some? ==> path == JoinPath(baseDir.value, reference[5..])
    ensures !StartsWith(reference, "file:") && baseDir.Some? ==> path == JoinPath(baseDir.value, reference)
  {
    var p := if StartsWith(reference, "file:") then reference[5..] else reference;
    if baseDir.Some? then JoinPath(baseDir.value, p) else p
  }

  /** The servers of a decoded table: `.items()` on a value that is not an object raises
      `AttributeError`, which nothing catches. The table comes from `json.loads`, so each
      name occurs once and the loop sees each entry once. */
  function ServersOfDocument(doc: Json): (r: Result<map<string, ServerConfig>, ConfigError>)
    requires Loaded(doc)
    ensures r.Failure? ==> r.error == NotAnObject || r.error == ValidationError("mcp_servers")
    ensures r.Failure? && r.error == NotAnObject <==> !doc.JObject?
    ensures doc.JObject? && ServersOf(doc.members, BuildServer).1 != Rejected ==>
      r == Success(ServersOf(doc.members, BuildServer).0)
    ensures doc.JObject? && ServersOf(doc.members, BuildServer).1 == Rejected ==>
      r == Failure(ValidationError("mcp_servers"))
  {
    if !doc.JObject? then Failure(NotAnObject)
    else
      var (servers, stop) := ServersOf(doc.members, BuildServer);
      if stop == Rejected then Failure(ValidationError("mcp_servers")) else Success(servers)
  }

  /** The `mcp-servers` handling of `from_raw_config`. A missing file, text that is not JSON and
      a value `json.loads` cannot take are reported and leave no server configured. */
  function McpServersOf(value: Option<Json>, baseDir: Option<string>, files: map<string, string>, decode: Decoder): (r: Result<map<string, ServerConfig>, ConfigError>)
    ensures r.Failure? ==> r.error == NotAnObject || r.error == ValidationError("mcp_servers")
    ensures value.None? ==> r == Success(map[])
    ensures value.Some? && IsFileReference(value.value) && ServersFilePath(value.value.s, baseDir) !in files ==> r == Success(map[])
    ensures value.Some? && !value.value.JString? ==> r == Success(map[])
    ensures value.Some? && IsFileReference(value.value) && ServersFilePath(value.value.s, baseDir) in files ==>
      var text := files[ServersFilePath(value.value.s, baseDir)];
      (decode(text).None? ==> r == Success(map[])) &&
      (decode(text).Some? ==> r == ServersOfDocument(decode(text).value))
    ensures value.Some? && value.value.JString? && !IsFileReference(value.value) ==>
      (decode(value.value.s).None? ==> r == Success(map[])) &&
      (decode(value.value.s).Some? ==> r == ServersOfDocument(decode(value.value.s).value))
  {
    match value
    case None => Success(map[])
    case Some(v) =>
      if IsFileReference(v) then
        var path := ServersFilePath(v.s, baseDir);
        if path !in files then Success(map[])
        else
          match decode(files[path])
          case None => Success(map[])
          case Some(doc) => ServersOfDocument(doc)
      else if !v.JString? then Success(map[])
      else
        match decode(v.s)
        case None => Success(map[])
        case Some(doc) => ServersOfDocument(doc)
  }

  /** The `mcp-servers` handling, reading the file and running the loop. */
  method LoadMcpServers(v: Json, baseDir: Option<string>, files: map<string, string>, decode: Decoder) returns (r: Result<map<string, ServerConfig>, ConfigError>)
    ensures r == McpServersOf(Some(v), baseDir, files, decode)
  {
    var doc: Option<Json>;
    if IsFileReference(v) {
      var path := ServersFilePath(v.s, baseDir);
      if path !in files {
        return Success(map[]);
      }
      doc := decode(files[path]);
    } else if !v.JString? {
      return Success(map[]);
    } else {
      doc := decode(v.s);
    }
    if doc.None? {
      return Success(map[]);
    }
    if !doc.value.JObject? {
      return Failure(NotAnObject);
    }
    var servers, stop := LoadServers(doc.value.members);
    if stop == Rejected {
      return Failure(ValidationError("mcp_servers"));
    }
    r := Success(servers);
  }

  /** `cls(...)` of `templateer.py` after the `Path` conversion. */
  function ValidatedFull(output: Json, imports: Json, reference: Json, baseDir: Option<string>, servers: map<string, ServerConfig>, tools: Json, resources: Json, extra: map<string, Json>): Result<TemplateConfig, ConfigError> {
    var o := OptionalStr("output_file", output);
    var i := StrList("imports", imports);
    var f := ReferenceFile(reference, baseDir);
    var t := StrList("mcp_tools", tools);
    var s := StrList("mcp_resources", resources);
    if f == Failure(PathTypeError) then Failure(PathTypeError)
    else if o.Failure? then Failure(o.error)
    else if i.Failure? then Failure(i.error)
    else if f.Failure? then Failure(f.error)
    else if t.Failure? then Failure(t.error)
    else if s.Failure? then Failure(s.error)
    else Success(TemplateConfig(o.value, i.value, f.value, servers, t.value, s.value, extra))
  }

  /** The `mcp-servers` entry of a raw dict, if any. */
  function ServersEntry(raw: map<string, Json>): Option<Json> {
    if "mcp-servers" in raw then Some(raw["mcp-servers"]) else None
  }

  /** `TemplateConfig.from_raw_config` of `templateer.py` on the raw dict. */
  function TemplateConfigOf(raw: map<string, Json>, baseDir: Option<string>, files: map<string, string>, decode: Decoder): (r: Result<TemplateConfig, ConfigError>)
    ensures r.Success? ==> r.value.extraParams == raw - BasicKeys - McpKeys
  {
    match McpServersOf(ServersEntry(raw), baseDir, files, decode)
    case Failure(e) => Failure(e)
    case Success(servers) =>
      ValidatedFull(
        Lookup(raw, "output-file", JNull), Lookup(raw, "imports", JArray([])),
        Lookup(raw, "reference-file", JNull), baseDir, servers,
        Lookup(raw, "mcp-tools", JArray([])), Lookup(raw, "mcp-resources", JArray([])),
        raw - BasicKeys - McpKeys)
  }

  /** Without any known key the defaults apply: no output file, no imports, no reference
      file, no servers, no tools, no resources, and every key is an extra parameter. */
  lemma TemplateConfigDefaults(raw: map<string, Json>, baseDir: Option<string>, files: map<string, string>, decode: Decoder)
    requires raw.Keys !! (BasicKeys + McpKeys)
    ensures TemplateConfigOf(raw, baseDir, files, decode) == Success(TemplateConfig(None, [], None, map[], [], [], raw))
  {
    assert ServersEntry(raw) == None;
    assert raw - BasicKeys - McpKeys == raw;
  }

  /** A configuration written back as raw entries, with its servers given as inline JSON text
      that decodes to an object whose entries all build, is typed back to itself (without a
      base directory, which would move the reference file). */
  function FullRawOf(c: TemplateConfig, serversText: string): map<string, Json> {
    c.extraParams
      ["output-file" := if c.outputFile.Some? then JString(c.outputFile.value) else JNull]
      ["imports" := JArray(FromStrings(c.imports))]
      ["reference-file" := if c.referenceFile.Some? then JString(c.referenceFile.value) else JNull]
      ["mcp-servers" := JString(serversText)]
      ["mcp-tools" := JArray(FromStrings(c.mcpTools))]
      ["mcp-resources" := JArray(FromStrings(c.mcpResources))]
  }

  lemma TemplateConfigRoundTrip(c: TemplateConfig, serversText: string, files: map<string, string>, decode: Decoder)
    requires c.extraParams.Keys !! (BasicKeys + McpKeys)
    requires c.referenceFile != Some([])
    requires !IsFileReference(JString(serversText))
    requires decode(serversText).Some? && decode(serversText).value.JObject?
    requires ServersOf(decode(serversText).value.members, BuildServer) == (c.mcpServers, Completed)
    ensures TemplateConfigOf(FullRawOf(c, serversText), None, files, decode) == Success(c)
  {
    FullRawLookups(c, serversText);
    FullRawExtra(c, serversText);
    assert McpServersOf(Some(JString(serversText)), None, files, decode) == Success(c.mcpServers);
    ValidatedFullOf(c);
  }

  /** The known keys of the written-back dict hold the written-back values. */
  lemma FullRawLookups(c: TemplateConfig, serversText: string)
    ensures var raw := FullRawOf(c, serversText);
      && ServersEntry(raw) == Some(JString(serversText))
      && Lookup(raw, "output-file", JNull) == (if c.outputFile.Some? then JString(c.outputFile.value) else JNull)
      && Lookup(raw, "imports", JArray([])) == JArray(FromStrings(c.imports))
      && Lookup(raw, "reference-file", JNull) == (if c.referenceFile.Some? then JString(c.referenceFile.value) else JNull)
      && Lookup(raw, "mcp-tools", JArray([])) == JArray(FromStrings(c.mcpTools))
      && Lookup(raw, "mcp-resources", JArray([])) == JArray(FromStrings(c.mcpResources))
  {
  }

  /** Removing the known keys from the written-back dict leaves the extra parameters. */
  lemma FullRawExtra(c: TemplateConfig, serversText: string)
    requires c.extraParams.Keys !! (BasicKeys + McpKeys)
    ensures FullRawOf(c, serversText) - BasicKeys - McpKeys == c.extraParams
  {
  }

  /** Typing the written-back values of a configuration gives the configuration. */
  lemma ValidatedFullOf(c: TemplateConfig)
    requires c.referenceFile != Some([])
    ensures ValidatedFull(
      if c.outputFile.Some? then JString(c.outputFile.value) else JNull, JArray(FromStrings(c.imports)),
      if c.referenceFile.Some? then JString(c.referenceFile.value) else JNull, None, c.mcpServers,
      JArray(FromStrings(c.mcpTools)), JArray(FromStrings(c.mcpResources)), c.extraParams) == Success(c)
  {
    StrListRoundTrip("imports", c.imports);
    StrListRoundTrip("mcp_tools", c.mcpTools);
    StrListRoundTrip("mcp_resources", c.mcpResources);
    assert OptionalStr("output_file", if c.outputFile.Some? then JString(c.outputFile.value) else JNull) == Success(c.outputFile);
    assert ReferenceFile(if c.referenceFile.Some? then JString(c.referenceFile.value) else JNull, None) == Success(c.referenceFile);
  }

  /** Inline JSON text whose entries all build configures one server per name, each with its
      own entry. */
  lemma InlineServersConfigured(text: string, baseDir: Option<string>, files: map<string, string>, decode: Decoder, i: nat)
    requires !IsFileReference(JString(text))
    requires decode(text).Some? && decode(text).value.JObject?
    requires var ms := decode(text).value.members;
      forall j :: 0 <= j < |ms| ==> BuildServer(ms[j].1).Built?
    requires i < |decode(text).value.members|
    ensures var r := McpServersOf(Some(JString(text)), baseDir, files, decode);
      var ms := decode(text).value.members;
      r.Success? && r.value.Keys == NameSet(ms) && r.value[ms[i].0] == BuildServer(ms[i].1).config
  {
    var ms := decode(text).value.members;
    assert Loaded(decode(text).value);
    ServersOfAllBuilt(ms, BuildServer);
    ServersOfLastWins(ms, BuildServer, i);
    assert ServersOfDocument(decode(text).value) == Success(ServersOf(ms, BuildServer).0);
    assert McpServersOf(Some(JString(text)), baseDir, files, decode) == ServersOfDocument(decode(text).value);
  }

  /** The keys `from_raw_config` has popped when it returns or raises: an error in the server
      table propagates before `mcp-tools` and `mcp-resources` are popped. */
  function PoppedKeys(raw: map<string, Json>, baseDir: Option<string>, files: map<string, string>, decode: Decoder): set<string> {
    if McpServersOf(ServersEntry(raw), baseDir, files, decode).Failure? then BasicKeys + {"mcp-servers"}
    else BasicKeys + McpKeys
  }

  /** `from_raw_config`, popping the known keys from the dict it is given. */
  method FromRawConfig(d: ConfigDict, baseDir: Option<string>, files: map<string, string>, decode: Decoder) returns (r: Result<TemplateConfig, ConfigError>)
    modifies d
    ensures d.entries == old(d.entries) - PoppedKeys(old(d.entries), baseDir, files, decode)
    ensures r == TemplateConfigOf(old(d.entries), baseDir, files, decode)
  {
    var outputFile, imports, referenceFile, servers := PopBasicAndServers(d, baseDir, files, decode);
    if servers.Failure? {
      return Failure(servers.error);
    }
    ghost var afterServers := d.entries;
    var tools, resources := PopLists(d);
    KeysAfterPops(old(d.entries), afterServers, d.entries);
    assert tools == Lookup(old(d.entries), "mcp-tools", JArray([]));
    assert resources == Lookup(old(d.entries), "mcp-resources", JArray([]));
    r := ValidatedFull(outputFile, imports, referenceFile, baseDir, servers.value, tools, resources, d.entries);
  }

  /** The dict after each stage of pops. */
  lemma KeysAfterPops(raw: map<string, Json>, afterServers: map<string, Json>, afterLists: map<string, Json>)
    requires afterServers == raw - (BasicKeys + {"mcp-servers"})
    requires afterLists == afterServers - {"mcp-tools", "mcp-resources"}
    ensures afterLists == raw - BasicKeys - McpKeys
    ensures Lookup(afterServers, "mcp-tools", JArray([])) == Lookup(raw, "mcp-tools", JArray([]))
    ensures Lookup(afterServers, "mcp-resources", JArray([])) == Lookup(raw, "mcp-resources", JArray([]))
  {
  }

  /** The pops up to and including the handling of `mcp-servers`. */
  method PopBasicAndServers(d: ConfigDict, baseDir: Option<string>, files: map<string, string>, decode: Decoder)
    returns (outputFile: Json, imports: Json, referenceFile: Json, servers: Result<map<string, ServerConfig>, ConfigError>)
    modifies d
    ensures d.entries == old(d.entries) - (BasicKeys + {"mcp-servers"})
    ensures outputFile == Lookup(old(d.entries), "output-file", JNull)
    ensures imports == Lookup(old(d.entries), "imports", JArray([]))
    ensures referenceFile == Lookup(old(d.entries), "reference-file", JNull)
    ensures servers == McpServersOf(ServersEntry(old(d.entries)), baseDir, files, decode)
  {
    ghost var raw := d.entries;
    outputFile := d.Pop("output-file", JNull);
    imports := d.Pop("imports", JArray([]));
    referenceFile := d.Pop("reference-file", JNull);
    assert ServersEntry(d.entries) == ServersEntry(raw);
    servers := PopServers(d, baseDir, files, decode);
  }

  /** The pops of `mcp-tools` and `mcp-resources`. */
  method PopLists(d: ConfigDict) returns (tools: Json, resources: Json)
    modifies d
    ensures d.entries == old(d.entries) - {"mcp-tools", "mcp-resources"}
    ensures tools == Lookup(old(d.entries), "mcp-tools", JArray([]))
    ensures resources == Lookup(old(d.entries), "mcp-resources", JArray([]))
  {
    tools := d.Pop("mcp-tools", JArray([]));
    resources := d.Pop("mcp-resources", JArray([]));
  }

  /** `if "mcp-servers" in config_dict:` and the handling of the popped value. */
  method PopServers(d: ConfigDict, baseDir: Option<string>, files: map<string, string>, decode: Decoder) returns (r: Result<map<string, ServerConfig>, ConfigError>)
    modifies d
    ensures d.entries == old(d.entries) - {"mcp-servers"}
    ensures r == McpServersOf(ServersEntry(old(d.entries)), baseDir, files, decode)
  {
    r := Success(map[]);
    var hasServers := d.Has("mcp-servers");
    if hasServers {
      var v := d.Pop("mcp-servers", JNull);
      r := LoadMcpServers(v, baseDir, files, decode);
    }
  }

  /** A template file of `templateer.py`. */
  datatype TemplateFile = TemplateFile(path: string, pythonCode: string, templateContent: string, config: TemplateConfig)

  /** What `from_file` produces for `path`: the configuration is read relative to the
      directory of the template. */
  function TemplateFileOf(path: string, files: map<string, string>, decode: Decoder): Result<TemplateFile, LoadError> {
    if path !in files then Failure(TemplateNotFound(path))
    else
      match SplitDocument(files[path])
      case None => Failure(MissingTemplateSection(path))
      case Some(sec) =>
        match TemplateConfigOf(ParsedConfig(sec.configText, decode), Some(Parent(path)), files, decode)
        case Failure(e) => Failure(InvalidConfig(e))
        case Success(cfg) => Success(TemplateFile(path, sec.code, sec.template, cfg))
  }

  /** `TemplateFile.from_file`. */
  method FromFile(path: string, files: map<string, string>, decode: Decoder) returns (r: Result<TemplateFile, LoadError>)
    ensures r == TemplateFileOf(path, files, decode)
  {
    if path !in files {
      return Failure(TemplateNotFound(path));
    }
    var sections := SplitDocument(files[path]);
    if sections.None? {
      return Failure(MissingTemplateSection(path));
    }
    var raw := ParseTemplateConfig(sections.value.configText, decode);
    var d := new ConfigDict(raw);
    var config := FromRawConfig(d, Some(Parent(path)), files, decode);
    if config.Failure? {
      return Failure(InvalidConfig(config.error));
    }
    r := Success(TemplateFile(path, sections.value.code, sections.value.template, config.value));
  }
}
