/** The configuration blocks of the two sample templates shipped with the package,
    `templates/person_template.py` and `templates/weather_mcp.py`, read by the model. The JSON
    decoder is left open: whether it decodes a bracketed list or rejects it, the comma-split
    fallback gives the same strings for these blocks. */
module Samples {
  import opened Wrappers
  import opened Text
  import opened Json
  import opened Paths
  import opened ConfigLines
  import opened Parsing
  import opened Templateer

  /** A block line `# <key> = <value>`, as the samples write them. */
  function Line(key: string, value: string): string {
    "# " + key + " = " + value
  }

  /** `"<s>"`. */
  function Quoted(s: string): string {
    "\"" + s + "\""
  }

  /** `["<s>"]`. */
  function OneItem(s: string): string {
    "[\"" + s + "\"]"
  }

  /** The block of `person_template.py` as `from_file` captures and strips it. */
  function PersonBlock(): string {
    Join([
      Line("output-file", Quoted("person_schema.md")),
      Line("imports", OneItem("helpers.py")),
      Line("reference-file", Quoted("./data/sample.json"))], '\n')
  }

  /** A decoder that either reads `text` as `value` or rejects it. */
  predicate DecodesOrRejects(decode: Decoder, text: string, value: Json) {
    decode(text).None? || decode(text) == Some(value)
  }

  /** The person block parses to its three settings. */
  lemma PersonConfig(decode: Decoder)
    requires DecodesOrRejects(decode, OneItem("helpers.py"), JArray([JString("helpers.py")]))
    ensures ParsedConfig(PersonBlock(), decode) == map[
      "output-file" := JString("person_schema.md"),
      "imports" := JArray([JString("helpers.py")]),
      "reference-file" := JString("./data/sample.json")]
  {
    PersonKeys();
    PersonTexts();
    QuotedString("person_schema.md", decode);
    OneItemList("helpers.py", decode);
    QuotedString("./data/sample.json", decode);
    QuotedLine("output-file", "person_schema.md");
    OneItemLine("imports", "helpers.py");
    QuotedLine("reference-file", "./data/sample.json");
    ThreeSettings("output-file", Quoted("person_schema.md"), "imports", OneItem("helpers.py"),
      "reference-file", Quoted("./data/sample.json"), decode);
  }

  /** `from_raw_config` of `templateer.py` types the person settings: the reference file is
      resolved under the template's directory, and nothing is left for `extra_params`. */
  lemma PersonTemplateConfig(decode: Decoder, dir: string, files: map<string, string>)
    requires DecodesOrRejects(decode, OneItem("helpers.py"), JArray([JString("helpers.py")]))
    ensures TemplateConfigOf(ParsedConfig(PersonBlock(), decode), Some(dir), files, decode)
      == Success(TemplateConfig(Some("person_schema.md"), ["helpers.py"], Some(JoinPath(dir, "./data/sample.json")),
                                map[], [], [], map[]))
  {
    PersonConfig(decode);
    TypedSettings(JString("person_schema.md"), JArray([JString("helpers.py")]), JString("./data/sample.json"),
      dir, files, decode);
    assert FromStrings(["helpers.py"]) == [JString("helpers.py")];
    TypedStrings("person_schema.md", ["helpers.py"], "./data/sample.json", dir);
  }

  /** String settings type to themselves; an empty list of MCP tools and resources is kept. */
  lemma TypedStrings(output: string, imports: seq<string>, reference: string, dir: string)
    requires reference != []
    ensures ValidatedFull(JString(output), JArray(FromStrings(imports)), JString(reference), Some(dir), map[],
                          JArray([]), JArray([]), map[])
      == Success(TemplateConfig(Some(output), imports, Some(JoinPath(dir, reference)), map[], [], [], map[]))
  {
    StrListRoundTrip("imports", imports);
    EmptyStrList("mcp_tools");
    EmptyStrList("mcp_resources");
    TypedParts(JString(output), JArray(FromStrings(imports)), JString(reference), Some(dir), JArray([]), JArray([]),
      Some(output), imports, Some(JoinPath(dir, reference)), [], []);
  }

  /** Settings whose every part validates type to the configuration of those parts. */
  lemma TypedParts(output: Json, imports: Json, reference: Json, baseDir: Option<string>, tools: Json, resources: Json,
                   o: Option<string>, i: seq<string>, f: Option<string>, t: seq<string>, s: seq<string>)
    requires OptionalStr("output_file", output) == Success(o)
    requires StrList("imports", imports) == Success(i)
    requires ReferenceFile(reference, baseDir) == Success(f)
    requires StrList("mcp_tools", tools) == Success(t)
    requires StrList("mcp_resources", resources) == Success(s)
    ensures ValidatedFull(output, imports, reference, baseDir, map[], tools, resources, map[])
      == Success(TemplateConfig(o, i, f, map[], t, s, map[]))
  {
  }

  /** An empty array validates to an empty list. */
  lemma EmptyStrList(field: string)
    ensures StrList(field, JArray([])) == Success([])
  {
    StrListRoundTrip(field, []);
    assert FromStrings([]) == [];
  }

  /** A raw dict with exactly the three basic keys types to a configuration without MCP
      servers. */
  lemma TypedSettings(output: Json, imports: Json, reference: Json, dir: string, files: map<string, string>, decode: Decoder)
    ensures var raw := map["output-file" := output, "imports" := imports, "reference-file" := reference];
      TemplateConfigOf(raw, Some(dir), files, decode)
        == ValidatedFull(output, imports, reference, Some(dir), map[], JArray([]), JArray([]), map[])
  {
    var raw := map["output-file" := output, "imports" := imports, "reference-file" := reference];
    assert raw.Keys == BasicKeys;
    assert ServersEntry(raw) == None;
    assert raw - BasicKeys - McpKeys == map[];
  }

  /** The `mcp-servers` value of `weather_mcp.py`: a `file:` reference. */
  function WeatherServers(): string {
    "file:" + "./mcp_servers.json"
  }

  /** The `mcp-servers` line of the weather block is kept as a string, taken for a file
      reference, and names `mcp_servers.json` beside the template; while that file is missing
      the template has no server. */
  lemma WeatherServersReference(decode: Decoder, dir: string, files: map<string, string>)
    ensures ParseLine(Line("mcp-servers", WeatherServers()), decode) == Some(("mcp-servers", JString(WeatherServers())))
    ensures IsFileReference(JString(WeatherServers()))
    ensures ServersFilePath(WeatherServers(), Some(dir)) == JoinPath(dir, "./mcp_servers.json")
    ensures JoinPath(dir, "./mcp_servers.json") !in files ==>
      McpServersOf(Some(JString(WeatherServers())), Some(dir), files, decode) == Success(map[])
  {
    assert SettingKey("mcp-servers") && ReferenceText("./mcp_servers.json");
    FileReference("mcp-servers", "./mcp_servers.json", decode);
  }

  /** Text after `file:` that `FileReference` accepts. */
  predicate ReferenceText(rest: string) {
    rest != [] && rest[|rest| - 1] !in Whitespace && rest[|rest| - 1] != '#'
  }

  /** A `key = file:<rest>` line holds a string that is a file reference to `rest`. */
  lemma FileReference(key: string, rest: string, decode: Decoder)
    requires SettingKey(key) && ReferenceText(rest)
    ensures ParseLine(Line(key, "file:" + rest), decode) == Some((key, JString("file:" + rest)))
    ensures IsFileReference(JString("file:" + rest))
    ensures forall dir :: ServersFilePath("file:" + rest, Some(dir)) == JoinPath(dir, rest)
  {
    FileLine(key, rest, decode);
    FilePrefix(rest);
  }

  /** The line itself. */
  lemma FileLine(key: string, rest: string, decode: Decoder)
    requires SettingKey(key) && ReferenceText(rest)
    ensures ParseLine(Line(key, "file:" + rest), decode) == Some((key, JString("file:" + rest)))
  {
    var v := "file:" + rest;
    FileEnds(rest);
    CommentedLine(key, v, decode);
    PlainValue(v, decode);
  }

  /** The ends of `file:<rest>`. */
  lemma FileEnds(rest: string)
    requires rest != []
    ensures var v := "file:" + rest; v != [] && v[|v| - 1] == rest[|rest| - 1]
    ensures var v := "file:" + rest; v[0] !in Whitespace && v[0] !in QuoteChars && v[0] != '['
  {
    assert ("file:" + rest)[0] == 'f';
    assert 'f' !in Whitespace && 'f' !in QuoteChars;
  }

  /** A value that starts with neither a quote nor `[` is kept as it is. */
  lemma PlainValue(v: string, decode: Decoder)
    requires v != [] && v[0] !in QuoteChars && v[0] != '['
    ensures ParseValue(v, decode) == JString(v)
  {
    assert Unquote(v) == v;
    assert !StartsWith(v, "[");
  }

  /** `file:<rest>` starts with `file:`, and `rest` follows it. */
  lemma FilePrefix(rest: string)
    ensures StartsWith("file:" + rest, "file:") && ("file:" + rest)[5..] == rest
  {
    assert ("file:" + rest)[..5] == "file:";
  }

  /** The person block's keys are well-formed. */
  lemma PersonKeys()
    ensures SettingKey("output-file") && SettingKey("imports") && SettingKey("reference-file")
  {
    assert SettingKey("output-file");
    assert SettingKey("imports");
  }

  /** The person block's values are well-formed. */
  lemma PersonTexts()
    ensures QuotableText("person_schema.md") && QuotableText("./data/sample.json") && ListableText("helpers.py")
  {
    assert QuotableText("person_schema.md");
    assert QuotableText("./data/sample.json");
  }

  /** A block of three `# <key> = <value>` lines assigns the three keys. */
  lemma ThreeSettings(k1: string, v1: string, k2: string, v2: string, k3: string, v3: string, decode: Decoder)
    requires SettingLine(k1, v1) && SettingLine(k2, v2) && SettingLine(k3, v3)
    ensures ParsedConfig(Join([Line(k1, v1), Line(k2, v2), Line(k3, v3)], '\n'), decode)
      == map[k1 := ParseValue(v1, decode), k2 := ParseValue(v2, decode), k3 := ParseValue(v3, decode)]
  {
    var l1, l2, l3 := Line(k1, v1), Line(k2, v2), Line(k3, v3);
    var parse: LineParser := (line: string) => ParseLine(line, decode);
    SplitJoin([l1, l2, l3], '\n');
    CommentedLine(k1, v1, decode);
    CommentedLine(k2, v2, decode);
    CommentedLine(k3, v3, decode);
    assert parse(l1) == Some((k1, ParseValue(v1, decode)));
    assert parse(l2) == Some((k2, ParseValue(v2, decode)));
    assert parse(l3) == Some((k3, ParseValue(v3, decode)));
    ConfigOfThree(l1, l2, l3, parse, (k1, ParseValue(v1, decode)), (k2, ParseValue(v2, decode)), (k3, ParseValue(v3, decode)));
  }

  /** Three lines that each assign a key. */
  lemma ConfigOfThree(l1: string, l2: string, l3: string, parse: LineParser,
                      kv1: (string, Json), kv2: (string, Json), kv3: (string, Json))
    requires parse(l1) == Some(kv1) && parse(l2) == Some(kv2) && parse(l3) == Some(kv3)
    ensures ConfigOf([l1, l2, l3], parse) == map[kv1.0 := kv1.1, kv2.0 := kv2.1, kv3.0 := kv3.1]
  {
    assert [l1][..0] == [];
    assert ConfigOf([l1], parse) == map[kv1.0 := kv1.1];
    assert [l1, l2][..1] == [l1];
    assert ConfigOf([l1, l2], parse) == map[kv1.0 := kv1.1, kv2.0 := kv2.1];
    assert [l1, l2, l3][..2] == [l1, l2];
  }

  /** A key `CommentedLine` accepts. */
  predicate SettingKey(key: string) {
    key != [] && key[0] !in Whitespace && key[0] != '#' && key[|key| - 1] !in Whitespace && '=' !in key && '\n' !in key
  }

  /** What `CommentedLine` needs of a key and a value, and no newline in either. */
  predicate SettingLine(key: string, value: string) {
    && SettingKey(key)
    && value != [] && value[0] !in Whitespace && value[|value| - 1] !in Whitespace && value[|value| - 1] != '#'
    && '\n' !in value
  }

  /** Text that `QuotedString` reads back. */
  predicate QuotableText(s: string) {
    s != [] && s[0] != '[' && '"' !in s && '\n' !in s
  }

  /** Text that `OneItemList` reads back. */
  predicate ListableText(s: string) {
    s != [] && Trimmed(s, Whitespace) && Trimmed(s, QuoteChars) && ',' !in s && '\n' !in s
  }

  /** A double-quoted value is the string between the quotes, and makes a setting line. */
  lemma QuotedString(s: string, decode: Decoder)
    requires QuotableText(s)
    ensures ParseValue(Quoted(s), decode) == JString(s)
  {
    var v := Quoted(s);
    assert v[1..|v| - 1] == s;
    assert Unquote(v) == s;
    assert !StartsWith(s, "[");
  }

  /** A key and a quoted value make a setting line. */
  lemma QuotedLine(k: string, s: string)
    requires SettingKey(k) && QuotableText(s)
    ensures SettingLine(k, Quoted(s))
  {
  }

  /** A key and a one-item list make a setting line. */
  lemma OneItemLine(k: string, s: string)
    requires SettingKey(k) && ListableText(s)
    ensures SettingLine(k, OneItem(s))
  {
  }

  /** `["<s>"]` is the one-string list, decoded or split. */
  lemma OneItemList(s: string, decode: Decoder)
    requires ListableText(s)
    requires DecodesOrRejects(decode, OneItem(s), JArray([JString(s)]))
    ensures ParseValue(OneItem(s), decode) == JArray([JString(s)])
  {
    OneItemShape(s);
    FallbackOne(s);
  }

  /** `["<s>"]` has no surrounding quotes, is bracketed, and holds `"<s>"`. */
  lemma OneItemShape(s: string)
    ensures Unquote(OneItem(s)) == OneItem(s) && Inner(OneItem(s)) == Quoted(s)
    ensures StartsWith(OneItem(s), "[") && EndsWith(OneItem(s), "]")
  {
    var v := OneItem(s);
    assert v[..1] == "[" && v[|v| - 1..] == "]";
  }

  /** The comma-split fallback reads `"<s>"` as the one item `s`. */
  lemma FallbackOne(s: string)
    requires ListableText(s)
    ensures FromStrings(FallbackItems(Split(Quoted(s), ','))) == [JString(s)]
  {
    var item := Quoted(s);
    assert ',' !in item;
    assert Split(item, ',') == [item];
    StripTrimmed(item, Whitespace);
    assert item[1..|item| - 1] == s;
    StripCharsUnique(item, QuoteChars, 1, |item| - 1);
    assert FallbackItems([item]) == [s];
  }

  /** Code with a `#` comment, written in short pieces. */
  function CommentedCode(): string {
    "class Person(BaseModel):\n" + "    name: str  # required" + "\n\n\n"
  }

  /** The first setting of `person_template.py`, with the newline that ends it. */
  function FirstSetting(): string {
    Line("output-file", Quoted("person_schema.md")) + "\n"
  }

  /** The opening of the template of `person_template.py`, whose `#` headings are markdown. */
  function HeadedBody(): string {
    "\n\"\"\"\n" + "# Person Schema " + "Documentation\n\n" + "## Class: Person\n" + "\"\"\"\n"
  }

  /** A `#` comment in the code and `#` headings in the template do not disturb the split:
      such a document splits back into its code, its setting and its template. */
  lemma HeadedDocument()
    ensures SplitDocument(Document(CommentedCode(), FirstSetting(), HeadedBody()))
      == Some(Sections(Strip(CommentedCode()), Strip(FirstSetting()), TemplateBody(HeadedBody())))
  {
    NoSlashNoMarker(CommentedCode());
    NoSlashNoMarker(FirstSetting());
    NoSlashNoMarker(HeadedBody());
    SplitDocumentOf(CommentedCode(), FirstSetting(), HeadedBody());
  }

  /** A blank line between the opening marker and the settings changes nothing: the header
      takes the first newline and the strip the second. */
  lemma BlankLineBeforeSettings()
    ensures SplitDocument(Document(CommentedCode(), "\n" + FirstSetting(), HeadedBody()))
      == SplitDocument(Document(CommentedCode(), FirstSetting(), HeadedBody()))
  {
    var blank := "\n" + FirstSetting();
    NoSlashNoMarker(CommentedCode());
    NoSlashNoMarker(blank);
    NoSlashNoMarker(HeadedBody());
    SplitDocumentOf(CommentedCode(), blank, HeadedBody());
    HeadedDocument();
    assert '\n' in Whitespace;
    assert blank[1..] == FirstSetting();
    StripDropsLeading(blank, Whitespace, 1);
  }
}
