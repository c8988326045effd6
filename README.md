# templateer2 in Dafny

templateer2 turns a hybrid Python file into a rendered document. The file holds Python code, a
`# /// template … # ///` block of `key = value` settings, and a trailing Jinja template. The
program:

- cuts the file into those three parts (after dropping an optional `# /// script` block);
- parses the settings into a dict and types it as a `TemplateConfig`;
- runs the Python part and picks out the pydantic model classes;
- connects to the MCP servers the settings name;
- renders the template with a context of classes, docs, fields, standard modules and MCP helpers;
- writes the result.

Two maintenance helpers (`alembic_utils.py`, present twice, byte-identical) filter migration
files by creation time and splice text into a file's lines.

This project models that pipeline and proves what each step promises.

Modules:

- `Text`: Python's `str.strip`, `in`, `startswith`, `endswith`, `find`, `rfind`, `split` and
  `join` on `seq<char>`. Whitespace is the set of characters for which `str.isspace()` holds.
- `Json`: parsed JSON values and the string-list conversions the settings use.
- `Paths`: `pathlib` joins, `name`, `stem` and `suffix`.
- `Scanner`: the two regular expressions `#\s*///\s*script\s*\n(.*?)#\s*///` and
  `#\s*///\s*template\s*\n(.*?)#\s*///`, as a hand-written leftmost, non-greedy scanner. It
  also models `str.replace(m, "")`.
- `ConfigLines`: `_parse_template_config`, as a fold over lines, plus the mutable dict that
  `from_raw_config` pops keys from (class `ConfigDict`).
- `Parsing`: `parsing.py`'s `TemplateConfig.from_raw_config` and `TemplateFile.from_file`.
- `Templateer`: `templateer.py`'s `TemplateConfig.from_raw_config`, with its `mcp-servers`
  handling, and its `TemplateFile.from_file`.
- `Schema`: `_extract_pydantic_classes`, `has_classes` and `get_class_names`.
- `Context`: `_build_context` and the `context_extension` merge of `render`.
- `McpClient`: the `McpClientManager` class (sessions, tool and resource catalogs, exit
  stack).
- `Processor`: `TemplateProcessor.async_process` and the callables it hands to the template.
- `AlembicUtils`: `find_matching_files`, `filter_by_creation_time` and `replace_lines`.
- `Samples`: the settings blocks of the two sample templates, worked through the model.

How the outside world is modelled:

- The file system is a map from path to content.
- JSON decoding (`json.loads`, `json.load`) is an abstract decoder `string -> Option<Json>`,
  whose objects have distinct member names, as the dicts `json.loads` returns do.
- The MCP transport is an oracle. Per server it says whether the launch, the handshake and the
  tool and resource listings succeed.
- Running the template's Python code and rendering with Jinja are functions passed in as
  parameters.
- `os.path.getctime` is a function from path to time.
- The glob of `find_matching_files` is a list of directory entries.

## Model

| member | source | states |
|---|---|---|
| Text.StripChars | src/templateer2/parsing.py:137 | `str.strip(chars)`: the result is no longer than the input and has no stripped character at either end |
| Text.StripCharsUnique | src/templateer2/parsing.py:137 | stripping yields exactly the one infix whose outside is all strip characters and whose ends are not |
| Text.StripCharsIdempotent | src/templateer2/parsing.py:137 | stripping a second time changes nothing |
| Text.StripDropsLeading | src/templateer2/parsing.py:112 | stripping after dropping some leading whitespace gives what stripping the whole text gives |
| Text.StripCharsInfix | src/templateer2/parsing.py:121 | the stripped text is an infix of the input |
| Text.StripTrimmed | src/templateer2/parsing.py:137 | a text with no strip character at its ends is left unchanged |
| Text.IndexOf | src/templateer2/parsing.py:144-145 | the first position of a character (where `split("=", 1)` cuts), none exactly when the character is absent |
| Text.IndexOfAt | src/templateer2/parsing.py:144-145 | a character whose first occurrence is at `e` is found at `e` |
| Text.LastIndexOf | src/templateer2/templateer.py:535 | `rfind`: none exactly when absent, otherwise the last position holding it |
| Text.Split | src/templateer2/parsing.py:164 | `str.split(sep)`: at least one piece, no piece holds the separator, and joining the pieces gives back the input |
| Text.SplitJoin | scripts/alembic_utils.py:101 | splitting a join of separator-free pieces gives back those pieces |
| Text.SplitCount | scripts/alembic_utils.py:101 | the number of pieces is one more than the number of separators |
| Json.Get | src/templateer2/templateer.py:61-63 | a member lookup is absent exactly when no member has the name, and otherwise returns the value of the last member with that name (a later duplicate key wins, as in `json.loads`) |
| Json.FromStrings | src/templateer2/parsing.py:165-167 | a list of strings as JSON: same length, item by item |
| Json.AsStrings | src/templateer2/parsing.py:22 | a JSON list is read as strings exactly when every item is a string, item by item |
| Json.StringsRoundTrip | src/templateer2/parsing.py:22 | reading back a list of strings written as JSON gives the same strings |
| Paths.JoinPath | src/templateer2/templateer.py:139-141 | `base / p`: an absolute `p` wins; otherwise `base + p` when `base` is empty or ends with `/`, and `base + "/" + p` when not |
| Paths.JoinPathName | src/templateer2/templateer.py:139-141 | a single component joined under a directory is the name of the result |
| Paths.Parent | src/templateer2/templateer.py:377-378 | `Path.parent`: `.` for a bare name; otherwise the path is the parent, a `/` and the name (or `/` and the name at the root) |
| Paths.Name | src/templateer2/templateer.py:536 | the last path component has no `/` and ends the path |
| Paths.NameAfterSlash | src/templateer2/templateer.py:536 | the name of `dir/n` is `n` |
| Paths.Stem | src/templateer2/templateer.py:535 | `Path.stem`: the name before its suffix (StemSuffix) |
| Paths.Suffix | src/templateer2/templateer.py:535 | `Path.suffix`: the rest of the name (StemSuffix) |
| Paths.SuffixStartAtDot | src/templateer2/templateer.py:536 | for `stem.ext`, the suffix starts at the dot |
| Paths.StemSuffix | src/templateer2/templateer.py:536 | stem + suffix is the name, and the suffix is empty or one dot followed by a dot-free, non-empty text |
| Paths.NameParts | src/templateer2/templateer.py:536 | a name splits at its suffix start into a non-empty stem and a well-formed suffix |
| Scanner.SkipSpace | src/templateer2/parsing.py:97 | `\s*`: skips exactly a maximal run of whitespace |
| Scanner.MarkerAt | src/templateer2/parsing.py:97 | `#\s*///` matches only at a `#` and spans at least four characters |
| Scanner.MarkerParts | src/templateer2/parsing.py:97 | a marker is a `#`, whitespace, then `///` |
| Scanner.MarkerFromParts | src/templateer2/parsing.py:97 | a `#`, whitespace and `///` form a marker |
| Scanner.LastNewline | src/templateer2/parsing.py:97 | finds the last newline in a range, or reports that there is none |
| Scanner.HeaderAt | src/templateer2/parsing.py:97 | a header `#\s*///\s*<name>\s*\n` starts with a marker and ends right after a newline |
| Scanner.FirstWhere | src/templateer2/parsing.py:97 | the first position meeting a test, with none before it |
| Scanner.CloserFrom | src/templateer2/parsing.py:97 | the non-greedy `(.*?)#\s*///`: the first closing marker, with no marker before it |
| Scanner.MatchAt | src/templateer2/parsing.py:97-98 | a match found at a position starts there and ends inside the text |
| Scanner.MatchAtWellFormed | src/templateer2/parsing.py:97-98 | a match is a header, then a group free of markers, then a closing marker |
| Scanner.Search | src/templateer2/parsing.py:98 | `re.search`: the leftmost match, no match before it, and none at all when it reports none |
| Scanner.NoMatchExtended | src/templateer2/parsing.py:98 | a no-match range extends by one position to the left |
| Scanner.RemoveAll | src/templateer2/parsing.py:101 | `str.replace(m, "")` never lengthens the text |
| Scanner.RemoveAllUnchangedIff | src/templateer2/parsing.py:101 | removal leaves the text unchanged exactly when the pattern does not occur in it |
| Scanner.RemoveAllShrinks | src/templateer2/parsing.py:101 | removing a pattern that occurs shortens the text |
| Scanner.RemoveAllFirst | src/templateer2/parsing.py:101 | `str.replace(m, "")` unfolded: with the first occurrence at `i`, the text before it is kept and the removal goes on after the occurrence |
| Scanner.RemoveAllAfter | src/templateer2/parsing.py:101 | a prefix without an occurrence is kept and the occurrence right after it is removed |
| Scanner.NoInfixBeforeOf | src/templateer2/parsing.py:101 | no occurrence starting before `i` is what the scan for the leftmost occurrence checks |
| Scanner.SearchFindsBlock | src/templateer2/parsing.py:104-105 | a `# /// <name>` line, a marker-free group and a closing `# ///` with no marker before them are the match `re.search` returns |
| Scanner.MatchCopied | src/templateer2/parsing.py:97-98 | the pattern looks only inside its match: a second copy of the matched text also matches |
| Scanner.SearchTextFirst | src/templateer2/parsing.py:98-101 | the text of the leftmost match occurs nowhere before it |
| Scanner.SpacedBlockMatch | src/templateer2/parsing.py:104-105 | a header followed by a marker-free group and a closing marker matches at the header, the group ending at the closer |
| Text.StripAround | src/templateer2/parsing.py:137 | `.strip().strip(cs).strip()`, used for a config line (`#`) and the template (`"`): no longer than the input, no whitespace at its ends |
| ConfigLines.CleanLine | src/templateer2/parsing.py:137 | a cleaned line is no longer than the line and has no whitespace at its ends |
| ConfigLines.Unquote | src/templateer2/parsing.py:151-154 | one matching pair of outer quotes is removed, a lone quote becomes empty, and anything else is unchanged |
| ConfigLines.FallbackItems | src/templateer2/parsing.py:162-167 | the comma fallback keeps at most the pieces it gets, each free of outer quotes (its exact value is pinned by FallbackAppend and FallbackPiece) |
| ConfigLines.FallbackKeepsNonBlank | src/templateer2/parsing.py:162-167 | non-blank pieces are all kept, in order, each stripped of whitespace and then of quotes |
| ConfigLines.FallbackDropsBlank | src/templateer2/parsing.py:163 | blank pieces are all dropped |
| ConfigLines.FallbackAppend | src/templateer2/parsing.py:165-167 | the list comprehension works piece by piece: the fallback of two runs of pieces is the fallback of each, in order |
| ConfigLines.FallbackPiece | src/templateer2/parsing.py:166 | one piece is dropped when blank, otherwise stripped of whitespace and then of quotes; with FallbackAppend this fixes the list for any mix of pieces |
| ConfigLines.ParseValue | src/templateer2/parsing.py:150-169 | after removing one pair of quotes: a bracketed value the decoder accepts is the decoded JSON, a bracketed value it rejects is the comma fallback of its inside, and anything else is the string |
| ConfigLines.ParseLine | src/templateer2/parsing.py:137-147 | a line yields nothing exactly when it is blank after cleaning or has no `=`; the key is trimmed and holds no `=` (ParseLineAt gives key and value) |
| ConfigLines.ParseLineAt | src/templateer2/parsing.py:137-147 | with the first `=` of the cleaned line at `e`, the key is the stripped text before it and the value is `ParseValue` of the stripped text after it |
| ConfigLines.CommentedLine | src/templateer2/parsing.py:137-169 | `# key = value` yields the key and the parsed value; the value may itself contain `=` |
| ConfigLines.ConfigOf | src/templateer2/parsing.py:131-172 | specification of the loop: each kept line assigns its key in turn (ConfigOfKeys and ConfigOfLastWins state the result) |
| ConfigLines.ParsedConfig | src/templateer2/parsing.py:131-172 | the dict `_parse_template_config` returns: the fold of the line parser over the text's lines |
| ConfigLines.ParseTemplateConfig | src/templateer2/parsing.py:131-172 | the loop builds the fold of the line parser over the split lines |
| ConfigLines.ApplyLine | src/templateer2/parsing.py:136-169 | one loop step: a skipped line leaves the dict as it is, a parsed line sets its key |
| ConfigLines.ConfigOfSnoc | src/templateer2/parsing.py:136-169 | the fold over one more line is one more step |
| ConfigLines.ConfigOfKeys | src/templateer2/parsing.py:161-169 | a key is in the dict exactly when some line parses to it |
| ConfigLines.ConfigOfLastWins | src/templateer2/parsing.py:161-169 | a key's value comes from its last line |
| ConfigLines.ConfigDict.constructor | src/templateer2/parsing.py:114 | the dict starts with the parsed entries |
| ConfigLines.ConfigDict.Pop | src/templateer2/parsing.py:32-34 | `dict.pop(key, default)`: returns the value or the default and removes the key |
| Parsing.OptionalStr | src/templateer2/parsing.py:21 | an optional string field accepts exactly null or a string, and reports the field otherwise |
| Parsing.StrList | src/templateer2/parsing.py:22 | a list field accepts exactly a list of strings |
| Parsing.StrListRoundTrip | src/templateer2/parsing.py:22 | a list of strings written as JSON validates back to itself |
| Parsing.ReferenceFile | src/templateer2/parsing.py:23 | `reference_file` accepts null or a string; a non-empty string is joined under the base directory when there is one |
| Parsing.BasicConfigOf | src/templateer2/parsing.py:29-47 | every key except the three known ones reaches `extra_params` |
| Parsing.FromRawConfig | src/templateer2/parsing.py:29-47 | pops the three known keys from the dict and types them |
| Parsing.BasicConfigSucceedsIff | src/templateer2/parsing.py:29-47 | typing succeeds exactly when each known key present has the right shape |
| Parsing.BasicConfigDefaults | src/templateer2/parsing.py:32-34 | without the known keys the defaults None, [] and None apply and all keys are extra |
| Parsing.BasicConfigRoundTrip | src/templateer2/parsing.py:29-47 | a config written back as a dict types to itself |
| Parsing.DropScriptBlock | src/templateer2/parsing.py:97-101 | with no script block the text is unchanged; otherwise it is the text before the leftmost block, followed by the rest with every copy of the block's text removed, stripped, and shorter than the input |
| Parsing.ScriptBlockFirst | src/templateer2/parsing.py:98-101 | `content.replace(block, "")` keeps everything before the leftmost block and removes the block and its later copies |
| Parsing.TemplateBody | src/templateer2/parsing.py:121 | the template text is no longer than the rest of the file and has no whitespace at its ends |
| Parsing.TemplateBodyDropsAllQuotes | src/templateer2/parsing.py:121 | every leading and trailing `"` goes, not one triple-quote layer |
| Parsing.QuotesStripped | src/templateer2/parsing.py:121 | stripping `"` from quotes around a body gives the body |
| Parsing.SectionsOf | src/templateer2/parsing.py:113-121 | code, settings and template are each stripped |
| Parsing.SplitDocument | src/templateer2/parsing.py:97-121 | fails exactly when no template block matches anywhere; otherwise the code is the stripped text before the leftmost match, the settings its stripped group, and the template the text after it stripped of whitespace and quotes |
| Parsing.SplitDocumentOf | src/templateer2/parsing.py:97-121 | round trip: code, `# /// template` and a newline, settings, `# ///` and a template split back into the stripped code, settings and template, for any settings text (blank lines or indentation first included) when none of code, settings and template holds a `#\s*///` marker (a `#` comment or heading is fine) |
| Parsing.SplitLaidOut | src/templateer2/parsing.py:97-121 | any text laid out as those five pieces, with code, settings and template free of markers, splits into them; leading whitespace of the settings is taken partly by the header's `\s*\n` and the rest by `.strip()` |
| Parsing.ConfigSkip | src/templateer2/parsing.py:103-104 | where the group starts inside the settings text: all whitespace before it, a newline just before it, and no newline between it and the first non-whitespace character, as the header's `\s*\n` backs off to the last newline of the run |
| Parsing.TemplateSearch | src/templateer2/parsing.py:103-104 | `re.search` on a laid-out document matches at the opening line, with the group from the end of that skipped whitespace to the closing marker |
| Parsing.NoSlashNoMarker | src/templateer2/parsing.py:97 | a text without `/` holds no `#\s*///` marker |
| Parsing.DocumentLaidOut | src/templateer2/parsing.py:104 | the document built from the pieces is laid out as those pieces |
| Parsing.LaidOutDocument | src/templateer2/parsing.py:104 | a text laid out as the pieces is exactly the document built from them |
| Parsing.SplitConfigHasNoMarker | src/templateer2/parsing.py:104-113 | the settings text contains no `#\s*///` marker |
| Parsing.FromFile | src/templateer2/parsing.py:89-128 | computes the specified split-and-type of the file |
| Parsing.TemplateFileOf | src/templateer2/parsing.py:89-128 | specification of `from_file`: a missing file, a file without a template block and an invalid configuration are the three errors; otherwise the file holds the split code and template and the typed configuration (FromFile computes it) |
| Templateer.StringDict | src/templateer2/templateer.py:62 | `env` is read exactly when every value is a string, and its keys are exactly the member names |
| Templateer.StringDictValue | src/templateer2/templateer.py:62 | each name maps to the string of its last member |
| Templateer.BuildServer | src/templateer2/templateer.py:58-63 | `McpServerConfig(**x)`: a non-object is a TypeError; an object builds exactly when `command` is a string, `args` is absent or a string list and `env` is absent, null or a string dict, and the config then holds that command, those args (default []) and that env |
| Templateer.ServersOf | src/templateer2/templateer.py:119-129 | specification of the loop over `.items()`: each built entry sets its name, a non-mapping entry stops it with the servers so far (the caught TypeError), an invalid one stops it with an error (properties in the lemmas below) |
| Templateer.LoadServers | src/templateer2/templateer.py:119-120 | the loop over the servers computes the specified fold |
| Templateer.ServersOfStopped | src/templateer2/templateer.py:119-122 | once building has stopped, later entries change nothing |
| Templateer.ServersOfAllBuilt | src/templateer2/templateer.py:119-120 | when every entry builds, the loop completes with one server per name |
| Templateer.ServersOfLastWins | src/templateer2/templateer.py:119-120 | a duplicated name keeps its last entry |
| Templateer.ServersOfStopsAt | src/templateer2/templateer.py:119-122 | the first failing entry stops the loop: a TypeError is caught, a validation error is not, and the servers so far stay |
| Templateer.IsFileReference | src/templateer2/templateer.py:100-103 | a value names a file exactly when it is a string ending with `.json` or starting with `file:` |
| Templateer.ServersFilePath | src/templateer2/templateer.py:105-112 | `file:` loses its five characters, and the path is joined under the base directory when there is one |
| Templateer.ServersOfDocument | src/templateer2/templateer.py:117-122 | for a document `json.loads` can return (its names distinct): a non-object raises (`.items()`); an object gives the servers the loop builds, or a validation error when an entry is rejected |
| Templateer.McpServersOf | src/templateer2/templateer.py:96-131 | no key, a missing file, a non-string value or undecodable text give no servers; decoded text (inline or from the file) gives the servers of that document |
| Templateer.LoadMcpServers | src/templateer2/templateer.py:96-131 | the loading code computes `McpServersOf` of the value |
| Templateer.InlineServersConfigured | src/templateer2/templateer.py:114-122 | inline JSON whose entries all build configures one server per name, each built from its own entry |
| Templateer.TemplateConfigOf | src/templateer2/templateer.py:83-153 | every key except the six known ones reaches `extra_params` (defaults and round trip in the two lemmas below) |
| Templateer.TemplateConfigDefaults | src/templateer2/templateer.py:88-134 | without any known key: no output file, no imports, no reference file, no servers, tools or resources, and every key is an extra parameter |
| Templateer.TemplateConfigRoundTrip | src/templateer2/templateer.py:83-153 | a configuration written back as raw entries, with its servers as inline JSON, types back to itself |
| Templateer.ValidatedFull | src/templateer2/templateer.py:137-153 | `cls(...)`: the typed fields, a `Path` error first, then the first invalid field in declaration order (its round trip is ValidatedFullOf) |
| Templateer.ValidatedFullOf | src/templateer2/templateer.py:137-153 | the typed fields of a configuration, written as JSON, validate back to it |
| Templateer.FromRawConfig | src/templateer2/templateer.py:83-153 | pops exactly the known keys and types them as specified |
| Templateer.KeysAfterPops | src/templateer2/templateer.py:88-134 | after all pops the dict holds the other keys, and the MCP list keys are still readable after the first pops |
| Templateer.PopBasicAndServers | src/templateer2/templateer.py:88-131 | pops the three basic keys with their defaults, then the servers |
| Templateer.PopLists | src/templateer2/templateer.py:133-134 | pops `mcp-tools` and `mcp-resources`, defaulting to [] |
| Templateer.PopServers | src/templateer2/templateer.py:96-131 | pops `mcp-servers` when present and loads the servers it names |
| Templateer.FromFile | src/templateer2/templateer.py:352-391 | computes the specified split-and-type, resolving paths under the file's directory |
| Templateer.TemplateFileOf | src/templateer2/templateer.py:352-391 | specification of `from_file`: the three load errors, otherwise the split code and template with the configuration typed under the file's parent directory (FromFile computes it) |
| Schema.ClassesOf | src/templateer2/parsing.py:212-235 | keeps exactly the members that are model subclasses, each with its doc and fields; a single member gives its class or nothing |
| Schema.ClassesOfAppend | src/templateer2/parsing.py:218-233 | the classes keep the `getmembers` order: those of earlier members come first |
| Schema.ExtractPydanticClasses | src/templateer2/parsing.py:212-235 | the loop computes the specified filter |
| Schema.Load | src/templateer2/parsing.py:179-184 | `load`: the module with the classes extracted from its members |
| Schema.HasClasses | src/templateer2/parsing.py:69-71 | `has_classes`: the class dict is not empty (HasClassesIff relates it to the members) |
| Schema.GetClassNames | src/templateer2/parsing.py:73-75 | the names of the classes, in order |
| Schema.HasClassesIff | src/templateer2/parsing.py:69-71 | true exactly when some member is a model subclass |
| Schema.CountModelsSnoc | src/templateer2/parsing.py:218-233 | one more member adds one model exactly when it is a model subclass |
| Schema.ClassesOfCount | src/templateer2/parsing.py:218-233 | one class per model member |
| Schema.ClassesOfDistinct | src/templateer2/parsing.py:218-233 | distinct member names give distinct class names, all taken from the members |
| Context.DocsOf | src/templateer2/parsing.py:284-286 | `pydantic_docs` has one key per class |
| Context.FieldsOf | src/templateer2/parsing.py:287-289 | `pydantic_fields` has one key per class |
| Context.DocsOfValue | src/templateer2/parsing.py:284-286 | each class name maps to the doc of its last class |
| Context.FieldsOfValue | src/templateer2/parsing.py:287-289 | each class name maps to the fields of its last class |
| Context.BuildContext | src/templateer2/parsing.py:276-303 | the loops compute the specified context |
| Context.StdlibUpdates | src/templateer2/parsing.py:298-301 | the four module assignments equal a merge with the standard modules |
| Context.BindClassesKeys | src/templateer2/parsing.py:293-295 | binding classes adds exactly their names |
| Context.BindClassesKeeps | src/templateer2/parsing.py:293-295 | a key no class is named after keeps its value |
| Context.BindClassesBinds | src/templateer2/parsing.py:293-295 | each class is bound under its name, the last duplicate winning |
| Context.ContextKeys | src/templateer2/parsing.py:276-303 | the keys are the basic names, the class names and the four standard modules |
| Context.StdlibBound | src/templateer2/parsing.py:298-301 | the standard modules are bound last, over any same-named class |
| Context.ClassBound | src/templateer2/parsing.py:293-295 | a class whose name is not a standard module is bound to its class |
| Context.BasicBound | src/templateer2/parsing.py:281-291 | a basic name no class shadows keeps its initial value |
| Context.NamesDisjoint | src/templateer2/parsing.py:281-301 | the basic names and the standard module names do not overlap |
| Context.BaseContext | src/templateer2/parsing.py:281-291 | the five basic names bound before the classes (BasicBound states what survives) |
| Context.RenderContext | src/templateer2/templateer.py:305-306 | the render context: the extension merged over the base context |
| Context.RenderContextMerge | src/templateer2/templateer.py:305-306 | the extension overwrites the base context, which keeps every other key |
| McpClient.ReplyRoundTrip | src/templateer2/templateer.py:211-218 | a text reply reads back as its text |
| McpClient.McpClientManager.constructor | src/templateer2/templateer.py:159-165 | a manager starts with no sessions, catalogs or exit-stack entries |
| McpClient.McpClientManager.Initialize | src/templateer2/templateer.py:167-201 | visits every server once, whatever fails, and ends with the state the servers' outcomes specify |
| McpClient.McpClientManager.ConnectNext | src/templateer2/templateer.py:169-201 | one more server visited keeps the loop's invariant |
| McpClient.McpClientManager.Connect | src/templateer2/templateer.py:170-201 | one server's connection advances the state as its outcome specifies |
| McpClient.McpClientManager.CallTool | src/templateer2/templateer.py:203-230 | never fails: the not-connected and the execution-error replies, or the call's result |
| McpClient.McpClientManager.ReadResource | src/templateer2/templateer.py:232-259 | never fails: the not-connected and the read-error replies, or the read's result |
| McpClient.McpClientManager.Close | src/templateer2/templateer.py:261-263 | releases the exit stack in reverse order and keeps the maps |
| McpClient.Reversed | src/templateer2/templateer.py:263 | the exit stack unwinds last in, first out |
| McpClient.ReversedMembers | src/templateer2/templateer.py:263 | reversing keeps the same members |
| McpClient.AfterNothing | src/templateer2/templateer.py:169 | with no server visited the state is unchanged |
| McpClient.AfterFresh | src/templateer2/templateer.py:167-201 | from a fresh manager, sessions and catalogs are those of the servers whose steps succeed |
| McpClient.AfterNext | src/templateer2/templateer.py:169-201 | visiting one more server is one more step |
| McpClient.HandlesSnoc | src/templateer2/templateer.py:177-182 | one more server adds exactly the handles it entered |
| McpClient.DistinctSnoc | src/templateer2/templateer.py:169 | the visit order stays free of repeats |
| McpClient.HandlesOfEntered | src/templateer2/templateer.py:177-182 | a server's process handle is entered exactly when it launched, its session handle exactly when the session opened too |
| McpClient.EnteredByHandles | src/templateer2/templateer.py:177-182 | the same for one server |
| Processor.OutputFilename | src/templateer2/templateer.py:534-536 | `output_file` when truthy, otherwise the template's stem + `.md` |
| Processor.DefaultOutputName | src/templateer2/templateer.py:534-536 | a missing or empty `output_file` gives stem + `.md` |
| Processor.PyTemplateOutputName | src/templateer2/templateer.py:534-536 | `dir/x.py` gives `x.md` |
| Processor.McpNamesBound | src/templateer2/templateer.py:472-531 | the four `mcp_*` names are always in the render context, with the extension's values |
| Processor.ExtensionCatalog | src/templateer2/templateer.py:472-527 | the extension has exactly the four names, and `mcp_tools` lists exactly the servers with tools |
| Processor.CallersChosen | src/templateer2/templateer.py:472-527 | without servers the template gets the not-connected stubs, otherwise the manager-backed callers |
| Processor.NotConnectedReply | src/templateer2/templateer.py:475-484 | without a manager, `mcp_call_tool` (under `content`) and `mcp_read_resource` (under `contents`) reply `MCP server '<s>' not connected` |
| Processor.SafeCallToolAsWritten | src/templateer2/templateer.py:490-504 | as written: inside the running event loop every call becomes the error reply |
| Processor.SafeReadResourceAsWritten | src/templateer2/templateer.py:506-518 | as written: inside the running event loop every read becomes the error reply |
| Processor.SafeCallToolLosesReply | src/templateer2/templateer.py:490-504 | a successful tool reply is lost |
| Processor.SafeReadResourceLosesReply | src/templateer2/templateer.py:506-518 | a successful resource reply is lost |
| Processor.SafeCallTool | src/templateer2/templateer.py:490-504 | as intended: the manager's reply, with its failure texts |
| Processor.SafeReadResource | src/templateer2/templateer.py:506-518 | as intended: the manager's reply, with its failure texts |
| Processor.TemplateCallTool | src/templateer2/templateer.py:472-527 | as written: the template's `mcp_call_tool` is the not-connected stub, or the manager-backed caller, which inside the running loop always replies with the execution error |
| Processor.TemplateReadResource | src/templateer2/templateer.py:472-527 | as written: the template's `mcp_read_resource` is the not-connected stub, or the manager-backed reader, which inside the running loop always replies with the read error |
| Processor.IntendedCallTool | src/templateer2/templateer.py:472-504 | as intended: the stub, or the manager's reply with its not-connected text |
| Processor.IntendedReadResource | src/templateer2/templateer.py:472-518 | as intended: the stub, or the manager's reply with its not-connected text |
| Processor.LoadFailed | src/templateer2/templateer.py:464 | an exception from the module load ends the run |
| Processor.LoadedWithoutClasses | src/templateer2/templateer.py:466-467 | a module without classes stops before rendering |
| Processor.RenderedWith | src/templateer2/templateer.py:529-546 | the renderer gets the template and the base context merged with the extension; if it raises, the run raises that error after the load and render steps, otherwise the text is written to the output name under the output directory |
| Processor.McpInitThenLoadThenClose | src/templateer2/templateer.py:453-550 | MCP starts exactly when the template loaded and names servers, comes first, and is always closed last |
| Processor.StageSteps | src/templateer2/templateer.py:464-546 | the work between start and close begins with the module load, whatever stage it reaches |
| Processor.StageStepsShape | src/templateer2/templateer.py:464-546 | the work between start and close never touches MCP |
| Processor.WriteIffSuccess | src/templateer2/templateer.py:529-546 | the output is written exactly when the run succeeds, and only after a render |
| Processor.NoClassesNoRender | src/templateer2/templateer.py:466-467 | a module without model classes raises ValueError and nothing is rendered |
| Processor.Outcome | src/templateer2/templateer.py:447-550 | specification of what `async_process` returns or raises, given the loaded template (WriteIffSuccess, NoClassesNoRender state its properties) |
| Processor.Steps | src/templateer2/templateer.py:447-550 | specification of the steps of a run, in order (McpInitThenLoadThenClose and StageStepsShape state their order) |
| Processor.TemplateProcessor.constructor | src/templateer2/templateer.py:440-445 | a processor starts without a manager |
| Processor.TemplateProcessor.AsyncProcess | src/templateer2/templateer.py:447-550 | the run's outcome and steps are the specified ones; when `from_file` raises, the manager left by an earlier run stays; otherwise a manager exists exactly when servers are configured, and is closed with all entered handles released |
| Processor.TemplateProcessor.StartMcp | src/templateer2/templateer.py:453-460 | a manager is made and initialised exactly when servers are configured |
| Processor.TemplateProcessor.CloseMcp | src/templateer2/templateer.py:547-550 | closing releases exactly the handles the servers entered |
| Processor.TemplateProcessor.RenderAndName | src/templateer2/templateer.py:464-546 | load, check, render, name and write as specified |
| Processor.TemplateProcessor.RenderLoaded | src/templateer2/templateer.py:529-546 | once the module defined model classes: render with the base context merged with the MCP extension, then name the output; the steps and the outcome are those the specification gives |
| AlembicUtils.MatchingOf | scripts/alembic_utils.py:16-33 | specification of the glob loop: the paths of the accepted entries, in visiting order (MatchingOfMembers states which) |
| AlembicUtils.FindMatchingFiles | scripts/alembic_utils.py:30-32 | the loop keeps the matching entries in order |
| AlembicUtils.MatchingOfMembers | scripts/alembic_utils.py:30-32 | a path is kept exactly when its entry is a file with the extension whose name contains the pattern |
| AlembicUtils.InWindow | scripts/alembic_utils.py:56-59 | every kept time lies within both inclusive bounds |
| AlembicUtils.InWindowPaths | scripts/alembic_utils.py:56-59 | the window keeps the in-window paths in input order |
| AlembicUtils.FilterByCreationTime | scripts/alembic_utils.py:37-67 | the loops compute filter, sort and extraction as specified |
| AlembicUtils.FilteredByCreationTimeSpec | scripts/alembic_utils.py:56-67 | the result is a permutation of the in-window paths, sorted newest first, with ties in input order |
| AlembicUtils.FilteredByCreationTime | scripts/alembic_utils.py:37-67 | what `filter_by_creation_time` returns: the in-window paths sorted newest first (FilteredByCreationTimeSpec) |
| AlembicUtils.Insert | scripts/alembic_utils.py:62 | one insertion step of the stable descending sort (its properties in the Insert lemmas) |
| AlembicUtils.SortDesc | scripts/alembic_utils.py:62 | `sort(key=..., reverse=True)`: a stable sort newest first (its properties in the SortDesc lemmas) |
| AlembicUtils.InsertMultiset | scripts/alembic_utils.py:62 | an insertion adds exactly one element |
| AlembicUtils.InsertPaths | scripts/alembic_utils.py:62 | an insertion adds exactly one path |
| AlembicUtils.InsertSorted | scripts/alembic_utils.py:62 | an insertion keeps the order newest first |
| AlembicUtils.InsertStable | scripts/alembic_utils.py:62 | an insertion puts the new element after those with the same time |
| AlembicUtils.SortDescMultiset | scripts/alembic_utils.py:62 | sorting is a permutation |
| AlembicUtils.SortDescPaths | scripts/alembic_utils.py:62-65 | sorting keeps the same paths |
| AlembicUtils.SortDescSorted | scripts/alembic_utils.py:62 | sorting orders newest first |
| AlembicUtils.SortDescStable | scripts/alembic_utils.py:62 | equal times keep their input order |
| AlembicUtils.FirstContaining | scripts/alembic_utils.py:82-88 | none exactly when no line contains the text, otherwise the first line that does |
| AlembicUtils.FirstContainingAt | scripts/alembic_utils.py:82-88 | the first line containing the text is found |
| AlembicUtils.Terminated | scripts/alembic_utils.py:104-106 | each piece gets its `\n` |
| AlembicUtils.ReplacedAsWritten | scripts/alembic_utils.py:70-110 | the lines `replace_lines` writes back as written, with the re-search of the multi-line case (AsWrittenAgrees, ReplaceLinesLosesEarlierLine) |
| AlembicUtils.Replaced | scripts/alembic_utils.py:79-106 | the lines as evidently intended: the first matching line replaced and split in place (ReplacedText, ReplacedLines) |
| AlembicUtils.ReplaceLines | scripts/alembic_utils.py:70-110 | the in-place edit computes the lines as written |
| AlembicUtils.FirstIndexContaining | scripts/alembic_utils.py:93-95 | the re-search finds the first line containing the text |
| AlembicUtils.InsertAll | scripts/alembic_utils.py:104-106 | the insert loop splices the terminated pieces in at the index |
| AlembicUtils.ConcatTerminated | scripts/alembic_utils.py:101-106 | the terminated pieces spell out the replacement text and a final `\n` |
| AlembicUtils.ConcatAppend | scripts/alembic_utils.py:109-110 | the text of two line lists is the text of each |
| AlembicUtils.ConcatReplaced | scripts/alembic_utils.py:109-110 | the text of a spliced list is the text of its three parts |
| AlembicUtils.ReplaceAtText | scripts/alembic_utils.py:85-106 | the written file replaces exactly the matched line's text |
| AlembicUtils.ReplacedText | scripts/alembic_utils.py:79-106 | with no match the lines are unchanged; otherwise only the first matching line's text is replaced |
| AlembicUtils.ReplacedLines | scripts/alembic_utils.py:91-106 | lines before the match stay, lines after it shift by the number of `\n` in the replacement, and the count grows by that number |
| AlembicUtils.AsWrittenAgrees | scripts/alembic_utils.py:82-106 | when no earlier line contains the replacement, the code as written does what is intended |
| AlembicUtils.ReplaceLinesLosesEarlierLine | scripts/alembic_utils.py:93-95 | an input where the code as written splits the wrong line |
| AlembicUtils.ReplacedKeepsEarlierLine | scripts/alembic_utils.py:82-106 | on the same input the intended replacement keeps the earlier line |
| Samples.PersonConfig | src/templateer2/templates/person_template.py:15-19 | the person template's settings parse to its output file, one import and the reference file |
| Samples.PersonTemplateConfig | src/templateer2/templates/person_template.py:15-19 | those settings type to that config, the reference joined under the template's directory |
| Samples.WeatherServersReference | src/templateer2/templates/weather_mcp.py:26 | `mcp-servers = file:./mcp_servers.json` is a file reference under the template's directory, and a missing file means no servers |
| Samples.ThreeSettings | src/templateer2/parsing.py:131-172 | three commented setting lines parse to the three keys |
| Samples.FileReference | src/templateer2/templateer.py:100-112 | a `file:` setting is kept as text, is a file reference, and resolves under the directory |
| Samples.QuotedString | src/templateer2/parsing.py:151-154 | a double-quoted value is its inner text |
| Samples.OneItemList | src/templateer2/parsing.py:157-167 | `["x"]` is the one-string list, whether the decoder accepts it or falls back |
| Samples.HeadedDocument | src/templateer2/parsing.py:97-121 | a document whose code has a `#` comment and whose template has `#` headings splits into its three stripped parts |
| Samples.BlankLineBeforeSettings | src/templateer2/parsing.py:103-112 | a blank line between `# /// template` and the settings does not change the split |
| Samples.TypedStrings | src/templateer2/templateer.py:137-153 | string settings type to the config with the reference joined under the directory |

## Left out

- I/O: reading and writing files, `mkdir`, `exists`, and opening the servers file. The file
  system is a map from path to content, and the written output is returned, not written.
- JSON decoding is an abstract decoder. Which texts decode, and to what, is not modelled.
- pydantic validation is modelled only as shape checks on the fields the program uses. Other
  pydantic coercions are not modelled.
- Dict order is not modelled: config dicts are maps. The class list and JSON object members,
  whose order matters, are sequences.
- `inspect.getmembers` order, `inspect.getdoc` and `model_fields` are inputs taken as given.
- `_load_as_module` (temporary file, `importlib`, `sys.modules`) is a loader function passed in.
- Jinja compilation and rendering, the `schema_json` and `regex_replace` filters and the
  `TemplateRenderer` constructor: rendering is a function passed in.
- The duplicate `TemplateRenderer` of `parsing.py` shares `_build_context` with the one in
  `templateer.py`, and only that part is modelled.
- The MCP transport (`stdio_client`, `ClientSession`, `AsyncExitStack`) is an oracle per
  server. Errors raised while closing the exit stack are not modelled.
- asyncio scheduling, cancellation and `BaseException`s are not modelled.
- `process`, `parse_args` and `main` (the command-line entry point), and all `print` and
  logging calls, are not part of this model.
- Path normalisation is not modelled: `Path` joins are text joins, and `Path(x)` of a string is
  kept as that string.
- `find_matching_files`: the recursive glob is a list of entries. Pattern metacharacters in the
  extension are taken literally.
- `filter_by_creation_time`: times are reals, so NaN times are not modelled.
- `get_version` (a window ending at the clock) and `insert_delete_table_commands` in the alembic
  helpers are glue around the modelled functions and are not part of this model.
- OSErrors other than a missing file, such as permission errors, are not modelled.
- `_internal/logger.py`, `config.py` and `__init__.py` are not part of this model.
- SplitDocumentOf and SplitLaidOut: the round trip is proved for code, settings and template
  text without a `#\s*///` marker. A marker in the code could start a `# /// script` block or
  an earlier template block, one in the settings would end the lazy group early, and one in
  the template could be part of a `# /// script` block, which is dropped before the split.
- JSON objects are member lists whose names are distinct, because `json.loads` gives a dict
  for each object. The decoder parameter is constrained to such values, and
  ServersOfDocument requires one.
- TemplateCallTool and TemplateReadResource follow the code as written (the error reply inside
  the running loop); IntendedCallTool and IntendedReadResource give the evidently intended
  replies, and the Findings table relates the two.
- McpClient.McpClientManager.Initialize: the visit order is a ghost result, because the program
  iterates a dict whose order the model leaves open.

## Findings

| source | as written | input that shows it | evidently intended | confidence | as-written member | corrected member |
|---|---|---|---|---|---|---|
| src/templateer2/templateer.py:490-518 | `safe_call_tool` and `safe_read_resource` call `asyncio.run` while `async_process` is itself running inside `asyncio.run`, which raises "cannot be called from a running event loop"; the handler turns that into the error reply | any template with a configured, connected server that calls `mcp_call_tool` or `mcp_read_resource` | the manager's reply (the tool result, or its own failure texts) | not executed | Processor.SafeCallToolLosesReply | Processor.SafeCallTool |
| scripts/alembic_utils.py:93-95 | after replacing line k, the re-search picks the first line containing `replacing_text`, which may be an earlier line | lines `["afoo\n", "TARGET\n"]`, replaced `"TARGET"`, replacing `"foo\n"` gives `["foo\n", "\n", "foo\n\n"]` | split the replaced line itself: `["afoo\n", "foo\n", "\n"]` | not executed | AlembicUtils.ReplaceLinesLosesEarlierLine | AlembicUtils.ReplacedKeepsEarlierLine |
