/** `parsing.py`: typing the parsed configuration of a template (`TemplateConfig.from_raw_config`)
    and splitting a template document into its code, configuration and template sections
    (`TemplateFile.from_file`). */
module Parsing {
  import opened Wrappers
  import opened Text
  import opened Json
  import opened Paths
  import opened Scanner
  import opened ConfigLines

  /** Why typing a raw configuration fails. */
  datatype ConfigError =
    | PathTypeError                  // `Path(value)` raised: a truthy reference that is not a string
    | ValidationError(field: string) // the model rejected the value given for `field`
    | NotAnObject                    // `.items()` on a decoded server table that is not an object

  /** The keys `from_raw_config` pops before the rest becomes `extra_params`. */
  const BasicKeys: set<string> := {"output-file", "imports", "reference-file"}

  /** The typed configuration of `parsing.py`. */
  datatype BasicConfig = BasicConfig(
    outputFile: Option<string>,
    imports: seq<string>,
    referenceFile: Option<string>,
    extraParams: map<string, Json>)

  /** `d.get(key, default)` on the raw dict. */
  function Lookup(raw: map<string, Json>, key: string, default: Json): Json {
    if key in raw then raw[key] else default
  }

  /** Validation of an `Optional[str]` field. */
  function OptionalStr(field: string, v: Json): (r: Result<Option<string>, ConfigError>)
    ensures r.Success? <==> v.JNull? || v.JString?
    ensures r.Success? ==> (r.value.None? <==> v.JNull?)
    ensures r.Success? && v.JString? ==> r.value == Some(v.s)
    ensures r.Failure? ==> r.error == ValidationError(field)
  {
    match v
    case JNull => Success(None)
    case JString(s) => Success(Some(s))
    case _ => Failure(ValidationError(field))
  }

  /** Validation of a `List[str]` field: an array whose items are all strings. */
  function StrList(field: string, v: Json): (r: Result<seq<string>, ConfigError>)
    ensures r.Success? <==> v.JArray? && forall i :: 0 <= i < |v.items| ==> v.items[i].JString?
    ensures r.Success? ==> v == JArray(FromStrings(r.value))
    ensures r.Failure? ==> r.error == ValidationError(field)
  {
    if v.JArray? then
      match AsStrings(v.items)
      case Some(xs) =>
        assert FromStrings(xs) == v.items;
        Success(xs)
      case None => Failure(ValidationError(field))
    else Failure(ValidationError(field))
  }

  /** A list of strings written as an array is validated back to itself. */
  lemma StrListRoundTrip(field: string, xs: seq<string>)
    ensures StrList(field, JArray(FromStrings(xs))) == Success(xs)
  {
    StringsRoundTrip(xs);
  }

  /** `if reference_file: reference_file = Path(reference_file)`, joined under `baseDir` when
      the caller gives one, then `Optional[Path]` validation. A truthy value that is not a string
      makes `Path` raise; an empty string is falsy, skips the conversion and is validated as
      `Path("")`, which is `.`. */
  function ReferenceFile(v: Json, baseDir: Option<string>): (r: Result<Option<string>, ConfigError>)
    ensures r.Success? <==> v.JNull? || v.JString?
    ensures r.Failure? ==> (r.error == PathTypeError <==> Truthy(v))
    ensures r.Success? ==> (r.value.None? <==> v.JNull?)
    ensures r.Success? && v.JString? && v.s != [] && baseDir.None? ==> r.value == Some(v.s)
    ensures r.Success? && v.JString? && v.s != [] && baseDir.Some? ==> r.value == Some(JoinPath(baseDir.value, v.s))
  {
    match v
    case JNull => Success(None)
    case JString(s) =>
      if s == [] then Success(Some("."))
      else if baseDir.Some? then Success(Some(JoinPath(baseDir.value, s)))
      else Success(Some(s))
    case _ => if Truthy(v) then Failure(PathTypeError) else Failure(ValidationError("reference_file"))
  }

  /** `cls(output_file=..., imports=..., reference_file=..., extra_params=...)` after the
      `Path` conversion; the conversion raises before the model validates anything. */
  function Validated(output: Json, imports: Json, reference: Json, extra: map<string, Json>): Result<BasicConfig, ConfigError> {
    var o := OptionalStr("output_file", output);
    var i := StrList("imports", imports);
    var f := ReferenceFile(reference, None);
    if f == Failure(PathTypeError) then Failure(PathTypeError)
    else if o.Failure? then Failure(o.error)
    else if i.Failure? then Failure(i.error)
    else if f.Failure? then Failure(f.error)
    else Success(BasicConfig(o.value, i.value, f.value, extra))
  }

  /** `TemplateConfig.from_raw_config` of `parsing.py` on the raw dict. */
  function BasicConfigOf(raw: map<string, Json>): (r: Result<BasicConfig, ConfigError>)
    ensures r.Success? ==> r.value.extraParams == raw - BasicKeys
  {
    Validated(
      Lookup(raw, "output-file", JNull),
      Lookup(raw, "imports", JArray([])),
      Lookup(raw, "reference-file", JNull),
      raw - BasicKeys)
  }

  /** `from_raw_config`, popping the known keys from the dict it is given. */
  method FromRawConfig(d: ConfigDict) returns (r: Result<BasicConfig, ConfigError>)
    modifies d
    ensures d.entries == old(d.entries) - BasicKeys
    ensures r == BasicConfigOf(old(d.entries))
  {
    var outputFile := d.Pop("output-file", JNull);
    var imports := d.Pop("imports", JArray([]));
    var referenceFile := d.Pop("reference-file", JNull);
    assert d.entries == old(d.entries) - BasicKeys;
    r := Validated(outputFile, imports, referenceFile, d.entries);
  }

  /** Typing succeeds exactly when every known key that is present has the shape its field
      accepts. */
  lemma BasicConfigSucceedsIff(raw: map<string, Json>)
    ensures BasicConfigOf(raw).Success? <==>
      && ("output-file" in raw ==> raw["output-file"].JNull? || raw["output-file"].JString?)
      && ("imports" in raw ==>
            (raw["imports"].JArray? &&
             forall i :: 0 <= i < |raw["imports"].items| ==> raw["imports"].items[i].JString?))
      && ("reference-file" in raw ==> raw["reference-file"].JNull? || raw["reference-file"].JString?)
  {
  }

  /** Without any known key everything is defaulted and the whole dict is kept as extras. */
  lemma BasicConfigDefaults(raw: map<string, Json>)
    requires raw.Keys !! BasicKeys
    ensures BasicConfigOf(raw) == Success(BasicConfig(None, [], None, raw))
  {
    assert raw - BasicKeys == raw;
  }

  /** A configuration written back as raw entries is typed back to itself (an empty reference
      path cannot come back, since `""` is typed as `.`). */
  function RawOf(c: BasicConfig): map<string, Json> {
    c.extraParams
      ["output-file" := if c.outputFile.Some? then JString(c.outputFile.value) else JNull]
      ["imports" := JArray(FromStrings(c.imports))]
      ["reference-file" := if c.referenceFile.Some? then JString(c.referenceFile.value) else JNull]
  }

  lemma BasicConfigRoundTrip(c: BasicConfig)
    requires c.extraParams.Keys !! BasicKeys
    requires c.referenceFile != Some([])
    ensures BasicConfigOf(RawOf(c)) == Success(c)
  {
    StringsRoundTrip(c.imports);
    assert RawOf(c) - BasicKeys == c.extraParams;
  }

  /** The three sections of a template document. */
  datatype Sections = Sections(code: string, configText: string, template: string)

  /** The content with its `# /// script` block removed: every occurrence of the matched
      text is deleted and the rest stripped. Without such a block the content is unchanged. */
  function DropScriptBlock(content: string): (r: string)
    ensures Search(content, "script", 0).None? ==> r == content
    ensures Search(content, "script", 0).Some? ==> |r| < |content| && Trimmed(r, Whitespace)
    ensures Search(content, "script", 0).Some? ==>
      var m := Search(content, "script", 0).value;
      r == Strip(content[..m.start] + RemoveAll(content[m.end..], content[m.start..m.end]))
  {
    match Search(content, "script", 0)
    case None => content
    case Some(m) =>
      ScriptBlockShrinks(content, m);
      ScriptBlockFirst(content, m);
      Strip(RemoveAll(content, content[m.start..m.end]))
  }

  /** The first copy of the block's text is the block itself, since an earlier copy would be
      an earlier match; so the removal keeps everything before the block and removes the
      later copies from the rest. */
  lemma ScriptBlockFirst(content: string, m: Match)
    requires Search(content, "script", 0) == Some(m)
    ensures m.start < m.end <= |content|
    ensures RemoveAll(content, content[m.start..m.end])
      == content[..m.start] + RemoveAll(content[m.end..], content[m.start..m.end])
  {
    SearchTextFirst(content, "script", m);
    FirstCopyRemoved(content, m.start, m.end);
  }

  /** Removing the text of `s[i..e]`, when that is its first occurrence, keeps what precedes
      it and removes it and its later copies. */
  lemma FirstCopyRemoved(s: string, i: nat, e: nat)
    requires i < e <= |s|
    requires forall x: nat | x < i :: !InfixAt(s, s[i..e], x)
    ensures RemoveAll(s, s[i..e]) == s[..i] + RemoveAll(s[e..], s[i..e])
  {
    var pat := s[i..e];
    assert i + |pat| == e;
    assert InfixAt(s, pat, i);
    RemoveAllFirst(s, pat, i);
    assert s[i + |pat|..] == s[e..];
  }

  /** The matched script block is a non-empty infix, so removing it shortens the content. */
  lemma ScriptBlockShrinks(content: string, m: Match)
    requires Search(content, "script", 0) == Some(m)
    ensures m.start < m.end <= |content|
    ensures |RemoveAll(content, content[m.start..m.end])| < |content|
  {
    assert MatchAt(content, m.start, "script") == Some(m);
    InfixRemovalShrinks(content, m.start, m.end);
  }

  /** Removing a non-empty infix shortens the text. */
  lemma InfixRemovalShrinks(s: string, a: nat, b: nat)
    requires a < b <= |s|
    ensures |RemoveAll(s, s[a..b])| < |s|
  {
    assert InfixAt(s, s[a..b], a);
    RemoveAllShrinks(s, s[a..b]);
  }

  /** The template after the closing marker: `.strip().strip('"""').strip()`. */
  function TemplateBody(rest: string): (r: string)
    ensures |r| <= |rest| && Trimmed(r, Whitespace)
  {
    StripAround(rest, {'"'})
  }

  /** The section split of `from_file`: `None` when the document has no template block. */
  function SplitDocument(content: string): (r: Option<Sections>)
    ensures r.None? <==>
      forall i :: 0 <= i < |DropScriptBlock(content)| ==> MatchAt(DropScriptBlock(content), i, "template").None?
    ensures r.Some? ==>
      Trimmed(r.value.code, Whitespace) && Trimmed(r.value.configText, Whitespace) &&
      Trimmed(r.value.template, Whitespace)
    ensures r.Some? ==>
      var c := DropScriptBlock(content);
      var m := Search(c, "template", 0).value;
      r.value == Sections(Strip(c[..m.start]), Strip(c[m.groupStart..m.groupEnd]), TemplateBody(c[m.end..]))
  {
    var c := DropScriptBlock(content);
    match Search(c, "template", 0)
    case None => None
    case Some(m) =>
      MatchAtWellFormed(c, m.start, "template");
      Some(SectionsOf(c, m))
  }

  /** Code before the match, the stripped group, and the template after the match. */
  function SectionsOf(c: string, m: Match): (r: Sections)
    requires m.start <= m.groupStart <= m.groupEnd <= m.end <= |c|
    ensures Trimmed(r.code, Whitespace) && Trimmed(r.configText, Whitespace) && Trimmed(r.template, Whitespace)
  {
    Sections(Strip(c[..m.start]), Strip(c[m.groupStart..m.groupEnd]), TemplateBody(c[m.end..]))
  }

  /** The configuration text never holds a closing marker: the lazy group stops at the first. */
  lemma {:induction false} SplitConfigHasNoMarker(content: string)
    requires SplitDocument(content).Some?
    ensures HasNoMarker(SplitDocument(content).value.configText)
  {
    var c := DropScriptBlock(content);
    var m := Search(c, "template", 0).value;
    MatchAtWellFormed(c, m.start, "template");
    GroupHasNoMarker(c, m.groupStart, m.groupEnd);
    assert SplitDocument(content).value.configText == Strip(c[m.groupStart..m.groupEnd]);
  }

  /** The stripped text of a stretch where no marker starts holds no marker. */
  lemma GroupHasNoMarker(c: string, lo: nat, hi: nat)
    requires lo <= hi <= |c| && NoMarkerIn(c, lo, hi)
    ensures HasNoMarker(Strip(c[lo..hi]))
  {
    var a, n := StrippedGroupIsInfix(c, lo, hi);
    InfixHasNoMarkers(c, lo, hi, a, a + n, Strip(c[lo..hi]));
  }

  /** The stripped group of a match is an infix of the group. */
  lemma StrippedGroupIsInfix(c: string, lo: nat, hi: nat) returns (a: nat, n: nat)
    requires lo <= hi <= |c|
    ensures lo <= a <= a + n <= hi
    ensures Strip(c[lo..hi]) == c[a..a + n]
  {
    var x;
    x, n := InfixOfGroup(c[lo..hi]);
    a := lo + x;
    SliceOfSlice(c, lo, hi, x, n, a);
  }

  /** Where `Strip(g)` sits inside `g`. */
  lemma InfixOfGroup(g: string) returns (x: nat, n: nat)
    ensures x + n <= |g| && Strip(g) == g[x..x + n]
  {
    x := StripCharsInfix(g, Whitespace);
    n := |Strip(g)|;
  }

  /** No position of `t` starts a closing marker `#\s*///`. */
  ghost predicate HasNoMarker(t: string) {
    forall k: nat :: MarkerAt(t, k).None?
  }

  /** A text without `/` holds no marker, whatever `#` it has. */
  lemma NoSlashNoMarker(t: string)
    requires '/' !in t
    ensures HasNoMarker(t)
  {
    forall k: nat
      ensures MarkerAt(t, k).None?
    {
      if MarkerAt(t, k).Some? {
        var j := MarkerParts(t, k);
        SlashesAt(t, j);
      }
    }
  }

  /** No infix of the group of a well-formed match holds a marker. */
  lemma InfixHasNoMarkers(c: string, lo: nat, hi: nat, a: nat, b: nat, t: string)
    requires lo <= a <= b <= hi <= |c| && NoMarkerIn(c, lo, hi)
    requires t == c[a..b]
    ensures HasNoMarker(t)
  {
    forall k: nat
      ensures MarkerAt(t, k).None?
    {
      InfixHasNoMarker(c, lo, hi, a, b, k);
    }
  }

  /** Nor does any infix of such a group, at one position. */
  lemma InfixHasNoMarker(c: string, lo: nat, hi: nat, a: nat, b: nat, k: nat)
    requires lo <= a <= b <= hi <= |c| && NoMarkerIn(c, lo, hi)
    ensures MarkerAt(c[a..b], k).None?
  {
    if MarkerAt(c[a..b], k).Some? {
      MarkerInInfix(c, a, b, k);
      assert false;
    }
  }

  /** The opening line of a template block and its closing marker, as templates write them. */
  const TemplateOpen: string := "# /// template\n"
  const BlockClose: string := "# ///"

  /** A document made of code, a template block holding `cfg`, and the template after it. */
  function Document(code: string, cfg: string, body: string): string {
    code + TemplateOpen + cfg + BlockClose + body
  }

  /** `s` is laid out as `Document(code, cfg, body)`, piece by piece. */
  ghost predicate LaidOut(s: string, code: string, cfg: string, body: string) {
    var g := |code| + 15;
    var e := g + |cfg|;
    && |s| == e + 5 + |body|
    && IsInfixAt(code, s, 0) && IsInfixAt(TemplateOpen, s, |code|) && IsInfixAt(cfg, s, g)
    && IsInfixAt(BlockClose, s, e) && IsInfixAt(body, s, e + 5)
  }

  /** A document is laid out as its pieces. */
  lemma DocumentLaidOut(code: string, cfg: string, body: string)
    ensures LaidOut(Document(code, cfg, body), code, cfg, body)
  {
    var s := Document(code, cfg, body);
    assert s == (((code + TemplateOpen) + cfg) + BlockClose) + body;
  }

  /** And only the document is laid out so. */
  lemma LaidOutDocument(s: string, code: string, cfg: string, body: string)
    requires LaidOut(s, code, cfg, body)
    ensures s == Document(code, cfg, body)
  {
    var d := Document(code, cfg, body);
    DocumentLaidOut(code, cfg, body);
    var a := |code|;
    var g := a + 15;
    var e := g + |cfg|;
    forall k | 0 <= k < |s|
      ensures s[k] == d[k]
    {
      if k < a {
        assert s[k] == code[k] == d[k];
      } else if k < g {
        assert s[k] == TemplateOpen[k - a] == d[k];
      } else if k < e {
        assert s[k] == cfg[k - g] == d[k];
      } else if k < e + 5 {
        assert s[k] == BlockClose[k - e] == d[k];
      } else {
        assert s[k] == body[k - e - 5] == d[k];
      }
    }
  }

  /** The code, the configuration text and the template, read back as slices. */
  lemma LaidOutSlices(s: string, code: string, cfg: string, body: string)
    requires LaidOut(s, code, cfg, body)
    ensures var g := |code| + 15;
      var e := g + |cfg|;
      s[..|code|] == code && s[g..e] == cfg && s[e + 5..] == body
  {
    var g := |code| + 15;
    var e := g + |cfg|;
    assert forall i :: 0 <= i < |code| ==> s[..|code|][i] == code[i];
    assert forall i :: 0 <= i < |cfg| ==> s[g..e][i] == cfg[i];
    assert forall i :: 0 <= i < |body| ==> s[e + 5..][i] == body[i];
  }

  /** The characters of the opening line: `#`, a space, `///`, a space, the name and a
      newline. */
  lemma OpenLineChars(s: string, code: string, cfg: string, body: string)
    requires LaidOut(s, code, cfg, body)
    ensures var a := |code|;
      && a + 15 <= |s| && s[a] == '#' && s[a + 1] == ' ' && InfixAt(s, "///", a + 2)
      && s[a + 5] == ' ' && s[a + 6] == 't' && InfixAt(s, "template", a + 6) && s[a + 14] == '\n'
  {
    var a := |code|;
    var o := TemplateOpen;
    assert s[a] == o[0] && s[a + 1] == o[1] && s[a + 5] == o[5] && s[a + 6] == o[6] && s[a + 14] == o[14];
    var slashes := s[a + 2..a + 5];
    assert forall i :: 0 <= i < 3 ==> slashes[i] == o[2 + i];
    assert slashes == o[2..5];
    var name := s[a + 6..a + 14];
    assert forall i :: 0 <= i < 8 ==> name[i] == o[6 + i];
    assert name == o[6..14];
  }

  /** The characters of the closing marker: `#`, a space and `///`. */
  lemma CloseLineChars(s: string, code: string, cfg: string, body: string)
    requires LaidOut(s, code, cfg, body)
    ensures var e := |code| + 15 + |cfg|;
      e + 5 <= |s| && s[e] == '#' && s[e + 1] == ' ' && InfixAt(s, "///", e + 2)
  {
    var e := |code| + 15 + |cfg|;
    var c := BlockClose;
    assert s[e] == c[0] && s[e + 1] == c[1];
    var slashes := s[e + 2..e + 5];
    assert forall i :: 0 <= i < 3 ==> slashes[i] == c[2 + i];
    assert slashes == c[2..5];
  }

  /** Which characters of the two marker lines `\s` matches. */
  lemma MarkerLineSpaces()
    ensures ' ' in Whitespace && '\n' in Whitespace
    ensures '#' !in Whitespace && '/' !in Whitespace && 't' !in Whitespace
  {
  }

  /** Where the group of the template block starts inside the configuration text. The
      header's `\s*\n` takes the whitespace the text starts with up to its last newline, so
      the group starts after that newline, or at the text itself when the run has none. */
  function ConfigSkip(cfg: string): (d: nat)
    ensures d <= SkipSpace(cfg, 0)
    ensures forall k :: 0 <= k < d ==> cfg[k] in Whitespace
    ensures d > 0 ==> cfg[d - 1] == '\n'
    ensures forall k :: d <= k < SkipSpace(cfg, 0) ==> cfg[k] != '\n'
  {
    match LastNewline(cfg, 0, SkipSpace(cfg, 0))
    case None => 0
    case Some(q) => q + 1
  }

  /** Inside the document, the skipped part of the configuration text is whitespace ending in
      a newline, and the whitespace run after it holds no newline: it ends where the text's
      own leading run ends, or at the closing `#`. */
  lemma ConfigRun(s: string, code: string, cfg: string, body: string)
    requires LaidOut(s, code, cfg, body)
    ensures var g := |code| + 15;
      var d := ConfigSkip(cfg);
      && g + d <= g + |cfg| < |s|
      && (forall k :: g <= k < g + d ==> s[k] in Whitespace)
      && (d > 0 ==> s[g + d - 1] == '\n')
      && (forall k :: g + d <= k < SkipSpace(s, g + d) ==> s[k] != '\n')
  {
    CloseLineChars(s, code, cfg, body);
    MarkerLineSpaces();
    InfixRun(s, cfg, |code| + 15);
  }

  /** The same for the configuration text as a stretch of `s` followed by something other
      than whitespace. */
  lemma InfixRun(s: string, cfg: string, g: nat)
    requires IsInfixAt(cfg, s, g) && g + |cfg| < |s| && s[g + |cfg|] !in Whitespace
    ensures var d := ConfigSkip(cfg);
      && (forall k :: g <= k < g + d ==> s[k] in Whitespace)
      && (d > 0 ==> s[g + d - 1] == '\n')
      && (forall k :: g + d <= k < SkipSpace(s, g + d) ==> s[k] != '\n')
  {
    var d := ConfigSkip(cfg);
    var w := SkipSpace(cfg, 0);
    InfixRunEnd(s, cfg, g, d, w);
    forall k | g <= k < g + w
      ensures s[k] == cfg[k - g]
    {
    }
    if d > 0 {
      assert s[g + d - 1] == cfg[d - 1];
    }
  }

  /** Where the whitespace run from `g + d` ends in `s`: where the text's leading run `w`
      ends. */
  lemma InfixRunEnd(s: string, cfg: string, g: nat, d: nat, w: nat)
    requires IsInfixAt(cfg, s, g) && g + |cfg| < |s| && s[g + |cfg|] !in Whitespace
    requires d <= w && w == SkipSpace(cfg, 0)
    ensures SkipSpace(s, g + d) == g + w
  {
    forall k | g + d <= k < g + w
      ensures s[k] in Whitespace
    {
      assert s[k] == cfg[k - g];
    }
    if w < |cfg| {
      assert s[g + w] == cfg[w];
    }
    SkipSpaceTo(s, g + d, g + w);
  }

  /** A configuration text without a closing marker has none inside the document either: a
      marker starting in it would have to end before the `#` that closes the block. */
  lemma ConfigNoMarker(s: string, code: string, cfg: string, body: string)
    requires LaidOut(s, code, cfg, body) && HasNoMarker(cfg)
    ensures var g := |code| + 15;
      NoMarkerIn(s, g, g + |cfg|)
  {
    var g := |code| + 15;
    CloseLineChars(s, code, cfg, body);
    forall k | g <= k < g + |cfg|
      ensures MarkerAt(s, k).None?
    {
      MarkerWithinInfix(s, cfg, g, k);
    }
  }

  /** The opening line, the whitespace the header takes, the marker-free rest of the
      configuration text and the closing marker. */
  lemma TemplateLines(s: string, code: string, cfg: string, body: string)
    requires LaidOut(s, code, cfg, body) && HasNoMarker(cfg)
    ensures SpacedLines(s, |code|, "template", |code| + 15 + ConfigSkip(cfg), |code| + 15 + |cfg|)
  {
    var g := |code| + 15;
    OpenLineChars(s, code, cfg, body);
    MarkerLineSpaces();
    CloseLineChars(s, code, cfg, body);
    ConfigNoMarker(s, code, cfg, body);
    ConfigRun(s, code, cfg, body);
    forall k | |code| + 14 <= k < g + ConfigSkip(cfg)
      ensures s[k] in Whitespace
    {
    }
  }

  /** `re.search` finds the template block at the opening line, and its group is the
      configuration text after the whitespace the header takes: the lazy group runs to the
      closing marker because the text holds none, and no marker starts before the opening
      line. */
  lemma TemplateSearch(s: string, code: string, cfg: string, body: string, m: Match)
    requires LaidOut(s, code, cfg, body) && HasNoMarker(code) && HasNoMarker(cfg)
    requires m == Match(|code|, |code| + 15 + ConfigSkip(cfg), |code| + 15 + |cfg|, |code| + 15 + |cfg| + 5)
    ensures Search(s, "template", 0) == Some(m)
  {
    TemplateLines(s, code, cfg, body);
    CodeNoMarker(s, code, cfg, body);
    TemplateFound(s, |code|, |code| + 15 + ConfigSkip(cfg), |code| + 15 + |cfg|, m);
  }

  /** A spaced template block with no marker before it is what the search finds. */
  lemma TemplateFound(s: string, a: nat, g: nat, e: nat, m: Match)
    requires SpacedLines(s, a, "template", g, e) && NoMarkerIn(s, 0, a)
    requires m == Match(a, g, e, e + 5)
    ensures Search(s, "template", 0) == Some(m)
  {
    SearchFindsBlock(s, a, "template", g, e);
  }

  /** No marker starts in the code: one would end before the `#` of the opening line, inside
      the code. */
  lemma CodeNoMarker(s: string, code: string, cfg: string, body: string)
    requires LaidOut(s, code, cfg, body) && HasNoMarker(code)
    ensures NoMarkerIn(s, 0, |code|)
  {
    OpenLineChars(s, code, cfg, body);
    forall p | 0 <= p < |code|
      ensures MarkerAt(s, p).None?
    {
      MarkerWithinInfix(s, code, 0, p);
    }
  }

  /** No marker starts in the template after the closing marker, which ends the document. */
  lemma BodyNoMarker(s: string, code: string, cfg: string, body: string)
    requires LaidOut(s, code, cfg, body) && HasNoMarker(body)
    ensures var e := |code| + 15 + |cfg|;
      NoMarkerIn(s, e + 5, |s|)
  {
    var e := |code| + 15 + |cfg|;
    forall p | e + 5 <= p < |s|
      ensures MarkerAt(s, p).None?
    {
      MarkerWithinSuffix(s, body, e + 5, p);
    }
  }

  /** The two marker lines hold no `#` besides their first character. */
  lemma MarkerLinesHashes(s: string, code: string, cfg: string, body: string)
    requires LaidOut(s, code, cfg, body)
    ensures var a := |code|;
      var e := a + 15 + |cfg|;
      && (forall k :: a < k < a + 15 ==> s[k] != '#')
      && (forall k :: e < k < e + 5 ==> s[k] != '#')
  {
    var a := |code|;
    var e := a + 15 + |cfg|;
    forall k | a < k < a + 15
      ensures s[k] != '#'
    {
      assert s[k] == TemplateOpen[k - a];
    }
    forall k | e < k < e + 5
      ensures s[k] != '#'
    {
      assert s[k] == BlockClose[k - e];
    }
  }

  /** The script pattern matches nowhere: its header could only start at the opening line,
      which names `template`, or at the closing marker, after which no marker closes a group. */
  lemma NoScriptAt(s: string, code: string, cfg: string, body: string, p: nat)
    requires LaidOut(s, code, cfg, body) && HasNoMarker(code) && HasNoMarker(body) && HasNoMarker(cfg)
    requires p < |s|
    ensures MatchAt(s, p, "script").None?
  {
    var a := |code|;
    var e := a + 15 + |cfg|;
    if p < a {
      CodeNoMarker(s, code, cfg, body);
      NoMarkerNoMatch(s, p, "script");
    } else if p == a {
      OpenLineChars(s, code, cfg, body);
      OtherHeader(s, a);
    } else if p < e {
      if p < a + 15 {
        MarkerLinesHashes(s, code, cfg, body);
      } else {
        ConfigNoMarker(s, code, cfg, body);
      }
      NoMarkerNoMatch(s, p, "script");
    } else if p == e {
      CloseLineChars(s, code, cfg, body);
      SpacedMarker(s, e);
      match HeaderAt(s, e, "script")
      case None =>
      case Some(h) =>
        assert h > e + 5 && h <= |s|;
        BodyNoMarker(s, code, cfg, body);
        NoCloserAfter(s, h);
    } else {
      if p < e + 5 {
        MarkerLinesHashes(s, code, cfg, body);
      } else {
        BodyNoMarker(s, code, cfg, body);
      }
      NoMarkerNoMatch(s, p, "script");
    }
  }

  /** A marker line whose name starts with `t` does not open a script block. */
  lemma OtherHeader(s: string, a: nat)
    requires a + 6 < |s| && s[a] == '#' && s[a + 1] == ' ' && InfixAt(s, "///", a + 2)
    requires s[a + 5] == ' ' && s[a + 6] == 't'
    ensures MatchAt(s, a, "script").None?
  {
    MarkerLineSpaces();
    SpacedMarker(s, a);
    SkipSpaceTo(s, a + 5, a + 6);
    InfixFirst(s, "script", a + 6);
  }

  /** So the script search finds nothing and the document keeps all its text. */
  lemma NoScriptBlock(s: string, code: string, cfg: string, body: string)
    requires LaidOut(s, code, cfg, body) && HasNoMarker(code) && HasNoMarker(body) && HasNoMarker(cfg)
    ensures DropScriptBlock(s) == s
  {
    forall p | 0 <= p < |s|
      ensures MatchAt(s, p, "script").None?
    {
      NoScriptAt(s, code, cfg, body, p);
    }
  }

  /** The sections of a document whose search results are known. */
  lemma SectionsOfSearch(s: string, code: string, cfg: string, body: string, m: Match)
    requires DropScriptBlock(s) == s && Search(s, "template", 0) == Some(m)
    requires m.start <= |s| && m.groupStart <= m.groupEnd <= |s| && m.end <= |s|
    requires s[..m.start] == code && s[m.groupStart..m.groupEnd] == cfg && s[m.end..] == body
    ensures SplitDocument(s) == Some(Sections(Strip(code), Strip(cfg), TemplateBody(body)))
  {
  }

  /** What splitting a laid-out document relies on: nothing removed as a script block, the
      template block found at the opening line as the match `m`, and the pieces around it. */
  lemma LaidOutSearches(s: string, code: string, cfg: string, body: string, m: Match)
    requires LaidOut(s, code, cfg, body) && HasNoMarker(code) && HasNoMarker(body) && HasNoMarker(cfg)
    requires m == Match(|code|, |code| + 15 + ConfigSkip(cfg), |code| + 15 + |cfg|, |code| + 15 + |cfg| + 5)
    ensures DropScriptBlock(s) == s && Search(s, "template", 0) == Some(m)
    ensures m.start <= |s| && m.groupStart <= m.groupEnd <= |s| && m.end <= |s|
    ensures s[..m.start] == code && s[m.groupStart..m.groupEnd] == cfg[ConfigSkip(cfg)..] && s[m.end..] == body
  {
    NoScriptBlock(s, code, cfg, body);
    TemplateSearch(s, code, cfg, body, m);
    MatchSlices(s, code, cfg, body, m);
  }

  /** The pieces around the match `m` of the opening line. */
  lemma MatchSlices(s: string, code: string, cfg: string, body: string, m: Match)
    requires LaidOut(s, code, cfg, body)
    requires m == Match(|code|, |code| + 15 + ConfigSkip(cfg), |code| + 15 + |cfg|, |code| + 15 + |cfg| + 5)
    ensures m.start <= |s| && m.groupStart <= m.groupEnd <= |s| && m.end <= |s|
    ensures s[..m.start] == code && s[m.groupStart..m.groupEnd] == cfg[ConfigSkip(cfg)..] && s[m.end..] == body
  {
    var g := |code| + 15;
    LaidOutSlices(s, code, cfg, body);
    assert s[g + ConfigSkip(cfg)..g + |cfg|] == s[g..g + |cfg|][ConfigSkip(cfg)..];
  }

  /** Splitting a document gives back its pieces: the code, the configuration text and the
      template, each stripped as `from_file` strips them. It needs the code, the configuration
      text and the template free of markers (a `#`, whitespace and three slashes; a `#`
      comment or a `#` heading is fine). Whitespace the configuration text starts with, blank
      lines included, is taken partly by the header and the rest by the strip. */
  lemma SplitLaidOut(s: string, code: string, cfg: string, body: string)
    requires LaidOut(s, code, cfg, body) && HasNoMarker(code) && HasNoMarker(body)
    requires HasNoMarker(cfg)
    ensures SplitDocument(s) == Some(Sections(Strip(code), Strip(cfg), TemplateBody(body)))
  {
    var d := ConfigSkip(cfg);
    var m := Match(|code|, |code| + 15 + d, |code| + 15 + |cfg|, |code| + 15 + |cfg| + 5);
    LaidOutSearches(s, code, cfg, body, m);
    SectionsOfSearch(s, code, cfg[d..], body, m);
    StripDropsLeading(cfg, Whitespace, d);
  }

  /** The same for a document built by concatenation. */
  lemma SplitDocumentOf(code: string, cfg: string, body: string)
    requires HasNoMarker(code) && HasNoMarker(body) && HasNoMarker(cfg)
    ensures SplitDocument(Document(code, cfg, body)) == Some(Sections(Strip(code), Strip(cfg), TemplateBody(body)))
  {
    DocumentLaidOut(code, cfg, body);
    SplitLaidOut(Document(code, cfg, body), code, cfg, body);
  }

  /** `n` double quotes. */
  function Quotes(n: nat): (r: string)
    ensures |r| == n && forall k :: 0 <= k < n ==> r[k] == '"'
  {
    seq(n, _ => '"')
  }

  /** `strip('"""')` strips a set of characters, so every quote around the body goes, however
      many there are on either side. */
  lemma TemplateBodyDropsAllQuotes(n: nat, body: string, m: nat)
    requires Trimmed(body, Whitespace) && Trimmed(body, {'"'})
    ensures TemplateBody(Quotes(n) + body + Quotes(m)) == body
  {
    var s := Quotes(n) + body + Quotes(m);
    QuotedTrimmed(n, body, m);
    StripTrimmed(s, Whitespace);
    QuotesStripped(n, body, m);
    StripTrimmed(body, Whitespace);
  }

  /** Quotes around a trimmed body leave no whitespace at either end. */
  lemma QuotedTrimmed(n: nat, body: string, m: nat)
    requires Trimmed(body, Whitespace)
    ensures Trimmed(Quotes(n) + body + Quotes(m), Whitespace)
  {
    var s := Quotes(n) + body + Quotes(m);
    assert '"' !in Whitespace;
    if s != [] {
      assert s[0] == (if n > 0 then '"' else if body != [] then body[0] else '"');
      assert s[|s| - 1] == (if m > 0 then '"' else if body != [] then body[|body| - 1] else '"');
    }
  }

  /** `strip('"')` takes exactly the quotes around a body that neither starts nor ends with one. */
  lemma QuotesStripped(n: nat, body: string, m: nat)
    requires Trimmed(body, {'"'})
    ensures StripChars(Quotes(n) + body + Quotes(m), {'"'}) == body
  {
    var s := Quotes(n) + body + Quotes(m);
    StripCharsUnique(s, {'"'}, n, n + |body|);
    assert s[n..n + |body|] == body;
  }

  /** A parsed template file of `parsing.py`. */
  datatype BasicTemplateFile = BasicTemplateFile(path: string, pythonCode: string, templateContent: string, config: BasicConfig)

  /** Why loading a template file fails. */
  datatype LoadError =
    | TemplateNotFound(path: string)
    | MissingTemplateSection(path: string)
    | InvalidConfig(error: ConfigError)

  /** What `from_file` produces for `path`, given the readable files. */
  function TemplateFileOf(path: string, files: map<string, string>, decode: Decoder): Result<BasicTemplateFile, LoadError> {
    if path !in files then Failure(TemplateNotFound(path))
    else
      match SplitDocument(files[path])
      case None => Failure(MissingTemplateSection(path))
      case Some(sec) =>
        match BasicConfigOf(ParsedConfig(sec.configText, decode))
        case Failure(e) => Failure(InvalidConfig(e))
        case Success(cfg) => Success(BasicTemplateFile(path, sec.code, sec.template, cfg))
  }

  /** `TemplateFile.from_file`, with the file system as a map from path to text. */
  method FromFile(path: string, files: map<string, string>, decode: Decoder) returns (r: Result<BasicTemplateFile, LoadError>)
    ensures r == TemplateFileOf(path, files, decode)
  {
    if path !in files {
      return Failure(TemplateNotFound(path));
    }
    var content := files[path];
    var sections := SplitDocument(content);
    if sections.None? {
      return Failure(MissingTemplateSection(path));
    }
    var raw := ParseTemplateConfig(sections.value.configText, decode);
    var d := new ConfigDict(raw);
    var config := FromRawConfig(d);
    if config.Failure? {
      return Failure(InvalidConfig(config.error));
    }
    r := Success(BasicTemplateFile(path, sections.value.code, sections.value.template, config.value));
  }
}
