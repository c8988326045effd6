/** `TemplateFile._parse_template_config`: the `key = value` lines of a `# /// template` block
    folded into a dict, and the dict itself, which `TemplateConfig.from_raw_config` pops. */
module ConfigLines {
  import opened Wrappers
  import opened Text
  import opened Json

  /** The characters `strip("\"'")` removes from a fallback list item. */
  const QuoteChars: set<char> := {'"', '\''}

  /** `line.strip().strip("#").strip()`: whitespace, then every `#` at either end, then
      whitespace again. */
  function CleanLine(line: string): (r: string)
    ensures |r| <= |line| && Trimmed(r, Whitespace)
  {
    StripAround(line, {'#'})
  }

  /** Python's `v[1:-1]`. */
  function Inner(v: string): string {
    if |v| >= 2 then v[1..|v| - 1] else []
  }

  /** Removes one pair of surrounding quotes when both ends carry the same quote character;
      a lone `"` or `'` becomes empty, and mixed or missing quotes leave the value alone. */
  function Unquote(v: string): (r: string)
    ensures |v| >= 2 && v[0] in QuoteChars && v[|v| - 1] == v[0] ==> r == v[1..|v| - 1]
    ensures |v| == 1 && v[0] in QuoteChars ==> r == []
    ensures (v == [] || v[0] !in QuoteChars || v[|v| - 1] != v[0]) ==> r == v
  {
    if StartsWith(v, "\"") && EndsWith(v, "\"") then Inner(v)
    else if StartsWith(v, "'") && EndsWith(v, "'") then Inner(v)
    else v
  }

  /** The comma-split fallback for a bracketed value that is not JSON:
      `[item.strip().strip("\"'") for item in pieces if item.strip()]`. */
  function FallbackItems(pieces: seq<string>): (r: seq<string>)
    ensures |r| <= |pieces|
    ensures forall i :: 0 <= i < |r| ==> Trimmed(r[i], QuoteChars)
  {
    if pieces == [] then [] else FallbackPieceOf(pieces[0]) + FallbackItems(pieces[1..])
  }

  /** What one piece adds to a fallback list: nothing when blank, otherwise the piece
      stripped of whitespace and then of quote characters. */
  function FallbackPieceOf(p: string): (r: seq<string>)
    ensures |r| <= 1
    ensures forall i :: 0 <= i < |r| ==> Trimmed(r[i], QuoteChars)
  {
    if Strip(p) == [] then [] else [StripChars(Strip(p), QuoteChars)]
  }

  /** The value of one `key = value` line. A bracketed value is decoded as JSON when it can
      be, and split at commas otherwise; any other value is kept as a string. */
  function ParseValue(raw: string, decode: Decoder): (r: Json)
    ensures var v := Unquote(raw);
      !(StartsWith(v, "[") && EndsWith(v, "]")) ==> r == JString(v)
    ensures var v := Unquote(raw);
      StartsWith(v, "[") && EndsWith(v, "]") && decode(v).Some? ==> r == decode(v).value
    ensures var v := Unquote(raw);
      StartsWith(v, "[") && EndsWith(v, "]") && decode(v).None? ==>
        r == JArray(FromStrings(FallbackItems(Split(Inner(v), ','))))
  {
    var v := Unquote(raw);
    if StartsWith(v, "[") && EndsWith(v, "]") then
      match decode(v)
      case Some(j) => j
      case None => JArray(FromStrings(FallbackItems(Split(Inner(v), ','))))
    else JString(v)
  }

  /** One line of the block: `None` for a line that adds nothing, otherwise the key and the
      value, split at the FIRST `=`. */
  function ParseLine(line: string, decode: Decoder): (r: Option<(string, Json)>)
    ensures r.None? <==> CleanLine(line) == [] || '=' !in CleanLine(line)
    ensures r.Some? ==> '=' !in r.value.0 && Trimmed(r.value.0, Whitespace)
  {
    var t := CleanLine(line);
    if t == [] then None
    else
      match IndexOf(t, '=')
      case None => None
      case Some(e) => Some((Strip(t[..e]), ParseValue(Strip(t[e + 1..]), decode)))
  }

  /** A line whose cleaned text first holds `=` at `e` assigns the stripped text before it,
      with the value read from the stripped text after it (which may hold more `=`). */
  lemma ParseLineAt(line: string, decode: Decoder, e: nat)
    requires var t := CleanLine(line); e < |t| && t[e] == '=' && '=' !in t[..e]
    ensures var t := CleanLine(line);
      ParseLine(line, decode) == Some((Strip(t[..e]), ParseValue(Strip(t[e + 1..]), decode)))
  {
    IndexOfAt(CleanLine(line), '=', e);
  }

  /** A parser of one line. */
  type LineParser = string -> Option<(string, Json)>

  /** The dict after a loop has seen `lines`: each line the parser keeps assigns its key. */
  function ConfigOf(lines: seq<string>, parse: LineParser): map<string, Json>
    decreases |lines|
  {
    if lines == [] then map[]
    else
      var acc := ConfigOf(lines[..|lines| - 1], parse);
      match parse(lines[|lines| - 1])
      case None => acc
      case Some(kv) => acc[kv.0 := kv.1]
  }

  /** The dict `_parse_template_config` returns for a block's text. */
  function ParsedConfig(configText: string, decode: Decoder): map<string, Json> {
    ConfigOf(Split(configText, '\n'), (line: string) => ParseLine(line, decode))
  }

  /** `_parse_template_config`: the loop over `config_text.split("\n")`. */
  method ParseTemplateConfig(configText: string, decode: Decoder) returns (config: map<string, Json>)
    ensures config == ParsedConfig(configText, decode)
  {
    var lines := Split(configText, '\n');
    ghost var parse: LineParser := (line: string) => ParseLine(line, decode);
    config := map[];
    var i := 0;
    while i < |lines|
      invariant 0 <= i <= |lines|
      invariant config == ConfigOf(lines[..i], parse)
    {
      config := ApplyLine(config, lines[i], decode);
      assert parse(lines[i]) == ParseLine(lines[i], decode);
      ConfigOfSnoc(lines, i, parse);
      i := i + 1;
    }
    assert lines[..|lines|] == lines;
  }

  /** One more line seen: its key, if any, is (re)assigned. */
  lemma ConfigOfSnoc(lines: seq<string>, i: nat, parse: LineParser)
    requires i < |lines|
    ensures ConfigOf(lines[..i + 1], parse) ==
      match parse(lines[i])
      case None => ConfigOf(lines[..i], parse)
      case Some(kv) => ConfigOf(lines[..i], parse)[kv.0 := kv.1]
  {
    assert lines[..i + 1][..i] == lines[..i];
  }

  /** One pass of that loop's body: the line's key, if any, is (re)assigned in `config`. */
  method ApplyLine(config: map<string, Json>, rawLine: string, decode: Decoder) returns (next: map<string, Json>)
    ensures next == match ParseLine(rawLine, decode)
                    case None => config
                    case Some(kv) => config[kv.0 := kv.1]
  {
    next := config;
    var line := CleanLine(rawLine);
    if line == [] {
      assert ParseLine(rawLine, decode).None?;
      return;
    }
    var eq := IndexOf(line, '=');
    if eq.None? {
      assert '=' !in line;
      assert ParseLine(rawLine, decode).None?;
      return;
    }
    var key := Strip(line[..eq.value]);
    var raw := Strip(line[eq.value + 1..]);
    assert ParseLine(rawLine, decode) == Some((key, ParseValue(raw, decode)));
    var value := Unquote(raw);
    ghost var parsed := ParseValue(raw, decode);
    if StartsWith(value, "[") && EndsWith(value, "]") {
      var decoded := decode(value);
      if decoded.Some? {
        assert parsed == decoded.value;
        next := next[key := decoded.value];
        assert next == config[key := parsed];
      } else {
        var items := Split(Inner(value), ',');
        assert parsed == JArray(FromStrings(FallbackItems(items)));
        next := next[key := JArray(FromStrings(FallbackItems(items)))];
        assert next == config[key := parsed];
      }
    } else {
      assert parsed == JString(value);
      next := next[key := JString(value)];
      assert next == config[key := parsed];
    }
  }

  /** The keys of the dict are exactly the keys of the lines that are kept. */
  lemma {:induction false} ConfigOfKeys(lines: seq<string>, parse: LineParser, k: string)
    ensures k in ConfigOf(lines, parse) <==>
      exists i :: 0 <= i < |lines| && parse(lines[i]).Some? && parse(lines[i]).value.0 == k
    decreases |lines|
  {
    if lines != [] {
      var init := lines[..|lines| - 1];
      ConfigOfKeys(init, parse, k);
      assert forall i :: 0 <= i < |init| ==> init[i] == lines[i];
    }
  }

  /** Last one wins: a kept line whose key no later line repeats gives that key its value. */
  lemma {:induction false} ConfigOfLastWins(lines: seq<string>, parse: LineParser, i: nat, k: string, v: Json)
    requires i < |lines| && parse(lines[i]) == Some((k, v))
    requires forall j :: i < j < |lines| ==> parse(lines[j]).None? || parse(lines[j]).value.0 != k
    ensures k in ConfigOf(lines, parse) && ConfigOf(lines, parse)[k] == v
    decreases |lines|
  {
    if i < |lines| - 1 {
      var init := lines[..|lines| - 1];
      assert init[i] == lines[i];
      ConfigOfLastWins(init, parse, i, k, v);
    }
  }

  /** A fallback list keeps every non-blank piece, in order, each stripped of whitespace and
      then of surrounding quote characters. */
  lemma {:induction false} FallbackKeepsNonBlank(pieces: seq<string>)
    requires forall i :: 0 <= i < |pieces| ==> Strip(pieces[i]) != []
    ensures |FallbackItems(pieces)| == |pieces|
    ensures forall i :: 0 <= i < |pieces| ==> FallbackItems(pieces)[i] == StripChars(Strip(pieces[i]), QuoteChars)
  {
    if pieces != [] {
      FallbackKeepsNonBlank(pieces[1..]);
    }
  }

  /** The fallback list of two runs of pieces is the fallback list of each, in order: with
      `FallbackPiece` this fixes the list for any mix of blank and non-blank pieces. */
  lemma {:induction false} FallbackAppend(a: seq<string>, b: seq<string>)
    ensures FallbackItems(a + b) == FallbackItems(a) + FallbackItems(b)
    decreases |a|
  {
    if a != [] {
      TailOfAppend(a, b);
      FallbackAppend(a[1..], b);
      FallbackStep(a + b);
      FallbackStep(a);
      ConcatAssoc(FallbackPieceOf(a[0]), FallbackItems(a[1..]), FallbackItems(b));
    } else {
      assert a + b == b;
    }
  }

  /** The fallback list of pieces is what the first adds, followed by the list of the rest. */
  lemma FallbackStep(pieces: seq<string>)
    requires pieces != []
    ensures FallbackItems(pieces) == FallbackPieceOf(pieces[0]) + FallbackItems(pieces[1..])
  {
  }

  /** Appending keeps the first piece first and appends to the rest. */
  lemma TailOfAppend(a: seq<string>, b: seq<string>)
    requires a != []
    ensures (a + b)[0] == a[0] && (a + b)[1..] == a[1..] + b
  {
  }

  /** Concatenation of strings groups either way. */
  lemma ConcatAssoc(x: seq<string>, y: seq<string>, z: seq<string>)
    ensures x + (y + z) == (x + y) + z
  {
  }

  /** One piece: dropped when blank, otherwise stripped of whitespace and then of quotes. */
  lemma FallbackPiece(p: string)
    ensures FallbackItems([p]) == if Strip(p) == [] then [] else [StripChars(Strip(p), QuoteChars)]
  {
    assert [p][1..] == [];
  }

  /** A blank piece contributes nothing to the fallback list. */
  lemma FallbackDropsBlank(pieces: seq<string>)
    requires forall i :: 0 <= i < |pieces| ==> Strip(pieces[i]) == []
    ensures FallbackItems(pieces) == []
  {
    if pieces != [] {
      FallbackDropsBlank(pieces[1..]);
    }
  }

  /** A block line as the samples write it, `# <key> = <value>`, assigns the key with the
      value as `ParseValue` reads it. */
  lemma CommentedLine(key: string, value: string, decode: Decoder)
    requires key != [] && key[0] !in Whitespace && key[0] != '#' && key[|key| - 1] !in Whitespace && '=' !in key
    requires value != [] && value[0] !in Whitespace && value[|value| - 1] !in Whitespace && value[|value| - 1] != '#'
    ensures ParseLine("# " + key + " = " + value, decode) == Some((key, ParseValue(value, decode)))
  {
    var t := key + " = " + value;
    LineShape(key, value);
    CleanCommented(t);
    var e := FirstEquals(key, value);
    StripLast(key, ' ');
    StripFirst(' ', value, Whitespace);
  }

  /** How `# <key> = <value>` is put together. */
  lemma LineShape(key: string, value: string)
    ensures "# " + key + " = " + value == "#" + (" " + (key + " = " + value))
    ensures (key + " = " + value)[..|key| + 1] == key + " "
    ensures (key + " = " + value)[|key| + 2..] == " " + value
  {
  }

  /** `# <t>` cleans to `t` when `t` has no whitespace or `#` at its ends. */
  lemma CleanCommented(t: string)
    requires t != [] && Trimmed(t, Whitespace) && t[|t| - 1] != '#'
    ensures CleanLine("#" + (" " + t)) == t
  {
    var line := "#" + (" " + t);
    assert '#' !in Whitespace && ' ' in Whitespace;
    StripTrimmed(line, Whitespace);
    StripFirst('#', " " + t, {'#'});
    StripFirst(' ', t, Whitespace);
  }

  /** The first `=` of `<key> = <value>` is the one after the key. */
  lemma FirstEquals(key: string, value: string) returns (e: nat)
    requires '=' !in key
    ensures e == |key| + 1 && IndexOf(key + " = " + value, '=') == Some(e)
  {
    var t := key + " = " + value;
    e := |key| + 1;
    assert t[e] == '=';
    assert t[..e] == key + " ";
  }

  /** One strippable character in front is stripped. */
  lemma StripFirst(c: char, s: string, cs: set<char>)
    requires s != [] && Trimmed(s, cs) && c in cs
    ensures StripChars([c] + s, cs) == s
  {
    assert ([c] + s)[1..|s| + 1] == s;
    StripCharsUnique([c] + s, cs, 1, |s| + 1);
  }

  /** One whitespace character behind is stripped. */
  lemma StripLast(s: string, c: char)
    requires s != [] && Trimmed(s, Whitespace) && c in Whitespace
    ensures Strip(s + [c]) == s
  {
    assert (s + [c])[0..|s|] == s;
    StripCharsUnique(s + [c], Whitespace, 0, |s|);
  }

  /** The dict `_parse_template_config` builds and `from_raw_config` pops keys from. */
  class ConfigDict {
    var entries: map<string, Json>

    constructor (entries: map<string, Json>)
      ensures this.entries == entries
    {
      this.entries := entries;
    }

    /** `key in d`. */
    predicate Has(key: string)
      reads this
    {
      key in entries
    }

    /** `d.pop(key, default)`: removes the key and returns its value, or the default. */
    method Pop(key: string, default: Json) returns (v: Json)
      modifies this
      ensures entries == old(entries) - {key}
      ensures v == if key in old(entries) then old(entries)[key] else default
    {
      v := if key in entries then entries[key] else default;
      entries := entries - {key};
    }
  }
}
