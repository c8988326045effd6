/** Python `str` operations the parser relies on, over `string` (= seq<char>). */
module Text {
  import opened Wrappers

  /** The characters for which Python's `str.isspace()` holds. `str.strip()` with no argument
      removes exactly these, and `\s` in a `str` regular expression matches exactly these. */
  const Whitespace: set<char> := {
    ' ', '\t', '\n', '\r', '\U{000B}', '\U{000C}',
    '\U{001C}', '\U{001D}', '\U{001E}', '\U{001F}', '\U{0085}', '\U{00A0}', '\U{1680}',
    '\U{2000}', '\U{2001}', '\U{2002}', '\U{2003}', '\U{2004}', '\U{2005}', '\U{2006}',
    '\U{2007}', '\U{2008}', '\U{2009}', '\U{200A}', '\U{2028}', '\U{2029}', '\U{202F}',
    '\U{205F}', '\U{3000}'
  }

  /** Number of leading characters of `s` that belong to `cs`. */
  function LeadingIn(s: string, cs: set<char>): (n: nat)
    ensures n <= |s|
    ensures forall k :: 0 <= k < n ==> s[k] in cs
    ensures n == |s| || s[n] !in cs
  {
    if s == [] || s[0] !in cs then 0 else 1 + LeadingIn(s[1..], cs)
  }

  /** Number of trailing characters of `s` that belong to `cs`. */
  function TrailingIn(s: string, cs: set<char>): (n: nat)
    ensures n <= |s|
    ensures forall k :: |s| - n <= k < |s| ==> s[k] in cs
    ensures n == |s| || s[|s| - 1 - n] !in cs
  {
    if s == [] || s[|s| - 1] !in cs then 0 else 1 + TrailingIn(s[..|s| - 1], cs)
  }

  /** Python's `s.strip(chars)`: drops every leading and every trailing character that is
      in the SET `cs` (so `strip('"""')` removes any number of `"`, not one triple quote). */
  function StripChars(s: string, cs: set<char>): (r: string)
    ensures |r| <= |s|
    ensures Trimmed(r, cs)
  {
    var rest := s[LeadingIn(s, cs)..];
    rest[..|rest| - TrailingIn(rest, cs)]
  }

  /** Python's `s.strip()`. */
  function Strip(s: string): (r: string)
    ensures |r| <= |s| && Trimmed(r, Whitespace)
  {
    StripChars(s, Whitespace)
  }

  /** A string with no leading or trailing character of `cs`. */
  predicate Trimmed(s: string, cs: set<char>) {
    s == [] || (s[0] !in cs && s[|s| - 1] !in cs)
  }

  /** `StripChars(s, cs)` is the one infix `s[i..j]` whose outside consists of `cs` characters
      and whose own ends are not in `cs`. */
  lemma StripCharsUnique(s: string, cs: set<char>, i: nat, j: nat)
    requires i <= j <= |s|
    requires forall k :: 0 <= k < i ==> s[k] in cs
    requires forall k :: j <= k < |s| ==> s[k] in cs
    requires Trimmed(s[i..j], cs)
    ensures StripChars(s, cs) == s[i..j]
  {
    var a := LeadingIn(s, cs);
    var rest := s[a..];
    var b := TrailingIn(rest, cs);
    if i == j {
      assert a == |s|;
    } else {
      assert s[i] !in cs && s[j - 1] !in cs;
      assert a == i;
      assert rest == s[i..];
      assert rest[j - 1 - i] == s[j - 1];
      assert b == |s| - j;
    }
  }

  /** `s.strip().strip(cs).strip()`: whitespace, then every `cs` character at either end, then
      whitespace again. */
  function StripAround(s: string, cs: set<char>): (r: string)
    ensures |r| <= |s| && Trimmed(r, Whitespace)
  {
    Strip(StripChars(Strip(s), cs))
  }

  /** Stripping a text without `cs` characters at its ends leaves it as it is. */
  lemma StripTrimmed(s: string, cs: set<char>)
    requires Trimmed(s, cs)
    ensures StripChars(s, cs) == s
  {
    assert s[0..|s|] == s;
    StripCharsUnique(s, cs, 0, |s|);
  }

  /** Stripping twice changes nothing more than stripping once. */
  lemma StripCharsIdempotent(s: string, cs: set<char>)
    ensures StripChars(StripChars(s, cs), cs) == StripChars(s, cs)
  {
    var r := StripChars(s, cs);
    StripCharsUnique(r, cs, 0, |r|);
    assert r[0..|r|] == r;
  }

  /** `StripChars` returns an infix of its argument. */
  lemma StripCharsInfix(s: string, cs: set<char>) returns (i: nat)
    ensures i + |StripChars(s, cs)| <= |s|
    ensures StripChars(s, cs) == s[i..i + |StripChars(s, cs)|]
  {
    i := LeadingIn(s, cs);
    var rest := s[i..];
    assert StripChars(s, cs) == rest[..|rest| - TrailingIn(rest, cs)];
  }

  /** `StripChars` keeps the infix `s[i..j]` and drops only `cs` characters outside it. */
  lemma StripCharsOutside(s: string, cs: set<char>) returns (i: nat, j: nat)
    ensures i <= j <= |s| && StripChars(s, cs) == s[i..j]
    ensures forall k :: 0 <= k < i ==> s[k] in cs
    ensures forall k :: j <= k < |s| ==> s[k] in cs
  {
    i := LeadingIn(s, cs);
    var rest := s[i..];
    var b := TrailingIn(rest, cs);
    j := |s| - b;
    assert rest[..|rest| - b] == s[i..j];
    forall k | j <= k < |s|
      ensures s[k] in cs
    {
      assert s[k] == rest[k - i];
    }
  }

  /** Dropping leading `cs` characters before stripping them changes nothing. */
  lemma {:induction false} StripDropsLeading(s: string, cs: set<char>, d: nat)
    requires d <= |s| && forall k :: 0 <= k < d ==> s[k] in cs
    ensures StripChars(s[d..], cs) == StripChars(s, cs)
  {
    var u := s[d..];
    var i, j := StripCharsOutside(u, cs);
    forall k | 0 <= k < d + i
      ensures s[k] in cs
    {
      if k >= d {
        assert s[k] == u[k - d];
      }
    }
    forall k | d + j <= k < |s|
      ensures s[k] in cs
    {
      assert s[k] == u[k - d];
    }
    assert u[i..j] == s[d + i..d + j];
    StripCharsUnique(s, cs, d + i, d + j);
  }

  /** `s[i..i + |sub|] == sub`. */
  predicate InfixAt(s: string, sub: string, i: nat) {
    i + |sub| <= |s| && s[i..i + |sub|] == sub
  }

  /** Python's `sub in s`. */
  predicate Contains(s: string, sub: string) {
    exists i: nat | i <= |s| :: InfixAt(s, sub, i)
  }

  /** Python's `s.startswith(p)`. */
  predicate StartsWith(s: string, p: string) {
    |p| <= |s| && s[..|p|] == p
  }

  /** Python's `s.endswith(p)`. */
  predicate EndsWith(s: string, p: string) {
    |p| <= |s| && s[|s| - |p|..] == p
  }

  /** Python's `s.find(c)` for a single character, as an Option. */
  function IndexOf(s: string, c: char): (r: Option<nat>)
    ensures r.None? <==> c !in s
    ensures r.Some? ==> r.value < |s| && s[r.value] == c && c !in s[..r.value]
  {
    if s == [] then None
    else if s[0] == c then Some(0)
    else
      match IndexOf(s[1..], c)
      case None => None
      case Some(i) =>
        assert s[..i + 1] == [s[0]] + s[1..][..i];
        Some(i + 1)
  }

  /** The first position holding `c` is the one `IndexOf` finds. */
  lemma IndexOfAt(s: string, c: char, e: nat)
    requires e < |s| && s[e] == c && c !in s[..e]
    ensures IndexOf(s, c) == Some(e)
  {
    var r := IndexOf(s, c).value;
    forall k | 0 <= k < e
      ensures s[k] != c
    {
      assert s[..e][k] == s[k];
    }
    forall k | 0 <= k < r
      ensures s[k] != c
    {
      assert s[..r][k] == s[k];
    }
  }

  /** Python's `s.rfind(c)` for a single character, as an Option. */
  function LastIndexOf(s: string, c: char): (r: Option<nat>)
    ensures r.None? <==> c !in s
    ensures r.Some? ==> r.value < |s| && s[r.value] == c && c !in s[r.value + 1..]
  {
    if s == [] then None
    else if s[|s| - 1] == c then Some(|s| - 1)
    else
      var r := LastIndexOf(s[..|s| - 1], c);
      DropLastIn(s, c);
      if r.Some? then DropLastKeeps(s, c, r.value); r else r
  }

  /** Dropping a last character other than `c` keeps whether `c` occurs. */
  lemma DropLastIn(s: string, c: char)
    requires s != [] && s[|s| - 1] != c
    ensures c in s <==> c in s[..|s| - 1]
  {
    assert s == s[..|s| - 1] + [s[|s| - 1]];
  }

  /** ... and whether it occurs after position `v`. */
  lemma DropLastKeeps(s: string, c: char, v: nat)
    requires s != [] && s[|s| - 1] != c && v < |s| - 1
    ensures s[v] == s[..|s| - 1][v]
    ensures c in s[v + 1..] <==> c in s[..|s| - 1][v + 1..]
  {
    assert s[v + 1..] == s[..|s| - 1][v + 1..] + [s[|s| - 1]];
  }

  /** The last `c` is at `i` when `s[i]` is `c` and none follows it. */
  lemma LastIndexOfAt(s: string, c: char, i: nat)
    requires i < |s| && s[i] == c && c !in s[i + 1..]
    ensures LastIndexOf(s, c) == Some(i)
  {
    assert c in s;
  }

  /** Python's `sep.join(parts)` for a one-character separator. */
  function Join(parts: seq<string>, sep: char): string
    decreases |parts|
  {
    if |parts| == 0 then []
    else if |parts| == 1 then parts[0]
    else parts[0] + [sep] + Join(parts[1..], sep)
  }

  /** Python's `s.split(sep)` for a one-character separator: never empty, no piece holds the
      separator, and joining the pieces back gives `s`. */
  function Split(s: string, sep: char): (parts: seq<string>)
    ensures |parts| >= 1
    ensures forall i :: 0 <= i < |parts| ==> sep !in parts[i]
    ensures Join(parts, sep) == s
    decreases |s|
  {
    match IndexOf(s, sep)
    case None => [s]
    case Some(i) =>
      var tail := Split(s[i + 1..], sep);
      assert s == s[..i] + [sep] + s[i + 1..];
      [s[..i]] + tail
  }

  /** Splitting undoes joining when no piece holds the separator. */
  lemma {:induction false} SplitJoin(parts: seq<string>, sep: char)
    requires |parts| >= 1
    requires forall i :: 0 <= i < |parts| ==> sep !in parts[i]
    ensures Split(Join(parts, sep), sep) == parts
  {
    if |parts| > 1 {
      var s := Join(parts, sep);
      var p := parts[0];
      assert s == p + [sep] + Join(parts[1..], sep);
      assert s[..|p|] == p;
      assert s[|p|] == sep;
      assert IndexOf(s, sep) == Some(|p|);
      assert s[|p| + 1..] == Join(parts[1..], sep);
      SplitJoin(parts[1..], sep);
    }
  }

  /** `s.split(sep)` has one piece more than `s` has separators. */
  lemma {:induction false} SplitCount(s: string, sep: char)
    ensures |Split(s, sep)| == multiset(s)[sep] + 1
    decreases |s|
  {
    match IndexOf(s, sep)
    case None =>
    case Some(i) =>
      assert s == s[..i] + [sep] + s[i + 1..];
      assert multiset(s) == multiset(s[..i]) + multiset{sep} + multiset(s[i + 1..]);
      SplitCount(s[i + 1..], sep);
  }

  /** A slice of a slice is a slice. */
  lemma SliceOfSlice(c: string, i: nat, j: nat, x: nat, n: nat, a: nat)
    requires i <= j <= |c| && x + n <= j - i && a == i + x
    ensures c[i..j][x..x + n] == c[a..a + n]
  {
    var d := c[i..j][x..x + n];
    var e := c[a..a + n];
    assert forall k :: 0 <= k < n ==> d[k] == e[k];
  }
}
