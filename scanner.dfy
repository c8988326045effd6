// A hand-written scanner for the two regular expressions of `TemplateFile.from_file`,
//   #\s*///\s*script\s*\n(.*?)#\s*///   and   #\s*///\s*template\s*\n(.*?)#\s*///
// both used with `re.search` and `re.DOTALL`, and for `str.replace(block, "")`.
module Scanner {
  import opened Wrappers
  import opened Text

  /** The end of the maximal whitespace run starting at `i` (a greedy `\s*`). */
  function SkipSpace(s: string, i: nat): (r: nat)
    requires i <= |s|
    ensures i <= r <= |s|
    ensures forall k :: i <= k < r ==> s[k] in Whitespace
    ensures r == |s| || s[r] !in Whitespace
    decreases |s| - i
  {
    if i == |s| || s[i] !in Whitespace then i else SkipSpace(s, i + 1)
  }

  // `#\s*///` at `i`: the position just past the three slashes. Since `/` is not whitespace,
  // the greedy `\s*` never has to give characters back.
  function MarkerAt(s: string, i: nat): (r: Option<nat>)
    ensures r.Some? ==> i < |s| && s[i] == '#' && i + 4 <= r.value <= |s|
  {
    if i < |s| && s[i] == '#' then
      var j := SkipSpace(s, i + 1);
      if InfixAt(s, "///", j) then Some(j + 3) else None
    else None
  }

  /** The largest `q` in `[lo, hi)` with `s[q] == '\n'`. */
  function LastNewline(s: string, lo: nat, hi: nat): (r: Option<nat>)
    requires lo <= hi <= |s|
    ensures r.Some? ==> lo <= r.value < hi && s[r.value] == '\n'
    ensures r.Some? ==> forall k :: r.value < k < hi ==> s[k] != '\n'
    ensures r.None? ==> forall k :: lo <= k < hi ==> s[k] != '\n'
    decreases hi - lo
  {
    if lo == hi then None
    else if s[hi - 1] == '\n' then Some(hi - 1)
    else LastNewline(s, lo, hi - 1)
  }

  // `#\s*///\s*<name>\s*\n` at `i`: the start of the captured group. The greedy `\s*` before
  // `\n` takes the whole whitespace run after the name and backs off to its last newline,
  // so the group starts just after that newline. Backing off further never helps: no closing
  // marker can start inside a whitespace run.
  function HeaderAt(s: string, i: nat, name: string): (r: Option<nat>)
    ensures r.Some? ==> i < r.value <= |s| && s[r.value - 1] == '\n'
    ensures r.Some? ==> MarkerAt(s, i).Some?
  {
    match MarkerAt(s, i)
    case None => None
    case Some(j) => NameLineFrom(s, j, name)
  }

  /** `\s*<name>\s*\n` from `j`: the position after the last newline of the whitespace run
      that follows the name. */
  function NameLineFrom(s: string, j: nat, name: string): (r: Option<nat>)
    requires j <= |s|
    ensures r.Some? ==> j < r.value <= |s| && s[r.value - 1] == '\n'
  {
    var k := SkipSpace(s, j);
    if InfixAt(s, name, k) then
      var e := SkipSpace(s, k + |name|);
      match LastNewline(s, k + |name|, e)
      case None => None
      case Some(q) => Some(q + 1)
    else None
  }

  /** The least `i` in `[from, hi)` for which `p` holds. */
  function FirstWhere(from: nat, hi: nat, p: nat -> bool): (r: Option<nat>)
    requires from <= hi
    ensures r.Some? ==> from <= r.value < hi && p(r.value)
    ensures r.Some? ==> forall i :: from <= i < r.value ==> !p(i)
    ensures r.None? ==> forall i :: from <= i < hi ==> !p(i)
    decreases hi - from
  {
    if from == hi then None
    else if p(from) then Some(from)
    else FirstWhere(from + 1, hi, p)
  }

  // The first `k >= from` where `#\s*///` matches: where the lazy `(.*?)` stops.
  function CloserFrom(s: string, from: nat): (r: Option<nat>)
    requires from <= |s|
    ensures r.Some? ==> from <= r.value < |s| && MarkerAt(s, r.value).Some?
    ensures r.Some? ==> forall k :: from <= k < r.value ==> MarkerAt(s, k).None?
    ensures r.None? ==> forall k :: from <= k < |s| ==> MarkerAt(s, k).None?
  {
    var p := (k: nat) => MarkerAt(s, k).Some?;
    var r := FirstWhere(from, |s|, p);
    assert forall k: nat | from <= k < (if r.Some? then r.value else |s|) :: MarkerAt(s, k).None? by {
      forall k: nat | from <= k < (if r.Some? then r.value else |s|) ensures MarkerAt(s, k).None? {
        assert !p(k);
      }
    }
    assert r.Some? ==> p(r.value);
    r
  }

  /** A successful match: `s[start..end]` is `group(0)`, `s[groupStart..groupEnd]` is
      `group(1)`. */
  datatype Match = Match(start: nat, groupStart: nat, groupEnd: nat, end: nat)

  /** The closing marker ends the match, and none starts earlier inside the group. */
  ghost predicate WellFormed(s: string, m: Match) {
    && m.start < m.groupStart <= m.groupEnd < m.end <= |s|
    && s[m.start] == '#'
    && MarkerAt(s, m.groupEnd) == Some(m.end)
    && NoMarkerIn(s, m.groupStart, m.groupEnd)
  }

  /** No marker starts in `s[lo..hi]`. */
  ghost predicate NoMarkerIn(s: string, lo: nat, hi: nat) {
    forall k :: lo <= k < hi ==> MarkerAt(s, k).None?
  }

  /** The whole pattern tried at position `i`. */
  function MatchAt(s: string, i: nat, name: string): (r: Option<Match>)
    ensures r.Some? ==> r.value.start == i && i < r.value.end <= |s|
    ensures r.Some? ==> i < r.value.groupStart <= r.value.groupEnd < r.value.end
  {
    match HeaderAt(s, i, name)
    case None => None
    case Some(g) =>
      match CloserFrom(s, g)
      case None => None
      case Some(k) => Some(Match(i, g, k, MarkerAt(s, k).value))
  }

  /** A match found at `i` starts at `i`, ends with the first closing marker after its header,
      and its group holds no closing marker (the lazy `(.*?)`). */
  lemma MatchAtWellFormed(s: string, i: nat, name: string)
    requires MatchAt(s, i, name).Some?
    ensures WellFormed(s, MatchAt(s, i, name).value)
  {
  }

  /** No match of the pattern starts in `[lo, hi)`. */
  ghost predicate NoMatchIn(s: string, name: string, lo: nat, hi: nat) {
    forall i :: lo <= i < hi ==> MatchAt(s, i, name).None?
  }

  /** `re.search` from position `from`: the leftmost position where the pattern matches. */
  function Search(s: string, name: string, from: nat): (r: Option<Match>)
    requires from <= |s|
    ensures r.Some? ==> from <= r.value.start < |s| && MatchAt(s, r.value.start, name) == r
    ensures r.Some? ==> NoMatchIn(s, name, from, r.value.start)
    ensures r.None? ==> NoMatchIn(s, name, from, |s|)
    decreases |s| - from
  {
    if from == |s| then None
    else
      var here := MatchAt(s, from, name);
      if here.Some? then here
      else
        var r := Search(s, name, from + 1);
        NoMatchExtended(s, name, from, if r.Some? then r.value.start else |s|);
        r
  }

  /** A position without a match extends a match-free range to its left. */
  lemma NoMatchExtended(s: string, name: string, lo: nat, hi: nat)
    requires lo < hi && MatchAt(s, lo, name).None? && NoMatchIn(s, name, lo + 1, hi)
    ensures NoMatchIn(s, name, lo, hi)
  {
    forall i | lo < i < hi
      ensures MatchAt(s, i, name).None?
    {
      assert lo + 1 <= i;
    }
  }

  /** A whitespace run that ends inside an infix of `s` ends at the same place in `s`. */
  lemma SkipSpaceInInfix(s: string, a: nat, b: nat, i: nat)
    requires a <= b <= |s| && i <= b - a
    requires SkipSpace(s[a..b], i) < b - a
    ensures SkipSpace(s, a + i) == a + SkipSpace(s[a..b], i)
  {
    var t := s[a..b];
    var e := SkipSpace(t, i);
    var r := SkipSpace(s, a + i);
    assert s[a + e] == t[e] && s[a + e] !in Whitespace;
    assert forall k :: a + i <= k < a + e ==> s[k] == t[k - a];
  }

  /** A marker found inside an infix of `s` is a marker of `s` at the shifted position: the
      whitespace run it skips ends at a `/` inside the infix. */
  lemma MarkerInInfix(s: string, a: nat, b: nat, k: nat)
    requires a <= b <= |s|
    requires MarkerAt(s[a..b], k).Some?
    ensures MarkerAt(s, a + k) == Some(a + MarkerAt(s[a..b], k).value)
  {
    var t := s[a..b];
    var jt := MarkerParts(t, k);
    SkipSpaceInInfix(s, a, b, k + 1);
    InfixInInfix(s, a, b, "///", jt);
    assert s[a + k] == t[k];
    MarkerFromParts(s, a + k, a + jt);
  }

  /** An occurrence inside an infix of `s` is an occurrence in `s`, shifted. */
  lemma InfixInInfix(s: string, a: nat, b: nat, sub: string, x: nat)
    requires a <= b <= |s| && InfixAt(s[a..b], sub, x)
    ensures InfixAt(s, sub, a + x)
  {
    var u := s[a + x..a + x + |sub|];
    var v := s[a..b][x..x + |sub|];
    assert forall i :: 0 <= i < |sub| ==> u[i] == v[i];
  }

  /** What a marker at `i` consists of: `#`, a whitespace run ending at `j`, and `///`. */
  lemma MarkerParts(s: string, i: nat) returns (j: nat)
    requires MarkerAt(s, i).Some?
    ensures i < |s| && s[i] == '#' && j == SkipSpace(s, i + 1)
    ensures InfixAt(s, "///", j) && MarkerAt(s, i) == Some(j + 3)
  {
    j := SkipSpace(s, i + 1);
  }

  /** Those parts make a marker. */
  lemma MarkerFromParts(s: string, i: nat, j: nat)
    requires i < |s| && s[i] == '#' && j == SkipSpace(s, i + 1) && InfixAt(s, "///", j)
    ensures MarkerAt(s, i) == Some(j + 3)
  {
  }

  /** A whitespace run from `i` that stops at a non-whitespace `s[r]` ends at `r`. */
  lemma SkipSpaceTo(s: string, i: nat, r: nat)
    requires i <= r < |s|
    requires forall k :: i <= k < r ==> s[k] in Whitespace
    requires s[r] !in Whitespace
    ensures SkipSpace(s, i) == r
  {
  }

  /** The lazy group stops at `k` when a marker starts there and none starts earlier. */
  lemma CloserFromAt(s: string, from: nat, k: nat)
    requires from <= k < |s| && MarkerAt(s, k).Some?
    requires forall x :: from <= x < k ==> MarkerAt(s, x).None?
    ensures CloserFrom(s, from) == Some(k)
  {
  }

  /** A header, the first closing marker after it, and that marker's end make a match. */
  lemma MatchFromParts(s: string, i: nat, name: string, g: nat, k: nat, end: nat)
    requires HeaderAt(s, i, name) == Some(g) && g <= |s| && CloserFrom(s, g) == Some(k)
    requires MarkerAt(s, k) == Some(end)
    ensures MatchAt(s, i, name) == Some(Match(i, g, k, end))
  {
  }

  /** The characters of a `///` occurrence. */
  lemma SlashesAt(s: string, j: nat)
    requires InfixAt(s, "///", j)
    ensures j + 3 <= |s| && s[j] == '/' && s[j + 1] == '/' && s[j + 2] == '/'
  {
    assert s[j..j + 3] == "///";
  }

  /** The first character of a non-empty occurrence. */
  lemma InfixFirst(s: string, sub: string, j: nat)
    requires sub != []
    ensures InfixAt(s, sub, j) ==> j < |s| && s[j] == sub[0]
  {
    if InfixAt(s, sub, j) {
      assert s[j..j + |sub|][0] == s[j];
    }
  }

  /** `#`, a space and `///` make a marker at `i`. */
  lemma SpacedMarker(s: string, i: nat)
    requires i + 1 < |s| && s[i] == '#' && s[i + 1] == ' ' && InfixAt(s, "///", i + 2)
    ensures MarkerAt(s, i) == Some(i + 5)
  {
    SlashesAt(s, i + 2);
    MarkerCharsNotSpace();
    assert ' ' in Whitespace;
    SkipSpaceTo(s, i + 1, i + 2);
    MarkerFromParts(s, i, i + 2);
  }

  /** A header line `# /// <name>` ending in a newline, followed by a whitespace run: the
      group starts at `g`, just after the last newline of that run. */
  lemma SpacedHeader(s: string, i: nat, name: string, g: nat)
    requires name != [] && name[0] !in Whitespace
    requires i + 7 + |name| <= g <= |s|
    requires s[i] == '#' && s[i + 1] == ' ' && InfixAt(s, "///", i + 2)
    requires s[i + 5] == ' ' && InfixAt(s, name, i + 6)
    requires forall k :: i + 6 + |name| <= k < g ==> s[k] in Whitespace
    requires s[g - 1] == '\n'
    requires forall k :: g <= k < SkipSpace(s, g) ==> s[k] != '\n'
    ensures HeaderAt(s, i, name) == Some(g)
  {
    SpacedMarker(s, i);
    InfixFirst(s, name, i + 6);
    assert ' ' in Whitespace;
    SkipSpaceTo(s, i + 5, i + 6);
    var lo := i + 6 + |name|;
    SkipSpaceThrough(s, lo, g);
    LastNewlineAt(s, lo, SkipSpace(s, g), g - 1);
  }

  /** A whitespace run through `[x, y)` ends where the run from `y` ends. */
  lemma {:induction false} SkipSpaceThrough(s: string, x: nat, y: nat)
    requires x <= y <= |s| && forall k :: x <= k < y ==> s[k] in Whitespace
    ensures SkipSpace(s, x) == SkipSpace(s, y)
    decreases y - x
  {
    if x < y {
      SkipSpaceThrough(s, x + 1, y);
    }
  }

  /** A newline at `q` with none after it before `hi` is the last one. */
  lemma {:induction false} LastNewlineAt(s: string, lo: nat, hi: nat, q: nat)
    requires lo <= q < hi <= |s| && s[q] == '\n'
    requires forall k :: q < k < hi ==> s[k] != '\n'
    ensures LastNewline(s, lo, hi) == Some(q)
    decreases hi
  {
    if hi - 1 != q {
      LastNewlineAt(s, lo, hi - 1, q);
    }
  }

  /** A header at `i` whose group starts at `g`, no marker in `s[g..e]`, and `# ///` at `e`. */
  ghost predicate SpacedBlock(s: string, i: nat, name: string, g: nat, e: nat) {
    && HeaderAt(s, i, name) == Some(g) && g <= e && e + 1 < |s|
    && NoMarkerIn(s, g, e)
    && s[e] == '#' && s[e + 1] == ' ' && InfixAt(s, "///", e + 2)
  }

  /** A header ending at `g`, a stretch without a marker, and a spaced closing marker at `e`
      make a match whose group is exactly that stretch. */
  lemma SpacedBlockMatch(s: string, i: nat, name: string, g: nat, e: nat)
    requires SpacedBlock(s, i, name, g, e)
    ensures MatchAt(s, i, name) == Some(Match(i, g, e, e + 5))
  {
    ClosedGroup(s, g, e);
    MatchFromParts(s, i, name, g, e, e + 5);
  }

  /** A header line `# /// <name>` whose group starts at `g`, no marker in `s[g..e]`, and a
      spaced closing marker at `e`, spelled out character by character. */
  ghost predicate SpacedLines(s: string, i: nat, name: string, g: nat, e: nat) {
    && name != [] && name[0] !in Whitespace
    && i + 7 + |name| <= g <= e && e + 1 < |s|
    && s[i] == '#' && s[i + 1] == ' ' && InfixAt(s, "///", i + 2)
    && s[i + 5] == ' ' && InfixAt(s, name, i + 6)
    && (forall k :: i + 6 + |name| <= k < g ==> s[k] in Whitespace)
    && s[g - 1] == '\n' && (forall k :: g <= k < SkipSpace(s, g) ==> s[k] != '\n')
    && NoMarkerIn(s, g, e)
    && s[e] == '#' && s[e + 1] == ' ' && InfixAt(s, "///", e + 2)
  }

  /** Those lines make a block. */
  lemma SpacedLinesBlock(s: string, i: nat, name: string, g: nat, e: nat)
    requires SpacedLines(s, i, name, g, e)
    ensures SpacedBlock(s, i, name, g, e)
  {
    SpacedHeader(s, i, name, g);
  }

  /** With no marker starting before `i`, `re.search` finds that block first. */
  lemma SearchFindsBlock(s: string, i: nat, name: string, g: nat, e: nat)
    requires SpacedLines(s, i, name, g, e)
    requires NoMarkerIn(s, 0, i)
    ensures Search(s, name, 0) == Some(Match(i, g, e, e + 5))
  {
    SpacedLinesBlock(s, i, name, g, e);
    SpacedBlockMatch(s, i, name, g, e);
    forall k | 0 <= k < i
      ensures MatchAt(s, k, name).None?
    {
      NoMarkerNoMatch(s, k, name);
    }
    SearchFindsAt(s, name, i);
  }

  /** A match starts with a marker. */
  lemma NoMarkerNoMatch(s: string, k: nat, name: string)
    requires MarkerAt(s, k).None?
    ensures MatchAt(s, k, name).None?
  {
    assert HeaderAt(s, k, name).None?;
  }

  /** A lazy group from `g` over a stretch without a marker stops at a spaced closing marker
      at `e`. */
  lemma ClosedGroup(s: string, g: nat, e: nat)
    requires g <= e && e + 1 < |s| && NoMarkerIn(s, g, e)
    requires s[e] == '#' && s[e + 1] == ' ' && InfixAt(s, "///", e + 2)
    ensures CloserFrom(s, g) == Some(e) && MarkerAt(s, e) == Some(e + 5)
  {
    SpacedMarker(s, e);
    CloserFromAt(s, g, e);
  }

  /** Without a marker from `h` on, no closing marker follows `h`. */
  lemma NoCloserAfter(s: string, h: nat)
    requires h <= |s| && NoMarkerIn(s, h, |s|)
    ensures CloserFrom(s, h).None?
  {
  }

  /** `re.search` from the start finds the match at `a` when none starts earlier. */
  lemma SearchFindsAt(s: string, name: string, a: nat)
    requires a < |s| && MatchAt(s, a, name).Some?
    requires forall k :: 0 <= k < a ==> MatchAt(s, k, name).None?
    ensures Search(s, name, 0) == MatchAt(s, a, name)
  {
  }

  /** Neither character of a marker is whitespace. */
  lemma MarkerCharsNotSpace()
    ensures '#' !in Whitespace && '/' !in Whitespace
  {
  }

  /** A marker that starts before a `#` at `hi` ends before it: its whitespace run cannot
      cross the `#`, and its slashes are not the `#`. */
  lemma MarkerEndsBefore(s: string, hi: nat, k: nat) returns (j: nat)
    requires k < hi < |s| && s[hi] == '#'
    requires MarkerAt(s, k).Some?
    ensures k < j && j + 3 <= hi && j == SkipSpace(s, k + 1) && InfixAt(s, "///", j)
  {
    j := MarkerParts(s, k);
    MarkerCharsNotSpace();
    assert s[j] == '/' && s[j + 1] == '/' && s[j + 2] == '/' by {
      assert s[j..j + 3] == "///";
    }
  }

  /** `t` is the stretch of `s` that starts at `lo`. */
  ghost predicate IsInfixAt(t: string, s: string, lo: nat) {
    lo + |t| <= |s| && forall i :: 0 <= i < |t| ==> t[i] == s[lo + i]
  }

  /** A marker that starts inside the stretch `t` of `s`, where `s` has a `#` right after `t`,
      is a marker of `t`. */
  lemma MarkerWithinInfix(s: string, t: string, lo: nat, k: nat)
    requires IsInfixAt(t, s, lo) && lo <= k < lo + |t| < |s| && s[lo + |t|] == '#'
    ensures MarkerAt(s, k).Some? ==> MarkerAt(t, k - lo).Some?
  {
    if MarkerAt(s, k).Some? {
      var j := MarkerEndsBefore(s, lo + |t|, k);
      PartsWithinInfix(s, t, lo, k, j);
    }
  }

  /** A marker that starts inside the stretch `t` that ends `s` is a marker of `t`. */
  lemma MarkerWithinSuffix(s: string, t: string, lo: nat, k: nat)
    requires IsInfixAt(t, s, lo) && lo + |t| == |s| && lo <= k < |s|
    ensures MarkerAt(s, k).Some? ==> MarkerAt(t, k - lo).Some?
  {
    if MarkerAt(s, k).Some? {
      var j := MarkerParts(s, k);
      SlashesAt(s, j);
      PartsWithinInfix(s, t, lo, k, j);
    }
  }

  /** The parts of such a marker, read in the stretch, make a marker of the stretch. */
  lemma PartsWithinInfix(s: string, t: string, lo: nat, k: nat, j: nat)
    requires IsInfixAt(t, s, lo) && lo <= k < j && j + 3 <= lo + |t| && s[k] == '#'
    requires j == SkipSpace(s, k + 1) && InfixAt(s, "///", j)
    ensures MarkerAt(t, k - lo).Some?
  {
    var k2: nat, j2: nat := k - lo, j - lo;
    assert t[k2] == '#' by {
      assert t[k2] == s[lo + k2];
    }
    SkipSpaceOfInfix(s, t, lo, k2 + 1, j);
    InfixOfInfix(s, t, lo, "///", j);
    MarkerFromParts(t, k2, j2);
  }

  /** An occurrence in `s` that lies inside the stretch `t` is an occurrence in `t`. */
  lemma InfixOfInfix(s: string, t: string, lo: nat, sub: string, x: nat)
    requires IsInfixAt(t, s, lo) && lo <= x && x + |sub| <= lo + |t| && InfixAt(s, sub, x)
    ensures InfixAt(t, sub, x - lo)
  {
    var u := t[x - lo..x - lo + |sub|];
    var v := s[x..x + |sub|];
    assert forall i :: 0 <= i < |sub| ==> u[i] == v[i];
  }

  /** A whitespace run of `s` that ends inside the stretch `t` is one of `t`. */
  lemma SkipSpaceOfInfix(s: string, t: string, lo: nat, x: nat, j: nat)
    requires IsInfixAt(t, s, lo) && lo + x <= j < lo + |t| && j == SkipSpace(s, lo + x)
    ensures SkipSpace(t, x) == j - lo
  {
    forall y | x <= y < j - lo
      ensures t[y] in Whitespace
    {
      assert t[y] == s[lo + y];
    }
    assert t[j - lo] == s[j];
    SkipSpaceTo(t, x, j - lo);
  }

  /** `s[i..i + n]` and `s[j..j + n]` hold the same text, compared character by character
      from the front. */
  ghost predicate SameText(s: string, i: nat, j: nat, n: nat)
    decreases n
  {
    i + n <= |s| && j + n <= |s| && (n == 0 || (s[i] == s[j] && SameText(s, i + 1, j + 1, n - 1)))
  }

  /** Equal slices hold the same text. */
  lemma {:induction false} SameTextOfSlices(s: string, i: nat, j: nat, n: nat)
    requires i + n <= |s| && j + n <= |s| && s[i..i + n] == s[j..j + n]
    ensures SameText(s, i, j, n)
    decreases n
  {
    if n > 0 {
      assert s[i..i + n][0] == s[i] && s[j..j + n][0] == s[j];
      assert s[i + 1..i + 1 + (n - 1)] == s[i..i + n][1..];
      assert s[j + 1..j + 1 + (n - 1)] == s[j..j + n][1..];
      SameTextOfSlices(s, i + 1, j + 1, n - 1);
    }
  }

  /** The character at `x` in the text is the one at `x2`, the same place in its copy. */
  lemma {:induction false} SameAt(s: string, i: nat, j: nat, n: nat, x: nat, x2: nat)
    requires SameText(s, i, j, n) && i <= x < i + n && x2 == x - i + j
    ensures s[x2] == s[x]
    decreases n
  {
    if x > i {
      SameAt(s, i + 1, j + 1, n - 1, x, x2);
    }
  }

  /** The same text, read from the copy. */
  lemma {:induction false} SameTextSymmetric(s: string, i: nat, j: nat, n: nat)
    requires SameText(s, i, j, n)
    ensures SameText(s, j, i, n)
    decreases n
  {
    if n > 0 {
      SameTextSymmetric(s, i + 1, j + 1, n - 1);
    }
  }

  // In the lemmas below, a name ending in 2 is the position in the copy of the position
  // without the 2.

  /** A whitespace run inside the text ends at the same place in its copy. */
  lemma SkipSpaceCopied(s: string, i: nat, j: nat, n: nat, x: nat, e: nat, x2: nat, e2: nat)
    requires SameText(s, i, j, n) && i <= x <= e < i + n && e == SkipSpace(s, x)
    requires x2 == x - i + j && e2 == e - i + j
    ensures SkipSpace(s, x2) == e2
  {
    forall y | x2 <= y < e2
      ensures s[y] in Whitespace
    {
      SameAt(s, i, j, n, y - j + i, y);
    }
    SameAt(s, i, j, n, e, e2);
    SkipSpaceTo(s, x2, e2);
  }

  /** An occurrence inside the text occurs in its copy. */
  lemma InfixCopied(s: string, i: nat, j: nat, n: nat, sub: string, x: nat, x2: nat)
    requires SameText(s, i, j, n) && i <= x && x + |sub| <= i + n && InfixAt(s, sub, x)
    requires x2 == x - i + j
    ensures InfixAt(s, sub, x2)
  {
    var u := s[x2..x2 + |sub|];
    forall y | 0 <= y < |sub|
      ensures u[y] == sub[y]
    {
      SameAt(s, i, j, n, x + y, x2 + y);
      assert s[x + y] == s[x..x + |sub|][y];
    }
  }

  /** A marker inside the text is a marker of its copy. */
  lemma MarkerCopied(s: string, i: nat, j: nat, n: nat, p: nat, z: nat, p2: nat, z2: nat)
    requires SameText(s, i, j, n) && i <= p && MarkerAt(s, p) == Some(z) && z <= i + n
    requires p2 == p - i + j && z2 == z - i + j
    ensures MarkerAt(s, p2) == Some(z2)
  {
    var q := MarkerParts(s, p);
    assert z == q + 3;
    var q2: nat := q - i + j;
    assert z2 == q2 + 3;
    assert SkipSpace(s, p2 + 1) == q2 by {
      SkipSpaceCopied(s, i, j, n, p + 1, q, p2 + 1, q2);
    }
    assert InfixAt(s, "///", q2) by {
      InfixCopied(s, i, j, n, "///", q, q2);
    }
    assert s[p2] == '#' by {
      SameAt(s, i, j, n, p, p2);
    }
    MarkerFromParts(s, p2, q2);
  }

  /** The last newline of a range inside the text is the last newline of the same range of
      its copy. */
  lemma {:induction false} LastNewlineCopied(s: string, i: nat, j: nat, n: nat, lo: nat, hi: nat, q: nat,
                                             lo2: nat, hi2: nat, q2: nat)
    requires SameText(s, i, j, n) && i <= lo <= hi <= i + n && LastNewline(s, lo, hi) == Some(q)
    requires lo2 == lo - i + j && hi2 == hi - i + j && q2 == q - i + j
    ensures LastNewline(s, lo2, hi2) == Some(q2)
    decreases hi - lo
  {
    SameAt(s, i, j, n, hi - 1, hi2 - 1);
    if s[hi - 1] != '\n' {
      LastNewlineCopied(s, i, j, n, lo, hi - 1, q, lo2, hi2 - 1, q2);
    }
  }

  /** What a name line found from `z` consists of: the whitespace run up to the name at `k`,
      the name, and the whitespace run from `lo` to `e` after it, whose last newline ends at
      `g`. */
  lemma NameLineParts(s: string, z: nat, name: string, g: nat) returns (k: nat, lo: nat, e: nat, q: nat)
    requires z <= |s| && NameLineFrom(s, z, name) == Some(g)
    ensures k == SkipSpace(s, z) && InfixAt(s, name, k) && lo == k + |name|
    ensures lo <= e == SkipSpace(s, lo) && g == q + 1
    ensures LastNewline(s, lo, e) == Some(q)
  {
    k := SkipSpace(s, z);
    lo := k + |name|;
    e := SkipSpace(s, lo);
    q := g - 1;
  }

  /** Those parts make a name line. */
  lemma NameLineFromParts(s: string, z: nat, name: string, g: nat, k: nat, lo: nat, e: nat)
    requires z <= |s| && k == SkipSpace(s, z) && InfixAt(s, name, k) && lo == k + |name|
    requires lo <= e == SkipSpace(s, lo) && 0 < g
    requires LastNewline(s, lo, e) == Some(g - 1)
    ensures NameLineFrom(s, z, name) == Some(g)
  {
  }

  /** A whitespace run from `x` ends at or before a character from `x` on that is not
      whitespace. */
  lemma RunEndsBefore(s: string, x: nat, c: nat)
    requires x <= c < |s| && s[c] !in Whitespace
    ensures SkipSpace(s, x) <= c
  {
  }

  /** A name line inside the text, followed in the text by a character that is not
      whitespace, is a name line of its copy: its whitespace runs end at or before that
      character. */
  lemma NameLineCopied(s: string, i: nat, j: nat, n: nat, z: nat, name: string, g: nat, c: nat, z2: nat, g2: nat)
    requires SameText(s, i, j, n) && i <= z <= |s| && NameLineFrom(s, z, name) == Some(g)
    requires g <= c < i + n && s[c] !in Whitespace
    requires z2 == z - i + j && g2 == g - i + j
    ensures NameLineFrom(s, z2, name) == Some(g2)
  {
    var k, lo, e, q := NameLineParts(s, z, name, g);
    assert e <= c by {
      RunEndsBefore(s, lo, c);
    }
    var k2, lo2, e2 := NameLinePartsCopied(s, i, j, n, z, name, k, lo, e, q, z2, g2);
    NameLineFromParts(s, z2, name, g2, k2, lo2, e2);
  }

  /** The parts of such a name line, copied. */
  lemma NameLinePartsCopied(s: string, i: nat, j: nat, n: nat, z: nat, name: string,
                            k: nat, lo: nat, e: nat, q: nat, z2: nat, g2: nat)
    returns (k2: nat, lo2: nat, e2: nat)
    requires SameText(s, i, j, n) && i <= z <= |s| && e < i + n
    requires k == SkipSpace(s, z) && InfixAt(s, name, k) && lo == k + |name|
    requires lo <= e == SkipSpace(s, lo) && LastNewline(s, lo, e) == Some(q)
    requires z2 == z - i + j && g2 == q + 1 - i + j
    ensures z2 <= |s| && k2 == SkipSpace(s, z2) && InfixAt(s, name, k2) && lo2 == k2 + |name|
    ensures lo2 <= e2 == SkipSpace(s, lo2) && 0 < g2
    ensures LastNewline(s, lo2, e2) == Some(g2 - 1)
  {
    k2, lo2, e2 := k - i + j, lo - i + j, e - i + j;
    assert lo2 == k2 + |name|;
    assert k2 == SkipSpace(s, z2) by {
      SkipSpaceCopied(s, i, j, n, z, k, z2, k2);
    }
    assert InfixAt(s, name, k2) by {
      InfixCopied(s, i, j, n, name, k, k2);
    }
    assert e2 == SkipSpace(s, lo2) by {
      SkipSpaceCopied(s, i, j, n, lo, e, lo2, e2);
    }
    assert LastNewline(s, lo2, e2) == Some(g2 - 1) by {
      LastNewlineCopied(s, i, j, n, lo, e, q, lo2, e2, g2 - 1);
    }
  }

  /** A header inside the text, followed in the text by a character that is not whitespace,
      is a header of its copy. */
  lemma HeaderCopied(s: string, i: nat, j: nat, n: nat, p: nat, name: string, g: nat, c: nat, p2: nat, g2: nat)
    requires SameText(s, i, j, n) && i <= p && HeaderAt(s, p, name) == Some(g)
    requires g <= c < i + n && s[c] !in Whitespace
    requires p2 == p - i + j && g2 == g - i + j
    ensures HeaderAt(s, p2, name) == Some(g2)
  {
    var z := MarkerAt(s, p).value;
    var z2: nat := z - i + j;
    assert NameLineFrom(s, z, name) == Some(g);
    MarkerCopied(s, i, j, n, p, z, p2, z2);
    NameLineCopied(s, i, j, n, z, name, g, c, z2, g2);
  }

  /** A stretch of the text without markers, closed by a `#` in the text, has none in its
      copy: a marker there would end before the `#`, so inside the copy. */
  lemma NoMarkerCopied(s: string, i: nat, j: nat, n: nat, lo: nat, hi: nat, lo2: nat, hi2: nat)
    requires SameText(s, i, j, n) && i <= lo <= hi < i + n
    requires NoMarkerIn(s, lo, hi) && s[hi] == '#'
    requires lo2 == lo - i + j && hi2 == hi - i + j
    ensures NoMarkerIn(s, lo2, hi2)
  {
    SameAt(s, i, j, n, hi, hi2);
    SameTextSymmetric(s, i, j, n);
    forall p2 | lo2 <= p2 < hi2
      ensures MarkerAt(s, p2).None?
    {
      if MarkerAt(s, p2).Some? {
        var q2 := MarkerEndsBefore(s, hi2, p2);
        MarkerCopied(s, j, i, n, p2, q2 + 3, p2 - j + i, q2 + 3 - j + i);
      }
    }
  }

  /** What a match at `i` consists of: its header, a group without markers, and the
      closing marker, which starts with a `#`. */
  lemma MatchParts(s: string, i: nat, name: string, m: Match)
    requires MatchAt(s, i, name) == Some(m)
    ensures m.start == i < m.groupStart <= m.groupEnd < m.end <= |s|
    ensures HeaderAt(s, i, name) == Some(m.groupStart)
    ensures NoMarkerIn(s, m.groupStart, m.groupEnd) && s[m.groupEnd] == '#'
    ensures MarkerAt(s, m.groupEnd) == Some(m.end)
  {
    MatchAtWellFormed(s, i, name);
  }

  /** A copy of the matched text is matched too: the pattern only looks inside its match. */
  lemma MatchCopied(s: string, name: string, m: Match, j: nat)
    requires MatchAt(s, m.start, name) == Some(m) && SameText(s, m.start, j, m.end - m.start)
    ensures MatchAt(s, j, name).Some?
  {
    MatchParts(s, m.start, name, m);
    var g2, k2, e2 := MatchPartsCopied(s, name, m.start, j, m.groupStart, m.groupEnd, m.end);
    MatchFromParts(s, j, name, g2, k2, e2);
  }

  /** The parts of a match at `i`, copied with the matched text to `j`. */
  lemma MatchPartsCopied(s: string, name: string, i: nat, j: nat, g: nat, k: nat, e: nat)
    returns (g2: nat, k2: nat, e2: nat)
    requires i < g <= k < e <= |s| && SameText(s, i, j, e - i)
    requires HeaderAt(s, i, name) == Some(g)
    requires NoMarkerIn(s, g, k) && s[k] == '#'
    requires MarkerAt(s, k) == Some(e)
    ensures HeaderAt(s, j, name) == Some(g2) && g2 <= |s| && CloserFrom(s, g2) == Some(k2)
    ensures MarkerAt(s, k2) == Some(e2)
  {
    g2, k2, e2 := g - i + j, k - i + j, e - i + j;
    PartsCopied(s, name, i, j, e - i, g, k, e, g2, k2, e2);
    assert CloserFrom(s, g2) == Some(k2) by {
      CloserFromAt(s, g2, k2);
    }
  }

  /** The header, the marker-free group and the closing marker of a match at `i` are copied
      to `j` with the text they lie in. */
  lemma PartsCopied(s: string, name: string, i: nat, j: nat, n: nat, g: nat, k: nat, e: nat,
                    g2: nat, k2: nat, e2: nat)
    requires SameText(s, i, j, n) && i < g <= k < e == i + n
    requires HeaderAt(s, i, name) == Some(g)
    requires NoMarkerIn(s, g, k) && s[k] == '#'
    requires MarkerAt(s, k) == Some(e)
    requires g2 == g - i + j && k2 == k - i + j && e2 == e - i + j
    ensures HeaderAt(s, j, name) == Some(g2)
    ensures NoMarkerIn(s, g2, k2)
    ensures MarkerAt(s, k2) == Some(e2)
  {
    MarkerCharsNotSpace();
    HeaderCopied(s, i, j, n, i, name, g, k, j, g2);
    NoMarkerCopied(s, i, j, n, g, k, g2, k2);
    MarkerCopied(s, i, j, n, k, e, k2, e2);
  }

  /** The text of the leftmost match does not occur earlier: an earlier copy would match. */
  lemma SearchTextFirst(s: string, name: string, m: Match)
    requires Search(s, name, 0) == Some(m)
    ensures m.start < m.end <= |s|
    ensures forall x: nat | x < m.start :: !InfixAt(s, s[m.start..m.end], x)
  {
    assert MatchAt(s, m.start, name) == Some(m);
    var n := m.end - m.start;
    SearchNoEarlierCopy(s, name, m, n);
    NotSameNotInfixBefore(s, m.start, m.end, n);
  }

  /** No text before the leftmost match is the same as the match, whose length is `n`. */
  lemma SearchNoEarlierCopy(s: string, name: string, m: Match, n: nat)
    requires Search(s, name, 0) == Some(m) && n == m.end - m.start
    ensures forall x: nat | x < m.start :: !SameText(s, m.start, x, n)
  {
    assert MatchAt(s, m.start, name) == Some(m) && NoMatchIn(s, name, 0, m.start);
    NoMatchNoCopies(s, name, m, n);
  }

  /** Where the pattern matches nowhere before a match, no copy of the match's text starts
      before it. */
  lemma NoMatchNoCopies(s: string, name: string, m: Match, n: nat)
    requires MatchAt(s, m.start, name) == Some(m) && NoMatchIn(s, name, 0, m.start)
    requires n == m.end - m.start
    ensures forall x: nat | x < m.start :: !SameText(s, m.start, x, n)
  {
    forall x: nat | x < m.start
      ensures !SameText(s, m.start, x, n)
    {
      NoMatchNoCopy(s, name, m, x);
    }
  }

  /** A match-free range has no match at each of its positions. */
  lemma NoMatchAt(s: string, name: string, lo: nat, hi: nat, x: nat)
    requires NoMatchIn(s, name, lo, hi) && lo <= x < hi
    ensures MatchAt(s, x, name).None?
  {
  }

  /** Text that is nowhere before `i` the same as `s[i..e]` does not occur before `i`. */
  lemma NotSameNotInfixBefore(s: string, i: nat, e: nat, n: nat)
    requires i <= e <= |s| && n == e - i
    requires forall x: nat | x < i :: !SameText(s, i, x, n)
    ensures forall x: nat | x < i :: !InfixAt(s, s[i..e], x)
  {
    forall x: nat | x < i
      ensures !InfixAt(s, s[i..e], x)
    {
      NotSameNotInfix(s, i, e, x);
    }
  }

  /** Text that is not the same as `s[i..e]` is not an occurrence of it. */
  lemma NotSameNotInfix(s: string, i: nat, e: nat, x: nat)
    requires i <= e <= |s| && !SameText(s, i, x, e - i)
    ensures !InfixAt(s, s[i..e], x)
  {
    if InfixAt(s, s[i..e], x) {
      SameTextOfSlices(s, i, x, e - i);
    }
  }

  /** Where the pattern does not match, no copy of a match's text starts. */
  lemma NoMatchNoCopy(s: string, name: string, m: Match, x: nat)
    requires MatchAt(s, m.start, name) == Some(m) && NoMatchIn(s, name, 0, m.start)
    requires x < m.start
    ensures !SameText(s, m.start, x, m.end - m.start)
  {
    NoMatchAt(s, name, 0, m.start, x);
    if SameText(s, m.start, x, m.end - m.start) {
      MatchCopied(s, name, m, x);
    }
  }

  /** Python's `s.replace(pat, "")`: removes every non-overlapping occurrence of `pat`,
      scanning left to right. */
  function RemoveAll(s: string, pat: string): (r: string)
    requires pat != []
    ensures |r| <= |s|
    decreases |s|
  {
    if |s| < |pat| then s
    else if s[..|pat|] == pat then RemoveAll(s[|pat|..], pat)
    else [s[0]] + RemoveAll(s[1..], pat)
  }

  /** Removing `pat` leaves `s` as it was exactly when `pat` does not occur in it. */
  lemma {:induction false} RemoveAllUnchangedIff(s: string, pat: string)
    requires pat != []
    ensures RemoveAll(s, pat) == s <==> !Contains(s, pat)
    decreases |s|
  {
    if Contains(s, pat) {
      RemoveAllShrinks(s, pat);
    } else if |s| >= |pat| {
      assert !InfixAt(s, pat, 0);
      assert !Contains(s[1..], pat) by {
        forall i: nat | i <= |s[1..]|
          ensures !InfixAt(s[1..], pat, i)
        {
          assert !InfixAt(s, pat, i + 1);
          if i + |pat| <= |s[1..]| {
            assert s[1..][i..i + |pat|] == s[i + 1..i + 1 + |pat|];
          }
        }
      }
      RemoveAllUnchangedIff(s[1..], pat);
      assert s == [s[0]] + s[1..];
    }
  }

  /** Unfolds the removal at the first occurrence: the text before it is kept, the
      occurrence is dropped, and removal continues right after it. */
  lemma RemoveAllFirst(s: string, pat: string, i: nat)
    requires pat != []
    requires InfixAt(s, pat, i)
    requires forall j: nat | j < i :: !InfixAt(s, pat, j)
    ensures RemoveAll(s, pat) == s[..i] + RemoveAll(s[i + |pat|..], pat)
  {
    NoInfixBeforeOf(s, pat, i);
    assert s == s[..i] + s[i..];
    assert s[i..][..|pat|] == pat;
    RemoveAllAfter(s[..i], s[i..], pat);
    assert s[i..][|pat|..] == s[i + |pat|..];
  }

  /** No occurrence of `pat` starts before position `i`, stated one position at a time
      from the front, the way `RemoveAll` scans. */
  predicate NoInfixBefore(s: string, pat: string, i: nat)
    decreases i
  {
    i == 0 || (s != [] && !InfixAt(s, pat, 0) && NoInfixBefore(s[1..], pat, i - 1))
  }

  /** The position-by-position form follows from the quantified one. */
  lemma {:induction false} NoInfixBeforeOf(s: string, pat: string, i: nat)
    requires i <= |s|
    requires forall j: nat | j < i :: !InfixAt(s, pat, j)
    ensures NoInfixBefore(s, pat, i)
    decreases i
  {
    if i > 0 {
      assert !InfixAt(s, pat, 0);
      var t := s[1..];
      forall j: nat | j < i - 1
        ensures !InfixAt(t, pat, j)
      {
        assert !InfixAt(s, pat, j + 1);
        if j + |pat| <= |t| {
          assert t[j..j + |pat|] == s[j + 1..j + 1 + |pat|];
        }
      }
      NoInfixBeforeOf(t, pat, i - 1);
    }
  }

  /** With `b` starting with `pat` and no earlier occurrence in `a + b`, removal keeps
      `a`, drops that occurrence of `pat` and continues on the rest of `b`. */
  lemma {:induction false} RemoveAllAfter(a: string, b: string, pat: string)
    requires pat != [] && |pat| <= |b| && b[..|pat|] == pat
    requires NoInfixBefore(a + b, pat, |a|)
    ensures RemoveAll(a + b, pat) == a + RemoveAll(b[|pat|..], pat)
    decreases |a|
  {
    var s := a + b;
    if a == [] {
      assert s == b;
    } else {
      assert s[1..] == a[1..] + b;
      assert s[0..|pat|] == s[..|pat|];
      assert RemoveAll(s, pat) == [a[0]] + RemoveAll(a[1..] + b, pat);
      RemoveAllAfter(a[1..], b, pat);
      assert a == [a[0]] + a[1..];
    }
  }

  /** Every occurrence removed makes the text strictly shorter. */
  lemma {:induction false} RemoveAllShrinks(s: string, pat: string)
    requires pat != []
    requires Contains(s, pat)
    ensures |RemoveAll(s, pat)| < |s|
    decreases |s|
  {
    var i: nat :| i <= |s| && InfixAt(s, pat, i);
    if s[..|pat|] != pat {
      assert i != 0;
      assert s[1..][i - 1..i - 1 + |pat|] == s[i..i + |pat|];
      assert InfixAt(s[1..], pat, i - 1);
      RemoveAllShrinks(s[1..], pat);
    }
  }
}
