/** The helpers of `alembic_utils.py` (shipped twice, as `scripts/alembic_utils.py` and as
    `src/templateer2/_internal/user_scripts/alembic_utils.py`, with the same text): the name
    filter of `find_matching_files`, `filter_by_creation_time` and `replace_lines`. The file
    system is a parameter: the entries a recursive glob visits, each file's creation time, and
    a file's lines as `readlines` returns them. */
module AlembicUtils {
  import opened Wrappers
  import opened Text
  import opened Paths

  // ---------------------------------------------------------------- find_matching_files

  /** An entry below the searched directory, in the order the glob visits it. */
  datatype Entry = Entry(path: string, isFile: bool)

  /** The recursive glob for `<ext>` files matches the entry's name, it is a file, and its name holds the
      pattern. */
  predicate Matches(e: Entry, pattern: string, ext: string) {
    EndsWith(Name(e.path), ext) && e.isFile && Contains(Name(e.path), pattern)
  }

  /** The paths of the entries `keep` accepts, in visiting order. */
  function MatchingOf(entries: seq<Entry>, keep: Entry -> bool): seq<string>
    decreases |entries|
  {
    if entries == [] then []
    else
      var init := MatchingOf(entries[..|entries| - 1], keep);
      var e := entries[|entries| - 1];
      if keep(e) then init + [e.path] else init
  }

  /** The filter of `find_matching_files`. */
  function Matcher(pattern: string, ext: string): Entry -> bool {
    e => Matches(e, pattern, ext)
  }

  /** `find_matching_files`: the loop over the glob. */
  method FindMatchingFiles(entries: seq<Entry>, pattern: string, ext: string) returns (matching: seq<string>)
    ensures matching == MatchingOf(entries, Matcher(pattern, ext))
  {
    matching := [];
    for i := 0 to |entries|
      invariant matching == MatchingOf(entries[..i], Matcher(pattern, ext))
    {
      assert entries[..i + 1][..i] == entries[..i];
      var e := entries[i];
      if EndsWith(Name(e.path), ext) && e.isFile && Contains(Name(e.path), pattern) {
        matching := matching + [e.path];
      }
    }
    assert entries[..|entries|] == entries;
  }

  /** A path is returned exactly when some visited entry with that path is kept. */
  lemma {:induction false} MatchingOfMembers(entries: seq<Entry>, keep: Entry -> bool, p: string)
    ensures p in MatchingOf(entries, keep) <==>
      exists i :: 0 <= i < |entries| && entries[i].path == p && keep(entries[i])
    decreases |entries|
  {
    if entries != [] {
      var init := entries[..|entries| - 1];
      MatchingOfMembers(init, keep, p);
      assert forall i :: 0 <= i < |init| ==> init[i] == entries[i];
    }
  }

  // ---------------------------------------------------------------- filter_by_creation_time

  /** A path and its creation time. */
  type Timed = (string, real)

  /** The paths whose creation time lies in `[start, end]`, each with its time, in input
      order: what the loop of `filter_by_creation_time` collects. */
  function InWindow(paths: seq<string>, start: real, end: real, ctime: string -> real): (r: seq<Timed>)
    ensures forall k :: 0 <= k < |r| ==> r[k].1 == ctime(r[k].0) && start <= r[k].1 <= end
    decreases |paths|
  {
    if paths == [] then []
    else
      var init := InWindow(paths[..|paths| - 1], start, end, ctime);
      var p := paths[|paths| - 1];
      if start <= ctime(p) <= end then init + [(p, ctime(p))] else init
  }

  /** The paths in the window, in input order. */
  function KeptPaths(paths: seq<string>, start: real, end: real, ctime: string -> real): seq<string>
    decreases |paths|
  {
    if paths == [] then []
    else
      var init := KeptPaths(paths[..|paths| - 1], start, end, ctime);
      var p := paths[|paths| - 1];
      if start <= ctime(p) <= end then init + [p] else init
  }

  /** `[file_path for file_path, _ in files_with_times]`. */
  function Firsts(s: seq<Timed>): (r: seq<string>)
    ensures |r| == |s| && forall k :: 0 <= k < |s| ==> r[k] == s[k].0
  {
    seq(|s|, k requires 0 <= k < |s| => s[k].0)
  }

  /** Newest first. */
  predicate SortedDesc(s: seq<Timed>) {
    forall i, j :: 0 <= i < j < |s| ==> s[i].1 >= s[j].1
  }

  /** Puts `x` after every element whose time is not smaller than its own. */
  function Insert(s: seq<Timed>, x: Timed): seq<Timed>
    decreases |s|
  {
    if s == [] || s[|s| - 1].1 >= x.1 then s + [x]
    else Insert(s[..|s| - 1], x) + [s[|s| - 1]]
  }

  /** `list.sort(key=lambda x: x[1], reverse=True)`: a stable sort, newest first. */
  function SortDesc(s: seq<Timed>): seq<Timed>
    decreases |s|
  {
    if s == [] then [] else Insert(SortDesc(s[..|s| - 1]), s[|s| - 1])
  }

  /** What `filter_by_creation_time` returns. */
  function FilteredByCreationTime(paths: seq<string>, start: real, end: real, ctime: string -> real): seq<string> {
    Firsts(SortDesc(InWindow(paths, start, end, ctime)))
  }

  /** `filter_by_creation_time`. */
  method FilterByCreationTime(paths: seq<string>, start: real, end: real, ctime: string -> real)
    returns (filtered: seq<string>)
    ensures filtered == FilteredByCreationTime(paths, start, end, ctime)
  {
    var withTimes: seq<Timed> := [];
    for i := 0 to |paths|
      invariant withTimes == InWindow(paths[..i], start, end, ctime)
    {
      assert paths[..i + 1][..i] == paths[..i];
      var t := ctime(paths[i]);
      if start <= t <= end {
        withTimes := withTimes + [(paths[i], t)];
      }
    }
    assert paths[..|paths|] == paths;
    var sorted := SortDesc(withTimes);
    filtered := Firsts(sorted);
  }

  /** The entries of `s` whose time is `t`, in order. */
  function WithTime(s: seq<Timed>, t: real): seq<Timed>
    decreases |s|
  {
    if s == [] then []
    else WithTime(s[..|s| - 1], t) + (if s[|s| - 1].1 == t then [s[|s| - 1]] else [])
  }

  lemma {:induction false} WithTimeAppend(a: seq<Timed>, b: seq<Timed>, t: real)
    ensures WithTime(a + b, t) == WithTime(a, t) + WithTime(b, t)
    decreases |b|
  {
    if b != [] {
      var init := b[..|b| - 1];
      assert (a + b)[..|a + b| - 1] == a + init;
      var last := b[|b| - 1];
      assert (a + b)[|a + b| - 1] == last;
      var tail: seq<Timed> := if last.1 == t then [last] else [];
      assert WithTime(a + b, t) == WithTime(a + init, t) + tail;
      assert WithTime(b, t) == WithTime(init, t) + tail;
      WithTimeAppend(a, init, t);
    } else {
      assert a + b == a;
    }
  }

  lemma FirstsAppend(a: seq<Timed>, b: seq<Timed>)
    ensures Firsts(a + b) == Firsts(a) + Firsts(b)
  {
  }

  /** Inserting keeps the elements. */
  lemma {:induction false} InsertMultiset(s: seq<Timed>, x: Timed)
    ensures multiset(Insert(s, x)) == multiset(s) + multiset{x}
    decreases |s|
  {
    if s != [] && s[|s| - 1].1 < x.1 {
      var init := s[..|s| - 1];
      var last := s[|s| - 1];
      InsertMultiset(init, x);
      assert s == init + [last];
      assert Insert(s, x) == Insert(init, x) + [last];
    }
  }

  /** Inserting keeps the paths. */
  lemma {:induction false} InsertPaths(s: seq<Timed>, x: Timed)
    ensures multiset(Firsts(Insert(s, x))) == multiset(Firsts(s)) + multiset{x.0}
    decreases |s|
  {
    if s == [] || s[|s| - 1].1 >= x.1 {
      FirstsAppend(s, [x]);
    } else {
      var init := s[..|s| - 1];
      var last := s[|s| - 1];
      InsertPaths(init, x);
      assert s == init + [last];
      assert Insert(s, x) == Insert(init, x) + [last];
      FirstsAppend(Insert(init, x), [last]);
      FirstsAppend(init, [last]);
    }
  }

  /** Inserting keeps the order. */
  lemma {:induction false} InsertSorted(s: seq<Timed>, x: Timed)
    requires SortedDesc(s)
    ensures SortedDesc(Insert(s, x))
    decreases |s|
  {
    if s != [] && s[|s| - 1].1 < x.1 {
      var init := s[..|s| - 1];
      var last := s[|s| - 1];
      assert s == init + [last];
      InsertSorted(init, x);
      InsertMultiset(init, x);
      InsertSortedStep(init, last, x);
    }
  }

  /** Inserting places `x` after every element of its own time. */
  lemma {:induction false} InsertStable(s: seq<Timed>, x: Timed, t: real)
    ensures WithTime(Insert(s, x), t) == WithTime(s, t) + WithTime([x], t)
    decreases |s|
  {
    if s == [] || s[|s| - 1].1 >= x.1 {
      WithTimeAppend(s, [x], t);
    } else {
      var init := s[..|s| - 1];
      var last := s[|s| - 1];
      InsertStable(init, x, t);
      assert s == init + [last];
      WithTimeAppend(Insert(init, x), [last], t);
      WithTimeAppend(init, [last], t);
    }
  }

  /** The recursive case of `Insert` keeps the order. */
  lemma InsertSortedStep(init: seq<Timed>, last: Timed, x: Timed)
    requires last.1 < x.1
    requires SortedDesc(init + [last]) && SortedDesc(Insert(init, x))
    requires multiset(Insert(init, x)) == multiset(init) + multiset{x}
    ensures SortedDesc(Insert(init, x) + [last])
  {
    var r := Insert(init, x);
    forall k | 0 <= k < |r| ensures r[k].1 >= last.1 {
      assert r[k] in multiset(r);
      if r[k] != x {
        assert r[k] in multiset(init);
        var m :| 0 <= m < |init| && init[m] == r[k];
        assert (init + [last])[m] == init[m] && (init + [last])[|init|] == last;
      }
    }
  }

  /** The sort keeps the elements. */
  lemma {:induction false} SortDescMultiset(s: seq<Timed>)
    ensures multiset(SortDesc(s)) == multiset(s)
    decreases |s|
  {
    if s != [] {
      var init := s[..|s| - 1];
      var x := s[|s| - 1];
      SortDescMultiset(init);
      InsertMultiset(SortDesc(init), x);
      assert s == init + [x];
    }
  }

  /** The sort keeps the paths. */
  lemma {:induction false} SortDescPaths(s: seq<Timed>)
    ensures multiset(Firsts(SortDesc(s))) == multiset(Firsts(s))
    decreases |s|
  {
    if s != [] {
      var init := s[..|s| - 1];
      var x := s[|s| - 1];
      var sorted := SortDesc(init);
      assert s == init + [x];
      assert SortDesc(s) == Insert(sorted, x);
      SortDescPaths(init);
      InsertPaths(sorted, x);
      FirstsAppend(init, [x]);
      assert Firsts(s) == Firsts(init) + [x.0];
    }
  }

  /** The sort puts the newest first. */
  lemma {:induction false} SortDescSorted(s: seq<Timed>)
    ensures SortedDesc(SortDesc(s))
    decreases |s|
  {
    if s != [] {
      SortDescSorted(s[..|s| - 1]);
      InsertSorted(SortDesc(s[..|s| - 1]), s[|s| - 1]);
    }
  }

  /** The sort is stable: the elements of each time keep their input order. */
  lemma {:induction false} SortDescStable(s: seq<Timed>, t: real)
    ensures WithTime(SortDesc(s), t) == WithTime(s, t)
    decreases |s|
  {
    if s != [] {
      var init := s[..|s| - 1];
      var x := s[|s| - 1];
      SortDescStable(init, t);
      InsertStable(SortDesc(init), x, t);
      assert s == init + [x];
      WithTimeAppend(init, [x], t);
    }
  }

  /** The loop collects the kept paths, with their times. */
  lemma {:induction false} InWindowPaths(paths: seq<string>, start: real, end: real, ctime: string -> real)
    ensures Firsts(InWindow(paths, start, end, ctime)) == KeptPaths(paths, start, end, ctime)
    decreases |paths|
  {
    if paths != [] {
      var init := paths[..|paths| - 1];
      InWindowPaths(init, start, end, ctime);
      FirstsAppend(InWindow(init, start, end, ctime), [(paths[|paths| - 1], ctime(paths[|paths| - 1]))]);
    }
  }

  /** `filter_by_creation_time` returns exactly the files created within `[start, end]`
      (each as often as it was given), newest first; files created at the same time keep the
      order they were given in. */
  lemma FilteredByCreationTimeSpec(paths: seq<string>, start: real, end: real, ctime: string -> real)
    ensures var r := FilteredByCreationTime(paths, start, end, ctime);
      && multiset(r) == multiset(KeptPaths(paths, start, end, ctime))
      && (forall k :: 0 <= k < |r| ==> start <= ctime(r[k]) <= end)
      && (forall i, j :: 0 <= i < j < |r| ==> ctime(r[i]) >= ctime(r[j]))
    ensures forall t :: WithTime(SortDesc(InWindow(paths, start, end, ctime)), t) == WithTime(InWindow(paths, start, end, ctime), t)
  {
    var w := InWindow(paths, start, end, ctime);
    var s := SortDesc(w);
    SortDescMultiset(w);
    SortDescPaths(w);
    SortDescSorted(w);
    forall t ensures WithTime(s, t) == WithTime(w, t) {
      SortDescStable(w, t);
    }
    InWindowPaths(paths, start, end, ctime);
    forall k | 0 <= k < |s| ensures s[k].1 == ctime(s[k].0) && start <= s[k].1 <= end {
      assert s[k] in multiset(w);
    }
  }

  // ---------------------------------------------------------------- replace_lines

  /** The index of the first line that holds `sub`. */
  function FirstContaining(lines: seq<string>, sub: string): (r: Option<nat>)
    ensures r.None? <==> forall k :: 0 <= k < |lines| ==> !Contains(lines[k], sub)
    ensures r.Some? ==> (r.value < |lines| && Contains(lines[r.value], sub)
      && forall k :: 0 <= k < r.value ==> !Contains(lines[k], sub))
    decreases |lines|
  {
    if lines == [] then None
    else if Contains(lines[0], sub) then Some(0)
    else
      match FirstContaining(lines[1..], sub)
      case None => None
      case Some(i) => Some(i + 1)
  }

  /** The first line holding `sub` is the one at `i` when `i` holds it and no line before does. */
  lemma FirstContainingAt(lines: seq<string>, sub: string, i: nat)
    requires i < |lines| && Contains(lines[i], sub)
    requires forall k :: 0 <= k < i ==> !Contains(lines[k], sub)
    ensures FirstContaining(lines, sub) == Some(i)
  {
  }

  /** `[p + "\n" for p in parts]`. */
  function Terminated(parts: seq<string>): (r: seq<string>)
    ensures |r| == |parts| && forall j :: 0 <= j < |parts| ==> r[j] == parts[j] + "\n"
  {
    seq(|parts|, j requires 0 <= j < |parts| => parts[j] + "\n")
  }

  /** `"".join(lines)`: the text of a file given its lines. */
  function Concat(lines: seq<string>): string
    decreases |lines|
  {
    if lines == [] then [] else lines[0] + Concat(lines[1..])
  }

  /** Line `k` replaced by the lines of `text` (each with its newline restored). */
  function Spliced(lines: seq<string>, k: nat, text: string): seq<string>
    requires k < |lines|
  {
    lines[..k] + Terminated(Split(text, '\n')) + lines[k + 1..]
  }

  /** A string followed by anything holds that string. */
  lemma ContainsOwnPrefix(s: string, tail: string)
    ensures Contains(s + tail, s)
  {
    assert InfixAt(s + tail, s, 0);
  }

  /** The multi-line step as written, once line `i` has been overwritten: the search for
      `replacing` starts again from the top and the line it finds is the one split. */
  function SplitFirstHolding(after: seq<string>, i: nat, replacing: string): seq<string>
    requires i < |after| && after[i] == replacing + "\n"
  {
    ContainsOwnPrefix(replacing, "\n");
    var k := FirstContaining(after, replacing).value;
    Spliced(after, k, replacing)
  }

  /** The lines `replace_lines` writes back, as written: after the first line holding
      `replaced` is overwritten, the multi-line case searches again for the first line that
      holds `replacing` and splices there. */
  function ReplacedAsWritten(lines: seq<string>, replaced: string, replacing: string): seq<string> {
    match FirstContaining(lines, replaced)
    case None => lines
    case Some(i) =>
      var after := lines[i := replacing + "\n"];
      if '\n' !in replacing then after else SplitFirstHolding(after, i, replacing)
  }

  /** `replace_lines` as written. */
  method ReplaceLines(lines0: seq<string>, replaced: string, replacing: string) returns (lines: seq<string>)
    ensures lines == ReplacedAsWritten(lines0, replaced, replacing)
  {
    lines := lines0;
    var made := false;
    var i := 0;
    while i < |lines|
      invariant i <= |lines0| && lines == lines0 && !made
      invariant forall k :: 0 <= k < i ==> !Contains(lines0[k], replaced)
    {
      if Contains(lines[i], replaced) {
        lines := lines[i := replacing + "\n"];
        made := true;
        break;
      }
      i := i + 1;
    }
    if made {
      assert i < |lines0| && lines == lines0[i := replacing + "\n"];
      FirstContainingAt(lines0, replaced, i);
    }
    if '\n' in replacing && made {
      lines := SplitHolding(lines, i, replacing);
    }
  }

  /** The multi-line step of `replace_lines`: the first line holding `replacing` is deleted
      and the lines of `replacing` are inserted in its place. */
  method SplitHolding(after: seq<string>, i: nat, replacing: string) returns (lines: seq<string>)
    requires i < |after| && after[i] == replacing + "\n"
    ensures lines == SplitFirstHolding(after, i, replacing)
  {
    ContainsOwnPrefix(replacing, "\n");
    assert Contains(after[i], replacing);
    var index := FirstIndexContaining(after, replacing);
    lines := after[..index] + after[index + 1..];
    assert lines[..index] == after[..index] && lines[index..] == after[index + 1..];
    var newLines := Split(replacing, '\n');
    lines := InsertAll(lines, index, newLines);
  }

  /** `next(i for i, line in enumerate(lines) if sub in line)`. */
  method FirstIndexContaining(lines: seq<string>, sub: string) returns (index: nat)
    requires FirstContaining(lines, sub).Some?
    ensures index == FirstContaining(lines, sub).value
  {
    index := 0;
    while !Contains(lines[index], sub)
      invariant index <= FirstContaining(lines, sub).value
      invariant forall k :: 0 <= k < index ==> !Contains(lines[k], sub)
      decreases |lines| - index
    {
      index := index + 1;
    }
  }

  /** `for j, new_line in enumerate(new_lines): lines.insert(index + j, new_line + "\n")`. */
  method InsertAll(lines0: seq<string>, index: nat, newLines: seq<string>) returns (lines: seq<string>)
    requires index <= |lines0|
    ensures lines == lines0[..index] + Terminated(newLines) + lines0[index..]
  {
    lines := lines0;
    for j := 0 to |newLines|
      invariant lines == lines0[..index] + Terminated(newLines[..j]) + lines0[index..]
    {
      assert Terminated(newLines[..j + 1]) == Terminated(newLines[..j]) + [newLines[j] + "\n"];
      lines := lines[..index + j] + [newLines[j] + "\n"] + lines[index + j..];
    }
    assert newLines[..|newLines|] == newLines;
  }

  /** Line `i` replaced by `replacing`: overwritten when it is one line, split into its lines
      otherwise. */
  function ReplaceAt(lines: seq<string>, i: nat, replacing: string): seq<string>
    requires i < |lines|
  {
    if '\n' !in replacing then lines[i := replacing + "\n"] else Spliced(lines, i, replacing)
  }

  /** `replace_lines` as evidently intended: the line that was found is the one split. */
  function Replaced(lines: seq<string>, replaced: string, replacing: string): seq<string> {
    match FirstContaining(lines, replaced)
    case None => lines
    case Some(i) => ReplaceAt(lines, i, replacing)
  }

  /** The lines of a text, each with its newline, put back together give the text and one
      more newline. */
  lemma {:induction false} ConcatTerminated(parts: seq<string>)
    requires |parts| >= 1
    ensures Concat(Terminated(parts)) == Join(parts, '\n') + "\n"
    decreases |parts|
  {
    if |parts| > 1 {
      ConcatTerminated(parts[1..]);
      assert Terminated(parts)[1..] == Terminated(parts[1..]);
    }
  }

  lemma {:induction false} ConcatAppend(a: seq<string>, b: seq<string>)
    ensures Concat(a + b) == Concat(a) + Concat(b)
    decreases |a|
  {
    if a != [] {
      assert (a + b)[1..] == a[1..] + b;
      assert (a + b)[0] == a[0];
      ConcatAppend(a[1..], b);
    } else {
      assert a + b == b;
    }
  }

  /** The text of the lines after line `k` is replaced by `middle`. */
  lemma ConcatReplaced(lines: seq<string>, k: nat, middle: seq<string>)
    requires k < |lines|
    ensures Concat(lines[..k] + middle + lines[k + 1..]) == Concat(lines[..k]) + Concat(middle) + Concat(lines[k + 1..])
  {
    ConcatAppend(lines[..k] + middle, lines[k + 1..]);
    ConcatAppend(lines[..k], middle);
  }

  /** Replacing line `i` puts `replacing` and a newline where that line was, whether it is one
      line or several. */
  lemma ReplaceAtText(lines: seq<string>, i: nat, replacing: string)
    requires i < |lines|
    ensures Concat(ReplaceAt(lines, i, replacing)) == Concat(lines[..i]) + replacing + "\n" + Concat(lines[i + 1..])
  {
    if '\n' !in replacing {
      OverwrittenText(lines, i, replacing + "\n");
    } else {
      SplicedText(lines, i, replacing);
    }
  }

  /** Splicing the lines of `text` in for one line puts `text` and a newline at that line. */
  lemma SplicedText(lines: seq<string>, i: nat, text: string)
    requires i < |lines|
    ensures Concat(Spliced(lines, i, text)) == Concat(lines[..i]) + text + "\n" + Concat(lines[i + 1..])
  {
    var parts := Split(text, '\n');
    ConcatReplaced(lines, i, Terminated(parts));
    ConcatTerminated(parts);
  }

  /** Overwriting one line changes the text at that line only. */
  lemma OverwrittenText(lines: seq<string>, i: nat, line: string)
    requires i < |lines|
    ensures Concat(lines[i := line]) == Concat(lines[..i]) + line + Concat(lines[i + 1..])
  {
    ConcatReplaced(lines, i, [line]);
    assert lines[i := line] == lines[..i] + [line] + lines[i + 1..];
    assert Concat([line]) == line + Concat([]);
  }

  /** The intended promise: the first line holding `replaced` is replaced by `replacing` and a
      newline, everything before and after it is kept, and nothing changes when no line holds
      `replaced`. */
  lemma ReplacedText(lines: seq<string>, replaced: string, replacing: string)
    ensures FirstContaining(lines, replaced).None? ==> Replaced(lines, replaced, replacing) == lines
    ensures FirstContaining(lines, replaced).Some? ==>
      var i := FirstContaining(lines, replaced).value;
      Concat(Replaced(lines, replaced, replacing)) == Concat(lines[..i]) + replacing + "\n" + Concat(lines[i + 1..])
  {
    match FirstContaining(lines, replaced)
    case None =>
    case Some(i) => ReplaceAtText(lines, i, replacing);
  }

  /** The lines around the replaced one are kept, and the file gains one line per newline
      in `replacing`. */
  lemma ReplacedLines(lines: seq<string>, replaced: string, replacing: string)
    requires FirstContaining(lines, replaced).Some?
    ensures var i := FirstContaining(lines, replaced).value;
      var r := Replaced(lines, replaced, replacing);
      var added := multiset(replacing)['\n'];
      && |r| == |lines| + added
      && r[..i] == lines[..i]
      && r[i + 1 + added..] == lines[i + 1..]
  {
    ReplaceAtLines(lines, FirstContaining(lines, replaced).value, replacing);
  }

  /** Replacing line `i` keeps the lines around it and adds one line per newline. */
  lemma ReplaceAtLines(lines: seq<string>, i: nat, replacing: string)
    requires i < |lines|
    ensures var r := ReplaceAt(lines, i, replacing);
      var added := multiset(replacing)['\n'];
      && |r| == |lines| + added
      && r[..i] == lines[..i]
      && r[i + 1 + added..] == lines[i + 1..]
  {
    if '\n' !in replacing {
      assert multiset(replacing)['\n'] == 0;
    } else {
      SplitCount(replacing, '\n');
      SplicedLines(lines, i, Terminated(Split(replacing, '\n')));
    }
  }

  /** Line `k` replaced by a run of lines keeps the lines around it. */
  lemma SplicedLines(lines: seq<string>, k: nat, run: seq<string>)
    requires k < |lines|
    ensures var r := lines[..k] + run + lines[k + 1..];
      && |r| == |lines| + |run| - 1
      && r[..k] == lines[..k]
      && r[k + |run|..] == lines[k + 1..]
  {
  }

  /** As written and as intended agree unless a line before the replaced one already holds
      `replacing`. */
  lemma AsWrittenAgrees(lines: seq<string>, replaced: string, replacing: string)
    requires FirstContaining(lines, replaced).Some? ==>
      forall k :: 0 <= k < FirstContaining(lines, replaced).value ==> !Contains(lines[k], replacing)
    ensures ReplacedAsWritten(lines, replaced, replacing) == Replaced(lines, replaced, replacing)
  {
    match FirstContaining(lines, replaced)
    case None =>
    case Some(i) =>
      if '\n' in replacing {
        var after := lines[i := replacing + "\n"];
        ContainsOwnPrefix(replacing, "\n");
        assert forall k :: 0 <= k < i ==> after[k] == lines[k];
        FirstContainingAt(after, replacing, i);
        assert after[..i] == lines[..i] && after[i + 1..] == lines[i + 1..];
      }
  }

  /** `"foo\n".split("\n")`. */
  lemma FooSplit()
    ensures Split("foo\n", '\n') == ["foo", ""]
  {
    assert Join(["foo", ""], '\n') == "foo\n";
    SplitJoin(["foo", ""], '\n');
  }

  /** `[p + "\n" for p in "foo\n".split("\n")]`. */
  lemma FooLines()
    ensures Terminated(Split("foo\n", '\n')) == ["foo\n", "\n"]
  {
    FooSplit();
    var t := Terminated(["foo", ""]);
    assert t[0] == "foo" + "\n" == "foo\n";
    assert t[1] == "" + "\n" == "\n";
  }

  /** In `["afoo\n", "TARGET\n"]` the first line holding `TARGET` is line 1. */
  lemma TargetOnSecondLine()
    ensures FirstContaining(["afoo\n", "TARGET\n"], "TARGET") == Some(1)
  {
    var lines := ["afoo\n", "TARGET\n"];
    assert InfixAt(lines[1], "TARGET", 0);
    assert !Contains(lines[0], "TARGET") by {
      assert |lines[0]| < |"TARGET"|;
    }
    FirstContainingAt(lines, "TARGET", 1);
  }

  /** Once line 1 reads `foo\n\n`, the first line holding `foo\n` is line 0. */
  lemma FooOnFirstLine()
    ensures FirstContaining(["afoo\n", "foo\n\n"], "foo\n") == Some(0)
  {
    var after := ["afoo\n", "foo\n\n"];
    assert InfixAt(after[0], "foo\n", 1);
    FirstContainingAt(after, "foo\n", 0);
  }

  /** With `["afoo\n", "TARGET\n"]`, replacing `TARGET` by `foo\n` overwrites line 1 but splits
      line 0, which already held `foo\n`: `afoo` is lost and the overwritten line stays. */
  lemma ReplaceLinesLosesEarlierLine()
    ensures ReplacedAsWritten(["afoo\n", "TARGET\n"], "TARGET", "foo\n") == ["foo\n", "\n", "foo\n\n"]
  {
    OverwritesSecondLine();
    FoundAgainOnFirstLine();
    SplitsFirstLine();
  }

  /** The first step on the example: line 1 is overwritten and the search starts again. */
  lemma OverwritesSecondLine()
    ensures ReplacedAsWritten(["afoo\n", "TARGET\n"], "TARGET", "foo\n")
      == SplitFirstHolding(["afoo\n", "foo\n\n"], 1, "foo\n")
  {
    TargetOnSecondLine();
    assert "foo\n" + "\n" == "foo\n\n";
    assert ["afoo\n", "TARGET\n"][1 := "foo\n" + "\n"] == ["afoo\n", "foo\n\n"];
  }

  /** The second step on the example: the search finds line 0. */
  lemma FoundAgainOnFirstLine()
    ensures SplitFirstHolding(["afoo\n", "foo\n\n"], 1, "foo\n") == Spliced(["afoo\n", "foo\n\n"], 0, "foo\n")
  {
    FooOnFirstLine();
  }

  /** The last step on the example: line 0 is split. */
  lemma SplitsFirstLine()
    ensures Spliced(["afoo\n", "foo\n\n"], 0, "foo\n") == ["foo\n", "\n", "foo\n\n"]
  {
    var after := ["afoo\n", "foo\n\n"];
    FooLines();
    assert after[..0] == [] && after[1..] == ["foo\n\n"];
  }

  /** On the same lines the intended behaviour keeps `afoo\n` and splits line 1. */
  lemma ReplacedKeepsEarlierLine()
    ensures Replaced(["afoo\n", "TARGET\n"], "TARGET", "foo\n") == ["afoo\n", "foo\n", "\n"]
  {
    SplitsSecondLine();
    var lines := ["afoo\n", "TARGET\n"];
    FooLines();
    assert lines[..1] == ["afoo\n"] && lines[2..] == [];
  }

  /** The intended behaviour on the example splits line 1. */
  lemma SplitsSecondLine()
    ensures Replaced(["afoo\n", "TARGET\n"], "TARGET", "foo\n") == Spliced(["afoo\n", "TARGET\n"], 1, "foo\n")
  {
    TargetOnSecondLine();
  }
}
