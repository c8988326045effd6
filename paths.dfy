/** The few `pathlib.Path` operations the program uses, on paths written as strings with `/`
    separators. Normalisation (dropping `.` segments, doubled and trailing slashes) is not
    modelled. */
module Paths {
  import opened Wrappers
  import opened Text

  /** `Path(base) / p`: an absolute `p` replaces the base. */
  function JoinPath(base: string, p: string): (r: string)
    ensures StartsWith(p, "/") ==> r == p
    ensures !StartsWith(p, "/") ==> StartsWith(r, base) && EndsWith(r, p)
    ensures !StartsWith(p, "/") && (base == [] || EndsWith(base, "/")) ==> r == base + p
    ensures !StartsWith(p, "/") && base != [] && !EndsWith(base, "/") ==> r == base + "/" + p
  {
    if StartsWith(p, "/") then p
    else if base == [] || EndsWith(base, "/") then base + p
    else base + "/" + p
  }

  /** `Path(p).name`: what follows the last `/`. */
  function Name(p: string): (r: string)
    ensures '/' !in r && EndsWith(p, r)
  {
    match LastIndexOf(p, '/')
    case None => p
    case Some(i) => p[i + 1..]
  }

  /** The name of `dir/n` is `n` when `n` holds no `/`. */
  lemma NameAfterSlash(dir: string, n: string)
    requires '/' !in n
    ensures Name(dir + "/" + n) == n
  {
    var p := dir + "/" + n;
    assert p[|dir|] == '/' && p[|dir| + 1..] == n;
    LastIndexOfAt(p, '/', |dir|);
  }

  /** Joining a plain file name under a directory keeps that name. */
  lemma JoinPathName(base: string, n: string)
    requires n != [] && '/' !in n
    ensures Name(JoinPath(base, n)) == n
  {
    if base == [] || EndsWith(base, "/") {
      if base == [] {
        assert base + n == n;
        assert LastIndexOf(n, '/').None?;
      } else {
        var d := base[..|base| - 1];
        assert base + n == d + "/" + n;
        NameAfterSlash(d, n);
      }
    } else {
      NameAfterSlash(base, n);
    }
  }

  /** `Path(p).parent`: what precedes the last `/`; `.` for a bare name, `/` for a file at the
      root. */
  function Parent(p: string): (r: string)
    ensures '/' !in p ==> r == "."
    ensures '/' in p ==> (r == "/" && "/" + Name(p) == p) || r + "/" + Name(p) == p
  {
    match LastIndexOf(p, '/')
    case None => "."
    case Some(i) =>
      assert p == p[..i] + "/" + p[i + 1..];
      if i == 0 then "/" else p[..i]
  }

  /** Where `Path(p).suffix` starts: the last `.` of the name, unless it is the name's first or
      last character. */
  function SuffixStart(name: string): (r: nat)
    ensures r <= |name|
  {
    match LastIndexOf(name, '.')
    case Some(i) => if 0 < i < |name| - 1 then i else |name|
    case None => |name|
  }

  /** The suffix of `stem.ext` starts at its dot when neither part is empty and the stem has
      no dot. */
  lemma SuffixStartAtDot(stem: string, ext: string)
    requires stem != [] && ext != [] && '.' !in stem && '.' !in ext
    ensures SuffixStart(stem + "." + ext) == |stem|
  {
    var n := stem + "." + ext;
    assert n[|stem|] == '.' && n[|stem| + 1..] == ext;
    LastIndexOfAt(n, '.', |stem|);
  }

  /** `Path(p).stem`. */
  function Stem(p: string): string {
    Name(p)[..SuffixStart(Name(p))]
  }

  /** `Path(p).suffix`. */
  function Suffix(p: string): string {
    Name(p)[SuffixStart(Name(p))..]
  }

  /** The stem and the suffix put back together give the name; the suffix, when there is one,
      is a dot followed by a dot-free extension, and the stem is never empty unless the name is. */
  lemma StemSuffix(p: string)
    ensures Stem(p) + Suffix(p) == Name(p)
    ensures Suffix(p) == [] || (Suffix(p)[0] == '.' && '.' !in Suffix(p)[1..] && |Suffix(p)| >= 2)
    ensures Name(p) != [] ==> Stem(p) != []
  {
    NameParts(Name(p));
  }

  /** `StemSuffix` for the name itself. */
  lemma NameParts(n: string)
    ensures n[..SuffixStart(n)] + n[SuffixStart(n)..] == n
    ensures var x := n[SuffixStart(n)..]; x == [] || (x[0] == '.' && '.' !in x[1..] && |x| >= 2)
    ensures n != [] ==> n[..SuffixStart(n)] != []
  {
    var k := SuffixStart(n);
    assert n[..k] + n[k..] == n;
    match LastIndexOf(n, '.')
    case None =>
    case Some(i) =>
      if 0 < i < |n| - 1 {
        assert n[k..][1..] == n[i + 1..];
      }
  }
}
