/** The parts of Python's `pathlib` (POSIX flavour) the tools use: building a
    path, `joinpath`, `str()`, `.name` and `.suffix`. Purely lexical: unlike
    `os.path.normpath`, a pure path keeps its ".." parts. */
module PurePaths {
  import opened Text
  import opened PosixPath

  /** A `PurePosixPath`: its anchor ("", "/" or "//") and its parts. */
  datatype PurePath = PurePath(anchor: string, parts: seq<string>)

  /** A part as `pathlib` keeps it: never empty, never ".", no separator. */
  predicate IsPart(c: string) {
    c != "" && c != "." && '/' !in c
  }

  predicate WellFormed(p: PurePath) {
    && (p.anchor == "" || p.anchor == "/" || p.anchor == "//")
    && forall i :: 0 <= i < |p.parts| ==> IsPart(p.parts[i])
  }

  /** POSIX keeps exactly two leading slashes; one or three and more become "/". */
  function AnchorOf(s: string): string {
    if DoubleSlashed(s) then "//" else if IsAbs(s) then "/" else ""
  }

  lemma {:induction false} CleanGivesParts(cs: seq<string>)
    requires forall i :: 0 <= i < |cs| ==> '/' !in cs[i]
    ensures forall i :: 0 <= i < |Clean(cs)| ==> IsPart(Clean(cs)[i])
    decreases |cs|
  {
    if |cs| > 0 {
      CleanGivesParts(cs[1..]);
    }
  }

  /** `PurePosixPath(s)`: "" and "." components and repeated slashes disappear. */
  function Parse(s: string): (p: PurePath)
    ensures WellFormed(p)
    ensures p.anchor != "" <==> IsAbs(s)
  {
    CleanGivesParts(Split(s, '/'));
    PurePath(AnchorOf(s), Clean(Split(s, '/')))
  }

  /** `p.joinpath(s)`: an absolute `s` replaces `p`, a relative one extends it. */
  function JoinPath(p: PurePath, s: string): (r: PurePath)
    requires WellFormed(p)
    ensures WellFormed(r)
  {
    var q := Parse(s);
    if q.anchor != "" then q else PurePath(p.anchor, p.parts + q.parts)
  }

  /** `Path(wd).joinpath(s.strip("/"))`: with its slashes stripped, `s` can no
      longer replace the working directory, so the result keeps its anchor and
      its parts and only appends to them. */
  function StrippedJoin(workingDir: string, s: string): (p: PurePath)
    ensures WellFormed(p)
    ensures p.anchor == Parse(workingDir).anchor
    ensures IsPrefix(Parse(workingDir).parts, p.parts)
  {
    JoinPath(Parse(workingDir), Strip(s, '/'))
  }

  /** `str(p)`: the anchor and the parts joined by '/', or "." for the empty relative path. */
  function Str(p: PurePath): (s: string)
    ensures WellFormed(p) ==> s != "" && (IsAbs(s) <==> p.anchor != "")
  {
    if p.anchor == "" && p.parts == [] then "."
    else
      JoinStartsWithFirst(p.parts, '/');
      p.anchor + Join(p.parts, '/')
  }

  /** `p.name`: the last part, or "" when there is none. */
  function Name(p: PurePath): (r: string)
    ensures p.parts == [] ==> r == ""
    ensures WellFormed(p) && p.parts != [] ==> IsPart(r) && r in p.parts
  {
    if p.parts == [] then "" else p.parts[|p.parts| - 1]
  }

  /** `s.rfind(c)`: the last index of `c`, or -1. */
  function RFind(s: string, c: char): (i: int)
    ensures -1 <= i < |s|
    ensures i >= 0 ==> s[i] == c
    ensures forall j :: i < j < |s| ==> s[j] != c
    decreases |s|
  {
    if |s| == 0 then -1
    else if s[|s| - 1] == c then |s| - 1
    else RFind(s[..|s| - 1], c)
  }

  /** `p.suffix`: from the last '.' of the name on, unless that dot starts or ends the name. */
  function Suffix(p: PurePath): (r: string)
    ensures r != "" ==> && 2 <= |r| < |Name(p)| && r[0] == '.' && EndsWith(Name(p), r)
                        && forall k :: 1 <= k < |r| ==> r[k] != '.'
  {
    var n := Name(p);
    var i := RFind(n, '.');
    if 0 < i < |n| - 1 then n[i..] else ""
  }

  /** The test `p.suffix != ".py"` rejects exactly the names that do not end in
      ".py" with at least one character before it. */
  lemma PySuffix(p: PurePath)
    ensures Suffix(p) == ".py" <==> (|Name(p)| > 3 && EndsWith(Name(p), ".py"))
  {
    var n := Name(p);
    var i := RFind(n, '.');
    if |n| > 3 && EndsWith(n, ".py") {
      assert n[|n| - 3..] == ".py";
      assert n[|n| - 3] == '.' && n[|n| - 2] == 'p' && n[|n| - 1] == 'y';
      assert i == |n| - 3;
    }
    if Suffix(p) == ".py" {
      assert 0 < i < |n| - 1 && n[i..] == ".py";
      assert |n| - i == 3;
    }
  }

  // ---------------------------------------------------------------------------
  // How the string of a pure path splits back into its parts.

  lemma {:induction false} JoinPartsStart(parts: seq<string>)
    requires parts != []
    requires forall i :: 0 <= i < |parts| ==> IsPart(parts[i])
    ensures |Join(parts, '/')| > 0 && Join(parts, '/')[0] != '/'
    decreases |parts|
  {
    assert parts[0][0] in parts[0];
    if |parts| > 1 {
      JoinPartsStart(parts[1..]);
    }
  }

  /** `str(p)` is absolute exactly when `p` has an anchor. */
  lemma StrIsAbs(p: PurePath)
    requires WellFormed(p)
    ensures IsAbs(Str(p)) <==> p.anchor != ""
  {
    if p.anchor == "" && p.parts != [] {
      JoinPartsStart(p.parts);
    }
  }

  /** Splitting `str(p)` and dropping "" and "." gives back the parts. */
  lemma CleanSplitStr(p: PurePath)
    requires WellFormed(p)
    ensures Clean(Split(Str(p), '/')) == p.parts
  {
    var j := Join(p.parts, '/');
    var cs := Split(j, '/');
    if p.parts == [] {
      assert cs == [""];
      assert Clean(cs) == [];
    } else {
      SplitJoin(p.parts, '/');
      CleanPartsUnchanged(p.parts);
    }
    if p.anchor == "" && p.parts == [] {
      assert Str(p) == ".";
      SplitWithoutSep(".", '/');
      assert Clean(["."]) == [];
    } else if p.anchor == "/" {
      assert Str(p) == "/" + j;
      CleanSplitSlash(j);
    } else if p.anchor == "//" {
      assert Str(p) == "//" + j;
      CleanSplitDoubleSlash(j);
    } else {
      assert Str(p) == j;
    }
  }

  lemma {:induction false} CleanPartsUnchanged(parts: seq<string>)
    requires forall i :: 0 <= i < |parts| ==> IsPart(parts[i])
    ensures Clean(parts) == parts
    decreases |parts|
  {
    if |parts| > 0 {
      CleanPartsUnchanged(parts[1..]);
    }
  }

  /** A ".." part shows up as a ".." substring of `str(p)`. */
  lemma ParentPartInStr(p: PurePath, k: nat)
    requires k < |p.parts| && p.parts[k] == ".."
    ensures Contains(Str(p), "..")
  {
    JoinContainsPart(p.parts, '/', k);
    ContainsInfix(p.anchor, Join(p.parts, '/'), "", "..");
    assert p.anchor + Join(p.parts, '/') + "" == Str(p);
  }

  /** A single part parses to itself. */
  lemma ParseName(name: string)
    requires IsPart(name)
    ensures Parse(name) == PurePath("", [name])
  {
    SplitWithoutSep(name, '/');
    assert name[0] in name;
    assert !IsAbs(name) && !DoubleSlashed(name);
    assert [name][1..] == [];
    assert Clean([name]) == [name];
  }
}
