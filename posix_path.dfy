/** The parts of Python's `os.path` (POSIX flavour, separator '/') that the
    confinement check uses: `join`, `normpath`, `abspath` and `commonpath`. */
module PosixPath {
  import opened Text

  predicate IsAbs(p: string) {
    |p| > 0 && p[0] == '/'
  }

  /** The process's current directory as `os.getcwd()` reports it: always absolute. */
  type Cwd = s: string | IsAbs(s) witness "/"

  /** A component that survives normalisation: not empty, not "." or "..", no separator. */
  predicate Proper(c: string) {
    c != "" && c != "." && c != ".." && '/' !in c
  }

  predicate AllProper(segs: seq<string>) {
    forall i :: 0 <= i < |segs| ==> Proper(segs[i])
  }

  predicate IsPrefix(a: seq<string>, b: seq<string>) {
    |a| <= |b| && b[..|a|] == a
  }

  /** `os.path.join(a, b)`: an absolute `b` replaces `a`. */
  function PathJoin(a: string, b: string): (r: string)
    ensures IsAbs(a) || IsAbs(b) ==> IsAbs(r)
    ensures IsAbs(b) ==> r == b
    ensures !IsAbs(b) ==> StartsWith(r, a) && EndsWith(r, b)
  {
    if IsAbs(b) then b
    else if a == "" || a[|a| - 1] == '/' then a + b
    else a + "/" + b
  }

  /** How `os.path.normpath` treats one component of an absolute path:
      "" and "." vanish, ".." drops the last kept component (and stays at "/"). */
  function Step(acc: seq<string>, c: string): seq<string> {
    if c == "" || c == "." then acc
    else if c == ".." then (if |acc| == 0 then acc else acc[..|acc| - 1])
    else acc + [c]
  }

  /** The components kept after applying `Step` to each of `cs` in turn. */
  function Fold(acc: seq<string>, cs: seq<string>): seq<string>
    decreases |cs|
  {
    if |cs| == 0 then acc else Fold(Step(acc, cs[0]), cs[1..])
  }

  /** The normal form `os.path.normpath` gives an absolute path: the kept
      components, and whether the path keeps POSIX's two leading slashes. */
  datatype Normal = Normal(double: bool, segs: seq<string>)

  /** Exactly two leading slashes (`p.startswith("//") and not p.startswith("///")`). */
  predicate DoubleSlashed(p: string) {
    |p| >= 2 && p[0] == '/' && p[1] == '/' && !(|p| >= 3 && p[2] == '/')
  }

  function Normalize(p: string): (n: Normal)
    ensures AllProper(n.segs)
  {
    FoldKeepsProper([], Split(p, '/'));
    Normal(DoubleSlashed(p), Fold([], Split(p, '/')))
  }

  /** The string `os.path.normpath` returns for a normal form. */
  function Render(n: Normal): string {
    (if n.double then "//" else "/") + Join(n.segs, '/')
  }

  /** `os.path.abspath(p)` as a normal form: a relative `p` is joined to the cwd first. */
  function AbsNormal(cwd: Cwd, p: string): (n: Normal)
    ensures AllProper(n.segs)
  {
    Normalize(if IsAbs(p) then p else PathJoin(cwd, p))
  }

  /** `os.path.abspath(p)` */
  function AbsPath(cwd: Cwd, p: string): string {
    Render(AbsNormal(cwd, p))
  }

  /** The components `commonpath` compares: the split pieces without "" and ".". */
  function Clean(cs: seq<string>): seq<string>
    decreases |cs|
  {
    if |cs| == 0 then []
    else (if cs[0] == "" || cs[0] == "." then [] else [cs[0]]) + Clean(cs[1..])
  }

  function CommonPrefix(a: seq<string>, b: seq<string>): (c: seq<string>)
    ensures IsPrefix(c, a) && IsPrefix(c, b)
    ensures |c| < |a| && |c| < |b| ==> a[|c|] != b[|c|]
    decreases |a|
  {
    if |a| == 0 || |b| == 0 || a[0] != b[0] then []
    else [a[0]] + CommonPrefix(a[1..], b[1..])
  }

  /** `os.path.commonpath([a, b])` for two paths that are both absolute or both relative. */
  function CommonPath(a: string, b: string): (r: string)
    requires IsAbs(a) == IsAbs(b)
    ensures IsAbs(a) ==> IsAbs(r)
  {
    (if IsAbs(a) then "/" else "") + Join(CommonPrefix(Clean(Split(a, '/')), Clean(Split(b, '/'))), '/')
  }

  // ---------------------------------------------------------------------------
  // Normalisation lemmas

  lemma {:induction false} FoldConcat(acc: seq<string>, xs: seq<string>, ys: seq<string>)
    ensures Fold(acc, xs + ys) == Fold(Fold(acc, xs), ys)
    decreases |xs|
  {
    if |xs| > 0 {
      assert (xs + ys)[1..] == xs[1..] + ys;
      FoldConcat(Step(acc, xs[0]), xs[1..], ys);
    } else {
      assert xs + ys == ys;
    }
  }

  lemma {:induction false} FoldKeepsProper(acc: seq<string>, cs: seq<string>)
    requires AllProper(acc)
    requires forall i :: 0 <= i < |cs| ==> '/' !in cs[i]
    ensures AllProper(Fold(acc, cs))
    decreases |cs|
  {
    if |cs| > 0 {
      FoldKeepsProper(Step(acc, cs[0]), cs[1..]);
    }
  }

  /** Without "..", nothing already kept is ever dropped. */
  lemma {:induction false} FoldWithoutParentExtends(acc: seq<string>, cs: seq<string>)
    requires forall i :: 0 <= i < |cs| ==> cs[i] != ".."
    ensures IsPrefix(acc, Fold(acc, cs))
    decreases |cs|
  {
    if |cs| > 0 {
      FoldWithoutParentExtends(Step(acc, cs[0]), cs[1..]);
    }
  }

  /** Dropping "" and "." components does not change the normal form. */
  lemma {:induction false} FoldClean(acc: seq<string>, cs: seq<string>)
    ensures Fold(acc, Clean(cs)) == Fold(acc, cs)
    decreases |cs|
  {
    if |cs| > 0 {
      FoldClean(Step(acc, cs[0]), cs[1..]);
      if cs[0] == "" || cs[0] == "." {
        assert Clean(cs) == Clean(cs[1..]);
      } else {
        assert Clean(cs) == [cs[0]] + Clean(cs[1..]);
        assert ([cs[0]] + Clean(cs[1..]))[1..] == Clean(cs[1..]);
      }
    }
  }

  lemma {:induction false} CleanConcat(a: seq<string>, b: seq<string>)
    ensures Clean(a + b) == Clean(a) + Clean(b)
    decreases |a|
  {
    if |a| > 0 {
      assert (a + b)[1..] == a[1..] + b;
      CleanConcat(a[1..], b);
    } else {
      assert a + b == b;
    }
  }

  lemma {:induction false} CleanProper(cs: seq<string>)
    requires AllProper(cs)
    ensures Clean(cs) == cs
    decreases |cs|
  {
    if |cs| > 0 {
      CleanProper(cs[1..]);
    }
  }

  /** `os.path.join` then normalise is normalising the pieces one after the other. */
  lemma FoldJoin(acc: seq<string>, a: string, b: string)
    requires !IsAbs(b)
    ensures Fold(acc, Split(PathJoin(a, b), '/')) == Fold(Fold(acc, Split(a, '/')), Split(b, '/'))
  {
    if a == "" {
      assert Split(a, '/') == [""];
      assert [""][1..] == [];
      assert Fold(acc, [""]) == acc;
      assert PathJoin(a, b) == b;
    } else if a[|a| - 1] == '/' {
      var a' := a[..|a| - 1];
      assert a == a' + ['/'] + "";
      assert a + b == a' + ['/'] + b;
      SplitConcat(a', "", '/');
      SplitConcat(a', b, '/');
      FoldConcat(acc, Split(a', '/'), [""]);
      FoldConcat(acc, Split(a', '/'), Split(b, '/'));
      assert Fold(Fold(acc, Split(a', '/')), [""]) == Fold(acc, Split(a', '/'));
    } else {
      assert a + "/" + b == a + ['/'] + b;
      SplitConcat(a, b, '/');
      FoldConcat(acc, Split(a, '/'), Split(b, '/'));
    }
  }

  /** Joining a relative path to an absolute one keeps its leading-slash form. */
  lemma DoubleSlashedJoin(w: string, b: string)
    requires IsAbs(w) && !IsAbs(b)
    ensures IsAbs(PathJoin(w, b))
    ensures DoubleSlashed(PathJoin(w, b)) == DoubleSlashed(w)
  {
    var r := PathJoin(w, b);
    assert r[..|w|] == w;
    if |w| == 1 {
      assert r == "/" + b;
    } else if |w| == 2 && w[1] == '/' {
      assert r == w + b;
    }
  }

  /** For a relative candidate, `abspath(join(wd, fp))` is the normal form of the
      working directory with the candidate's components applied on top. */
  lemma AbsNormalOfRelativeJoin(cwd: Cwd, wd: string, fp: string)
    requires !IsAbs(fp)
    ensures AbsNormal(cwd, PathJoin(wd, fp))
         == Normal(AbsNormal(cwd, wd).double, Fold(AbsNormal(cwd, wd).segs, Split(fp, '/')))
  {
    var j := PathJoin(wd, fp);
    if IsAbs(wd) {
      FoldJoin([], wd, fp);
      DoubleSlashedJoin(wd, fp);
    } else {
      assert !IsAbs(j);
      FoldJoin([], cwd, j);
      FoldJoin(Fold([], Split(cwd, '/')), wd, fp);
      FoldJoin([], cwd, wd);
      DoubleSlashedJoin(cwd, j);
      DoubleSlashedJoin(cwd, wd);
    }
  }

  // ---------------------------------------------------------------------------
  // Rendering lemmas

  lemma SplitRender(n: Normal)
    requires AllProper(n.segs)
    ensures Clean(Split(Render(n), '/')) == n.segs
  {
    var j := Join(n.segs, '/');
    assert forall i :: 0 <= i < |n.segs| ==> '/' !in n.segs[i];
    if n.segs == [] {
      assert j == "";
      assert Split(j, '/') == [""];
    } else {
      SplitJoin(n.segs, '/');
    }
    if n.double {
      CleanSplitDoubleSlash(j);
    } else {
      CleanSplitSlash(j);
    }
    if n.segs != [] {
      CleanProper(n.segs);
    }
  }

  /** A leading slash adds only an empty piece, which `Clean` drops. */
  lemma CleanSplitSlash(j: string)
    ensures Clean(Split("/" + j, '/')) == Clean(Split(j, '/'))
  {
    assert "/" + j == "" + ['/'] + j;
    SplitConcat("", j, '/');
    assert Split("", '/') == [""];
    CleanConcat([""], Split(j, '/'));
    assert Clean([""]) == [];
  }

  lemma CleanSplitDoubleSlash(j: string)
    ensures Clean(Split("//" + j, '/')) == Clean(Split(j, '/'))
  {
    assert "//" + j == "/" + ("/" + j);
    CleanSplitSlash("/" + j);
    CleanSplitSlash(j);
  }

  lemma {:induction false} JoinProperStart(segs: seq<string>)
    requires AllProper(segs) && segs != []
    ensures |Join(segs, '/')| > 0 && Join(segs, '/')[0] == segs[0][0]
    decreases |segs|
  {
    if |segs| > 1 {
      JoinProperStart(segs[1..]);
    }
  }

  /** The rendered string tells whether the form is double-slashed. */
  lemma RenderDouble(n: Normal)
    requires AllProper(n.segs)
    ensures n.double <==> (|Render(n)| >= 2 && Render(n)[1] == '/')
  {
    if !n.double && n.segs != [] {
      JoinProperStart(n.segs);
      assert Render(n)[1] == n.segs[0][0];
      assert n.segs[0][0] in n.segs[0];
    }
  }

  /** Different normal forms render to different strings. */
  lemma RenderInjective(a: Normal, b: Normal)
    requires AllProper(a.segs) && AllProper(b.segs)
    requires Render(a) == Render(b)
    ensures a == b
  {
    SplitRender(a);
    SplitRender(b);
    RenderDouble(a);
    RenderDouble(b);
  }

  // ---------------------------------------------------------------------------
  // `str.strip("/")` only removes separators

  lemma {:induction false} CleanSplitTrimStart(s: string)
    ensures Clean(Split(TrimStart(s, '/'), '/')) == Clean(Split(s, '/'))
    decreases |s|
  {
    if |s| > 0 && s[0] == '/' {
      CleanSplitTrimStart(s[1..]);
      assert s == "" + ['/'] + s[1..];
      SplitConcat("", s[1..], '/');
      CleanConcat([""], Split(s[1..], '/'));
    }
  }

  lemma {:induction false} CleanSplitTrimEnd(s: string)
    ensures Clean(Split(TrimEnd(s, '/'), '/')) == Clean(Split(s, '/'))
    decreases |s|
  {
    if |s| > 0 && s[|s| - 1] == '/' {
      var t := s[..|s| - 1];
      CleanSplitTrimEnd(t);
      assert s == t + ['/'] + "";
      SplitConcat(t, "", '/');
      CleanConcat(Split(t, '/'), [""]);
    }
  }

  /** The pieces `commonpath` and `pathlib` keep are the same after `strip("/")`. */
  lemma CleanSplitStrip(s: string)
    ensures Clean(Split(Strip(s, '/'), '/')) == Clean(Split(s, '/'))
  {
    CleanSplitTrimStart(s);
    CleanSplitTrimEnd(TrimStart(s, '/'));
  }
}
