/** The confinement predicate shared by the write and run tools: a candidate
    path is inside the working directory when `abspath(join(wd, fp))` is the
    working directory itself or lies below it. */
module FilePathUtils {
  import opened Text
  import opened PosixPath

  /** `is_file_outside_workdir(working_dir, file_path)`, with the process's
      current directory made explicit. It answers "outside" exactly when the
      normal forms of the two paths are not `Confined`. */
  function IsFileOutsideWorkdir(cwd: Cwd, workingDir: string, filePath: string): (outside: bool)
    ensures outside <==> !Confined(RootOf(cwd, workingDir), FullOf(cwd, workingDir, filePath))
  {
    AdmitsIffConfined(RootOf(cwd, workingDir), FullOf(cwd, workingDir, filePath));
    var rootAbs := AbsPath(cwd, workingDir);
    var fullAbs := AbsPath(cwd, PathJoin(workingDir, filePath));
    var common := CommonPath(rootAbs, fullAbs);
    !((common == rootAbs && StartsWith(fullAbs, rootAbs + "/")) || fullAbs == rootAbs)
  }

  /** The normal form of the working directory and of the joined candidate. */
  function RootOf(cwd: Cwd, workingDir: string): Normal {
    AbsNormal(cwd, workingDir)
  }

  function FullOf(cwd: Cwd, workingDir: string, filePath: string): Normal {
    AbsNormal(cwd, PathJoin(workingDir, filePath))
  }

  /** When the predicate answers "inside", in terms of normal forms. Besides the
      intended case (the root itself, or a strict extension of its components),
      a root of "/" admits every double-slashed path, and a double-slashed root
      admits nothing but itself. */
  predicate Confined(root: Normal, full: Normal) {
    || full == root
    || (!root.double && root.segs == [] && full.double)
    || (!root.double && !full.double && root.segs != []
        && IsPrefix(root.segs, full.segs) && |root.segs| < |full.segs|)
  }

  // ---------------------------------------------------------------------------
  // From strings to normal forms

  lemma CommonPrefixOfPrefix(a: seq<string>, b: seq<string>)
    requires IsPrefix(a, b)
    ensures CommonPrefix(a, b) == a
  {
  }

  /** `commonpath` of two rendered normal forms. */
  lemma CommonPathRender(a: Normal, b: Normal)
    requires AllProper(a.segs) && AllProper(b.segs)
    ensures CommonPath(Render(a), Render(b)) == "/" + Join(CommonPrefix(a.segs, b.segs), '/')
  {
    SplitRender(a);
    SplitRender(b);
  }

  lemma JoinNotEmpty(segs: seq<string>)
    requires AllProper(segs)
    ensures |Join(segs, '/')| == 0 <==> segs == []
  {
    if segs != [] {
      JoinProperStart(segs);
    }
  }

  /** `full.startswith(root + "/")` for a root with at least one component:
      the same leading-slash form and strictly more components, the root's first. */
  lemma PrefixRender(root: Normal, full: Normal)
    requires AllProper(root.segs) && AllProper(full.segs) && root.segs != []
    ensures StartsWith(Render(full), Render(root) + "/")
        <==> (full.double == root.double && IsPrefix(root.segs, full.segs)
              && |root.segs| < |full.segs|)
  {
    if full.double == root.double && IsPrefix(root.segs, full.segs) && |root.segs| < |full.segs| {
      ExtensionRendersAfterRoot(root, full);
    }
    if StartsWith(Render(full), Render(root) + "/") {
      AfterRootIsExtension(root, full);
    }
  }

  lemma ExtensionRendersAfterRoot(root: Normal, full: Normal)
    requires root.segs != [] && full.double == root.double
    requires IsPrefix(root.segs, full.segs) && |root.segs| < |full.segs|
    ensures StartsWith(Render(full), Render(root) + "/")
  {
    var rest := full.segs[|root.segs|..];
    assert full.segs == root.segs + rest;
    JoinAppend(root.segs, rest, '/');
    assert Render(full) == (Render(root) + "/") + Join(rest, '/');
  }

  lemma AfterRootIsExtension(root: Normal, full: Normal)
    requires AllProper(root.segs) && AllProper(full.segs) && root.segs != []
    requires StartsWith(Render(full), Render(root) + "/")
    ensures full.double == root.double && IsPrefix(root.segs, full.segs)
    ensures |root.segs| < |full.segs|
  {
    var pre := if root.double then "//" else "/";
    var jr := Join(root.segs, '/');
    var jf := Join(full.segs, '/');
    JoinNotEmpty(root.segs);
    RenderDouble(root);
    RenderDouble(full);
    var x := Render(full);
    var y := Render(root) + "/";
    assert x[1] == y[1];
    assert x == pre + jf;
    assert y == pre + (jr + "/");
    StartsWithCancel(pre, jf, jr + "/");
    var t := jf[|jr| + 1..];
    assert jf == jr + ['/'] + t;
    JoinNotEmpty(full.segs);
    assert forall i :: 0 <= i < |root.segs| ==> '/' !in root.segs[i];
    assert forall i :: 0 <= i < |full.segs| ==> '/' !in full.segs[i];
    SplitConcat(jr, t, '/');
    SplitJoin(root.segs, '/');
    SplitJoin(full.segs, '/');
    assert full.segs == root.segs + Split(t, '/');
  }

  /** A root of "//" is never followed by a third slash. */
  lemma NoTripleSlash(full: Normal)
    requires AllProper(full.segs)
    ensures !StartsWith(Render(full), "///")
  {
    RenderDouble(full);
    if full.double && full.segs != [] {
      JoinProperStart(full.segs);
      assert Render(full)[2] == full.segs[0][0];
      assert full.segs[0][0] in full.segs[0];
    }
  }

  /** The predicate's test, applied to two rendered normal forms. */
  predicate Admits(rootAbs: string, fullAbs: string)
    requires IsAbs(rootAbs) == IsAbs(fullAbs)
  {
    (CommonPath(rootAbs, fullAbs) == rootAbs && StartsWith(fullAbs, rootAbs + "/")) || fullAbs == rootAbs
  }

  lemma AdmitsIffConfined(root: Normal, full: Normal)
    requires AllProper(root.segs) && AllProper(full.segs)
    ensures Admits(Render(root), Render(full)) <==> Confined(root, full)
  {
    CommonPathRender(root, full);
    if Render(full) == Render(root) {
      RenderInjective(full, root);
    } else if root.segs == [] {
      AdmitsAtTop(root, full);
    } else {
      AdmitsBelow(root, full);
    }
  }

  /** A root without components ("/" or "//"). */
  lemma AdmitsAtTop(root: Normal, full: Normal)
    requires AllProper(full.segs) && root.segs == [] && Render(full) != Render(root)
    requires CommonPath(Render(root), Render(full)) == "/" + Join(CommonPrefix(root.segs, full.segs), '/')
    ensures Admits(Render(root), Render(full)) <==> Confined(root, full)
  {
    RenderDouble(full);
    if root.double {
      assert Render(root) + "/" == "///";
      NoTripleSlash(full);
    } else {
      assert Render(root) == "/";
      assert Render(root) + "/" == "//";
    }
  }

  /** A root with components. */
  lemma AdmitsBelow(root: Normal, full: Normal)
    requires AllProper(root.segs) && AllProper(full.segs) && root.segs != [] && Render(full) != Render(root)
    requires CommonPath(Render(root), Render(full)) == "/" + Join(CommonPrefix(root.segs, full.segs), '/')
    ensures Admits(Render(root), Render(full)) <==> Confined(root, full)
  {
    PrefixRender(root, full);
    if IsPrefix(root.segs, full.segs) {
      CommonPrefixOfPrefix(root.segs, full.segs);
      if root.double {
        assert |"/" + Join(root.segs, '/')| < |Render(root)|;
      }
    }
  }

  // ---------------------------------------------------------------------------
  // What the predicate guarantees and where it departs from the intent

  /** Soundness: a candidate judged inside normalises to the root's components
      followed by more. This holds for every root and every candidate. */
  lemma GuardSound(cwd: Cwd, workingDir: string, filePath: string)
    requires !IsFileOutsideWorkdir(cwd, workingDir, filePath)
    ensures IsPrefix(RootOf(cwd, workingDir).segs, FullOf(cwd, workingDir, filePath).segs)
  {
  }

  /** For a root that is not double-slashed, the `commonpath` conjunct adds
      nothing: the answer is decided by equality and the `root + "/"` prefix. */
  lemma CommonPathRedundant(cwd: Cwd, workingDir: string, filePath: string)
    requires !RootOf(cwd, workingDir).double
    ensures var rootAbs := AbsPath(cwd, workingDir);
            var fullAbs := AbsPath(cwd, PathJoin(workingDir, filePath));
            var within := StartsWith(fullAbs, rootAbs + "/") || fullAbs == rootAbs;
            IsFileOutsideWorkdir(cwd, workingDir, filePath) <==> !within
  {
    var root := RootOf(cwd, workingDir);
    var full := FullOf(cwd, workingDir, filePath);
    if Render(full) == Render(root) {
      RenderInjective(full, root);
    }
    if root.segs == [] {
      RenderDouble(full);
      assert Render(root) + "/" == "//";
    } else {
      PrefixRender(root, full);
    }
  }

  /** For the double-slashed root "//a" the `commonpath` conjunct is not
      redundant: "//a/b" starts with "//a/", yet `commonpath` gives "/a". */
  lemma CommonPathNeededForDoubleSlash(cwd: Cwd)
    ensures StartsWith(AbsPath(cwd, PathJoin("//a", "b")), AbsPath(cwd, "//a") + "/")
    ensures IsFileOutsideWorkdir(cwd, "//a", "b")
  {
    SplitWithoutSep("a", '/');
    SplitWithoutSep("b", '/');
    assert "//a" == "" + ['/'] + ("" + ['/'] + "a");
    SplitConcat("", "" + ['/'] + "a", '/');
    SplitConcat("", "a", '/');
    assert Split("//a", '/') == ["", "", "a"];
    var root := RootOf(cwd, "//a");
    assert root == Normal(true, ["a"]);
    DoubleSlashedJoin("//a", "b");
    FoldJoin([], "//a", "b");
    var full := FullOf(cwd, "//a", "b");
    assert full == Normal(true, ["a", "b"]);
    PrefixRender(root, full);
  }

  /** A double-slashed root admits nothing but itself. */
  lemma DoubleSlashRootAdmitsOnlyItself(cwd: Cwd, workingDir: string, filePath: string)
    requires RootOf(cwd, workingDir).double
    ensures !IsFileOutsideWorkdir(cwd, workingDir, filePath)
        <==> FullOf(cwd, workingDir, filePath) == RootOf(cwd, workingDir)
  {
  }

  /** A root of "/" rejects every relative candidate that names anything below
      it, because `"/" + os.sep` is "//", which no normalised child starts with. */
  lemma SlashRootRejectsChildren(cwd: Cwd, workingDir: string, filePath: string)
    requires RootOf(cwd, workingDir) == Normal(false, [])
    requires !IsAbs(filePath)
    ensures IsFileOutsideWorkdir(cwd, workingDir, filePath) <==> Fold([], Split(filePath, '/')) != []
  {
    AbsNormalOfRelativeJoin(cwd, workingDir, filePath);
  }

  /** An absolute candidate is not covered by that: `join` keeps "//<name>" as it
      is, `abspath` keeps its two slashes, and it starts with "/" + "/". */
  lemma SlashRootAdmitsDoubleSlashed(cwd: Cwd, name: string)
    requires Proper(name)
    ensures !IsFileOutsideWorkdir(cwd, "/", "//" + name)
  {
    var fp := "//" + name;
    assert name[0] in name;
    assert fp[2] == name[0];
    assert PathJoin("/", fp) == fp;
    assert DoubleSlashed(fp);
    assert Split("/", '/') == ["", ""];
    assert ["", ""][1..] == [""];
    assert [""][1..] == [];
    assert RootOf(cwd, "/") == Normal(false, []);
  }

  /** For a relative candidate and a root with components, not double-slashed:
      outside exactly when normalising the candidate on top of the root leaves it. */
  lemma RelativeCandidate(cwd: Cwd, workingDir: string, filePath: string)
    requires !IsAbs(filePath)
    requires RootOf(cwd, workingDir).segs != [] && !RootOf(cwd, workingDir).double
    ensures var rs := RootOf(cwd, workingDir).segs;
            IsFileOutsideWorkdir(cwd, workingDir, filePath) <==> !IsPrefix(rs, Fold(rs, Split(filePath, '/')))
  {
    AbsNormalOfRelativeJoin(cwd, workingDir, filePath);
  }

  /** An empty or "." candidate names the root itself, which is inside. */
  lemma EmptyOrDotInside(cwd: Cwd, workingDir: string, filePath: string)
    requires filePath == "" || filePath == "."
    ensures !IsFileOutsideWorkdir(cwd, workingDir, filePath)
  {
    AbsNormalOfRelativeJoin(cwd, workingDir, filePath);
    SplitWithoutSep(filePath, '/');
    var rs := RootOf(cwd, workingDir).segs;
    assert Fold(rs, [filePath]) == Fold(rs, []);
  }

  /** A relative candidate whose normal form leaves the root through ".." is outside. */
  lemma EscapeIsOutside(cwd: Cwd, workingDir: string, filePath: string)
    requires !IsAbs(filePath)
    requires var rs := RootOf(cwd, workingDir).segs; !IsPrefix(rs, Fold(rs, Split(filePath, '/')))
    ensures IsFileOutsideWorkdir(cwd, workingDir, filePath)
  {
    AbsNormalOfRelativeJoin(cwd, workingDir, filePath);
    if !IsFileOutsideWorkdir(cwd, workingDir, filePath) {
      GuardSound(cwd, workingDir, filePath);
    }
  }

  lemma SplitParentName(name: string)
    requires Proper(name)
    ensures Split("../" + name, '/') == ["..", name]
  {
    assert "../" + name == ".." + ['/'] + name;
    SplitConcat("..", name, '/');
    SplitWithoutSep("..", '/');
    SplitWithoutSep(name, '/');
  }

  lemma FoldParentName(rs: seq<string>, name: string)
    requires rs != [] && Proper(name)
    ensures Fold(rs, ["..", name]) == rs[..|rs| - 1] + [name]
  {
    assert ["..", name][1..] == [name];
    assert Fold(rs, ["..", name]) == Fold(rs[..|rs| - 1], [name]);
    assert [name][1..] == [];
  }

  /** "../<name>" is outside unless it comes straight back to the root. */
  lemma ParentEscape(cwd: Cwd, workingDir: string, name: string)
    requires Proper(name)
    requires var rs := RootOf(cwd, workingDir).segs; rs != [] && name != rs[|rs| - 1]
    ensures IsFileOutsideWorkdir(cwd, workingDir, "../" + name)
  {
    var rs := RootOf(cwd, workingDir).segs;
    SplitParentName(name);
    FoldParentName(rs, name);
    EscapeIsOutside(cwd, workingDir, "../" + name);
  }

  /** A sibling whose name extends the root's last name (root "/w/calc",
      candidate "../calcX") is outside, although its path string starts with the root's. */
  lemma SiblingWithSharedPrefix(cwd: Cwd, workingDir: string, name: string)
    requires Proper(name)
    requires var root := RootOf(cwd, workingDir);
             && root.segs != [] && !root.double
             && StartsWith(name, root.segs[|root.segs| - 1]) && name != root.segs[|root.segs| - 1]
    ensures IsFileOutsideWorkdir(cwd, workingDir, "../" + name)
    ensures StartsWith(AbsPath(cwd, PathJoin(workingDir, "../" + name)), AbsPath(cwd, workingDir))
  {
    ParentEscape(cwd, workingDir, name);
    ParentNameFull(cwd, workingDir, name);
    RenderSharedLast(RootOf(cwd, workingDir), FullOf(cwd, workingDir, "../" + name));
  }

  /** "../<name>" normalises to the root's parent followed by `name`. */
  lemma ParentNameFull(cwd: Cwd, workingDir: string, name: string)
    requires Proper(name) && RootOf(cwd, workingDir).segs != []
    ensures var rs := RootOf(cwd, workingDir).segs;
            FullOf(cwd, workingDir, "../" + name) == Normal(RootOf(cwd, workingDir).double, rs[..|rs| - 1] + [name])
  {
    SplitParentName(name);
    FoldParentName(RootOf(cwd, workingDir).segs, name);
    AbsNormalOfRelativeJoin(cwd, workingDir, "../" + name);
  }

  /** Two rendered paths that differ only in their last name, one name
      extending the other, share a string prefix. */
  lemma RenderSharedLast(root: Normal, full: Normal)
    requires root.segs != [] && full.segs != [] && full.double == root.double
    requires var n := |root.segs|;
             && full.segs == root.segs[..n - 1] + [full.segs[|full.segs| - 1]]
             && StartsWith(full.segs[|full.segs| - 1], root.segs[n - 1])
    ensures StartsWith(Render(full), Render(root))
  {
    var n := |root.segs|;
    SplitLast(root.segs);
    assert root == Normal(root.double, root.segs[..n - 1] + [root.segs[n - 1]]);
    RenderSharedName(root.double, root.segs[..n - 1], root.segs[n - 1], full.segs[|full.segs| - 1]);
  }

  lemma RenderSharedName(double: bool, ps: seq<string>, last: string, name: string)
    requires StartsWith(name, last)
    ensures StartsWith(Render(Normal(double, ps + [name])), Render(Normal(double, ps + [last])))
  {
    var front := RenderFront(double, ps);
    var rest := name[|last|..];
    assert name == last + rest;
    RenderAppendName(double, ps, last);
    RenderAppendName(double, ps, name);
    ConcatAssoc(front, last, rest);
    StartsWithAppend(front + last, rest);
  }

  /** What a rendered path holds before its last component. */
  function RenderFront(double: bool, ps: seq<string>): string {
    (if double then "//" else "/") + (if ps == [] then "" else Join(ps, '/') + "/")
  }

  lemma RenderAppendName(double: bool, ps: seq<string>, x: string)
    ensures Render(Normal(double, ps + [x])) == RenderFront(double, ps) + x
  {
    if ps != [] {
      JoinAppend(ps, [x], '/');
    } else {
      assert ps + [x] == [x];
    }
  }

  /** An absolute candidate replaces the working directory in the join, so
      only its own normal form is compared with the root. */
  lemma AbsoluteCandidate(cwd: Cwd, workingDir: string, filePath: string)
    requires IsAbs(filePath)
    ensures IsFileOutsideWorkdir(cwd, workingDir, filePath)
        <==> !Confined(RootOf(cwd, workingDir), Normalize(filePath))
  {
  }

  /** "/<name>" is outside unless the root is exactly "/<name>". */
  lemma AbsoluteNameRejected(cwd: Cwd, workingDir: string, name: string)
    requires Proper(name)
    ensures IsFileOutsideWorkdir(cwd, workingDir, "/" + name)
        <==> RootOf(cwd, workingDir) != Normal(false, [name])
  {
    assert "/" + name == "" + ['/'] + name;
    SplitConcat("", name, '/');
    SplitWithoutSep(name, '/');
    assert name[0] in name;
    assert ("/" + name)[1] == name[0];
    assert ["", name][1..] == [name];
    assert [name][1..] == [];
    assert Fold([], ["", name]) == Fold([], [name]);
    assert Fold([], [name]) == Fold([name], []);
    assert Normalize("/" + name) == Normal(false, [name]);
    AbsoluteCandidate(cwd, workingDir, "/" + name);
  }

  /** Only normal forms are compared: relative candidates that normalise alike
      on top of the root get the same answer. */
  lemma LexicallyEquivalent(cwd: Cwd, workingDir: string, a: string, b: string)
    requires !IsAbs(a) && !IsAbs(b)
    requires var rs := RootOf(cwd, workingDir).segs; Fold(rs, Split(a, '/')) == Fold(rs, Split(b, '/'))
    ensures IsFileOutsideWorkdir(cwd, workingDir, a) == IsFileOutsideWorkdir(cwd, workingDir, b)
  {
    AbsNormalOfRelativeJoin(cwd, workingDir, a);
    AbsNormalOfRelativeJoin(cwd, workingDir, b);
  }

  /** "<a>/./../<b>" and "<b>" get the same answer for every working directory. */
  lemma DotDotExample(cwd: Cwd, workingDir: string, a: string, b: string)
    requires Proper(a) && Proper(b)
    ensures IsFileOutsideWorkdir(cwd, workingDir, a + "/./../" + b) == IsFileOutsideWorkdir(cwd, workingDir, b)
  {
    DotDotSplit(a, b);
    SplitWithoutSep(b, '/');
    ParentCancels(RootOf(cwd, workingDir).segs, a, b);
    assert a[0] in a && b[0] in b;
    LexicallyEquivalent(cwd, workingDir, a + "/./../" + b, b);
  }

  lemma DotDotSplit(a: string, b: string)
    requires Proper(a) && Proper(b)
    ensures Split(a + "/./../" + b, '/') == [a, ".", "..", b]
  {
    DotThenParent(b);
    assert a + "/./../" + b == a + ['/'] + ("./../" + b);
    SplitWithoutSep(a, '/');
    SplitConcat(a, "./../" + b, '/');
  }

  lemma DotThenParent(name: string)
    requires Proper(name)
    ensures Split("./../" + name, '/') == [".", "..", name]
  {
    SplitParentName(name);
    assert "./../" + name == "." + ['/'] + ("../" + name);
    SplitWithoutSep(".", '/');
    SplitConcat(".", "../" + name, '/');
  }

  /** A name, a "." and a ".." cancel out. */
  lemma ParentCancels(rs: seq<string>, a: string, b: string)
    requires Proper(a) && Proper(b)
    ensures Fold(rs, [a, ".", "..", b]) == Fold(rs, [b]) == rs + [b]
  {
    assert [a, ".", "..", b][1..] == [".", "..", b];
    assert Fold(rs, [a, ".", "..", b]) == Fold(rs + [a], [".", "..", b]);
    assert [".", "..", b][1..] == ["..", b];
    assert Fold(rs + [a], [".", "..", b]) == Fold(rs + [a], ["..", b]);
    assert (rs + [a])[..|rs|] == rs;
    assert ["..", b][1..] == [b];
    assert Fold(rs + [a], ["..", b]) == Fold(rs, [b]);
    assert [b][1..] == [];
    assert Fold(rs, [b]) == Fold(rs + [b], []);
  }
}
