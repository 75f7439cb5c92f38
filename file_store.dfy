/** The file system the tools see, as a map from absolute paths to files and
    directories, and the operating system's resolution of a path string in it
    (no symbolic links). */
module FileStore {
  import opened Text
  import opened PosixPath
  import opened PurePaths

  /** An absolute path, as its list of components below "/". */
  type Key = seq<string>

  /** A regular file with its text, or a directory with its entry names in
      the order the directory enumerates them. */
  datatype Node = File(content: string) | Dir(entries: seq<string>)

  type Store = map<Key, Node>

  /** Path resolution from the directory `cur`: "" and "." stay, ".." goes up
      (and stays at "/"), a name must exist, and only a directory can be passed
      through, even by a trailing slash. */
  function Walk(store: Store, cur: Key, comps: seq<string>): (r: Option<Key>)
    ensures r.Some? ==> r.value in store
    decreases |comps|
  {
    if |comps| == 0 then (if cur in store then Some(cur) else None)
    else if cur !in store || !store[cur].Dir? then None
    else Walk(store, Step(cur, comps[0]), comps[1..])
  }

  /** The components the system resolves for `s`: a relative `s` starts at the cwd. */
  function OsComponents(cwd: Cwd, s: string): seq<string> {
    Split(if IsAbs(s) then s else cwd + "/" + s, '/')
  }

  function Resolve(store: Store, cwd: Cwd, s: string): (r: Option<Key>)
    ensures r.Some? ==> r.value in store
  {
    Walk(store, [], OsComponents(cwd, s))
  }

  /** What `str(p)` names in the file system, if anything. */
  function Lookup(store: Store, cwd: Cwd, p: PurePath): (r: Option<Key>)
    ensures r.Some? ==> r.value in store
  {
    Resolve(store, cwd, Str(p))
  }

  /** `p.exists()`. A NUL character makes the system call raise
      `ValueError`, which these three queries catch and answer false. */
  predicate Exists(store: Store, cwd: Cwd, p: PurePath) {
    '\0' !in Str(p) && Lookup(store, cwd, p).Some?
  }

  /** `p.is_dir()` */
  predicate IsDirAt(store: Store, cwd: Cwd, p: PurePath) {
    var r := Lookup(store, cwd, p);
    '\0' !in Str(p) && r.Some? && store[r.value].Dir?
  }

  /** `p.is_file()` */
  predicate IsFileAt(store: Store, cwd: Cwd, p: PurePath) {
    var r := Lookup(store, cwd, p);
    '\0' !in Str(p) && r.Some? && store[r.value].File?
  }

  /** The three queries agree: a path exists exactly when it is a directory
      or a regular file, never both, and a path holding a NUL character is
      none of them. */
  lemma PathQueries(store: Store, cwd: Cwd, p: PurePath)
    ensures Exists(store, cwd, p) <==> IsDirAt(store, cwd, p) || IsFileAt(store, cwd, p)
    ensures !(IsDirAt(store, cwd, p) && IsFileAt(store, cwd, p))
    ensures '\0' in Str(p) ==> !Exists(store, cwd, p)
  {
  }

  /** The key of the current directory. */
  function CwdKey(cwd: Cwd): Key {
    Fold([], Split(cwd, '/'))
  }

  /** The key a pure path names when its ".." parts are taken lexically. */
  function Lexical(cwd: Cwd, p: PurePath): Key {
    Fold(if p.anchor != "" then [] else CwdKey(cwd), p.parts)
  }

  /** No component holds a NUL character, which the system refuses in a path. */
  predicate NulFree(k: seq<string>) {
    forall i :: 0 <= i < |k| ==> '\0' !in k[i]
  }

  /** A consistent tree: the root is a directory, every other entry sits in a
      directory that lists its name once, and every listed name exists. Names
      are proper and hold no NUL character. */
  ghost predicate Valid(store: Store) {
    && [] in store && store[[]].Dir?
    && WellNamed(store)
    && ParentsList(store)
    && ListsValid(store)
  }

  /** Every component of every path is a proper name without NUL. */
  ghost predicate WellNamed(store: Store) {
    forall k :: k in store ==> AllProper(k) && NulFree(k)
  }

  /** Every entry but the root sits in a directory that lists its name. */
  ghost predicate ParentsList(store: Store) {
    forall k :: k in store && k != [] ==>
      && k[..|k| - 1] in store
      && store[k[..|k| - 1]].Dir?
      && k[|k| - 1] in store[k[..|k| - 1]].entries
  }

  /** Every directory's listing names existing entries, each once. */
  ghost predicate ListsValid(store: Store) {
    forall k :: k in store && store[k].Dir? ==> ValidEntries(store, k, store[k].entries)
  }

  ghost predicate ValidEntries(store: Store, k: Key, entries: seq<string>) {
    && (forall i :: 0 <= i < |entries| ==> k + [entries[i]] in store)
    && (forall i, j :: 0 <= i < j < |entries| ==> entries[i] != entries[j])
  }

  // ---------------------------------------------------------------------------

  /** Resolution never does anything but lexical normalisation: when it
      succeeds, it lands where `os.path.normpath` would. */
  lemma {:induction false} WalkIsFold(store: Store, cur: Key, comps: seq<string>)
    ensures Walk(store, cur, comps).Some? ==> Walk(store, cur, comps).value == Fold(cur, comps)
    decreases |comps|
  {
    if |comps| > 0 {
      WalkIsFold(store, Step(cur, comps[0]), comps[1..]);
    }
  }

  /** What `str(p)` resolves to is the lexical reading of `p`. */
  lemma LookupIsLexical(store: Store, cwd: Cwd, p: PurePath)
    requires WellFormed(p)
    ensures Lookup(store, cwd, p).Some? ==> Lookup(store, cwd, p).value == Lexical(cwd, p)
  {
    var s := Str(p);
    WalkIsFold(store, [], OsComponents(cwd, s));
    StrIsAbs(p);
    CleanSplitStr(p);
    if p.anchor != "" {
      FoldClean([], Split(s, '/'));
    } else {
      assert cwd + "/" + s == cwd + ['/'] + s;
      SplitConcat(cwd, s, '/');
      FoldConcat([], Split(cwd, '/'), Split(s, '/'));
      FoldClean(CwdKey(cwd), Split(s, '/'));
    }
  }

  /** Resolving a longer list of components continues from where the shorter one ended. */
  lemma {:induction false} WalkConcat(store: Store, cur: Key, xs: seq<string>, ys: seq<string>)
    ensures Walk(store, cur, xs + ys)
         == (match Walk(store, cur, xs) case None => None case Some(k) => Walk(store, k, ys))
    decreases |xs|
  {
    if |xs| == 0 {
      assert xs + ys == ys;
    } else {
      assert (xs + ys)[1..] == xs[1..] + ys;
      WalkConcat(store, Step(cur, xs[0]), xs[1..], ys);
    }
  }

  /** Resolving a path is resolving its parent, then its last component. */
  lemma WalkLast(store: Store, cur: Key, comps: seq<string>)
    requires |comps| > 0
    ensures Walk(store, cur, comps)
         == (match Walk(store, cur, comps[..|comps| - 1])
             case None => None
             case Some(k) => Walk(store, k, [comps[|comps| - 1]]))
  {
    SplitLast(comps);
    WalkConcat(store, cur, comps[..|comps| - 1], [comps[|comps| - 1]]);
  }

  /** One component from the directory `cur`. */
  lemma WalkOne(store: Store, cur: Key, c: string)
    ensures Walk(store, cur, [c])
         == (if cur in store && store[cur].Dir? && Step(cur, c) in store then Some(Step(cur, c)) else None)
  {
    assert [c][1..] == [];
  }

  /** The last component the system resolves for `s` is a piece of `s`: a
      character that is neither "/" nor in `s` is not in it. */
  lemma LastComponentAvoids(cwd: Cwd, s: string, c: char)
    requires c != '/' && c !in s
    ensures var comps := OsComponents(cwd, s);
            c !in comps[|comps| - 1]
  {
    var pieces := Split(s, '/');
    SplitAvoids(s, '/', c);
    if !IsAbs(s) {
      SplitConcat(cwd, s, '/');
      assert OsComponents(cwd, s) == Split(cwd, '/') + pieces;
    }
  }

  /** Two stores with the same paths and the same directories resolve alike. */
  lemma {:induction false} WalkSameShape(s1: Store, s2: Store, cur: Key, comps: seq<string>)
    requires forall k :: k in s1 <==> k in s2
    requires forall k :: k in s1 ==> s1[k].Dir? == s2[k].Dir?
    ensures Walk(s1, cur, comps) == Walk(s2, cur, comps)
    decreases |comps|
  {
    if |comps| > 0 {
      WalkSameShape(s1, s2, Step(cur, comps[0]), comps[1..]);
    }
  }

  // ---------------------------------------------------------------------------
  // `pathlib` joins against `os.path.abspath`

  /** Reading `Path(s)` lexically gives the components of `os.path.abspath(s)`. */
  lemma LexicalOfParse(cwd: Cwd, s: string)
    ensures Lexical(cwd, Parse(s)) == AbsNormal(cwd, s).segs
  {
    if IsAbs(s) {
      FoldClean([], Split(s, '/'));
    } else {
      FoldClean(CwdKey(cwd), Split(s, '/'));
      FoldJoin([], cwd, s);
    }
  }

  /** `Path(wd).joinpath(s)` names, lexically, what `abspath(os.path.join(wd, s))` does. */
  lemma LexicalOfJoin(cwd: Cwd, wd: string, s: string)
    ensures Lexical(cwd, JoinPath(Parse(wd), s)) == AbsNormal(cwd, PathJoin(wd, s)).segs
  {
    if IsAbs(s) {
      LexicalOfParse(cwd, s);
    } else {
      var p := Parse(wd);
      var base := if p.anchor != "" then [] else CwdKey(cwd);
      FoldConcat(base, p.parts, Parse(s).parts);
      LexicalOfParse(cwd, wd);
      FoldClean(AbsNormal(cwd, wd).segs, Split(s, '/'));
      AbsNormalOfRelativeJoin(cwd, wd, s);
    }
  }

  /** `Path(wd).joinpath(s.strip("/"))` never leaves `wd`'s anchor: it appends the pieces of `s`. */
  lemma StrippedJoinAppends(wd: string, s: string)
    ensures StrippedJoin(wd, s)
         == PurePath(Parse(wd).anchor, Parse(wd).parts + Clean(Split(s, '/')))
  {
    CleanSplitStrip(s);
  }

  /** ... so it names the working directory's components with those of `s` applied on top. */
  lemma LexicalOfStrippedJoin(cwd: Cwd, wd: string, s: string)
    ensures Lexical(cwd, StrippedJoin(wd, s))
         == Fold(AbsNormal(cwd, wd).segs, Split(s, '/'))
  {
    var p := Parse(wd);
    var base := if p.anchor != "" then [] else CwdKey(cwd);
    StrippedJoinAppends(wd, s);
    FoldConcat(base, p.parts, Clean(Split(s, '/')));
    LexicalOfParse(cwd, wd);
    FoldClean(AbsNormal(cwd, wd).segs, Split(s, '/'));
  }

  /** The ".." substring test used by the listing and reading tools: when the
      joined path string has no "..", what it resolves to lies at or below the
      working directory. */
  lemma NoParentStaysBelow(store: Store, cwd: Cwd, wd: string, s: string)
    requires var p := StrippedJoin(wd, s);
             !Contains(Str(p), "..") && Lookup(store, cwd, p).Some?
    ensures IsPrefix(AbsNormal(cwd, wd).segs, Lookup(store, cwd, StrippedJoin(wd, s)).value)
  {
    var p := StrippedJoin(wd, s);
    var rs := AbsNormal(cwd, wd).segs;
    LookupIsLexical(store, cwd, p);
    LexicalOfStrippedJoin(cwd, wd, s);
    StrippedWithoutParent(wd, s);
    FoldClean(rs, Split(s, '/'));
    FoldWithoutParentExtends(rs, Clean(Split(s, '/')));
  }

  /** No ".." in the joined string means no ".." among the appended components. */
  lemma StrippedWithoutParent(wd: string, s: string)
    requires !Contains(Str(StrippedJoin(wd, s)), "..")
    ensures forall i :: 0 <= i < |Clean(Split(s, '/'))| ==> Clean(Split(s, '/'))[i] != ".."
  {
    var p := StrippedJoin(wd, s);
    var wp := Parse(wd).parts;
    var dp := Clean(Split(s, '/'));
    StrippedJoinAppends(wd, s);
    forall i | 0 <= i < |dp|
      ensures dp[i] != ".."
    {
      if dp[i] == ".." {
        ParentComponentShows(p, wp, dp, i);
      }
    }
  }

  /** An appended ".." part shows up as ".." in the path string. */
  lemma ParentComponentShows(p: PurePath, wp: seq<string>, dp: seq<string>, i: nat)
    requires p.parts == wp + dp && i < |dp| && dp[i] == ".."
    ensures Contains(Str(p), "..")
  {
    PartAfter(p, wp, dp, i);
    ParentPartInStr(p, |wp| + i);
  }

  /** The i-th appended part sits right after the first ones. */
  lemma PartAfter(p: PurePath, wp: seq<string>, dp: seq<string>, i: nat)
    requires p.parts == wp + dp && i < |dp|
    ensures |wp| + i < |p.parts| && p.parts[|wp| + i] == dp[i]
  {
  }
}
