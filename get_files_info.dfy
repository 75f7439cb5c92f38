/** `get_files_info`: list a directory inside the working directory, one line
    per entry with its size and whether it is a directory. */
module GetFilesInfo {
  import opened Text
  import opened PosixPath
  import opened PurePaths
  import opened FileStore

  /** How the `directory` argument appears in messages: Python's `None` or the string as given. */
  function Shown(directory: Option<string>): string {
    if directory.None? then "None" else directory.value
  }

  /** The path listed: the working directory, or `directory` with its slashes stripped, joined to it. */
  function ListingTarget(workingDir: string, directory: Option<string>): (p: PurePath)
    ensures WellFormed(p)
  {
    if directory.None? then Parse(workingDir)
    else StrippedJoin(workingDir, directory.value)
  }

  function NotADirectory(directory: Option<string>): string {
    "Error: \"" + Shown(directory) + "\" is not a directory"
  }

  function CannotList(directory: Option<string>): string {
    "Error: Cannot list \"" + Shown(directory) + "\" as it is outside the permitted working directory"
  }

  /** Python's `str(bool)`. */
  function BoolText(b: bool): string {
    if b then "True" else "False"
  }

  /** `- <name>: file_size=<n> bytes, is_dir=<True|False>` */
  function EntryLine(name: string, size: nat, isDir: bool): string {
    "- " + name + ": file_size=" + NatToString(size) + " bytes, is_dir=" + BoolText(isDir)
  }

  /** Every entry of `dir` can be stat-ed: it is still there. */
  predicate AllPresent(store: Store, dir: Key, names: seq<string>) {
    forall i :: 0 <= i < |names| ==> dir + [names[i]] in store
  }

  lemma AllPresentPrefix(store: Store, dir: Key, names: seq<string>, m: nat)
    requires AllPresent(store, dir, names) && m <= |names|
    ensures AllPresent(store, dir, names[..m])
  {
    forall i | 0 <= i < m
      ensures dir + [names[..m][i]] in store
    {
      assert names[..m][i] == names[i];
    }
  }

  /** The lines for `names`, in enumeration order; `size` gives `st_size`. */
  function Lines(store: Store, size: Key -> nat, dir: Key, names: seq<string>): seq<string>
    requires AllPresent(store, dir, names)
    decreases |names|
  {
    if |names| == 0 then []
    else
      var last := names[|names| - 1];
      var child := dir + [last];
      AllPresentPrefix(store, dir, names, |names| - 1);
      Lines(store, size, dir, names[..|names| - 1]) + [EntryLine(last, size(child), store[child].Dir?)]
  }

  /** Both checks pass: the target is a directory and its path string has no "..". */
  predicate ListingReached(store: Store, cwd: Cwd, workingDir: string, directory: Option<string>) {
    var target := ListingTarget(workingDir, directory);
    IsDirAt(store, cwd, target) && !Contains(Str(target), "..")
  }

  /** The directory listed once both checks pass. */
  function ListedDir(store: Store, cwd: Cwd, workingDir: string, directory: Option<string>): (k: Key)
    requires ListingReached(store, cwd, workingDir, directory)
    ensures k in store && store[k].Dir?
  {
    Lookup(store, cwd, ListingTarget(workingDir, directory)).value
  }

  lemma ReachedListing(store: Store, size: Key -> nat, cwd: Cwd, workingDir: string,
                        directory: Option<string>, statError: string)
    requires ListingReached(store, cwd, workingDir, directory)
    ensures var dir := ListedDir(store, cwd, workingDir, directory);
            var names := store[dir].entries;
            FilesInfo(store, size, cwd, workingDir, directory, statError)
              == if AllPresent(store, dir, names) then Join(Lines(store, size, dir, names), '\n')
                 else "Error: " + statError
  {
  }

  /** When every listed name exists (as in any consistent tree), once both
      checks pass the listing never reaches the stat error. */
  lemma ConsistentTreeLists(store: Store, size: Key -> nat, cwd: Cwd, workingDir: string,
                            directory: Option<string>, statError: string)
    requires ListsValid(store) && ListingReached(store, cwd, workingDir, directory)
    ensures var dir := ListedDir(store, cwd, workingDir, directory);
            AllPresent(store, dir, store[dir].entries)
            && FilesInfo(store, size, cwd, workingDir, directory, statError)
               == Join(Lines(store, size, dir, store[dir].entries), '\n')
  {
    var dir := ListedDir(store, cwd, workingDir, directory);
    ListedPresent(store, dir);
    ReachedListing(store, size, cwd, workingDir, directory, statError);
  }

  lemma ListedPresent(store: Store, dir: Key)
    requires ListsValid(store) && dir in store && store[dir].Dir?
    ensures AllPresent(store, dir, store[dir].entries)
  {
    assert ValidEntries(store, dir, store[dir].entries);
  }

  /** What `get_files_info(working_directory, directory)` returns. `statError`
      is the text of the exception raised when an entry vanishes before it is stat-ed. */
  function FilesInfo(store: Store, size: Key -> nat, cwd: Cwd, workingDir: string,
                     directory: Option<string>, statError: string): string
  {
    var target := ListingTarget(workingDir, directory);
    if !IsDirAt(store, cwd, target) then NotADirectory(directory)
    else if !(Exists(store, cwd, target) && !Contains(Str(target), "..")) then CannotList(directory)
    else
      var dir := Lookup(store, cwd, target).value;
      var names := store[dir].entries;
      if AllPresent(store, dir, names) then Join(Lines(store, size, dir, names), '\n')
      else "Error: " + statError
  }

  /** The checks and the entry loop, building the list of lines one entry at a time. */
  method GetFilesInfo(store: Store, size: Key -> nat, cwd: Cwd, workingDir: string,
                      directory: Option<string>, statError: string) returns (r: string)
    ensures r == FilesInfo(store, size, cwd, workingDir, directory, statError)
  {
    var target := ListingTarget(workingDir, directory);
    if !IsDirAt(store, cwd, target) {
      return NotADirectory(directory);
    }
    if !(Exists(store, cwd, target) && !Contains(Str(target), "..")) {
      return CannotList(directory);
    }
    ReachedListing(store, size, cwd, workingDir, directory, statError);
    var dir := Lookup(store, cwd, target).value;
    var names := store[dir].entries;
    var filesStr: seq<string> := [];
    var i := 0;
    while i < |names|
      invariant 0 <= i <= |names|
      invariant AllPresent(store, dir, names[..i])
      invariant filesStr == Lines(store, size, dir, names[..i])
    {
      var child := dir + [names[i]];
      if child !in store {
        assert !AllPresent(store, dir, names);
        return "Error: " + statError;
      }
      LinesExtend(store, size, dir, names, i);
      filesStr := filesStr + [EntryLine(names[i], size(child), store[child].Dir?)];
      i := i + 1;
    }
    assert names[..i] == names;
    r := Join(filesStr, '\n');
  }

  /** One more entry present: one more line, for that entry. */
  lemma LinesExtend(store: Store, size: Key -> nat, dir: Key, names: seq<string>, i: nat)
    requires i < |names| && AllPresent(store, dir, names[..i]) && dir + [names[i]] in store
    ensures AllPresent(store, dir, names[..i + 1])
    ensures Lines(store, size, dir, names[..i + 1])
         == Lines(store, size, dir, names[..i])
            + [EntryLine(names[i], size(dir + [names[i]]), store[dir + [names[i]]].Dir?)]
  {
    var seen := names[..i + 1];
    assert seen[..i] == names[..i];
    forall j | 0 <= j < |seen|
      ensures dir + [seen[j]] in store
    {
      if j < i {
        assert seen[j] == names[..i][j];
      }
    }
  }

  // ---------------------------------------------------------------------------
  // The listing

  lemma {:induction false} LinesAt(store: Store, size: Key -> nat, dir: Key, names: seq<string>, k: nat)
    requires AllPresent(store, dir, names) && k < |names|
    ensures |Lines(store, size, dir, names)| == |names|
    ensures Lines(store, size, dir, names)[k]
         == EntryLine(names[k], size(dir + [names[k]]), store[dir + [names[k]]].Dir?)
    decreases |names|
  {
    var m := |names| - 1;
    AllPresentPrefix(store, dir, names, m);
    if k < m {
      LinesAt(store, size, dir, names[..m], k);
    } else if m > 0 {
      LinesAt(store, size, dir, names[..m], 0);
    }
  }

  lemma EntryLineWithoutNewline(name: string, size: nat, isDir: bool)
    requires '\n' !in name
    ensures '\n' !in EntryLine(name, size, isDir)
  {
    var digits := NatToString(size);
    assert forall i :: 0 <= i < |digits| ==> digits[i] != '\n';
    var withName := "- " + name;
    NotInAppend('\n', "- ", name);
    NotInAppend('\n', withName, ": file_size=");
    NotInAppend('\n', withName + ": file_size=", digits);
    NotInAppend('\n', withName + ": file_size=" + digits, " bytes, is_dir=");
    NotInAppend('\n', withName + ": file_size=" + digits + " bytes, is_dir=", BoolText(isDir));
  }

  /** The checks that come before the listing: a target that is not a
      directory gets the not-a-directory message whatever else holds, and a
      directory target whose path string contains ".." anywhere gets the
      outside message. Both quote `directory` as the caller gave it. */
  lemma CheckOrder(store: Store, size: Key -> nat, cwd: Cwd, workingDir: string,
                   directory: Option<string>, statError: string)
    ensures var target := ListingTarget(workingDir, directory);
            var r := FilesInfo(store, size, cwd, workingDir, directory, statError);
            && (!IsDirAt(store, cwd, target) ==> r == NotADirectory(directory))
            && (IsDirAt(store, cwd, target) && Contains(Str(target), "..") ==> r == CannotList(directory))
            && (IsDirAt(store, cwd, target) ==> Exists(store, cwd, target))
  {
  }

  lemma SplitLines(store: Store, size: Key -> nat, dir: Key, names: seq<string>)
    requires AllPresent(store, dir, names) && |names| > 0
    requires forall i :: 0 <= i < |names| ==> '\n' !in names[i]
    ensures Split(Join(Lines(store, size, dir, names), '\n'), '\n') == Lines(store, size, dir, names)
  {
    var ls := Lines(store, size, dir, names);
    LinesAt(store, size, dir, names, 0);
    forall k | 0 <= k < |names|
      ensures '\n' !in ls[k]
    {
      LinesAt(store, size, dir, names, k);
      EntryLineWithoutNewline(names[k], size(dir + [names[k]]), store[dir + [names[k]]].Dir?);
    }
    LinesAt(store, size, dir, names, 0);
    SplitJoin(ls, '\n');
  }

  /** A successful listing has exactly one line per entry, in enumeration
      order, each `- <name>: file_size=<n> bytes, is_dir=<b>`. */
  lemma ListingLines(store: Store, size: Key -> nat, cwd: Cwd, workingDir: string,
                     directory: Option<string>, statError: string)
    requires ListingReached(store, cwd, workingDir, directory)
    requires var dir := ListedDir(store, cwd, workingDir, directory);
             && AllPresent(store, dir, store[dir].entries)
             && |store[dir].entries| > 0
             && forall i :: 0 <= i < |store[dir].entries| ==> '\n' !in store[dir].entries[i]
    ensures var dir := ListedDir(store, cwd, workingDir, directory);
            var names := store[dir].entries;
            var lines := Split(FilesInfo(store, size, cwd, workingDir, directory, statError), '\n');
            && |lines| == |names|
            && forall k :: 0 <= k < |names| ==>
                 lines[k] == EntryLine(names[k], size(dir + [names[k]]), store[dir + [names[k]]].Dir?)
  {
    var dir := ListedDir(store, cwd, workingDir, directory);
    var names := store[dir].entries;
    var ls := Lines(store, size, dir, names);
    ReachedListing(store, size, cwd, workingDir, directory, statError);
    SplitLines(store, size, dir, names);
    LinesAt(store, size, dir, names, 0);
    forall k | 0 <= k < |names|
      ensures ls[k] == EntryLine(names[k], size(dir + [names[k]]), store[dir + [names[k]]].Dir?)
    {
      LinesAt(store, size, dir, names, k);
    }
  }

  /** An empty directory lists as the empty string. */
  lemma EmptyDirectoryListing(store: Store, size: Key -> nat, cwd: Cwd, workingDir: string,
                              directory: Option<string>, statError: string)
    requires ListingReached(store, cwd, workingDir, directory)
    requires store[ListedDir(store, cwd, workingDir, directory)].entries == []
    ensures FilesInfo(store, size, cwd, workingDir, directory, statError) == ""
  {
  }

  lemma JoinedLinesContain(store: Store, size: Key -> nat, dir: Key, names: seq<string>, k: nat)
    requires AllPresent(store, dir, names) && k < |names|
    ensures var line := EntryLine(names[k], size(dir + [names[k]]), store[dir + [names[k]]].Dir?);
            var text := Join(Lines(store, size, dir, names), '\n');
            Contains(text, line) && Contains(text, names[k])
  {
    var ls := Lines(store, size, dir, names);
    var line := EntryLine(names[k], size(dir + [names[k]]), store[dir + [names[k]]].Dir?);
    LinesAt(store, size, dir, names, k);
    JoinContainsPart(ls, '\n', k);
    EntryLineHoldsName(names[k], size(dir + [names[k]]), store[dir + [names[k]]].Dir?);
    ContainsTrans(Join(ls, '\n'), line, names[k]);
  }

  lemma EntryLineHoldsName(name: string, size: nat, isDir: bool)
    ensures Contains(EntryLine(name, size, isDir), name)
  {
    var head := "- " + name;
    assert head[2..2 + |name|] == name;
    assert OccursAt(head, name, 2);
    var withKey := head + ": file_size=";
    ContainsExtend(head, ": file_size=", name);
    var withSize := withKey + NatToString(size);
    ContainsExtend(withKey, NatToString(size), name);
    var withUnit := withSize + " bytes, is_dir=";
    ContainsExtend(withSize, " bytes, is_dir=", name);
    ContainsExtend(withUnit, BoolText(isDir), name);
  }

  /** Every entry's name, and its whole line, appears in a successful listing. */
  lemma EveryEntryListed(store: Store, size: Key -> nat, cwd: Cwd, workingDir: string,
                         directory: Option<string>, statError: string, k: nat)
    requires ListingReached(store, cwd, workingDir, directory)
    requires var dir := ListedDir(store, cwd, workingDir, directory);
             AllPresent(store, dir, store[dir].entries) && k < |store[dir].entries|
    ensures var dir := ListedDir(store, cwd, workingDir, directory);
            var name := store[dir].entries[k];
            var r := FilesInfo(store, size, cwd, workingDir, directory, statError);
            && Contains(r, EntryLine(name, size(dir + [name]), store[dir + [name]].Dir?))
            && Contains(r, name)
  {
    var dir := ListedDir(store, cwd, workingDir, directory);
    ReachedListing(store, size, cwd, workingDir, directory, statError);
    JoinedLinesContain(store, size, dir, store[dir].entries, k);
  }

  // ---------------------------------------------------------------------------
  // What the ".." heuristic protects

  /** A listing that is not an error is of a directory at or below the working
      directory, as `os.path.abspath` sees it: the ".." test keeps the stripped
      `directory` from climbing, and stripping keeps it from being absolute. */
  lemma ListingConfined(store: Store, size: Key -> nat, cwd: Cwd, workingDir: string,
                        directory: Option<string>, statError: string)
    requires !StartsWith(FilesInfo(store, size, cwd, workingDir, directory, statError), "Error: ")
    ensures var found := Lookup(store, cwd, ListingTarget(workingDir, directory));
            found.Some? && IsPrefix(AbsNormal(cwd, workingDir).segs, found.value)
  {
    var target := ListingTarget(workingDir, directory);
    assert StartsWith(NotADirectory(directory), "Error: ");
    assert StartsWith(CannotList(directory), "Error: ");
    assert StartsWith("Error: " + statError, "Error: ");
    assert IsDirAt(store, cwd, target) && !Contains(Str(target), "..");
    if directory.None? {
      LookupIsLexical(store, cwd, target);
      LexicalOfParse(cwd, workingDir);
    } else {
      NoParentStaysBelow(store, cwd, workingDir, directory.value);
    }
  }

  /** Without a `directory`, the path listed is the working directory itself,
      wherever the system resolves it. */
  lemma NoneListsWorkingDirectory(store: Store, cwd: Cwd, workingDir: string)
    ensures Lexical(cwd, ListingTarget(workingDir, None)) == AbsNormal(cwd, workingDir).segs
    ensures Lookup(store, cwd, ListingTarget(workingDir, None)).Some? ==>
              Lookup(store, cwd, ListingTarget(workingDir, None)).value == AbsNormal(cwd, workingDir).segs
  {
    LexicalOfParse(cwd, workingDir);
    LookupIsLexical(store, cwd, ListingTarget(workingDir, None));
  }

  /** A directory named with ".." inside it, such as "a..b", is refused as
      outside: the test looks for the substring, not for a ".." component. */
  lemma DotsInNameRejected(store: Store, size: Key -> nat, cwd: Cwd, workingDir: string,
                           name: string, statError: string)
    requires '/' !in name && Contains(name, "..")
    requires IsDirAt(store, cwd, ListingTarget(workingDir, Some(name)))
    ensures FilesInfo(store, size, cwd, workingDir, Some(name), statError) == CannotList(Some(name))
  {
    StripWithout(name, '/');
    var target := ListingTarget(workingDir, Some(name));
    var wp := Parse(workingDir).parts;
    assert |name| >= 2 by {
      var i :| 0 <= i <= |name| && OccursAt(name, "..", i);
    }
    ParseName(name);
    assert target.parts == wp + [name];
    JoinContainsPart(target.parts, '/', |wp|);
    ContainsInfix(target.anchor, Join(target.parts, '/'), "", name);
    assert target.anchor + Join(target.parts, '/') + "" == Str(target);
    ContainsTrans(Str(target), name, "..");
  }

  // ---------------------------------------------------------------------------
  // The two error cases the repository's tests check

  /** `get_files_info("calculator", "/bin")`, for any one-name working
      directory such as "calculator": "/bin" strips to "bin", and a missing
      `<wd>/bin` gives the not-a-directory message. */
  lemma BinExample(store: Store, size: Key -> nat, cwd: Cwd, workingDir: string, statError: string)
    requires IsPart(workingDir)
    requires !IsDirAt(store, cwd, PurePath("", [workingDir, "bin"]))
    ensures FilesInfo(store, size, cwd, workingDir, Some("/bin"), statError)
         == "Error: \"/bin\" is not a directory"
  {
    BinTarget(workingDir);
    CheckOrder(store, size, cwd, workingDir, Some("/bin"), statError);
    BinMessage();
  }

  lemma BinMessage()
    ensures NotADirectory(Some("/bin")) == "Error: \"/bin\" is not a directory"
  {
  }

  lemma BinTarget(workingDir: string)
    requires IsPart(workingDir)
    ensures ListingTarget(workingDir, Some("/bin")) == PurePath("", [workingDir, "bin"])
  {
    assert Strip("/bin", '/') == "bin" by {
      assert "/bin"[1..] == "bin";
      assert TrimStart("/bin", '/') == TrimStart("bin", '/');
      assert TrimEnd("bin", '/') == "bin";
    }
    ParseName(workingDir);
    ParseName("bin");
  }

  /** `get_files_info("calculator", "../")`, for any one-name working
      directory: "../" strips to "..", the joined path "<wd>/.." is a
      directory, and its string contains "..". */
  lemma ParentExample(store: Store, size: Key -> nat, cwd: Cwd, workingDir: string, statError: string)
    requires IsPart(workingDir)
    requires IsDirAt(store, cwd, PurePath("", [workingDir, ".."]))
    ensures FilesInfo(store, size, cwd, workingDir, Some("../"), statError)
         == "Error: Cannot list \"" + "../" + "\" as it is outside the permitted working directory"
  {
    ParentTarget(workingDir);
    ParentPartInStr(PurePath("", [workingDir, ".."]), 1);
    CheckOrder(store, size, cwd, workingDir, Some("../"), statError);
  }

  lemma ParentTarget(workingDir: string)
    requires IsPart(workingDir)
    ensures ListingTarget(workingDir, Some("../")) == PurePath("", [workingDir, ".."])
  {
    assert Strip("../", '/') == ".." by {
      assert "../"[..2] == "..";
      assert TrimStart("../", '/') == "../";
      assert TrimEnd("../", '/') == TrimEnd("..", '/');
      assert TrimEnd("..", '/') == "..";
    }
    ParseName(workingDir);
    ParseName("..");
  }
}
