/** `write_file`: create or overwrite a file inside the working directory.
    The file store is the state this tool changes, held by a `FileSystem`. */
module WriteFile {
  import opened Text
  import opened PosixPath
  import opened PurePaths
  import opened FileStore
  import opened FilePathUtils
  import opened GetFileContent

  /** A tool either returns its message or lets an exception propagate
      (`touch()` sits outside the `try`). */
  datatype Outcome = Returned(text: string) | Raised

  function CannotWrite(filePath: string): string {
    "Error: Cannot write to \"" + filePath + "\" as it is outside the permitted working directory"
  }

  function CouldNotWrite(filePath: string, error: string): string {
    "Error: Could not write to \"" + filePath + "\": " + error
  }

  /** The success message, counting characters (not bytes). */
  function Wrote(filePath: string, content: string): string {
    "Successfully wrote to \"" + filePath + "\" (" + NatToString(|content|) + " characters written)"
  }

  /** `store` with the empty file `name` created in the directory `dir`,
      which lists it last. */
  function Created(store: Store, dir: Key, name: string): Store
    requires dir in store && store[dir].Dir?
  {
    store[dir + [name] := File("")][dir := Dir(store[dir].entries + [name])]
  }

  /** `p.touch()`: an existing path is left alone; a missing one is created as
      an empty file listed in its directory; `None` when it raises: the path
      string holds a NUL character (a `ValueError` from `os.utime`, which
      `touch` does not catch), or the directory is missing or is not a
      directory. */
  function Touched(store: Store, cwd: Cwd, p: PurePath): Option<Store> {
    var comps := OsComponents(cwd, Str(p));
    if '\0' in Str(p) then None
    else if Walk(store, [], comps).Some? then Some(store)
    else
      var last := comps[|comps| - 1];
      match Walk(store, [], comps[..|comps| - 1])
      case None => None
      case Some(dir) => if !store[dir].Dir? || !Proper(last) then None else Some(Created(store, dir, last))
  }

  /** `open(p, "w").write(content)`: the file now holds exactly `content`;
      `None` when opening fails, because `p` is a directory or the system
      refuses (`refused`). */
  function Overwritten(store: Store, cwd: Cwd, p: PurePath, content: string, refused: bool): Option<Store> {
    match Lookup(store, cwd, p)
    case None => None
    case Some(key) => if store[key].Dir? || refused then None else Some(store[key := File(content)])
  }

  /** Touch, then write, once the guard has let `target` through. `errorText`
      is the text of the exception `open` raises. */
  function TouchAndWriteResult(store: Store, cwd: Cwd, target: PurePath, filePath: string,
                               content: string, refused: bool, errorText: string): (Store, Outcome)
  {
    match Touched(store, cwd, target)
    case None => (store, Raised)
    case Some(touched) =>
      match Overwritten(touched, cwd, target, content, refused)
      case None => (touched, Returned(CouldNotWrite(filePath, errorText)))
      case Some(written) => (written, Returned(Wrote(filePath, content)))
  }

  /** `write_file(working_directory, file_path, content)` as written: the guard
      sees `file_path` as given, the write goes to the stripped path. */
  function WriteFileResult(store: Store, cwd: Cwd, workingDir: string, filePath: string,
                           content: string, refused: bool, errorText: string): (Store, Outcome)
  {
    if IsFileOutsideWorkdir(cwd, workingDir, filePath) then (store, Returned(CannotWrite(filePath)))
    else TouchAndWriteResult(store, cwd, StrippedJoin(workingDir, filePath), filePath, content, refused, errorText)
  }

  /** The corrected tool: the guard sees the same stripped path that is written. */
  function WriteFileStrippedResult(store: Store, cwd: Cwd, workingDir: string, filePath: string,
                                   content: string, refused: bool, errorText: string): (Store, Outcome)
  {
    if IsFileOutsideWorkdir(cwd, workingDir, Strip(filePath, '/')) then (store, Returned(CannotWrite(filePath)))
    else TouchAndWriteResult(store, cwd, StrippedJoin(workingDir, filePath), filePath, content, refused, errorText)
  }

  /** The file system the tool writes to. */
  class FileSystem {
    var nodes: Store

    constructor (initial: Store)
      ensures nodes == initial
    {
      nodes := initial;
    }

    method Touch(cwd: Cwd, p: PurePath) returns (ok: bool)
      modifies this
      ensures ok == Touched(old(nodes), cwd, p).Some?
      ensures nodes == if ok then Touched(old(nodes), cwd, p).value else old(nodes)
    {
      if '\0' in Str(p) {
        return false;
      }
      var comps := OsComponents(cwd, Str(p));
      if Walk(nodes, [], comps).Some? {
        return true;
      }
      var last := comps[|comps| - 1];
      var parent := Walk(nodes, [], comps[..|comps| - 1]);
      if parent.None? || !nodes[parent.value].Dir? || !Proper(last) {
        return false;
      }
      nodes := Created(nodes, parent.value, last);
      return true;
    }

    method Overwrite(cwd: Cwd, p: PurePath, content: string, refused: bool) returns (ok: bool)
      modifies this
      ensures ok == Overwritten(old(nodes), cwd, p, content, refused).Some?
      ensures nodes == if ok then Overwritten(old(nodes), cwd, p, content, refused).value else old(nodes)
    {
      var found := Lookup(nodes, cwd, p);
      if found.None? || nodes[found.value].Dir? || refused {
        return false;
      }
      nodes := nodes[found.value := File(content)];
      return true;
    }

    method TouchAndWrite(cwd: Cwd, target: PurePath, filePath: string, content: string,
                         refused: bool, errorText: string) returns (r: Outcome)
      modifies this
      ensures (nodes, r) == TouchAndWriteResult(old(nodes), cwd, target, filePath, content, refused, errorText)
    {
      var touched := Touch(cwd, target);
      if !touched {
        return Raised;
      }
      var written := Overwrite(cwd, target, content, refused);
      if !written {
        return Returned(CouldNotWrite(filePath, errorText));
      }
      return Returned(Wrote(filePath, content));
    }

    /** `write_file` as written. */
    method WriteFile(cwd: Cwd, workingDir: string, filePath: string, content: string,
                     refused: bool, errorText: string) returns (r: Outcome)
      modifies this
      ensures (nodes, r) == WriteFileResult(old(nodes), cwd, workingDir, filePath, content, refused, errorText)
    {
      if IsFileOutsideWorkdir(cwd, workingDir, filePath) {
        return Returned(CannotWrite(filePath));
      }
      r := TouchAndWrite(cwd, StrippedJoin(workingDir, filePath), filePath, content, refused, errorText);
    }

    /** `write_file` with the guard applied to the stripped path. */
    method WriteFileStripped(cwd: Cwd, workingDir: string, filePath: string, content: string,
                             refused: bool, errorText: string) returns (r: Outcome)
      modifies this
      ensures (nodes, r) == WriteFileStrippedResult(old(nodes), cwd, workingDir, filePath, content, refused, errorText)
    {
      if IsFileOutsideWorkdir(cwd, workingDir, Strip(filePath, '/')) {
        return Returned(CannotWrite(filePath));
      }
      r := TouchAndWrite(cwd, StrippedJoin(workingDir, filePath), filePath, content, refused, errorText);
    }
  }

  // ---------------------------------------------------------------------------
  // Touch and overwrite

  /** `after` differs from `before` only at `key` and in the directory that
      holds `key`, which gains the name of `key` as its last entry. */
  predicate OnlyAt(before: Store, after: Store, key: Key) {
    && after.Keys == before.Keys + {key}
    && forall k :: k in before && k != key && after[k] != before[k] ==>
         && |key| > 0 && k == key[..|key| - 1] && before[k].Dir?
         && after[k] == Dir(before[k].entries + [key[|key| - 1]])
  }

  /** Resolution keeps working when paths are only added and directories stay directories. */
  lemma {:induction false} WalkGrows(s1: Store, s2: Store, cur: Key, comps: seq<string>)
    requires forall k :: k in s1 ==> k in s2 && s2[k].Dir? == s1[k].Dir?
    requires Walk(s1, cur, comps).Some?
    ensures Walk(s2, cur, comps) == Walk(s1, cur, comps)
    decreases |comps|
  {
    if |comps| > 0 {
      WalkGrows(s1, s2, Step(cur, comps[0]), comps[1..]);
    }
  }

  /** A touch of a path that does not resolve creates its last component,
      missing until then, in the directory its parent resolves to. */
  lemma TouchCreates(store: Store, cwd: Cwd, p: PurePath)
    requires Touched(store, cwd, p).Some?
    requires Walk(store, [], OsComponents(cwd, Str(p))).None?
    ensures var comps := OsComponents(cwd, Str(p));
            var n := |comps|;
            && n > 0
            && Walk(store, [], comps[..n - 1]).Some?
            && var dir := Walk(store, [], comps[..n - 1]).value;
               && store[dir].Dir? && Proper(comps[n - 1]) && '\0' !in comps[n - 1]
               && dir + [comps[n - 1]] !in store
               && Touched(store, cwd, p).value == Created(store, dir, comps[n - 1])
  {
    var comps := OsComponents(cwd, Str(p));
    var n := |comps|;
    LastComponentAvoids(cwd, Str(p), '\0');
    WalkLast(store, [], comps);
    WalkOne(store, Walk(store, [], comps[..n - 1]).value, comps[n - 1]);
  }

  /** After a touch the path resolves: to what was there, or to a new empty
      file that is the only change besides its directory's listing. */
  lemma TouchedTarget(store: Store, cwd: Cwd, p: PurePath)
    requires Touched(store, cwd, p).Some?
    ensures var t := Touched(store, cwd, p).value;
            && Lookup(t, cwd, p).Some?
            && (t == store || (Lookup(t, cwd, p).value !in store && t[Lookup(t, cwd, p).value] == File("")
                              && OnlyAt(store, t, Lookup(t, cwd, p).value)))
  {
    var t := Touched(store, cwd, p).value;
    if Walk(store, [], OsComponents(cwd, Str(p))).None? {
      TouchCreates(store, cwd, p);
      CreatedTarget(store, cwd, p, t);
    }
  }

  /** The path of a created entry resolves to it in the new store. */
  lemma CreatedTarget(store: Store, cwd: Cwd, p: PurePath, t: Store)
    requires var comps := OsComponents(cwd, Str(p));
             var n := |comps|;
             && n > 0
             && Walk(store, [], comps[..n - 1]).Some?
             && var dir := Walk(store, [], comps[..n - 1]).value;
                && store[dir].Dir? && Proper(comps[n - 1]) && dir + [comps[n - 1]] !in store
                && t == Created(store, dir, comps[n - 1])
    ensures var comps := OsComponents(cwd, Str(p));
            var n := |comps|;
            var key := Walk(store, [], comps[..n - 1]).value + [comps[n - 1]];
            && Lookup(t, cwd, p) == Some(key)
            && key !in store && t[key] == File("") && OnlyAt(store, t, key)
  {
    var comps := OsComponents(cwd, Str(p));
    var n := |comps|;
    var dir := Walk(store, [], comps[..n - 1]).value;
    var key := dir + [comps[n - 1]];
    WalkGrows(store, t, [], comps[..n - 1]);
    WalkLast(t, [], comps);
    WalkOne(t, dir, comps[n - 1]);
    assert key[..|key| - 1] == dir;
  }

  /** Creating a missing entry in a directory keeps the tree consistent. */
  lemma CreatedValid(store: Store, dir: Key, name: string)
    requires Valid(store) && dir in store && store[dir].Dir?
    requires Proper(name) && '\0' !in name && dir + [name] !in store
    ensures Valid(Created(store, dir, name))
  {
    CreatedNames(store, dir, name);
    CreatedParents(store, dir, name);
    CreatedEntries(store, dir, name);
  }

  lemma CreatedNames(store: Store, dir: Key, name: string)
    requires WellNamed(store) && dir in store && store[dir].Dir?
    requires Proper(name) && '\0' !in name
    ensures WellNamed(Created(store, dir, name))
  {
    var t := Created(store, dir, name);
    var k := dir + [name];
    forall j | j in t
      ensures AllProper(j) && NulFree(j)
    {
      if j == k {
        assert AllProper(dir) && NulFree(dir);
        assert forall i :: 0 <= i < |dir| ==> k[i] == dir[i];
      } else {
        assert j in store;
      }
    }
  }

  lemma CreatedParents(store: Store, dir: Key, name: string)
    requires ParentsList(store) && dir in store && store[dir].Dir? && dir + [name] !in store
    ensures ParentsList(Created(store, dir, name))
  {
    var t := Created(store, dir, name);
    var k := dir + [name];
    var entries := store[dir].entries;
    assert k[..|k| - 1] == dir;
    forall j | j in t && j != []
      ensures j[..|j| - 1] in t && t[j[..|j| - 1]].Dir? && j[|j| - 1] in t[j[..|j| - 1]].entries
    {
      if j != k {
        assert j in store;
        var up := j[..|j| - 1];
        assert up in store && store[up].Dir? && j[|j| - 1] in store[up].entries;
        if up == dir {
          assert j[|j| - 1] in entries + [name];
        }
      }
    }
  }

  lemma CreatedEntries(store: Store, dir: Key, name: string)
    requires ListsValid(store) && dir in store && store[dir].Dir? && dir + [name] !in store
    ensures ListsValid(Created(store, dir, name))
  {
    var t := Created(store, dir, name);
    var entries := store[dir].entries;
    assert ValidEntries(store, dir, entries);
    forall j | j in t && t[j].Dir?
      ensures ValidEntries(t, j, t[j].entries)
    {
      if j == dir {
        NewEntryDistinct(store, dir, name);
      } else {
        assert j in store && t[j] == store[j];
        EntriesKept(store, t, j, store[j].entries);
      }
    }
  }

  /** Listed names stay present when paths are only added. */
  lemma EntriesKept(store: Store, t: Store, k: Key, entries: seq<string>)
    requires store.Keys <= t.Keys && ValidEntries(store, k, entries)
    ensures ValidEntries(t, k, entries)
  {
  }

  lemma NewEntryDistinct(store: Store, dir: Key, name: string)
    requires dir in store && store[dir].Dir? && ValidEntries(store, dir, store[dir].entries)
    requires dir + [name] !in store
    ensures ValidEntries(Created(store, dir, name), dir, store[dir].entries + [name])
  {
    var t := Created(store, dir, name);
    var entries := store[dir].entries;
    var es := entries + [name];
    forall i | 0 <= i < |es|
      ensures dir + [es[i]] in t
    {
      if i < |entries| {
        assert es[i] == entries[i];
      }
    }
    forall a, b | 0 <= a < b < |es|
      ensures es[a] != es[b]
    {
      assert es[a] == entries[a];
      if b == |entries| {
        assert dir + [entries[a]] in store;
      } else {
        assert es[b] == entries[b];
      }
    }
  }

  /** A touch keeps the tree consistent. */
  lemma TouchedValid(store: Store, cwd: Cwd, p: PurePath)
    requires Valid(store) && Touched(store, cwd, p).Some?
    ensures Valid(Touched(store, cwd, p).value)
  {
    var t := Touched(store, cwd, p).value;
    if Walk(store, [], OsComponents(cwd, Str(p))).None? {
      TouchCreates(store, cwd, p);
      CreatedIsValid(store, cwd, p, t);
    }
  }

  lemma CreatedIsValid(store: Store, cwd: Cwd, p: PurePath, t: Store)
    requires Valid(store)
    requires var comps := OsComponents(cwd, Str(p));
             var n := |comps|;
             && n > 0
             && Walk(store, [], comps[..n - 1]).Some?
             && var dir := Walk(store, [], comps[..n - 1]).value;
                && store[dir].Dir? && Proper(comps[n - 1]) && '\0' !in comps[n - 1]
                && dir + [comps[n - 1]] !in store
                && t == Created(store, dir, comps[n - 1])
    ensures Valid(t)
  {
    var comps := OsComponents(cwd, Str(p));
    var n := |comps|;
    CreatedValid(store, Walk(store, [], comps[..n - 1]).value, comps[n - 1]);
  }

  /** An overwrite keeps the tree consistent: only a file's content changes. */
  lemma OverwrittenValid(store: Store, cwd: Cwd, p: PurePath, content: string, refused: bool)
    requires Valid(store) && Overwritten(store, cwd, p, content, refused).Some?
    ensures Valid(Overwritten(store, cwd, p, content, refused).value)
  {
    var key := Lookup(store, cwd, p).value;
    OverwriteParents(store, key, content);
    OverwriteLists(store, key, content);
  }

  lemma OverwriteParents(store: Store, key: Key, content: string)
    requires ParentsList(store) && key in store && store[key].File?
    ensures ParentsList(store[key := File(content)])
  {
    var t := store[key := File(content)];
    forall j | j in t && j != []
      ensures j[..|j| - 1] in t && t[j[..|j| - 1]].Dir? && j[|j| - 1] in t[j[..|j| - 1]].entries
    {
      assert j in store;
    }
  }

  lemma OverwriteLists(store: Store, key: Key, content: string)
    requires ListsValid(store) && key in store
    ensures ListsValid(store[key := File(content)])
  {
    var t := store[key := File(content)];
    forall j | j in t && t[j].Dir?
      ensures ValidEntries(t, j, t[j].entries)
    {
      assert j in store && t[j] == store[j];
      EntriesKept(store, t, j, store[j].entries);
    }
  }

  // ---------------------------------------------------------------------------
  // What `write_file` does to the file store

  /** The guard runs first: a rejected path leaves the store untouched (no
      touch, no write) and the message quotes `file_path` as given. */
  lemma RejectedWriteChangesNothing(store: Store, cwd: Cwd, workingDir: string, filePath: string,
                                    content: string, refused: bool, errorText: string)
    requires IsFileOutsideWorkdir(cwd, workingDir, filePath)
    ensures WriteFileResult(store, cwd, workingDir, filePath, content, refused, errorText)
         == (store, Returned(CannotWrite(filePath)))
  {
  }

  /** A failing `touch` propagates and changes nothing; a failing `open`
      returns the error message, leaving at most the empty file `touch` made. */
  lemma FailedWriteEffects(store: Store, cwd: Cwd, target: PurePath, filePath: string,
                           content: string, refused: bool, errorText: string)
    ensures var (after, r) := TouchAndWriteResult(store, cwd, target, filePath, content, refused, errorText);
            && (r == Raised ==> after == store)
            && (r == Returned(CouldNotWrite(filePath, errorText)) ==>
                  || after == store
                  || (Lookup(after, cwd, target).Some? && after[Lookup(after, cwd, target).value] == File("")
                      && OnlyAt(store, after, Lookup(after, cwd, target).value)))
  {
    assert Wrote(filePath, content)[0] == 'S';
    assert CouldNotWrite(filePath, errorText)[0] == 'E';
    if Touched(store, cwd, target).Some? {
      TouchedTarget(store, cwd, target);
    }
  }

  /** A path string holding a NUL character makes `touch` raise, whether or not
      the path exists; nothing is created or written. */
  lemma NulInPathRaises(store: Store, cwd: Cwd, target: PurePath, filePath: string,
                        content: string, refused: bool, errorText: string)
    requires '\0' in Str(target)
    ensures TouchAndWriteResult(store, cwd, target, filePath, content, refused, errorText) == (store, Raised)
  {
  }

  /** A successful write leaves exactly `content` at the path the target
      resolves to; nothing else changes but the listing of its directory when
      the file is new. */
  lemma SuccessfulWrite(store: Store, cwd: Cwd, target: PurePath, filePath: string,
                        content: string, refused: bool, errorText: string)
    requires TouchAndWriteResult(store, cwd, target, filePath, content, refused, errorText).1
          == Returned(Wrote(filePath, content))
    ensures var after := TouchAndWriteResult(store, cwd, target, filePath, content, refused, errorText).0;
            Lookup(after, cwd, target).Some?
    ensures var after := TouchAndWriteResult(store, cwd, target, filePath, content, refused, errorText).0;
            var key := Lookup(after, cwd, target).value;
            after[key] == File(content) && OnlyAt(store, after, key)
  {
    assert CouldNotWrite(filePath, errorText)[0] == 'E';
    assert Wrote(filePath, content)[0] == 'S';
    TouchedTarget(store, cwd, target);
    var t := Touched(store, cwd, target).value;
    var key := Lookup(t, cwd, target).value;
    var after := t[key := File(content)];
    WalkSameShape(t, after, [], OsComponents(cwd, Str(target)));
    assert Lookup(after, cwd, target) == Some(key);
  }

  /** A write keeps the file store a consistent tree. */
  lemma WritePreservesValid(store: Store, cwd: Cwd, target: PurePath, filePath: string,
                            content: string, refused: bool, errorText: string)
    requires Valid(store)
    ensures Valid(TouchAndWriteResult(store, cwd, target, filePath, content, refused, errorText).0)
  {
    var touched := Touched(store, cwd, target);
    if touched.Some? {
      TouchedValid(store, cwd, target);
      if Overwritten(touched.value, cwd, target, content, refused).Some? {
        OverwrittenValid(touched.value, cwd, target, content, refused);
      }
    }
  }

  /** Read after write: `get_file_content` on the same `file_path` then returns
      the content just written as text mode reads it back (line ends turned
      into "\n"), cut at 10000 characters, when the joined path string has no
      "..". Content without "\r" comes back as written. */
  lemma ReadAfterWrite(store: Store, cwd: Cwd, workingDir: string, filePath: string,
                       content: string, refused: bool, errorText: string)
    requires var target := StrippedJoin(workingDir, filePath);
             TouchAndWriteResult(store, cwd, target, filePath, content, refused, errorText).1
               == Returned(Wrote(filePath, content))
    requires !Contains(Str(StrippedJoin(workingDir, filePath)), "..")
    ensures var after := TouchAndWriteResult(store, cwd, StrippedJoin(workingDir, filePath), filePath,
                                             content, refused, errorText).0;
            FileContent(after, cwd, workingDir, filePath, None) == Truncated(Universal(content), filePath)
    ensures '\r' !in content ==>
              var after := TouchAndWriteResult(store, cwd, StrippedJoin(workingDir, filePath), filePath,
                                               content, refused, errorText).0;
              FileContent(after, cwd, workingDir, filePath, None) == Truncated(content, filePath)
  {
    SuccessfulWrite(store, cwd, StrippedJoin(workingDir, filePath), filePath, content, refused, errorText);
  }

  // ---------------------------------------------------------------------------
  // Confinement

  /** Every file that is new or has new content lies at or below `root`. */
  predicate FilesChangedUnder(before: Store, after: Store, root: Key) {
    forall k :: k in after && after[k].File? && !(k in before && before[k] == after[k]) ==> IsPrefix(root, k)
  }

  /** Every file a touch-and-write creates or changes lies at or below any
      directory that its target's lexical key starts with. */
  lemma TouchAndWriteKeys(store: Store, cwd: Cwd, target: PurePath, filePath: string,
                          content: string, refused: bool, errorText: string, root: Key)
    requires WellFormed(target)
    requires IsPrefix(root, Lexical(cwd, target))
    ensures FilesChangedUnder(store, TouchAndWriteResult(store, cwd, target, filePath, content, refused, errorText).0, root)
  {
    var (after, r) := TouchAndWriteResult(store, cwd, target, filePath, content, refused, errorText);
    FailedWriteEffects(store, cwd, target, filePath, content, refused, errorText);
    if after != store {
      if r == Returned(Wrote(filePath, content)) {
        SuccessfulWrite(store, cwd, target, filePath, content, refused, errorText);
      } else {
        assert r == Returned(CouldNotWrite(filePath, errorText));
      }
      LookupIsLexical(after, cwd, target);
      var key := Lookup(after, cwd, target).value;
      forall k | k in after && after[k].File? && !(k in store && store[k] == after[k])
        ensures IsPrefix(root, k)
      {
        assert k == key;
      }
    }
  }

  /** With a relative `file_path`, the guard and the write agree: every file the
      write creates or changes lies at or below the working directory. */
  lemma RelativeWriteConfined(store: Store, cwd: Cwd, workingDir: string, filePath: string,
                              content: string, refused: bool, errorText: string)
    requires !IsAbs(filePath)
    ensures var after := WriteFileResult(store, cwd, workingDir, filePath, content, refused, errorText).0;
            FilesChangedUnder(store, after, AbsNormal(cwd, workingDir).segs)
  {
    if !IsFileOutsideWorkdir(cwd, workingDir, filePath) {
      var rs := AbsNormal(cwd, workingDir).segs;
      GuardSound(cwd, workingDir, filePath);
      AbsNormalOfRelativeJoin(cwd, workingDir, filePath);
      LexicalOfStrippedJoin(cwd, workingDir, filePath);
      TouchAndWriteKeys(store, cwd, StrippedJoin(workingDir, filePath), filePath, content, refused, errorText, rs);
    }
  }

  /** The corrected tool is confined for every `file_path`, absolute or not. */
  lemma StrippedWriteConfined(store: Store, cwd: Cwd, workingDir: string, filePath: string,
                              content: string, refused: bool, errorText: string)
    ensures var after := WriteFileStrippedResult(store, cwd, workingDir, filePath, content, refused, errorText).0;
            FilesChangedUnder(store, after, AbsNormal(cwd, workingDir).segs)
  {
    var s := Strip(filePath, '/');
    if !IsFileOutsideWorkdir(cwd, workingDir, s) {
      var rs := AbsNormal(cwd, workingDir).segs;
      GuardSound(cwd, workingDir, s);
      AbsNormalOfRelativeJoin(cwd, workingDir, s);
      LexicalOfStrippedJoin(cwd, workingDir, filePath);
      CleanSplitStrip(filePath);
      FoldClean(rs, Split(s, '/'));
      FoldClean(rs, Split(filePath, '/'));
      TouchAndWriteKeys(store, cwd, StrippedJoin(workingDir, filePath), filePath, content, refused, errorText, rs);
    }
  }

  /** "/<name>" is refused as outside (unless the root is "/<name>" itself),
      although the path it would write, after stripping, is "<root>/<name>". */
  lemma AbsoluteNameRefused(store: Store, cwd: Cwd, workingDir: string, name: string,
                            content: string, refused: bool, errorText: string)
    requires Proper(name) && AbsNormal(cwd, workingDir) != Normal(false, [name])
    ensures WriteFileResult(store, cwd, workingDir, "/" + name, content, refused, errorText)
         == (store, Returned(CannotWrite("/" + name)))
    ensures Lexical(cwd, StrippedJoin(workingDir, "/" + name)) == AbsNormal(cwd, workingDir).segs + [name]
  {
    AbsoluteNameRejected(cwd, workingDir, name);
    assert StrippedJoin(workingDir, "/" + name) == StrippedJoin(workingDir, "/" + name);
    AbsoluteNameReadBelowRoot(cwd, workingDir, name);
  }

  // ---------------------------------------------------------------------------
  // An absolute `file_path` escapes the guard

  /** A directory tree with "/<a>/<b>" (the working directory) beside "/<a>/<a>/<b>". */
  function EscapeStore(a: string, b: string): Store {
    map[[] := Dir([a]), [a] := Dir([b, a]), [a, b] := Dir([]), [a, a] := Dir([b]), [a, a, b] := Dir([])]
  }

  lemma SplitRooted(parts: seq<string>)
    requires |parts| > 0
    requires forall i :: 0 <= i < |parts| ==> '/' !in parts[i]
    ensures Split("/" + Join(parts, '/'), '/') == [""] + parts
  {
    var j := Join(parts, '/');
    assert "/" + j == "" + ['/'] + j;
    SplitConcat("", j, '/');
    SplitJoin(parts, '/');
  }

  /** The working directory "/<a>/<b>" normalises to the components [a, b]. */
  lemma EscapeRoot(cwd: Cwd, a: string, b: string)
    requires Proper(a) && Proper(b)
    ensures AbsNormal(cwd, "/" + Join([a, b], '/')) == Normal(false, [a, b])
  {
    var wd := "/" + Join([a, b], '/');
    SplitRooted([a, b]);
    assert Join([a, b], '/') == a + ['/'] + b;
    assert a[0] in a;
    assert wd[1] == a[0];
    assert ["", a, b][1..] == [a, b];
    assert [a, b][1..] == [b];
    assert [b][1..] == [];
    assert Fold([], ["", a, b]) == Fold([], [a, b]);
    assert Step([], a) == [a];
    assert Fold([], [a, b]) == Fold([a], [b]);
    assert Step([a], b) == [a, b];
    assert Fold([a], [b]) == Fold([a, b], []);
  }

  /** The candidate "/../<a>/<b>/<x>" normalises to [a, b, x]: ".." stops at "/". */
  lemma EscapeFull(a: string, b: string, x: string)
    requires Proper(a) && Proper(b) && Proper(x)
    ensures Split("/" + Join(["..", a, b, x], '/'), '/') == ["", "..", a, b, x]
    ensures Normalize("/" + Join(["..", a, b, x], '/')) == Normal(false, [a, b, x])
  {
    var fp := "/" + Join(["..", a, b, x], '/');
    SplitRooted(["..", a, b, x]);
    assert Join(["..", a, b, x], '/') == ".." + ['/'] + Join([a, b, x], '/');
    assert fp[1] == '.';
    assert ["", "..", a, b, x][1..] == ["..", a, b, x];
    assert ["..", a, b, x][1..] == [a, b, x];
    assert [a, b, x][1..] == [b, x];
    assert [b, x][1..] == [x];
    assert [x][1..] == [];
    assert Fold([], ["", "..", a, b, x]) == Fold([], ["..", a, b, x]);
    assert Fold([], ["..", a, b, x]) == Fold([], [a, b, x]);
    assert Step([], a) == [a];
    assert Fold([], [a, b, x]) == Fold([a], [b, x]);
    assert Step([a], b) == [a, b];
    assert Fold([a], [b, x]) == Fold([a, b], [x]);
    assert Step([a, b], x) == [a, b, x];
    assert Fold([a, b], [x]) == Fold([a, b, x], []);
  }

  /** Against the root [a, b], the same components climb one level first. */
  lemma EscapeTarget(a: string, b: string, x: string)
    requires Proper(a) && Proper(b) && Proper(x)
    ensures Fold([a, b], ["", "..", a, b, x]) == [a, a, b, x]
  {
    assert ["", "..", a, b, x][1..] == ["..", a, b, x];
    assert ["..", a, b, x][1..] == [a, b, x];
    assert [a, b, x][1..] == [b, x];
    assert [b, x][1..] == [x];
    assert [x][1..] == [];
    assert Fold([a, b], ["", "..", a, b, x]) == Fold([a, b], ["..", a, b, x]);
    assert [a, b][..1] == [a];
    assert Step([a, b], "..") == [a];
    assert Fold([a, b], ["..", a, b, x]) == Fold([a], [a, b, x]);
    assert Step([a], a) == [a, a];
    assert Fold([a], [a, b, x]) == Fold([a, a], [b, x]);
    assert Step([a, a], b) == [a, a, b];
    assert Fold([a, a], [b, x]) == Fold([a, a, b], [x]);
    assert Step([a, a, b], x) == [a, a, b, x];
    assert Fold([a, a, b], [x]) == Fold([a, a, b, x], []);
  }

  /** The path string the write opens, resolved by the system in `EscapeStore`:
      the directory "/<a>/<a>/<b>" exists and the file "<x>" in it does not. */
  lemma EscapeWalk(a: string, b: string, x: string)
    requires Proper(a) && Proper(b) && Proper(x) && a != b
    ensures var comps := ["", a, b, "..", a, b, x];
            && Walk(EscapeStore(a, b), [], comps) == None
            && Walk(EscapeStore(a, b), [], comps[..6]) == Some([a, a, b])
  {
    EscapeWalkMisses(a, b, x);
    EscapeWalkParent(a, b, x);
  }

  /** The escaping name itself does not resolve yet. */
  lemma EscapeWalkMisses(a: string, b: string, x: string)
    requires Proper(a) && Proper(b) && Proper(x) && a != b
    ensures Walk(EscapeStore(a, b), [], ["", a, b, "..", a, b, x]) == None
  {
    var s := EscapeStore(a, b);
    var comps := ["", a, b, "..", a, b, x];
    EscapeWalkMissesBelow(a, b, x);
    assert [a, b, "..", a, b, x][1..] == [b, "..", a, b, x];
    assert Walk(s, [], [a, b, "..", a, b, x]) == None;
    assert comps[1..] == [a, b, "..", a, b, x];
  }

  /** ... already from "<a>", one step below the root. */
  lemma EscapeWalkMissesBelow(a: string, b: string, x: string)
    requires Proper(a) && Proper(b) && Proper(x) && a != b
    ensures Walk(EscapeStore(a, b), [a], [b, "..", a, b, x]) == None
  {
    var s := EscapeStore(a, b);
    assert [a, a, b, x] !in s;
    assert [x][1..] == [];
    assert Walk(s, [a, a, b], [x]) == None;
    assert [b, x][1..] == [x];
    assert Walk(s, [a, a], [b, x]) == None;
    assert [a, b, x][1..] == [b, x];
    assert Walk(s, [a], [a, b, x]) == None;
    assert ["..", a, b, x][1..] == [a, b, x];
    assert [a, b][..1] == [a];
    assert Walk(s, [a, b], ["..", a, b, x]) == None;
    assert [b, "..", a, b, x][1..] == ["..", a, b, x];
    assert Walk(s, [a], [b, "..", a, b, x]) == None;
  }

  /** Its parent resolves to "<a>/<a>/<b>", a directory. */
  lemma EscapeWalkParent(a: string, b: string, x: string)
    requires Proper(a) && Proper(b) && a != b
    ensures Walk(EscapeStore(a, b), [], ["", a, b, "..", a, b, x][..6]) == Some([a, a, b])
  {
    var s := EscapeStore(a, b);
    var pre := ["", a, b, "..", a, b, x][..6];
    assert pre == ["", a, b, "..", a, b];
    assert Walk(s, [a, a, b], []) == Some([a, a, b]);
    assert [b][1..] == [];
    assert [a, a] in s && s[[a, a]].Dir? && Step([a, a], b) == [a, a, b];
    assert Walk(s, [a, a], [b]) == Some([a, a, b]);
    assert [a, b][1..] == [b];
    assert [a] in s && s[[a]].Dir? && Step([a], a) == [a, a];
    assert Walk(s, [a], [a, b]) == Some([a, a, b]);
    assert ["..", a, b][1..] == [a, b];
    assert [a, b] in s && s[[a, b]].Dir? && Step([a, b], "..") == [a];
    assert Walk(s, [a, b], ["..", a, b]) == Some([a, a, b]);
    assert [b, "..", a, b][1..] == ["..", a, b];
    assert Step([a], b) == [a, b];
    assert Walk(s, [a], [b, "..", a, b]) == Some([a, a, b]);
    assert [a, b, "..", a, b][1..] == [b, "..", a, b];
    assert [] in s && s[[]].Dir? && Step([], a) == [a];
    assert Walk(s, [], [a, b, "..", a, b]) == Some([a, a, b]);
    assert pre[1..] == [a, b, "..", a, b];
  }

  lemma EscapeGuardPasses(cwd: Cwd, a: string, b: string, x: string)
    requires Proper(a) && Proper(b) && Proper(x)
    ensures !IsFileOutsideWorkdir(cwd, "/" + Join([a, b], '/'), "/" + Join(["..", a, b, x], '/'))
  {
    var wd := "/" + Join([a, b], '/');
    var fp := "/" + Join(["..", a, b, x], '/');
    EscapeRoot(cwd, a, b);
    EscapeFull(a, b, x);
    AbsoluteCandidate(cwd, wd, fp);
    assert [a, b, x][..2] == [a, b];
  }

  lemma EscapeParseRoot(cwd: Cwd, a: string, b: string)
    requires Proper(a) && Proper(b)
    ensures Parse("/" + Join([a, b], '/')) == PurePath("/", [a, b])
  {
    EscapeRoot(cwd, a, b);
    SplitRooted([a, b]);
    assert ["", a, b][1..] == [a, b];
    assert AllProper([a, b]);
    CleanProper([a, b]);
    assert Clean(["", a, b]) == [a, b];
  }

  lemma EscapeCleanCandidate(a: string, b: string, x: string)
    requires Proper(a) && Proper(b) && Proper(x)
    ensures Clean(Split("/" + Join(["..", a, b, x], '/'), '/')) == ["..", a, b, x]
  {
    EscapeFull(a, b, x);
    assert ["", "..", a, b, x][1..] == ["..", a, b, x];
    assert ["..", a, b, x][1..] == [a, b, x];
    assert AllProper([a, b, x]);
    CleanProper([a, b, x]);
  }

  /** The stripped join keeps the ".." part... */
  lemma EscapeJoin(cwd: Cwd, a: string, b: string, x: string)
    requires Proper(a) && Proper(b) && Proper(x)
    ensures StrippedJoin("/" + Join([a, b], '/'), "/" + Join(["..", a, b, x], '/'))
         == PurePath("/", [a, b, "..", a, b, x])
  {
    var wd := "/" + Join([a, b], '/');
    var fp := "/" + Join(["..", a, b, x], '/');
    StrippedJoinAppends(wd, fp);
    EscapeParseRoot(cwd, a, b);
    EscapeCleanCandidate(a, b, x);
    assert [a, b] + ["..", a, b, x] == [a, b, "..", a, b, x];
  }

  /** ... and the system resolves its string component by component. */
  lemma EscapeComponents(cwd: Cwd, a: string, b: string, x: string)
    requires Proper(a) && Proper(b) && Proper(x)
    ensures var target := StrippedJoin("/" + Join([a, b], '/'), "/" + Join(["..", a, b, x], '/'));
            OsComponents(cwd, Str(target)) == ["", a, b, "..", a, b, x]
  {
    var parts := [a, b, "..", a, b, x];
    var target := StrippedJoin("/" + Join([a, b], '/'), "/" + Join(["..", a, b, x], '/'));
    EscapeJoin(cwd, a, b, x);
    var s := "/" + Join(parts, '/');
    assert Str(target) == s;
    assert IsAbs(s);
    assert OsComponents(cwd, s) == Split(s, '/');
    assert forall i :: 0 <= i < |parts| ==> '/' !in parts[i];
    SplitRooted(parts);
    ConsSix("", a, b, "..", a, b, x);
  }

  lemma ConsSix<T>(h: T, t0: T, t1: T, t2: T, t3: T, t4: T, t5: T)
    ensures [h] + [t0, t1, t2, t3, t4, t5] == [h, t0, t1, t2, t3, t4, t5]
  {
  }

  /** Names without NUL make a path string without NUL, so `touch` does not raise. */
  lemma EscapeNoNul(cwd: Cwd, a: string, b: string, x: string)
    requires Proper(a) && Proper(b) && Proper(x) && NulFree([a, b, x])
    ensures '\0' !in Str(StrippedJoin("/" + Join([a, b], '/'), "/" + Join(["..", a, b, x], '/')))
  {
    var parts := [a, b, "..", a, b, x];
    EscapeJoin(cwd, a, b, x);
    var names := [a, b, x];
    assert names[0] == a && names[1] == b && names[2] == x;
    assert forall i :: 0 <= i < |parts| ==> '\0' !in parts[i];
    JoinAvoids(parts, '/', '\0');
  }

  /** As written, the guard passes the absolute candidate "/../<a>/<b>/<x>" with
      working directory "/<a>/<b>" (`abspath` stops ".." at "/"), but the write
      goes to the stripped path "<a>/<b>/../<a>/<b>/<x>" under the working
      directory, i.e. to "/<a>/<a>/<b>/<x>", which is outside it. */
  lemma AbsolutePathWriteEscapes(cwd: Cwd, a: string, b: string, x: string, content: string, errorText: string)
    requires Proper(a) && Proper(b) && Proper(x) && NulFree([a, b, x]) && a != b
    ensures var wd := "/" + Join([a, b], '/');
            var fp := "/" + Join(["..", a, b, x], '/');
            var result := WriteFileResult(EscapeStore(a, b), cwd, wd, fp, content, false, errorText);
            && !IsFileOutsideWorkdir(cwd, wd, fp)
            && result.1 == Returned(Wrote(fp, content))
            && [a, a, b, x] !in EscapeStore(a, b)
            && [a, a, b, x] in result.0 && result.0[[a, a, b, x]] == File(content)
            && !IsPrefix(AbsNormal(cwd, wd).segs, [a, a, b, x])
  {
    var store := EscapeStore(a, b);
    var wd := "/" + Join([a, b], '/');
    var fp := "/" + Join(["..", a, b, x], '/');
    EscapeGuardPasses(cwd, a, b, x);
    assert WriteFileResult(store, cwd, wd, fp, content, false, errorText)
        == TouchAndWriteResult(store, cwd, StrippedJoin(wd, fp), fp, content, false, errorText);
    EscapeTouchAndWrite(cwd, a, b, x, content, errorText);
    EscapeRoot(cwd, a, b);
  }

  /** The target the escaping call resolves to, lexically. */
  lemma EscapeLexical(cwd: Cwd, a: string, b: string, x: string)
    requires Proper(a) && Proper(b) && Proper(x)
    ensures Lexical(cwd, StrippedJoin("/" + Join([a, b], '/'), "/" + Join(["..", a, b, x], '/'))) == [a, a, b, x]
  {
    var wd := "/" + Join([a, b], '/');
    var fp := "/" + Join(["..", a, b, x], '/');
    LexicalOfStrippedJoin(cwd, wd, fp);
    EscapeRoot(cwd, a, b);
    EscapeFull(a, b, x);
    EscapeTarget(a, b, x);
  }

  /** Touching and writing the escaping target creates "<a>/<a>/<b>/<x>". */
  lemma EscapeTouchAndWrite(cwd: Cwd, a: string, b: string, x: string, content: string, errorText: string)
    requires Proper(a) && Proper(b) && Proper(x) && NulFree([a, b, x]) && a != b
    ensures var fp := "/" + Join(["..", a, b, x], '/');
            var target := StrippedJoin("/" + Join([a, b], '/'), fp);
            var result := TouchAndWriteResult(EscapeStore(a, b), cwd, target, fp, content, false, errorText);
            && result.1 == Returned(Wrote(fp, content))
            && [a, a, b, x] !in EscapeStore(a, b)
            && [a, a, b, x] in result.0 && result.0[[a, a, b, x]] == File(content)
  {
    var store := EscapeStore(a, b);
    var fp := "/" + Join(["..", a, b, x], '/');
    var target := StrippedJoin("/" + Join([a, b], '/'), fp);
    EscapeComponents(cwd, a, b, x);
    EscapeNoNul(cwd, a, b, x);
    EscapeWalk(a, b, x);
    var dir := [a, a, b];
    assert Touched(store, cwd, target) == Some(Created(store, dir, x));
    assert dir + [x] == [a, a, b, x];
    TouchedTarget(store, cwd, target);
    SuccessfulWrite(store, cwd, target, fp, content, false, errorText);
    var after := TouchAndWriteResult(store, cwd, target, fp, content, false, errorText).0;
    LookupIsLexical(after, cwd, target);
    EscapeLexical(cwd, a, b, x);
  }

  /** The corrected guard, applied to the stripped candidate
      "../<a>/<b>/<x>", refuses the same call and leaves the tree unchanged. */
  lemma StrippedGuardRefusesEscape(cwd: Cwd, a: string, b: string, x: string, content: string, errorText: string)
    requires Proper(a) && Proper(b) && Proper(x) && a != b
    ensures var wd := "/" + Join([a, b], '/');
            var fp := "/" + Join(["..", a, b, x], '/');
            WriteFileStrippedResult(EscapeStore(a, b), cwd, wd, fp, content, false, errorText)
              == (EscapeStore(a, b), Returned(CannotWrite(fp)))
  {
    EscapeStrippedOutside(cwd, a, b, x);
  }

  /** The stripped candidate climbs out of the working directory, and the guard sees it. */
  lemma EscapeStrippedOutside(cwd: Cwd, a: string, b: string, x: string)
    requires Proper(a) && Proper(b) && Proper(x) && a != b
    ensures IsFileOutsideWorkdir(cwd, "/" + Join([a, b], '/'), Strip("/" + Join(["..", a, b, x], '/'), '/'))
  {
    var wd := "/" + Join([a, b], '/');
    var fp := "/" + Join(["..", a, b, x], '/');
    var s := Strip(fp, '/');
    EscapeRoot(cwd, a, b);
    EscapeFull(a, b, x);
    EscapeTarget(a, b, x);
    CleanSplitStrip(fp);
    FoldClean([a, b], Split(s, '/'));
    FoldClean([a, b], Split(fp, '/'));
    if !IsFileOutsideWorkdir(cwd, wd, s) {
      GuardSound(cwd, wd, s);
      AbsNormalOfRelativeJoin(cwd, wd, s);
    }
  }
}
