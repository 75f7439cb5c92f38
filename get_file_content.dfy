/** `get_file_content`: the text of a file inside the working directory,
    cut at `MAX_CONTENT_LENGTH` characters. */
module GetFileContent {
  import opened Text
  import opened PosixPath
  import opened PurePaths
  import opened FileStore

  const MaxContentLength: nat := 10000

  function CannotRead(filePath: string): string {
    "Error: Cannot read \"" + filePath + "\" as it is outside the permitted working directory"
  }

  function NotAFile(filePath: string): string {
    "Error: File not found or is not a regular file: \"" + filePath + "\""
  }

  function CouldNotRead(filePath: string, error: string): string {
    "Error: Could not read file \"" + filePath + "\": " + error
  }

  function TruncationNote(filePath: string): string {
    "...File \"" + filePath + "\" truncated at " + NatToString(MaxContentLength) + " characters"
  }

  /** The content returned for a file: unchanged up to the limit, else its
      first `MaxContentLength` characters followed by the note. */
  function Truncated(content: string, filePath: string): (r: string)
    ensures |r| <= MaxContentLength + |TruncationNote(filePath)|
    ensures StartsWith(r, content[..if |content| > MaxContentLength then MaxContentLength else |content|])
  {
    if |content| > MaxContentLength then content[..MaxContentLength] + TruncationNote(filePath)
    else content
  }

  /** What `read()` in text mode returns for a file holding `s`: universal
      newlines turn "\r\n" and a lone "\r" into "\n". */
  function Universal(s: string): (r: string)
    ensures '\r' !in r
    ensures |r| <= |s|
    ensures '\r' !in s ==> r == s
    decreases |s|
  {
    if |s| == 0 then ""
    else if s[0] == '\r' then "\n" + Universal(if |s| > 1 && s[1] == '\n' then s[2..] else s[1..])
    else [s[0]] + Universal(s[1..])
  }

  /** Reading twice changes nothing more. */
  lemma UniversalIdempotent(s: string)
    ensures Universal(Universal(s)) == Universal(s)
  {
  }

  /** A "\r\n" anywhere reads as one "\n", with the text on either side read
      on its own. */
  lemma {:induction false} UniversalCrLf(a: string, b: string)
    ensures Universal(a + ("\r\n" + b)) == Universal(a) + ("\n" + Universal(b))
    decreases |a|
  {
    var t := "\r\n" + b;
    var n := "\n" + Universal(b);
    if |a| == 0 {
      assert a + t == ['\r'] + (['\n'] + b);
      UniversalReturn(['\n'] + b);
      assert (['\n'] + b)[1..] == b;
    } else {
      var rest := a[1..];
      assert a == [a[0]] + rest;
      ConsAppend(a[0], rest, t);
      if a[0] != '\r' {
        UniversalCrLf(rest, b);
        UniversalOther(a[0], rest + t);
        UniversalOther(a[0], rest);
        ConsAppend(a[0], Universal(rest), n);
      } else if |rest| > 0 && rest[0] == '\n' {
        UniversalCrLf(rest[1..], b);
        DropAppend(rest, t);
        UniversalReturn(rest + t);
        UniversalReturn(rest);
        ConcatAssoc("\n", Universal(rest[1..]), n);
      } else {
        UniversalCrLf(rest, b);
        if |rest| == 0 {
          assert rest + t == t;
        } else {
          DropAppend(rest, t);
        }
        UniversalReturn(rest + t);
        UniversalReturn(rest);
        ConcatAssoc("\n", Universal(rest), n);
      }
    }
  }

  lemma UniversalOther(c: char, t: string)
    requires c != '\r'
    ensures Universal([c] + t) == [c] + Universal(t)
  {
    assert ([c] + t)[1..] == t;
  }

  lemma UniversalReturn(t: string)
    ensures Universal(['\r'] + t) == "\n" + Universal(if |t| > 0 && t[0] == '\n' then t[1..] else t)
  {
    var s := ['\r'] + t;
    assert s[1..] == t;
    assert |t| > 0 ==> s[1] == t[0] && s[2..] == t[1..];
  }

  /** The target exists, its path string has no "..", and it is a regular file. */
  predicate ReadReached(store: Store, cwd: Cwd, workingDir: string, filePath: string) {
    var target := StrippedJoin(workingDir, filePath);
    Exists(store, cwd, target) && !Contains(Str(target), "..") && IsFileAt(store, cwd, target)
  }

  /** What `get_file_content(working_directory, file_path)` returns. `readError`
      is the text of the exception `open` or `read` raises, if any (permissions,
      undecodable bytes). Reading leaves the file store as it was. */
  function FileContent(store: Store, cwd: Cwd, workingDir: string, filePath: string,
                       readError: Option<string>): (r: string)
    ensures !ReadReached(store, cwd, workingDir, filePath) ==> r == CannotRead(filePath) || r == NotAFile(filePath)
    ensures ReadReached(store, cwd, workingDir, filePath) && readError.None? ==>
              |r| <= MaxContentLength + |TruncationNote(filePath)|
  {
    var target := StrippedJoin(workingDir, filePath);
    if !(Exists(store, cwd, target) && !Contains(Str(target), "..")) then CannotRead(filePath)
    else if !IsFileAt(store, cwd, target) then NotAFile(filePath)
    else if readError.Some? then CouldNotRead(filePath, readError.value)
    else Truncated(Universal(store[Lookup(store, cwd, target).value].content), filePath)
  }

  // ---------------------------------------------------------------------------

  /** The checks come in this order: a target that does not exist, or whose
      path string contains "..", is reported as outside, even when it is merely
      missing; an existing one that is not a regular file (a directory) gets
      the not-found message. Both quote `file_path` as given. */
  lemma ReadCheckOrder(store: Store, cwd: Cwd, workingDir: string, filePath: string,
                       readError: Option<string>)
    ensures var target := StrippedJoin(workingDir, filePath);
            var r := FileContent(store, cwd, workingDir, filePath, readError);
            && (!Exists(store, cwd, target) ==> r == CannotRead(filePath))
            && (Contains(Str(target), "..") ==> r == CannotRead(filePath))
            && var reachable := Exists(store, cwd, target) && !Contains(Str(target), "..");
               (reachable && !IsFileAt(store, cwd, target) ==> r == NotAFile(filePath))
  {
  }

  /** Leading (and trailing) slashes are stripped before the join, so "/x"
      names the same path as "x": the file "x" under the working directory. */
  lemma LeadingSlashIgnored(workingDir: string, filePath: string)
    ensures StrippedJoin(workingDir, "/" + filePath) == StrippedJoin(workingDir, filePath)
  {
    assert ("/" + filePath)[1..] == filePath;
    assert TrimStart("/" + filePath, '/') == TrimStart(filePath, '/');
  }

  /** Whatever `file_path` is, the target is the working directory with the
      pieces of `file_path` applied on top: an absolute `file_path` cannot
      replace the working directory. */
  lemma ReadTargetBelowRoot(cwd: Cwd, workingDir: string, filePath: string)
    ensures Lexical(cwd, StrippedJoin(workingDir, filePath))
         == Fold(AbsNormal(cwd, workingDir).segs, Split(filePath, '/'))
  {
    LexicalOfStrippedJoin(cwd, workingDir, filePath);
  }

  /** "/<name>" is read as "<working directory>/<name>". */
  lemma AbsoluteNameReadBelowRoot(cwd: Cwd, workingDir: string, name: string)
    requires Proper(name)
    ensures Lexical(cwd, StrippedJoin(workingDir, "/" + name)) == AbsNormal(cwd, workingDir).segs + [name]
  {
    var rs := AbsNormal(cwd, workingDir).segs;
    ReadTargetBelowRoot(cwd, workingDir, "/" + name);
    assert "/" + name == "" + ['/'] + name;
    SplitConcat("", name, '/');
    SplitWithoutSep(name, '/');
    assert ["", name][1..] == [name];
    assert Fold(rs, ["", name]) == Fold(rs, [name]);
    assert [name][1..] == [];
    assert Fold(rs, [name]) == Fold(rs + [name], []);
  }

  lemma MaxContentLengthText()
    ensures NatToString(MaxContentLength) == "10000"
  {
  }

  /** Content of at most 10000 characters comes back unchanged; longer
      content comes back as exactly its first 10000 characters followed by
      `...File "<file_path>" truncated at 10000 characters`. */
  lemma TruncationExact(content: string, filePath: string)
    ensures var r := Truncated(content, filePath);
            var note := "...File \"" + filePath + "\" truncated at 10000 characters";
            && (|content| <= 10000 ==> r == content)
            && (|content| > 10000 ==>
                  && |r| == 10000 + |note|
                  && r[..10000] == content[..10000]
                  && r[10000..] == note)
  {
    MaxContentLengthText();
    if |content| > MaxContentLength {
      var head := content[..MaxContentLength];
      var note := TruncationNote(filePath);
      assert note == "...File \"" + filePath + "\" truncated at 10000 characters";
      assert Truncated(content, filePath) == head + note;
      assert (head + note)[|head|..] == note;
      assert (head + note)[..|head|] == head;
    }
  }

  /** A successful read returns the (translated, truncated) content of a regular file at or
      below the working directory: the ".." test keeps the stripped path from
      climbing, and stripping keeps it from being absolute. */
  lemma ReadConfined(store: Store, cwd: Cwd, workingDir: string, filePath: string,
                     readError: Option<string>)
    requires ReadReached(store, cwd, workingDir, filePath)
    ensures var key := Lookup(store, cwd, StrippedJoin(workingDir, filePath)).value;
            && IsPrefix(AbsNormal(cwd, workingDir).segs, key)
            && store[key].File?
            && FileContent(store, cwd, workingDir, filePath, readError)
                 == (if readError.Some? then CouldNotRead(filePath, readError.value)
                     else Truncated(Universal(store[key].content), filePath))
  {
    NoParentStaysBelow(store, cwd, workingDir, filePath);
  }
}
