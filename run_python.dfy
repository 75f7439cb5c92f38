/** `run_python_file`: run a Python script inside the working directory and
    report what it printed. The process itself is an input: what it wrote to
    standard output and standard error (already decoded) and its exit code, or
    the text of the exception starting or waiting for it raised. */
module RunPython {
  import opened Text
  import opened PosixPath
  import opened PurePaths
  import opened FileStore
  import opened FilePathUtils

  datatype Run = Completed(stdout: string, stderr: string, code: int) | Failed(message: string)

  /** The script path: `file_path` joined to the working directory as given,
      so an absolute `file_path` replaces it. */
  function RunTarget(workingDir: string, filePath: string): (p: PurePath)
    ensures WellFormed(p)
  {
    JoinPath(Parse(workingDir), filePath)
  }

  function NotFound(filePath: string): string {
    "Error: File \"" + filePath + "\" not found."
  }

  function CannotExecute(filePath: string): string {
    "Error: Cannot execute \"" + filePath + "\" as it is outside the permitted working directory"
  }

  function NotPython(filePath: string): string {
    "Error: \"" + filePath + "\" is not a Python file."
  }

  function ExecutionError(message: string): string {
    "Error: executing Python file: " + message
  }

  /** The checks made before running, in order: the script exists, it is
      inside the working directory, its suffix is ".py". `None` when all pass. */
  function Preflight(store: Store, cwd: Cwd, workingDir: string, filePath: string): (r: Option<string>)
    ensures r.Some? ==> StartsWith(r.value, "Error: ")
  {
    RefusalsAreErrors(filePath);
    var target := RunTarget(workingDir, filePath);
    if !Exists(store, cwd, target) then Some(NotFound(filePath))
    else if IsFileOutsideWorkdir(cwd, workingDir, filePath) then Some(CannotExecute(filePath))
    else if Suffix(target) != ".py" then Some(NotPython(filePath))
    else None
  }

  /** Every refusal is reported as an error text. */
  lemma RefusalsAreErrors(filePath: string)
    ensures StartsWith(NotFound(filePath), "Error: ")
    ensures StartsWith(CannotExecute(filePath), "Error: ")
    ensures StartsWith(NotPython(filePath), "Error: ")
  {
    var lead := "Error: ";
    assert StartsWith("Error: File \"", lead);
    StartsWithExtend("Error: File \"", filePath, lead);
    StartsWithExtend("Error: File \"" + filePath, "\" not found.", lead);
    assert StartsWith("Error: Cannot execute \"", lead);
    StartsWithExtend("Error: Cannot execute \"", filePath, lead);
    StartsWithExtend("Error: Cannot execute \"" + filePath,
                     "\" as it is outside the permitted working directory", lead);
    assert StartsWith("Error: \"", lead);
    StartsWithExtend("Error: \"", filePath, lead);
    StartsWithExtend("Error: \"" + filePath, "\" is not a Python file.", lead);
  }

  /** A stream behind its label, or nothing when the stream is empty. */
  function Labelled(tag: string, stream: string): string {
    if stream != "" then tag + stream else ""
  }

  /** The output part of the report: the non-empty streams, each behind its
      label, or a fixed text when there are none. */
  function Report(out: string, err: string): (r: string)
    ensures r != ""
  {
    if out != "" || err != "" then Labelled("STDOUT: ", out) + Labelled("STDERR: ", err)
    else "No output produced"
  }

  /** The note added for a non-zero exit code. */
  function ExitNote(code: int): (r: string)
    ensures r == "" <==> code == 0
  {
    if code != 0 then "Process exited with code " + IntToString(code) + " " else ""
  }

  /** What `run_python_file(working_directory, file_path)` returns as written:
      with `check=True` a non-zero exit raises `CalledProcessError`, whose text
      is `checkError`. */
  function RunPythonResult(store: Store, cwd: Cwd, workingDir: string, filePath: string,
                           run: Run, checkError: string): string
  {
    match Preflight(store, cwd, workingDir, filePath)
    case Some(error) => error
    case None =>
      match run
      case Failed(message) => ExecutionError(message)
      case Completed(out, err, code) =>
        if code != 0 then ExecutionError(checkError) else Report(out, err) + ExitNote(code)
  }

  /** The corrected tool: without `check=True` a non-zero exit is reported
      with the script's output and the exit code. */
  function RunPythonUncheckedResult(store: Store, cwd: Cwd, workingDir: string, filePath: string,
                                    run: Run): string
  {
    match Preflight(store, cwd, workingDir, filePath)
    case Some(error) => error
    case None =>
      match run
      case Failed(message) => ExecutionError(message)
      case Completed(out, err, code) => Report(out, err) + ExitNote(code)
  }

  /** The result text, built up piece by piece. */
  method FormatResults(out: string, err: string, code: int) returns (r: string)
    ensures r == Report(out, err) + ExitNote(code)
  {
    r := "";
    if err != "" || out != "" {
      if out != "" {
        r := r + Labelled("STDOUT: ", out);
        assert r == Labelled("STDOUT: ", out);
      }
      ghost var o := r;
      assert o == Labelled("STDOUT: ", out);
      if err != "" {
        r := r + Labelled("STDERR: ", err);
      } else {
        assert r == o + Labelled("STDERR: ", err);
      }
      assert r == Report(out, err);
    } else {
      r := "No output produced";
    }
    ghost var report := r;
    if code != 0 {
      r := r + ExitNote(code);
    } else {
      assert r == report + ExitNote(code);
    }
  }

  method RunPythonFile(store: Store, cwd: Cwd, workingDir: string, filePath: string,
                       run: Run, checkError: string) returns (r: string)
    ensures r == RunPythonResult(store, cwd, workingDir, filePath, run, checkError)
  {
    var checked := Preflight(store, cwd, workingDir, filePath);
    if checked.Some? {
      return checked.value;
    }
    if run.Failed? {
      return ExecutionError(run.message);
    }
    if run.code != 0 {
      return ExecutionError(checkError);
    }
    r := FormatResults(run.stdout, run.stderr, run.code);
  }

  method RunPythonFileUnchecked(store: Store, cwd: Cwd, workingDir: string, filePath: string,
                                run: Run) returns (r: string)
    ensures r == RunPythonUncheckedResult(store, cwd, workingDir, filePath, run)
  {
    var checked := Preflight(store, cwd, workingDir, filePath);
    if checked.Some? {
      return checked.value;
    }
    if run.Failed? {
      return ExecutionError(run.message);
    }
    r := FormatResults(run.stdout, run.stderr, run.code);
  }

  // ---------------------------------------------------------------------------

  /** Existence is checked first (on the unstripped join), so a missing script
      is "not found" even when it would be outside or not a ".py" file; then
      confinement comes before the suffix. A script is run only when all three
      pass, and then its name ends in ".py" after at least one character. */
  lemma RunCheckOrder(store: Store, cwd: Cwd, workingDir: string, filePath: string)
    ensures var target := RunTarget(workingDir, filePath);
            var pre := Preflight(store, cwd, workingDir, filePath);
            && (!Exists(store, cwd, target) ==> pre == Some(NotFound(filePath)))
            && (Exists(store, cwd, target) && IsFileOutsideWorkdir(cwd, workingDir, filePath) ==>
                  pre == Some(CannotExecute(filePath)))
            && (Exists(store, cwd, target) && !IsFileOutsideWorkdir(cwd, workingDir, filePath)
                && !(|Name(target)| > 3 && EndsWith(Name(target), ".py")) ==>
                  pre == Some(NotPython(filePath)))
            && (pre.None? <==>
                  && Exists(store, cwd, target)
                  && !IsFileOutsideWorkdir(cwd, workingDir, filePath)
                  && |Name(target)| > 3 && EndsWith(Name(target), ".py"))
  {
    PySuffix(RunTarget(workingDir, filePath));
    assert NotFound(filePath)[0] == 'E' && CannotExecute(filePath)[0] == 'E';
  }

  /** "No output produced" comes back exactly when both streams are empty. */
  lemma NoOutputExactly(out: string, err: string)
    ensures Report(out, err) == "No output produced" <==> out == "" && err == ""
  {
    if out != "" || err != "" {
      assert Report(out, err)[0] == 'S';
    }
  }

  /** Otherwise the report is the labelled standard output, if any,
      immediately followed by the labelled standard error, if any: it starts
      with the one, ends with the other, and holds nothing else. */
  lemma ReportLayout(out: string, err: string)
    requires out != "" || err != ""
    ensures var r := Report(out, err);
            && (out != "" ==> StartsWith(r, "STDOUT: " + out))
            && (err != "" ==> EndsWith(r, "STDERR: " + err))
            && |r| == (if out != "" then 8 + |out| else 0) + (if err != "" then 8 + |err| else 0)
  {
    var r := Report(out, err);
    var o := Labelled("STDOUT: ", out);
    var e := Labelled("STDERR: ", err);
    assert r == o + e;
    assert r[..|o|] == o;
    assert r[|r| - |e|..] == e;
  }

  /** With `check=True`, a script that runs to a non-zero exit is reported
      only through the exception text: its output is dropped, and the exit-code
      note is never added, because the report is built only for exit code 0. */
  lemma CheckedRunDropsFailure(store: Store, cwd: Cwd, workingDir: string, filePath: string,
                               out: string, err: string, code: int, checkError: string)
    requires Preflight(store, cwd, workingDir, filePath).None?
    ensures var r := RunPythonResult(store, cwd, workingDir, filePath, Completed(out, err, code), checkError);
            && (code != 0 ==> r == ExecutionError(checkError))
            && (code == 0 ==> r == Report(out, err) && ExitNote(code) == "")
  {
  }

  /** A script that cannot be started, or that runs past the timeout, is
      reported through the exception text, by the tool as written and by the
      corrected one alike. */
  lemma StartFailureReported(store: Store, cwd: Cwd, workingDir: string, filePath: string,
                             message: string, checkError: string)
    requires Preflight(store, cwd, workingDir, filePath).None?
    ensures RunPythonResult(store, cwd, workingDir, filePath, Failed(message), checkError)
         == ExecutionError(message)
    ensures RunPythonUncheckedResult(store, cwd, workingDir, filePath, Failed(message))
         == ExecutionError(message)
  {
  }

  /** Concretely: two failing runs with different output give the same text,
      and a script that writes a traceback to standard error and exits with 1
      yields a result that never shows that traceback's label. */
  lemma FailingOutputLost(store: Store, cwd: Cwd, workingDir: string, filePath: string,
                          err: string, checkError: string)
    requires Preflight(store, cwd, workingDir, filePath).None?
    requires err != ""
    ensures RunPythonResult(store, cwd, workingDir, filePath, Completed("", err, 1), checkError)
         == RunPythonResult(store, cwd, workingDir, filePath, Completed("", "", 1), checkError)
    ensures RunPythonResult(store, cwd, workingDir, filePath, Completed("", err, 1), checkError)
         != RunPythonUncheckedResult(store, cwd, workingDir, filePath, Completed("", err, 1))
  {
    var checked := RunPythonResult(store, cwd, workingDir, filePath, Completed("", err, 1), checkError);
    var unchecked := RunPythonUncheckedResult(store, cwd, workingDir, filePath, Completed("", err, 1));
    assert checked == ExecutionError(checkError);
    assert checked[0] == 'E';
    assert unchecked == ("" + ("STDERR: " + err)) + ExitNote(1);
    assert unchecked[0] == 'S';
  }

  /** The corrected tool reports a non-zero exit with the output followed by
      "Process exited with code <code> ". */
  lemma UncheckedRunReportsExit(store: Store, cwd: Cwd, workingDir: string, filePath: string,
                                out: string, err: string, code: int)
    requires Preflight(store, cwd, workingDir, filePath).None?
    requires code != 0
    ensures var r := RunPythonUncheckedResult(store, cwd, workingDir, filePath, Completed(out, err, code));
            var note := "Process exited with code " + IntToString(code) + " ";
            && StartsWith(r, Report(out, err))
            && EndsWith(r, note)
            && |r| == |Report(out, err)| + |note|
  {
    var r := RunPythonUncheckedResult(store, cwd, workingDir, filePath, Completed(out, err, code));
    var rep := Report(out, err);
    var note := "Process exited with code " + IntToString(code) + " ";
    assert r == rep + note;
    assert r[..|rep|] == rep;
    assert r[|r| - |note|..] == note;
  }

  /** A script that is run lies at or below the working directory: the guard and the
      join see the same `file_path`, absolute or not. */
  lemma RunConfined(store: Store, cwd: Cwd, workingDir: string, filePath: string)
    requires Preflight(store, cwd, workingDir, filePath).None?
    ensures Lookup(store, cwd, RunTarget(workingDir, filePath)).Some?
    ensures IsPrefix(AbsNormal(cwd, workingDir).segs, Lookup(store, cwd, RunTarget(workingDir, filePath)).value)
  {
    var target := RunTarget(workingDir, filePath);
    GuardSound(cwd, workingDir, filePath);
    LookupIsLexical(store, cwd, target);
    LexicalOfJoin(cwd, workingDir, filePath);
  }
}
