/**
 * load_selected_dataframes: read every selected file in full; a file whose read
 * raises becomes an error line and is left out, the others are loaded.
 */
module Loader {
  import opened Wrappers
  import opened Text
  import opened Tables
  import opened Sequences

  /** The new loaded_dfs and the error lines shown to the operator. */
  datatype LoadResult = LoadResult(loaded: map<string, Table>, errors: seq<string>)

  /** f"{os.path.basename(f)}: {e}". */
  function ErrorLine(f: string, message: string): string
  {
    Basename(f) + ": " + message
  }

  /** The loop over the selected files, each read isolated from the others. */
  function Load(files: seq<string>, read: Reader): LoadResult
  {
    if files == [] then LoadResult(map[], [])
    else
      var f := files[|files| - 1];
      var prev := Load(files[..|files| - 1], read);
      match read(f, None)
      case Ok(t) => LoadResult(prev.loaded[f := t], prev.errors)
      case Err(e) => LoadResult(prev.loaded, prev.errors + [ErrorLine(f, e)])
  }

  /** A file is loaded iff it is selected and its read succeeds, and it holds what the read returned. */
  lemma {:induction false} LoadedIff(files: seq<string>, read: Reader, f: string)
    ensures f in Load(files, read).loaded <==> f in files && read(f, None).Ok?
    ensures f in Load(files, read).loaded ==> Load(files, read).loaded[f] == read(f, None).value
  {
    if files != [] {
      var init := files[..|files| - 1];
      LoadedIff(init, read, f);
      assert files == init + [files[|files| - 1]];
    }
  }

  /** Nothing from an earlier load survives: every loaded key is a selected file. */
  lemma LoadReplacesWholesale(files: seq<string>, read: Reader)
    ensures forall f :: f in Load(files, read).loaded ==> f in files
  {
    forall f | f in Load(files, read).loaded
      ensures f in files
    {
      LoadedIff(files, read, f);
    }
  }

  /** The test "this file's read raises". */
  function FailsTest(read: Reader): string -> bool
  {
    f => read(f, None).Err?
  }

  /** The message of a failed read ("" for a successful one, which never reaches an error line). */
  function MessageOf(r: Result<Table, string>): string
  {
    if r.Err? then r.error else ""
  }

  /** One error line per file, with that file's read message. */
  function ErrorLines(fs: seq<string>, read: Reader): (lines: seq<string>)
    ensures |lines| == |fs|
  {
    seq(|fs|, k requires 0 <= k < |fs| => ErrorLine(fs[k], MessageOf(read(fs[k], None))))
  }

  /** The error lines are those of the failing files, in selection order. */
  lemma {:induction false} ErrorsOfFailures(files: seq<string>, read: Reader)
    ensures Load(files, read).errors == ErrorLines(Sift(files, FailsTest(read)), read)
  {
    if files != [] {
      var n := |files| - 1;
      var f := files[n];
      var prev := Sift(files[..n], FailsTest(read));
      ErrorsOfFailures(files[..n], read);
      if read(f, None).Err? {
        assert Sift(files, FailsTest(read)) == prev + [f];
        assert ErrorLines(prev + [f], read) == ErrorLines(prev, read) + [ErrorLine(f, read(f, None).error)];
      } else {
        assert Sift(files, FailsTest(read)) == prev;
      }
    }
  }

  /**
   * The error lines are, in order, one per selected file whose read raises:
   * `idx` gives the position of each failing file.
   */
  lemma ErrorsIndices(files: seq<string>, read: Reader) returns (idx: seq<nat>)
    ensures var errors := Load(files, read).errors;
      && |idx| == |errors|
      && (forall k :: 0 <= k < |idx| ==>
            && idx[k] < |files| && read(files[idx[k]], None).Err?
            && errors[k] == ErrorLine(files[idx[k]], read(files[idx[k]], None).error))
      && (forall k, l :: 0 <= k < l < |idx| ==> idx[k] < idx[l])
      && (forall j :: 0 <= j < |files| ==> (j in idx <==> read(files[j], None).Err?))
  {
    idx := SiftIndices(files, FailsTest(read));
    ErrorsOfFailures(files, read);
    var failing := Sift(files, FailsTest(read));
    assert forall k :: 0 <= k < |idx| ==> failing[k] == files[idx[k]] && FailsTest(read)(files[idx[k]]);
  }

  /** The loop as written: it reads the undefined name `filepath`, so every file raises NameError. */
  function LoadAsWritten(files: seq<string>): LoadResult
  {
    LoadResult(map[], seq(|files|, i requires 0 <= i < |files| => ErrorLine(files[i], "name 'filepath' is not defined")))
  }

  /** As written, a readable file is reported as an error and never loaded; reading `f` loads it. */
  lemma FilepathDefect(files: seq<string>, read: Reader, f: string)
    requires f in files && read(f, None).Ok?
    ensures LoadAsWritten(files).loaded == map[] && |LoadAsWritten(files).errors| == |files|
    ensures f in Load(files, read).loaded
  {
    LoadedIff(files, read, f);
  }
}
