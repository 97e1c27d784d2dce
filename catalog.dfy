/**
 * File discovery (find_data_files) and the file-name filter behind
 * filter_files. os.walk is given as the sequence of entries it yields.
 */
module FileCatalog {
  import opened Text
  import opened Sequences

  /** One (dirpath, dirnames, filenames) triple yielded by os.walk. */
  datatype WalkEntry = WalkEntry(dirpath: string, dirnames: seq<string>, filenames: seq<string>)

  /** fname.lower().endswith(('.txt', '.tsv')). */
  predicate IsDataFile(fname: string)
  {
    var l := Lower(fname);
    EndsWith(l, ".txt") || EndsWith(l, ".tsv")
  }

  lemma IsDataFileIgnoresCase(fname: string)
    ensures IsDataFile(Lower(fname)) == IsDataFile(fname)
  {
    LowerIdempotent(fname);
  }

  /** The joined paths of the data files among `names`, in listing order. */
  function MatchesIn(dir: string, names: seq<string>): seq<string>
  {
    if names == [] then []
    else
      var last := names[|names| - 1];
      MatchesIn(dir, names[..|names| - 1]) + (if IsDataFile(last) then [PathJoin(dir, last)] else [])
  }

  /** The paths find_data_files collects from a walk, in traversal order. */
  function Collected(walk: seq<WalkEntry>): seq<string>
  {
    if walk == [] then []
    else
      var e := walk[|walk| - 1];
      Collected(walk[..|walk| - 1]) + MatchesIn(e.dirpath, e.filenames)
  }

  /** Entry k of the walk lists, at position j, a file with a data extension. */
  ghost predicate FoundAt(walk: seq<WalkEntry>, k: int, j: int)
  {
    0 <= k < |walk| && 0 <= j < |walk[k].filenames| && IsDataFile(walk[k].filenames[j])
  }

  lemma {:induction false} MatchesInIff(dir: string, names: seq<string>, p: string)
    ensures p in MatchesIn(dir, names) <==> exists j :: 0 <= j < |names| && IsDataFile(names[j]) && p == PathJoin(dir, names[j])
  {
    if names != [] {
      var init := names[..|names| - 1];
      MatchesInIff(dir, init, p);
      if exists j :: 0 <= j < |names| && IsDataFile(names[j]) && p == PathJoin(dir, names[j]) {
        var j :| 0 <= j < |names| && IsDataFile(names[j]) && p == PathJoin(dir, names[j]);
        if j < |init| {
          assert names[j] == init[j];
        }
      }
      if exists j :: 0 <= j < |init| && IsDataFile(init[j]) && p == PathJoin(dir, init[j]) {
        var j :| 0 <= j < |init| && IsDataFile(init[j]) && p == PathJoin(dir, init[j]);
        assert init[j] == names[j];
      }
    }
  }

  /** Every collected path comes from a data file listed by some directory of the walk. */
  lemma {:induction false} CollectedSound(walk: seq<WalkEntry>, p: string)
    requires p in Collected(walk)
    ensures exists k, j :: FoundAt(walk, k, j) && p == PathJoin(walk[k].dirpath, walk[k].filenames[j])
  {
    var n := |walk| - 1;
    var init := walk[..n];
    var e := walk[n];
    if p in Collected(init) {
      CollectedSound(init, p);
      var k, j :| FoundAt(init, k, j) && p == PathJoin(init[k].dirpath, init[k].filenames[j]);
      assert walk[k] == init[k];
      assert FoundAt(walk, k, j);
    } else {
      MatchesInIff(e.dirpath, e.filenames, p);
      var j :| 0 <= j < |e.filenames| && IsDataFile(e.filenames[j]) && p == PathJoin(e.dirpath, e.filenames[j]);
      assert FoundAt(walk, n, j);
    }
  }

  /** Every data file listed by a directory of the walk is collected. */
  lemma {:induction false} CollectedComplete(walk: seq<WalkEntry>, k: nat, j: nat)
    requires FoundAt(walk, k, j)
    ensures PathJoin(walk[k].dirpath, walk[k].filenames[j]) in Collected(walk)
  {
    var n := |walk| - 1;
    var init := walk[..n];
    var e := walk[n];
    var p := PathJoin(walk[k].dirpath, walk[k].filenames[j]);
    if k < n {
      assert walk[k] == init[k];
      CollectedComplete(init, k, j);
    } else {
      MatchesInIff(e.dirpath, e.filenames, p);
    }
  }

  /** A path is collected iff some directory of the walk lists a data file that joins to it. */
  lemma CollectedIff(walk: seq<WalkEntry>, p: string)
    ensures p in Collected(walk) <==>
      exists k, j :: FoundAt(walk, k, j) && p == PathJoin(walk[k].dirpath, walk[k].filenames[j])
  {
    if p in Collected(walk) {
      CollectedSound(walk, p);
    }
    if exists k, j :: FoundAt(walk, k, j) && p == PathJoin(walk[k].dirpath, walk[k].filenames[j]) {
      var k, j :| FoundAt(walk, k, j) && p == PathJoin(walk[k].dirpath, walk[k].filenames[j]);
      CollectedComplete(walk, k, j);
    }
  }

  /** Every collected path names, by its basename, a file with a data extension. */
  lemma CollectedAreDataFiles(walk: seq<WalkEntry>, p: string)
    requires forall k, j :: 0 <= k < |walk| && 0 <= j < |walk[k].filenames| ==> '/' !in walk[k].filenames[j]
    requires p in Collected(walk)
    ensures IsDataFile(Basename(p))
  {
    CollectedIff(walk, p);
    var k, j :| FoundAt(walk, k, j) && p == PathJoin(walk[k].dirpath, walk[k].filenames[j]);
    BasenameOfJoin(walk[k].dirpath, walk[k].filenames[j]);
  }

  /** find_data_files: walk the tree and collect, in order, the paths of files with a data extension. */
  method FindDataFiles(walk: seq<WalkEntry>) returns (result: seq<string>)
    ensures result == Collected(walk)
  {
    result := [];
    for k := 0 to |walk|
      invariant result == Collected(walk[..k])
    {
      var e := walk[k];
      assert walk[..k + 1][..k] == walk[..k];
      for j := 0 to |e.filenames|
        invariant result == Collected(walk[..k]) + MatchesIn(e.dirpath, e.filenames[..j])
      {
        assert e.filenames[..j + 1][..j] == e.filenames[..j];
        if IsDataFile(e.filenames[j]) {
          result := result + [PathJoin(e.dirpath, e.filenames[j])];
        }
      }
      assert e.filenames[..|e.filenames|] == e.filenames;
    }
    assert walk[..|walk|] == walk;
  }

  // ---------------------------------------------------------------- filter

  /** filter_files keeps a path when the lower-cased filter text occurs in its lower-cased basename. */
  predicate Keeps(path: string, filterText: string)
  {
    Contains(Lower(Basename(path)), Lower(filterText))
  }

  /** Keeps as a test on one path, for a fixed filter text. */
  function KeepTest(filterText: string): string -> bool
  {
    path => Keeps(path, filterText)
  }

  /** The paths filter_files keeps, in their original order. */
  function Filtered(paths: seq<string>, filterText: string): seq<string>
  {
    Sift(paths, KeepTest(filterText))
  }

  /**
   * The filtered list is the order-preserving subsequence of exactly the kept paths:
   * `idx` gives, in increasing order, the position in `paths` of each survivor, and
   * every position whose path is kept appears in it.
   */
  lemma FilteredIndices(paths: seq<string>, filterText: string) returns (idx: seq<nat>)
    ensures |idx| == |Filtered(paths, filterText)|
    ensures forall k :: 0 <= k < |idx| ==> idx[k] < |paths| && Filtered(paths, filterText)[k] == paths[idx[k]]
    ensures forall k, l :: 0 <= k < l < |idx| ==> idx[k] < idx[l]
    ensures forall j :: 0 <= j < |paths| ==> (j in idx <==> Keeps(paths[j], filterText))
  {
    idx := SiftIndices(paths, KeepTest(filterText));
  }

  lemma FilteredIff(paths: seq<string>, filterText: string, p: string)
    ensures p in Filtered(paths, filterText) <==> p in paths && Keeps(p, filterText)
  {
    SiftIff(paths, KeepTest(filterText), p);
  }

  /** An empty filter keeps every file. */
  lemma FilterEmptyKeepsAll(paths: seq<string>)
    ensures Filtered(paths, "") == paths
  {
    forall j | 0 <= j < |paths|
      ensures Keeps(paths[j], "")
    {
      ContainsEmpty(Lower(Basename(paths[j])));
    }
    SiftKeepsAll(paths, KeepTest(""));
  }

  /** Filtering twice with the same text changes nothing more. */
  lemma FilteredIdempotent(paths: seq<string>, filterText: string)
    ensures Filtered(Filtered(paths, filterText), filterText) == Filtered(paths, filterText)
  {
    SiftIdempotent(paths, KeepTest(filterText));
  }
}
