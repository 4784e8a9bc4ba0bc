/**
  * The directory walk of `main` in main.go, reduced to the sequence of
  * entries `filepath.Walk` reports: the filter applied to each of them and
  * the call of `callInstanceFunc` on each file that passes it.
  * Paths use '/' as the separator.
  */
module DirWalk {
  import opened Wrappers
  import opened Syntax
  import opened Search

  /** The scanner's own file, which it never inspects (`currentFile`). */
  const CurrentFile: string := "main.go"

  /**
    * One call of the walk function: the path, whether the entry is a
    * directory, the base name the file system reports for it, whether the
    * walk handed it an error, and the declarations `callInstanceFunc` gets
    * when it imports and parses this path (`None` when that fails).
    */
  datatype WalkEntry = WalkEntry(path: string, isDir: bool, name: string, err: bool, file: Option<seq<Decl>>)

  /** `s` ends with `suffix`. */
  predicate HasSuffix(s: string, suffix: string)
  {
    |suffix| <= |s| && s[|s| - |suffix|..] == suffix
  }

  /**
    * `filepath.Ext`: the suffix of the last path element that starts at its
    * last '.', or "" when that element has no '.'.
    */
  function Ext(path: string): (r: string)
    ensures r != "" ==>
      r[0] == '.' && HasSuffix(path, r) &&
      forall k :: 1 <= k < |r| ==> r[k] != '.' && r[k] != '/'
    decreases |path|
  {
    if |path| == 0 || path[|path| - 1] == '/' then ""
    else if path[|path| - 1] == '.' then "."
    else
      var init, c := path[..|path| - 1], path[|path| - 1];
      var e := Ext(init);
      if e == "" then ""
      else
        SuffixExtends(init, e, c);
        assert init + [c] == path;
        e + [c]
  }

  /**
    * The converse: when there is no extension, every '.' of the path lies
    * in an earlier element, with a separator after it.
    */
  lemma {:induction false} ExtEmptyMeansNoDot(path: string)
    ensures Ext(path) == "" ==>
      forall k :: 0 <= k < |path| && path[k] == '.' ==> '/' in path[k + 1..]
    decreases |path|
  {
    if |path| > 0 && Ext(path) == "" {
      var n := |path|;
      if path[n - 1] == '/' {
        forall k | 0 <= k < n - 1 && path[k] == '.'
          ensures '/' in path[k + 1..]
        {
          assert path[k + 1..][n - 2 - k] == '/';
        }
      } else {
        var init := path[..n - 1];
        ExtEmptyMeansNoDot(init);
        forall k | 0 <= k < n - 1 && path[k] == '.'
          ensures '/' in path[k + 1..]
        {
          assert init[k] == '.';
          var m :| 0 <= m < |init[k + 1..]| && init[k + 1..][m] == '/';
          assert path[k + 1..][m] == '/';
        }
      }
    }
  }

  /** A suffix stays a suffix when the same character is appended to both. */
  lemma SuffixExtends(s: string, suffix: string, c: char)
    requires HasSuffix(s, suffix)
    ensures HasSuffix(s + [c], suffix + [c])
  {
  }

  /** A path's extension is ".go" exactly when the path ends with ".go". */
  lemma ExtIsGo(path: string)
    ensures Ext(path) == ".go" <==> HasSuffix(path, ".go")
  {
    if HasSuffix(path, ".go") {
      var n := |path|;
      assert path[n - 1] == 'o' && path[n - 2] == 'g' && path[n - 3] == '.' by {
        assert path[n - 3..] == ".go";
      }
      var p1 := path[..n - 1];
      var p2 := p1[..n - 2];
      assert p2[n - 3] == '.';
      assert Ext(p2) == ".";
      assert Ext(p1) == ".g";
    }
  }

  /** The test of main.go line 27: a ".go" file, not a directory, other than the scanner itself. */
  predicate IsCandidate(e: WalkEntry)
  {
    Ext(e.path) == ".go" && !e.isDir && e.name != CurrentFile
  }

  /** The filter spelled out: processed exactly when the path ends in ".go", it is no directory, and it is not named "main.go". */
  lemma IsCandidateIff(e: WalkEntry)
    ensures IsCandidate(e) <==> HasSuffix(e.path, ".go") && !e.isDir && e.name != "main.go"
  {
    ExtIsGo(e.path);
  }

  /** Paths of the candidate entries, in walk order. */
  function Candidates(es: seq<WalkEntry>): (r: seq<string>)
    ensures |r| <= |es|
  {
    if es == [] then []
    else
      var last := es[|es| - 1];
      Candidates(es[..|es| - 1]) + (if IsCandidate(last) then [last.path] else [])
  }

  /** Every visited path comes from an entry that passes the filter. */
  lemma {:induction false} CandidatesSound(es: seq<WalkEntry>, p: string)
    requires p in Candidates(es)
    ensures exists e :: e in es && IsCandidate(e) && e.path == p
  {
    var init, last := es[..|es| - 1], es[|es| - 1];
    if p in Candidates(init) {
      CandidatesSound(init, p);
      var e :| e in init && IsCandidate(e) && e.path == p;
      assert e in es by {
        var k :| 0 <= k < |init| && init[k] == e;
        assert es[k] == e;
      }
    } else {
      assert IsCandidate(last) && last.path == p;
    }
  }

  /** Every candidate entry's path is visited. */
  lemma {:induction false} CandidatesComplete(es: seq<WalkEntry>, e: WalkEntry)
    requires e in es && IsCandidate(e)
    ensures e.path in Candidates(es)
  {
    var last := es[|es| - 1];
    if e != last {
      assert e in es[..|es| - 1] by {
        var k :| 0 <= k < |es| && es[k] == e;
        assert k != |es| - 1;
        assert es[..|es| - 1][k] == e;
      }
      CandidatesComplete(es[..|es| - 1], e);
    }
  }

  /** Filtering keeps walk order: the candidates of a concatenation are the concatenated candidates. */
  lemma {:induction false} CandidatesAppend(a: seq<WalkEntry>, b: seq<WalkEntry>)
    ensures Candidates(a + b) == Candidates(a) + Candidates(b)
  {
    if b == [] {
      assert a + b == a;
    } else {
      var b' := b[..|b| - 1];
      assert (a + b)[..|a + b| - 1] == a + b';
      assert (a + b)[|a + b| - 1] == b[|b| - 1];
      CandidatesAppend(a, b');
    }
  }

  /**
    * An entry that ends the walk: one that comes with an error, or a file
    * that passes the filter and declares a factory, so that its
    * `callInstanceFunc` does not return nil but panics (in `getType` or in
    * the reflective call).
    */
  predicate Stops(e: WalkEntry)
  {
    e.err || (IsCandidate(e) && e.file.Some? && FirstMatch(e.file.value).Some?)
  }

  /** Index of the first entry that ends the walk, or the number of entries. */
  function FirstStop(es: seq<WalkEntry>): (n: nat)
    ensures n <= |es|
    ensures forall j :: 0 <= j < n ==> !Stops(es[j])
    ensures n < |es| ==> Stops(es[n])
  {
    if es == [] then 0
    else if Stops(es[0]) then 0
    else 1 + FirstStop(es[1..])
  }

  /** The index where nothing before stops and the entry itself stops (or the end) is the first stop. */
  lemma FirstStopAt(es: seq<WalkEntry>, i: nat)
    requires i <= |es|
    requires forall j :: 0 <= j < i ==> !Stops(es[j])
    requires i < |es| ==> Stops(es[i])
    ensures FirstStop(es) == i
  {
  }

  /**
    * A file that passes the filter and declares a factory ends the walk: no
    * entry after it is ever looked at, so `instance.MyMethod()` (line 32)
    * is never reached for any file.
    */
  lemma WalkEndsAtFactory(es: seq<WalkEntry>, i: nat)
    requires i < |es| && IsCandidate(es[i])
    requires es[i].file.Some? && FirstMatch(es[i].file.value).Some?
    ensures FirstStop(es) <= i
  {
  }

  /** How the walk of `main` ends. */
  datatype WalkEnd =
    | Completed                  // every entry was seen; the walk returns nil
    | WalkError                  // an entry came with an error; the walk returns it and `main` prints it
    | Panicked(call: CallOutcome) // `callInstanceFunc` panicked on a file, ending the program

  /**
    * The walk function of `main` (main.go lines 23-36) for one entry: an
    * entry with an error ends the walk with it; a file that passes the
    * filter of line 27 is handed to `callInstanceFunc`, which ends the
    * program unless it returns nil. `handed` says whether the file was
    * handed over, `end` how the walk ends here, if it does.
    */
  method Visit(e: WalkEntry) returns (handed: bool, end: Option<WalkEnd>)
    ensures handed == (!e.err && IsCandidate(e))
    ensures end.None? <==> !Stops(e)
    ensures end.Some? ==> end.value == if e.err then WalkError else Panicked(CallOutcomeOf(e.file))
  {
    if e.err {
      return false, Some(WalkError);
    }
    handed, end := false, None;
    if Ext(e.path) == ".go" && !e.isDir && e.name != CurrentFile {
      handed := true;
      var instance := CallInstanceFunc(e.file);
      if !instance.ReturnsNil? {
        end := Some(Panicked(instance));
      }
    }
  }

  /**
    * The walk of `main` (main.go lines 22-39): the walk function is applied
    * to each entry in order. `visited` lists the files handed to
    * `callInstanceFunc`. The first entry that comes with an error ends the
    * walk with that error; the first file whose call does not return nil
    * ends the program.
    */
  method WalkPackage(entries: seq<WalkEntry>) returns (visited: seq<string>, end: WalkEnd)
    ensures var n := FirstStop(entries);
      visited == Candidates(entries[..n]) + (if n < |entries| && !entries[n].err then [entries[n].path] else [])
    ensures var n := FirstStop(entries);
      end == if n == |entries| then Completed
             else if entries[n].err then WalkError
             else Panicked(CallOutcomeOf(entries[n].file))
  {
    visited := [];
    end := Completed;
    var i := 0;
    while i < |entries|
      invariant 0 <= i <= |entries|
      invariant forall j :: 0 <= j < i ==> !Stops(entries[j])
      invariant visited == Candidates(entries[..i])
    {
      var e := entries[i];
      var handed, stop := Visit(e);
      if stop.Some? {
        FirstStopAt(entries, i);
        if handed {
          visited := visited + [e.path];
        }
        end := stop.value;
        return;
      }
      if handed {
        visited := visited + [e.path];
      }
      assert entries[..i + 1][..i] == entries[..i];
      i := i + 1;
    }
    FirstStopAt(entries, i);
    assert entries[..i] == entries;
  }
}
