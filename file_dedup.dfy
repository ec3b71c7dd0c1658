/**
 * Candidate aggregation and first-occurrence de-duplication of the retrieval
 * results (aggregate_file_paths and remove_duplicate_file_paths).
 *
 * Both operations are loops in the source; here they are methods proved against
 * the specification functions AllPaths and Dedup, and the properties the server
 * relies on (no repeated path, no path lost or invented, first occurrence kept,
 * order of first occurrence, idempotence) are lemmas about Dedup.
 */
module FileDedup {

  /** A candidate path and the retrieval category it came from. */
  datatype FilePathEntry = FilePathEntry(path: string, category: string)

  /** One search response of the retrieval service. */
  datatype FileSearchResponse = FileSearchResponse(category: string, filePaths: seq<FilePathEntry>)

  // ---------------------------------------------------------------------------
  // Aggregation

  /** Every response's entries, in response order. */
  function AllPaths(responses: seq<FileSearchResponse>): seq<FilePathEntry>
  {
    if responses == [] then []
    else AllPaths(responses[..|responses| - 1]) + responses[|responses| - 1].filePaths
  }

  /** The number of entries over all responses. */
  function TotalCount(responses: seq<FileSearchResponse>): nat
  {
    if responses == [] then 0
    else TotalCount(responses[..|responses| - 1]) + |responses[|responses| - 1].filePaths|
  }

  /** The loop that extends one list with each response's file_paths. */
  method AggregateFilePaths(responses: seq<FileSearchResponse>) returns (filePaths: seq<FilePathEntry>)
    ensures filePaths == AllPaths(responses)
    ensures |filePaths| == TotalCount(responses)
  {
    filePaths := [];
    var i := 0;
    while i < |responses|
      invariant 0 <= i <= |responses|
      invariant filePaths == AllPaths(responses[..i])
    {
      assert responses[..i + 1][..i] == responses[..i];
      filePaths := filePaths + responses[i].filePaths;
      i := i + 1;
    }
    assert responses[..i] == responses;
    AggregateLength(responses);
  }

  lemma {:induction false} AggregateLength(responses: seq<FileSearchResponse>)
    ensures |AllPaths(responses)| == TotalCount(responses)
  {
    if responses != [] {
      AggregateLength(responses[..|responses| - 1]);
    }
  }

  /** The entries of response k sit, unchanged, right after those of the responses before it. */
  lemma {:induction false} AggregateInResponseOrder(responses: seq<FileSearchResponse>, k: nat)
    requires k < |responses|
    ensures AllPaths(responses[..k + 1]) == AllPaths(responses[..k]) + responses[k].filePaths
    ensures AllPaths(responses[..k + 1]) <= AllPaths(responses)
  {
    assert responses[..k + 1][..k] == responses[..k];
    PrefixAggregate(responses, k + 1);
  }

  lemma {:induction false} PrefixAggregate(responses: seq<FileSearchResponse>, n: nat)
    requires n <= |responses|
    ensures AllPaths(responses[..n]) <= AllPaths(responses)
    decreases |responses| - n
  {
    if n < |responses| {
      PrefixAggregate(responses, n + 1);
      assert responses[..n + 1][..n] == responses[..n];
    } else {
      assert responses[..n] == responses;
    }
  }

  // ---------------------------------------------------------------------------
  // De-duplication

  /** The set of paths named by a list of entries. */
  function Paths(s: seq<FilePathEntry>): set<string>
  {
    set e | e in s :: e.path
  }

  /** The de-duplicated list: an entry is kept when no earlier kept entry has its path. */
  function Dedup(s: seq<FilePathEntry>): seq<FilePathEntry>
  {
    if s == [] then []
    else
      var d := Dedup(s[..|s| - 1]);
      if s[|s| - 1].path in Paths(d) then d else d + [s[|s| - 1]]
  }

  /** No two entries of s share a path. */
  predicate DistinctPaths(s: seq<FilePathEntry>)
  {
    forall i, j :: 0 <= i < j < |s| ==> s[i].path != s[j].path
  }

  /** s[i] is the first entry of s with its path. */
  predicate IsFirstOccurrence(s: seq<FilePathEntry>, i: int)
  {
    0 <= i < |s| && forall j :: 0 <= j < i ==> s[j].path != s[i].path
  }

  /**
   * The loop over the entries filling an insertion-ordered dict keyed by path;
   * `values` is the dict's value list in insertion order.
   */
  method RemoveDuplicateFilePaths(filePaths: seq<FilePathEntry>) returns (values: seq<FilePathEntry>)
    ensures values == Dedup(filePaths)
    ensures DistinctPaths(values)
    ensures Paths(values) == Paths(filePaths)
  {
    var uniquePaths: map<string, FilePathEntry> := map[];
    values := [];
    var i := 0;
    while i < |filePaths|
      invariant 0 <= i <= |filePaths|
      invariant values == Dedup(filePaths[..i])
      invariant uniquePaths.Keys == Paths(values)
    {
      var entry := filePaths[i];
      assert filePaths[..i + 1][..i] == filePaths[..i];
      PathsSnoc(values, entry);
      if entry.path !in uniquePaths {
        uniquePaths := uniquePaths[entry.path := entry];
        values := values + [entry];
      }
      i := i + 1;
    }
    assert filePaths[..i] == filePaths;
    DedupDistinct(filePaths);
    DedupSamePaths(filePaths);
  }

  lemma PathsSnoc(s: seq<FilePathEntry>, e: FilePathEntry)
    ensures Paths(s + [e]) == Paths(s) + {e.path}
  {
    assert forall x :: x in s + [e] <==> x in s || x == e;
  }

  /** remove_duplicate_file_paths never leaves two entries with the same path. */
  lemma {:induction false} DedupDistinct(s: seq<FilePathEntry>)
    ensures DistinctPaths(Dedup(s))
  {
    if s != [] {
      var d := Dedup(s[..|s| - 1]);
      DedupDistinct(s[..|s| - 1]);
      var last := s[|s| - 1];
      if last.path !in Paths(d) {
        forall i | 0 <= i < |d| ensures d[i].path != last.path {
          assert d[i] in d;
        }
      }
    }
  }

  /** Every input path is kept and no new path appears. */
  lemma {:induction false} DedupSamePaths(s: seq<FilePathEntry>)
    ensures Paths(Dedup(s)) == Paths(s)
  {
    if s != [] {
      var init := s[..|s| - 1];
      DedupSamePaths(init);
      assert s == init + [s[|s| - 1]];
      PathsSnoc(init, s[|s| - 1]);
      PathsSnoc(Dedup(init), s[|s| - 1]);
    }
  }

  /** The indices of the first occurrences among s[..n], in increasing order. */
  function FirstOccurrences(s: seq<FilePathEntry>, n: nat): (r: seq<nat>)
    requires n <= |s|
    ensures forall k :: 0 <= k < |r| ==> r[k] < n
    ensures forall a, b :: 0 <= a < b < |r| ==> r[a] < r[b]
  {
    if n == 0 then []
    else FirstOccurrences(s, n - 1) + (if IsFirstOccurrence(s, n - 1) then [n - 1] else [])
  }

  /** Picks the entries of s at the given indices. */
  function Pick(s: seq<FilePathEntry>, idx: seq<nat>): (r: seq<FilePathEntry>)
    requires forall k :: 0 <= k < |idx| ==> idx[k] < |s|
    ensures |r| == |idx| && forall k :: 0 <= k < |idx| ==> r[k] == s[idx[k]]
  {
    if idx == [] then [] else Pick(s, idx[..|idx| - 1]) + [s[idx[|idx| - 1]]]
  }

  lemma {:induction false} FirstOccurrencesComplete(s: seq<FilePathEntry>, n: nat, i: nat)
    requires n <= |s| && i < n
    ensures i in FirstOccurrences(s, n) <==> IsFirstOccurrence(s, i)
  {
    if i < n - 1 {
      FirstOccurrencesComplete(s, n - 1, i);
    }
  }

  /**
   * Dedup keeps exactly the first occurrence of every path, in input order: it is
   * the input restricted to the indices of first occurrences (so later duplicates
   * are dropped even when their other fields differ).
   */
  lemma {:induction false} DedupIsFirstOccurrences(s: seq<FilePathEntry>, n: nat)
    requires n <= |s|
    ensures Dedup(s[..n]) == Pick(s, FirstOccurrences(s, n))
  {
    if n > 0 {
      var i: nat := n - 1;
      var d, f := Dedup(s[..i]), FirstOccurrences(s, i);
      DedupIsFirstOccurrences(s, i);
      DedupSamePaths(s[..i]);
      FirstOccurrenceIsNewPath(s, i);
      DedupSnoc(s, i);
      if IsFirstOccurrence(s, i) {
        PickSnoc(s, f, i);
      }
      FirstOccurrencesSnoc(s, i);
    }
  }

  lemma FirstOccurrencesSnoc(s: seq<FilePathEntry>, i: nat)
    requires i < |s|
    ensures FirstOccurrences(s, i + 1) == FirstOccurrences(s, i) + if IsFirstOccurrence(s, i) then [i] else []
  {
  }

  lemma DedupSnoc(s: seq<FilePathEntry>, i: nat)
    requires i < |s|
    ensures Dedup(s[..i + 1]) == if s[i].path in Paths(Dedup(s[..i])) then Dedup(s[..i]) else Dedup(s[..i]) + [s[i]]
  {
    assert s[..i + 1][..i] == s[..i];
  }

  lemma PickSnoc(s: seq<FilePathEntry>, idx: seq<nat>, x: nat)
    requires x < |s| && forall k :: 0 <= k < |idx| ==> idx[k] < |s|
    ensures Pick(s, idx + [x]) == Pick(s, idx) + [s[x]]
  {
    assert (idx + [x])[..|idx|] == idx;
  }

  /** s[i] is a first occurrence exactly when its path is not among those before it. */
  lemma FirstOccurrenceIsNewPath(s: seq<FilePathEntry>, i: nat)
    requires i < |s|
    ensures IsFirstOccurrence(s, i) <==> s[i].path !in Paths(s[..i])
  {
    if !IsFirstOccurrence(s, i) {
      var j :| 0 <= j < i && s[j].path == s[i].path;
      assert s[..i][j] in s[..i];
    }
  }

  /** The kept entry for each path is the first input entry with that path. */
  lemma KeptEntryIsFirst(s: seq<FilePathEntry>, k: nat)
    requires k < |Dedup(s)|
    ensures exists i :: IsFirstOccurrence(s, i) && s[i] == Dedup(s)[k]
  {
    assert s[..|s|] == s;
    DedupIsFirstOccurrences(s, |s|);
    var idx := FirstOccurrences(s, |s|);
    FirstOccurrencesComplete(s, |s|, idx[k]);
    assert IsFirstOccurrence(s, idx[k]);
  }

  /** A list without repeated paths is left as it is. */
  lemma {:induction false} DedupOfDistinct(s: seq<FilePathEntry>)
    requires DistinctPaths(s)
    ensures Dedup(s) == s
  {
    if s != [] {
      var init := s[..|s| - 1];
      assert DistinctPaths(init);
      DedupOfDistinct(init);
    }
  }

  /** De-duplicating twice is the same as once. */
  lemma DedupIdempotent(s: seq<FilePathEntry>)
    ensures Dedup(Dedup(s)) == Dedup(s)
  {
    DedupDistinct(s);
    DedupOfDistinct(Dedup(s));
  }

  /** De-duplication never lengthens the list. */
  lemma {:induction false} DedupNoLonger(s: seq<FilePathEntry>)
    ensures |Dedup(s)| <= |s|
  {
    if s != [] {
      DedupNoLonger(s[..|s| - 1]);
    }
  }

  /** [a, b, a, c] becomes [a, b, c], and the second `a` (another category) is dropped. */
  lemma DedupExample()
    ensures
      var a1 := FilePathEntry("a", "commit");
      var b := FilePathEntry("b", "file");
      var a2 := FilePathEntry("a", "localization");
      var c := FilePathEntry("c", "file");
      Dedup([a1, b, a2, c]) == [a1, b, c]
  {
    var a1 := FilePathEntry("a", "commit");
    var b := FilePathEntry("b", "file");
    var a2 := FilePathEntry("a", "localization");
    var c := FilePathEntry("c", "file");
    var s := [a1, b, a2, c];
    assert s[..1] == [a1] && s[..2] == [a1, b] && s[..3] == [a1, b, a2];
    assert [a1][..0] == [];
    assert Dedup([a1]) == [a1];
    assert [a1, b][..1] == [a1];
    assert "b" !in Paths([a1]);
    assert Dedup([a1, b]) == [a1, b];
    assert [a1, b, a2][..2] == [a1, b];
    assert "a" in Paths([a1, b]);
    assert Dedup([a1, b, a2]) == [a1, b];
    assert "c" !in Paths([a1, b]);
  }
}
