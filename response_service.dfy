/**
 * The server's generate_response flow: request validation, the pull-access gate,
 * the pure-chat short-circuit, candidate retrieval and filtering, the summary
 * round-trip with the language model, extraction of the `---`-delimited relevant
 * paths, the relevant-subset filter, assembly of the combined prompt, the strict
 * token-limit check and the mapping of every failure to one error result.
 *
 * The retrieval service, the language model and the token counter are inputs:
 * each HTTP exchange is a Reply value, the model is a function from prompt to
 * reply, and the token counter a function from text to a count. The model and
 * the counter may raise; their Failure carries the exception's message, which
 * the catch-all turns into the "unexpected error" result. The method
 * returns the outcome together with the calls it issued, in order, so that
 * "no later request is issued" can be stated.
 */
module ResponseService {
  import opened Common
  import opened FileDedup

  // ---------------------------------------------------------------------------
  // Constants

  const TokenLimits: map<string, nat> := map["gpt-4o" := 128000, "gpt-4o-mini" := 128000]
  const MatchStrengths: seq<string> := ["high", "mid", "low"]
  const PureChatMode: string := "pure-chat"

  const InvalidModelError: string := "Invalid model selected. Choose either 'gpt-4o' or 'gpt-4o-mini'."
  const InvalidStrengthError: string := "Invalid match strength selected. Choose either 'high', 'mid', or 'low'."
  /** The catch-all's prefix: any other exception becomes this text and the exception's message. */
  const UnexpectedPrefix: string := "An unexpected error occurred: "
  const PullAccessDenied: string := UnexpectedPrefix + "403: Pull access denied."
  const NoSummariesError: string := "No relevant file summaries found."
  const InvalidFormatError: string := "Invalid response format from OpenAI API."
  const NoRelevantPathsError: string := "No relevant file paths found from OpenAI response."
  const NoRelevantEntriesError: string := "No relevant entries found in the original payload after filtering."
  const ConnectPrefix: string := "Error connecting to commit-file-retrieval service: "
  const StatusPrefix: string := "Error response from commit-file-retrieval service: "
  const FilesHeader: string := "\n\nHere are the relevant files:\n"

  // ---------------------------------------------------------------------------
  // Values exchanged with the outside

  /** What the endpoint returns: `{"error": ...}`, `{"machtiani": "no files found"}` or the answer. */
  datatype Outcome =
    | Error(message: string)
    | NoFilesFound
    | Answer(openaiResponse: string, retrievedFilePaths: seq<string>)

  /** One HTTP exchange: a decoded body, an error status (with its JSON body), or a transport failure. */
  datatype Reply<T> = Ok(body: T) | StatusError(status: int, json: string) | RequestError(message: string)

  /** The retrieve-file-contents reply: contents in dict order and the retrieved paths. */
  datatype FileContentResponse = FileContentResponse(contents: seq<(string, string)>, retrievedFilePaths: seq<string>)

  /** A call the flow issues to the retrieval service or to the language model. */
  datatype Call =
    | TestPullAccess(project: string)
    | InferFile(prompt: string, matchStrength: string)
    | GetFileSummary(paths: seq<string>)
    | Llm(prompt: string)
    | RetrieveFileContents(filePaths: seq<FilePathEntry>, ignoreFiles: seq<string>)

  datatype Request = Request(
    prompt: string,
    project: string,
    mode: string,
    model: string,
    matchStrength: string,
    ignoreFiles: seq<string>)

  /** The replies of the outside world. `pullAccess` is the `pull_access` field, None when absent. */
  datatype Services = Services(
    pullAccess: Reply<Option<bool>>,
    inferFile: Reply<seq<FileSearchResponse>>,
    fileSummary: Reply<seq<(string, string)>>,
    contents: Reply<FileContentResponse>,
    llm: string -> Result<string>,
    countTokens: string -> Result<nat>)

  // ---------------------------------------------------------------------------
  // Validation

  /** The error for an unknown model or match strength, checked in that order. */
  function ValidationError(model: string, matchStrength: string): (r: Option<string>)
    ensures r.None? <==> model in TokenLimits && matchStrength in MatchStrengths
    ensures model !in TokenLimits ==> r == Some(InvalidModelError)
    ensures model in TokenLimits && matchStrength !in MatchStrengths ==> r == Some(InvalidStrengthError)
  {
    if model !in TokenLimits then Some(InvalidModelError)
    else if matchStrength !in MatchStrengths then Some(InvalidStrengthError)
    else None
  }

  // ---------------------------------------------------------------------------
  // Candidate filtering

  /** The entries whose path is not in the ignore list, in order. */
  function WithoutIgnored(entries: seq<FilePathEntry>, ignoreFiles: seq<string>): (r: seq<FilePathEntry>)
    ensures forall k :: 0 <= k < |r| ==> r[k] in entries && r[k].path !in ignoreFiles
    ensures forall e :: e in entries && e.path !in ignoreFiles ==> e in r
    ensures |r| <= |entries|
  {
    if entries == [] then []
    else
      var rest := WithoutIgnored(entries[1..], ignoreFiles);
      assert forall e :: e in entries ==> e == entries[0] || e in entries[1..];
      if entries[0].path in ignoreFiles then rest else [entries[0]] + rest
  }

  /** Removing entries keeps the paths distinct. */
  lemma {:induction false} WithoutIgnoredDistinct(entries: seq<FilePathEntry>, ignoreFiles: seq<string>)
    requires DistinctPaths(entries)
    ensures DistinctPaths(WithoutIgnored(entries, ignoreFiles))
  {
    if entries != [] {
      assert DistinctPaths(entries[1..]);
      WithoutIgnoredDistinct(entries[1..], ignoreFiles);
      var rest := WithoutIgnored(entries[1..], ignoreFiles);
      forall k | 0 <= k < |rest| ensures rest[k].path != entries[0].path {
        var j :| 0 <= j < |entries[1..]| && entries[1..][j] == rest[k];
        assert entries[j + 1] == rest[k];
      }
    }
  }

  /** The candidates: aggregated, de-duplicated, ignore-filtered. */
  function Candidates(responses: seq<FileSearchResponse>, ignoreFiles: seq<string>): seq<FilePathEntry>
  {
    WithoutIgnored(Dedup(AllPaths(responses)), ignoreFiles)
  }

  /** No candidate is ignored, no two share a path, and every non-ignored retrieved path is a candidate. */
  lemma CandidatesProperties(responses: seq<FileSearchResponse>, ignoreFiles: seq<string>)
    ensures forall e :: e in Candidates(responses, ignoreFiles) ==> e.path !in ignoreFiles
    ensures DistinctPaths(Candidates(responses, ignoreFiles))
    ensures forall p :: p in Paths(AllPaths(responses)) && p !in ignoreFiles ==>
              p in Paths(Candidates(responses, ignoreFiles))
  {
    var d := Dedup(AllPaths(responses));
    DedupDistinct(AllPaths(responses));
    DedupSamePaths(AllPaths(responses));
    WithoutIgnoredDistinct(d, ignoreFiles);
    forall p | p in Paths(AllPaths(responses)) && p !in ignoreFiles
      ensures p in Paths(Candidates(responses, ignoreFiles))
    {
      assert p in Paths(d);
      var e :| e in d && e.path == p;
      assert e in Candidates(responses, ignoreFiles);
    }
  }

  // ---------------------------------------------------------------------------
  // File summaries: an insertion-ordered dict filled by a loop

  /** The keys of an insertion-ordered dict. */
  function KeySet(d: seq<(string, string)>): set<string>
  {
    if d == [] then {} else {d[0].0} + KeySet(d[1..])
  }

  /** No key appears twice: the first key does not recur, and so on down the list. */
  predicate KeysDistinct(d: seq<(string, string)>)
  {
    d == [] || (d[0].0 !in KeySet(d[1..]) && KeysDistinct(d[1..]))
  }

  /** Sets key k in an insertion-ordered dict: an existing key keeps its place. */
  function DictSet(d: seq<(string, string)>, k: string, v: string): (r: seq<(string, string)>)
    ensures r != [] && (|r| == |d| || |r| == |d| + 1)
    ensures KeySet(r) == KeySet(d) + {k}
    ensures KeysDistinct(d) ==> KeysDistinct(r)
  {
    if d == [] then [(k, v)]
    else if d[0].0 == k then [(k, v)] + d[1..]
    else [d[0]] + DictSet(d[1..], k, v)
  }

  /** The dict built from (file_path, summary) records, later records overwriting earlier ones. */
  function SummaryDict(data: seq<(string, string)>): seq<(string, string)>
  {
    if data == [] then []
    else
      var last := data[|data| - 1];
      DictSet(SummaryDict(data[..|data| - 1]), last.0, last.1)
  }

  /** The summary loop. */
  method FillSummaries(data: seq<(string, string)>) returns (fileSummaries: seq<(string, string)>)
    ensures fileSummaries == SummaryDict(data)
  {
    fileSummaries := [];
    var i := 0;
    while i < |data|
      invariant 0 <= i <= |data|
      invariant fileSummaries == SummaryDict(data[..i])
    {
      assert data[..i + 1][..i] == data[..i];
      fileSummaries := DictSet(fileSummaries, data[i].0, data[i].1);
      i := i + 1;
    }
    assert data[..i] == data;
  }

  /** The value of key k in the dict, if present. */
  function Lookup(d: seq<(string, string)>, k: string): Option<string>
  {
    if d == [] then None else if d[0].0 == k then Some(d[0].1) else Lookup(d[1..], k)
  }

  /** The summary of the last record for path k, if any. */
  function LastSummary(data: seq<(string, string)>, k: string): Option<string>
  {
    if data == [] then None
    else if data[|data| - 1].0 == k then Some(data[|data| - 1].1)
    else LastSummary(data[..|data| - 1], k)
  }

  lemma {:induction false} DictSetLookup(d: seq<(string, string)>, k: string, v: string, q: string)
    ensures Lookup(DictSet(d, k, v), q) == if q == k then Some(v) else Lookup(d, q)
  {
    if d != [] && d[0].0 != k {
      DictSetLookup(d[1..], k, v, q);
    }
  }

  /** Every path gets the summary of its last record; paths without records are absent. */
  lemma {:induction false} SummaryDictLookup(data: seq<(string, string)>, k: string)
    ensures Lookup(SummaryDict(data), k) == LastSummary(data, k)
  {
    if data != [] {
      var last := data[|data| - 1];
      SummaryDictLookup(data[..|data| - 1], k);
      DictSetLookup(SummaryDict(data[..|data| - 1]), last.0, last.1, k);
    }
  }

  /** The dict holds each path of the records exactly once, and is empty only without records. */
  lemma {:induction false} SummaryDictKeys(data: seq<(string, string)>)
    ensures KeysDistinct(SummaryDict(data))
    ensures forall p :: p in KeySet(SummaryDict(data)) <==> exists i :: 0 <= i < |data| && data[i].0 == p
    ensures SummaryDict(data) == [] <==> data == []
  {
    if data != [] {
      var init := data[..|data| - 1];
      SummaryDictKeys(init);
      forall p ensures p in KeySet(SummaryDict(data)) <==> exists i :: 0 <= i < |data| && data[i].0 == p {
        if exists i :: 0 <= i < |data| && data[i].0 == p {
          var i :| 0 <= i < |data| && data[i].0 == p;
          if i < |data| - 1 {
            assert init[i].0 == p;
          }
        }
        if p in KeySet(SummaryDict(init)) {
          var i :| 0 <= i < |init| && init[i].0 == p;
          assert data[i].0 == p;
        }
      }
    }
  }
  /** json.dumps(d, indent=2) for a dict of strings (string escaping is not modelled). */
  function JsonDumps(d: seq<(string, string)>): string
  {
    if d == [] then "{}" else "{\n" + JsonMembers(d) + "\n}"
  }

  function JsonMembers(d: seq<(string, string)>): string
    requires d != []
  {
    var member := "  \"" + d[0].0 + "\": \"" + d[0].1 + "\"";
    if |d| == 1 then member else member + ",\n" + JsonMembers(d[1..])
  }

  /** The prompt asking the model to choose the relevant paths. */
  const SummaryIntro: string := "Here are the file summaries:\n\n"
  const SummaryAsk: string := "\n\nBased on these summaries, return only the paths directly relevant to answer the following prompt:\n\n"
  const SummaryFormat: string := "\n\nEncapsulate the relevant paths between `---` markers.\nExample format:\n---\n/path/to/relevant_file1\n/path/to/relevant_file2\n---"

  function SummaryPrompt(fileSummaries: seq<(string, string)>, prompt: string): string
  {
    SummaryIntro + JsonDumps(fileSummaries) + SummaryAsk + prompt + SummaryFormat
  }

  // ---------------------------------------------------------------------------
  // Relevant-path extraction: ---\s*(.*?)\s*---, across lines

  const Dashes: string := "---"

  /** The regular expression can match from `---` at i to `---` at j. */
  predicate DashMatch(s: string, i: int, j: int)
  {
    OccursAt(s, Dashes, i) && i + |Dashes| <= j && OccursAt(s, Dashes, j)
  }

  /** The first `---` and the first `---` after it. */
  function DashSearch(s: string): (r: Option<(nat, nat)>)
    ensures r.Some? ==> r.value.0 + |Dashes| <= r.value.1 <= |s|
  {
    match IndexFrom(s, Dashes, 0)
    case None => None
    case Some(i) =>
      match IndexFrom(s, Dashes, i + |Dashes|)
      case None => None
      case Some(j) => Some((i, j))
  }

  /** DashSearch finds a match exactly when one exists, and then the leftmost, shortest one. */
  lemma DashSearchIsLeftmostShortest(s: string)
    ensures DashSearch(s).Some? ==> DashMatch(s, DashSearch(s).value.0, DashSearch(s).value.1)
    ensures DashSearch(s).Some? ==> forall i, j :: DashMatch(s, i, j) ==>
              DashSearch(s).value.0 < i || (DashSearch(s).value.0 == i && DashSearch(s).value.1 <= j)
    ensures DashSearch(s).None? <==> forall i, j :: !DashMatch(s, i, j)
  {
    var open := IndexFrom(s, Dashes, 0);
    if open.Some? {
      var close := IndexFrom(s, Dashes, open.value + |Dashes|);
      if close.Some? {
        assert DashMatch(s, open.value, close.value);
      }
    }
  }

  /** The line boundaries of Python's str.splitlines. */
  predicate IsLineBoundary(c: char)
  {
    c == '\n' || c == '\r' || c == '\U{0B}' || c == '\U{0C}' || c == '\U{1C}' || c == '\U{1D}'
    || c == '\U{1E}' || c == '\U{85}' || c == '\U{2028}' || c == '\U{2029}'
  }

  function FirstBoundary(s: string, from: nat): (r: Option<nat>)
    ensures r.Some? ==> from <= r.value < |s| && IsLineBoundary(s[r.value])
    ensures r.Some? ==> forall j :: from <= j < r.value ==> !IsLineBoundary(s[j])
    ensures r.None? ==> forall j :: from <= j < |s| ==> !IsLineBoundary(s[j])
    decreases |s| - from
  {
    if from >= |s| then None
    else if IsLineBoundary(s[from]) then Some(from)
    else FirstBoundary(s, from + 1)
  }

  /** Python's str.splitlines(): "\r\n" is one boundary, and there is no trailing empty line. */
  function SplitLines(s: string): (r: seq<string>)
    ensures forall k, j :: 0 <= k < |r| && 0 <= j < |r[k]| ==> !IsLineBoundary(r[k][j])
    decreases |s|
  {
    if s == [] then []
    else
      match FirstBoundary(s, 0)
      case None => [s]
      case Some(b) =>
        var next := if s[b] == '\r' && b + 1 < |s| && s[b + 1] == '\n' then b + 2 else b + 1;
        [s[..b]] + SplitLines(s[next..])
  }

  /** Python's lstrip(c) for one character. */
  function LStripChar(s: string, c: char): (r: string)
    ensures |r| <= |s| && r == s[|s| - |r|..]
    ensures r != [] ==> r[0] != c
    ensures forall i :: 0 <= i < |s| - |r| ==> s[i] == c
  {
    s[RunEnd(s, c, 0)..]
  }

  /** The end of the run of c starting at `from`. */
  function RunEnd(s: string, c: char, from: nat): (n: nat)
    requires from <= |s|
    ensures from <= n <= |s|
    ensures forall i :: from <= i < n ==> s[i] == c
    ensures n < |s| ==> s[n] != c
    decreases |s| - from
  {
    if from < |s| && s[from] == c then RunEnd(s, c, from + 1) else from
  }

  /** One path line: leading '/' removed first, then whitespace trimmed. */
  function CleanLine(line: string): (r: string)
    ensures IsTrimmed(r)
  {
    TrimSpaceTrimmed(LStripChar(line, '/'));
    TrimSpace(LStripChar(line, '/'))
  }

  /** The cleaned non-blank lines, in order (a line is blank exactly when strip() empties it). */
  function CleanPathLines(lines: seq<string>): (r: seq<string>)
    ensures |r| <= |lines|
  {
    if lines == [] then []
    else if IsBlank(lines[0]) then CleanPathLines(lines[1..])
    else [CleanLine(lines[0])] + CleanPathLines(lines[1..])
  }

  /** Every extracted path is trimmed. */
  lemma {:induction false} CleanPathLinesTrimmed(lines: seq<string>)
    ensures forall k :: 0 <= k < |CleanPathLines(lines)| ==> IsTrimmed(CleanPathLines(lines)[k])
  {
    if lines != [] {
      CleanPathLinesTrimmed(lines[1..]);
      var rest := CleanPathLines(lines[1..]);
      if !IsBlank(lines[0]) {
        var r := CleanPathLines(lines);
        forall k | 0 <= k < |r| ensures IsTrimmed(r[k]) {
          if k > 0 {
            assert r[k] == rest[k - 1];
          }
        }
      }
    }
  }

  /** There is one path per non-blank line, in the same order. */
  lemma {:induction false} CleanPathLinesPerLine(lines: seq<string>)
    ensures |CleanPathLines(lines)| == |NonBlankLines(lines)|
    ensures forall k :: 0 <= k < |CleanPathLines(lines)| ==>
              CleanPathLines(lines)[k] == CleanLine(NonBlankLines(lines)[k])
  {
    if lines != [] {
      CleanPathLinesPerLine(lines[1..]);
      var rest := CleanPathLines(lines[1..]);
      var kept := NonBlankLines(lines[1..]);
      if !IsBlank(lines[0]) {
        var r := CleanPathLines(lines);
        var n := NonBlankLines(lines);
        assert r == [CleanLine(lines[0])] + rest;
        assert n == [lines[0]] + kept;
        forall k | 0 <= k < |r| ensures r[k] == CleanLine(n[k]) {
          if k > 0 {
            assert r[k] == rest[k - 1] && n[k] == kept[k - 1];
          }
        }
      }
    }
  }

  function NonBlankLines(lines: seq<string>): seq<string>
  {
    if lines == [] then []
    else if IsBlank(lines[0]) then NonBlankLines(lines[1..])
    else [lines[0]] + NonBlankLines(lines[1..])
  }

  /** The relevant paths named in the model's reply; None when there is no `---` pair. */
  function RelevantFilePaths(reply: string): Option<seq<string>>
  {
    match DashSearch(reply)
    case None => None
    case Some((i, j)) => Some(CleanPathLines(SplitLines(TrimSpace(reply[i + |Dashes|..j]))))
  }

  /** A path indented before its leading '/' keeps the '/', because lstrip('/') runs before strip(). */
  lemma IndentedSlashKept(p: string)
    requires p != [] && p[0] == '/'
    requires forall i :: 0 <= i < |p| ==> !IsSpace(p[i])
    ensures CleanPathLines([" " + p]) == [p]
  {
    var line := " " + p;
    assert LStripChar(line, '/') == line by {
      assert RunEnd(line, '/', 0) == 0;
    }
    assert TrimLeft(line) == TrimLeft(p) by {
      assert line[1..] == p;
    }
    TrimSpaceNoSpace(p);
    assert !IsSpace(line[1]);
    CleanSingleLine(line);
  }

  /** The same path without indentation (and without inner whitespace) loses its leading slashes. */
  lemma UnindentedSlashDropped(p: string)
    requires p != [] && p[0] == '/'
    requires forall i :: 0 <= i < |p| ==> !IsSpace(p[i])
    ensures CleanPathLines([p]) == [LStripChar(p, '/')]
  {
    var l := LStripChar(p, '/');
    forall i | 0 <= i < |l| ensures !IsSpace(l[i]) {
      assert l[i] == p[|p| - |l| + i];
    }
    TrimSpaceNoSpace(l);
    assert !IsSpace(p[0]);
    CleanSingleLine(p);
  }

  /** A single line that is not blank yields its cleaned form. */
  lemma CleanSingleLine(line: string)
    requires !IsBlank(line)
    ensures CleanPathLines([line]) == [CleanLine(line)]
  {
    var lines: seq<string> := [line];
    assert lines[1..] == [];
  }

  /** A line made only of slashes yields the empty path. */
  lemma SlashOnlyLineIsEmptyPath(n: nat)
    requires n >= 1
    ensures CleanPathLines([RepeatChar('/', n)]) == [""]
  {
    var line := RepeatChar('/', n);
    assert LStripChar(line, '/') == [];
    assert !IsSpace(line[0]);
    CleanSingleLine(line);
  }

  /** The entries whose path the model named, in candidate order. */
  function RelevantEntries(candidates: seq<FilePathEntry>, relevant: seq<string>): (r: seq<FilePathEntry>)
    ensures forall k :: 0 <= k < |r| ==> r[k] in candidates && r[k].path in relevant
    ensures forall e :: e in candidates && e.path in relevant ==> e in r
    ensures |r| <= |candidates|
  {
    if candidates == [] then []
    else
      var rest := RelevantEntries(candidates[1..], relevant);
      assert forall e :: e in candidates ==> e == candidates[0] || e in candidates[1..];
      if candidates[0].path in relevant then [candidates[0]] + rest else rest
  }

  /** The relevant entries keep the candidates' relative order: they form a subsequence. */
  lemma {:induction false} RelevantEntriesSubsequence(candidates: seq<FilePathEntry>, relevant: seq<string>)
    ensures IsSubsequence(RelevantEntries(candidates, relevant), candidates)
  {
    if candidates != [] {
      RelevantEntriesSubsequence(candidates[1..], relevant);
    }
  }

  predicate IsSubsequence(a: seq<FilePathEntry>, b: seq<FilePathEntry>)
    decreases |b|
  {
    a == [] || (b != [] && (if a[0] == b[0] then IsSubsequence(a[1..], b[1..]) else IsSubsequence(a, b[1..])))
  }

  // ---------------------------------------------------------------------------
  // Combined prompt and token limit

  /** One `--- path ---` section. */
  function Section(path: string, content: string): string
  {
    "\n--- " + path + " ---\n" + content + "\n"
  }

  function Sections(contents: seq<(string, string)>): string
  {
    if contents == [] then ""
    else Sections(contents[..|contents| - 1]) + Section(contents[|contents| - 1].0, contents[|contents| - 1].1)
  }

  /** The prompt, the files header, and one section per content entry in dict order. */
  function CombinedPrompt(prompt: string, contents: seq<(string, string)>): string
  {
    prompt + FilesHeader + Sections(contents)
  }

  /** The `+=` loop over the contents. */
  method BuildCombinedPrompt(prompt: string, contents: seq<(string, string)>) returns (combined: string)
    ensures combined == CombinedPrompt(prompt, contents)
    ensures HasPrefix(combined, prompt + FilesHeader)
  {
    combined := prompt + FilesHeader;
    var i := 0;
    while i < |contents|
      invariant 0 <= i <= |contents|
      invariant combined == CombinedPrompt(prompt, contents[..i])
    {
      assert contents[..i + 1][..i] == contents[..i];
      var (path, content) := contents[i];
      combined := combined + Section(path, content);
      i := i + 1;
    }
    assert contents[..i] == contents;
    assert combined[..|prompt + FilesHeader|] == prompt + FilesHeader;
  }

  /** Sections of consecutive content lists concatenate. */
  lemma {:induction false} SectionsAppend(a: seq<(string, string)>, b: seq<(string, string)>)
    ensures Sections(a + b) == Sections(a) + Sections(b)
    decreases |b|
  {
    if b == [] {
      assert a + b == a;
    } else {
      var b', x := b[..|b| - 1], b[|b| - 1];
      assert (a + b)[..|a + b| - 1] == a + b' && (a + b)[|a + b| - 1] == x;
      assert Sections(a + b) == Sections(a + b') + Section(x.0, x.1);
      assert Sections(b) == Sections(b') + Section(x.0, x.1);
      SectionsAppend(a, b');
      Assoc(Sections(a), Sections(b'), Section(x.0, x.1));
    }
  }

  const LimitLead: string := "Token limit exceeded for the selected model. Limit: "
  const CountLead: string := ", Count: "
  const LimitAdvice: string := ". Please reduce the length of your prompt or the number of retrieved contents."

  /** The error text for an exceeded limit. */
  function TokenLimitMessage(maxTokens: nat, tokenCount: nat): string
  {
    LimitLead + NatToString(maxTokens) + CountLead + NatToString(tokenCount) + LimitAdvice
  }

  /** The strict limit check: an error exactly when the count exceeds the model's limit. */
  function TokenCheck(model: string, tokenCount: nat): (r: Option<string>)
    requires model in TokenLimits
    ensures r.Some? <==> tokenCount > TokenLimits[model]
    ensures r.Some? ==> r.value == TokenLimitMessage(TokenLimits[model], tokenCount)
  {
    if tokenCount > TokenLimits[model] then Some(TokenLimitMessage(TokenLimits[model], tokenCount)) else None
  }

  // ---------------------------------------------------------------------------
  // The flow

  /**
   * The error result for a failed exchange with the retrieval service, whose
   * name in the two prefixes differs between revisions of the server.
   */
  function HttpErrorOutcome<T>(connectPrefix: string, statusPrefix: string, reply: Reply<T>): (r: Outcome)
    requires !reply.Ok?
    ensures r.Error?
    ensures reply.StatusError? ==> r.message == statusPrefix + reply.json
    ensures reply.RequestError? ==> r.message == connectPrefix + reply.message
  {
    match reply
    case StatusError(_, json) => Error(statusPrefix + json)
    case RequestError(msg) => Error(connectPrefix + msg)
  }

  /** Where a stage of the flow stopped, or what it hands to the next stage. */
  datatype Stage<T> = Stop(outcome: Outcome) | Go(value: T)

  /** No call in the list asks for file contents. */
  predicate NoContentRequest(calls: seq<Call>)
  {
    forall k :: 0 <= k < |calls| ==> !calls[k].RetrieveFileContents?
  }

  function PathsOf(entries: seq<FilePathEntry>): (r: seq<string>)
    ensures |r| == |entries| && forall k :: 0 <= k < |r| ==> r[k] == entries[k].path
  {
    seq(|entries|, k requires 0 <= k < |entries| => entries[k].path)
  }

  /** The infer-file request followed by aggregation, de-duplication and the ignore filter. */
  method RetrieveCandidates(req: Request, env: Services) returns (stage: Stage<seq<FilePathEntry>>, calls: seq<Call>)
    ensures calls == [InferFile(req.prompt, req.matchStrength)]
    ensures !env.inferFile.Ok? ==> stage == Stop(HttpErrorOutcome(ConnectPrefix, StatusPrefix, env.inferFile))
    ensures env.inferFile.Ok? ==>
              stage == if Candidates(env.inferFile.body, req.ignoreFiles) == [] then Stop(NoFilesFound)
                       else Go(Candidates(env.inferFile.body, req.ignoreFiles))
  {
    calls := [InferFile(req.prompt, req.matchStrength)];
    if !env.inferFile.Ok? {
      return Stop(HttpErrorOutcome(ConnectPrefix, StatusPrefix, env.inferFile)), calls;
    }
    var entries := AggregateFilePaths(env.inferFile.body);
    entries := RemoveDuplicateFilePaths(entries);
    entries := WithoutIgnored(entries, req.ignoreFiles);
    if entries == [] {
      return Stop(NoFilesFound), calls;
    }
    stage := Go(entries);
  }

  /** What the model's choice of paths leaves of the candidates. */
  function Selection(entries: seq<FilePathEntry>, reply: string): Stage<seq<FilePathEntry>>
  {
    match RelevantFilePaths(reply)
    case None => Stop(Error(InvalidFormatError))
    case Some(relevant) =>
      if relevant == [] then Stop(Error(NoRelevantPathsError))
      else if RelevantEntries(entries, relevant) == [] then Stop(Error(NoRelevantEntriesError))
      else Go(RelevantEntries(entries, relevant))
  }

  /** A selection that goes on is a non-empty subsequence of the candidates, all named by the model. */
  lemma SelectionProperties(entries: seq<FilePathEntry>, reply: string)
    ensures Selection(entries, reply).Stop? ==> Selection(entries, reply).outcome.Error?
    ensures Selection(entries, reply).Go? ==>
              var payload := Selection(entries, reply).value;
              payload != [] && IsSubsequence(payload, entries)
              && RelevantFilePaths(reply).Some?
              && forall e :: e in payload ==> e.path in RelevantFilePaths(reply).value
  {
    if Selection(entries, reply).Go? {
      RelevantEntriesSubsequence(entries, RelevantFilePaths(reply).value);
    }
  }

  /** The summary request, the summary prompt to the model and the selection of the named candidates. */
  method SelectRelevant(prompt: string, entries: seq<FilePathEntry>, env: Services)
    returns (stage: Stage<seq<FilePathEntry>>, calls: seq<Call>)
    ensures !env.fileSummary.Ok? ==>
              calls == [GetFileSummary(PathsOf(entries))]
              && stage == Stop(if env.fileSummary.StatusError? && env.fileSummary.status == 404 then Error(NoSummariesError)
                               else HttpErrorOutcome(ConnectPrefix, StatusPrefix, env.fileSummary))
    ensures env.fileSummary == Ok([]) ==>
              calls == [GetFileSummary(PathsOf(entries))] && stage == Stop(Error(NoSummariesError))
    ensures env.fileSummary.Ok? && env.fileSummary.body != [] ==>
              var summaryPrompt := SummaryPrompt(SummaryDict(env.fileSummary.body), prompt);
              calls == [GetFileSummary(PathsOf(entries)), Llm(summaryPrompt)]
              && stage == (match env.llm(summaryPrompt)
                           case Failure(msg) => Stop(Error(UnexpectedPrefix + msg))
                           case Success(reply) => Selection(entries, reply))
    ensures stage.Stop? ==> stage.outcome.Error?
    ensures stage.Go? ==> stage.value != [] && forall e :: e in stage.value ==> e in entries
    ensures stage.Go? ==>
              env.fileSummary.Ok? && env.fileSummary.body != []
              && env.llm(SummaryPrompt(SummaryDict(env.fileSummary.body), prompt)).Success?
              && Selection(entries, env.llm(SummaryPrompt(SummaryDict(env.fileSummary.body), prompt)).value) == stage
    ensures NoContentRequest(calls)
    ensures 1 <= |calls| <= 2 && (stage.Go? ==> |calls| == 2 && calls[1].Llm?)
  {
    calls := [GetFileSummary(PathsOf(entries))];
    if !env.fileSummary.Ok? {
      if env.fileSummary.StatusError? && env.fileSummary.status == 404 {
        return Stop(Error(NoSummariesError)), calls;
      }
      return Stop(HttpErrorOutcome(ConnectPrefix, StatusPrefix, env.fileSummary)), calls;
    }
    var fileSummaries := FillSummaries(env.fileSummary.body);
    if fileSummaries == [] {
      return Stop(Error(NoSummariesError)), calls;
    }
    var summaryPrompt := SummaryPrompt(fileSummaries, prompt);
    calls := calls + [Llm(summaryPrompt)];
    var reply := env.llm(summaryPrompt);
    if reply.Failure? {
      return Stop(Error(UnexpectedPrefix + reply.error)), calls;
    }
    stage := Selection(entries, reply.value);
    SelectionProperties(entries, reply.value);
  }

  /** Whether the flow has got past the gate: a valid request with pull access granted. */
  predicate Admitted(req: Request, env: Services)
  {
    ValidationError(req.model, req.matchStrength).None? && env.pullAccess == Ok(Some(true))
  }

  /** Every content request carries a non-empty payload with no ignored path. */
  predicate ContentRequestsSafe(calls: seq<Call>, ignoreFiles: seq<string>)
  {
    forall k :: 0 <= k < |calls| && calls[k].RetrieveFileContents? ==>
      calls[k].filePaths != [] && forall e :: e in calls[k].filePaths ==> e.path !in ignoreFiles
  }

  lemma ContentRequestsSafeAppend(a: seq<Call>, b: seq<Call>, ignoreFiles: seq<string>)
    requires ContentRequestsSafe(a, ignoreFiles) && ContentRequestsSafe(b, ignoreFiles)
    ensures ContentRequestsSafe(a + b, ignoreFiles)
  {
    forall k | 0 <= k < |a + b| && (a + b)[k].RetrieveFileContents?
      ensures (a + b)[k].filePaths != [] && forall e :: e in (a + b)[k].filePaths ==> e.path !in ignoreFiles
    {
      if k >= |a| {
        assert (a + b)[k] == b[k - |a|];
      }
    }
  }

  /**
   * The payload is the model's selection: the candidates named in its reply to the
   * summary prompt built from the summaries the service returned.
   */
  predicate ModelSelected(req: Request, env: Services, payload: seq<FilePathEntry>)
  {
    env.inferFile.Ok? && env.fileSummary.Ok? && env.fileSummary.body != []
    && var reply := env.llm(SummaryPrompt(SummaryDict(env.fileSummary.body), req.prompt));
       reply.Success? && Selection(Candidates(env.inferFile.body, req.ignoreFiles), reply.value) == Go(payload)
  }

  /** Every content request asks for the model's selection. */
  predicate ContentRequestsSelected(calls: seq<Call>, req: Request, env: Services)
  {
    forall k :: 0 <= k < |calls| && calls[k].RetrieveFileContents? ==> ModelSelected(req, env, calls[k].filePaths)
  }

  lemma ContentRequestsSelectedAppend(a: seq<Call>, b: seq<Call>, req: Request, env: Services)
    requires ContentRequestsSelected(a, req, env) && ContentRequestsSelected(b, req, env)
    ensures ContentRequestsSelected(a + b, req, env)
  {
    forall k | 0 <= k < |a + b| && (a + b)[k].RetrieveFileContents?
      ensures ModelSelected(req, env, (a + b)[k].filePaths)
    {
      if k >= |a| {
        assert (a + b)[k] == b[k - |a|];
      }
    }
  }

  /**
   * Everything between the gate and the token check outside pure chat: candidates,
   * summaries, the model's selection, the contents request and the combined prompt.
   */
  method RetrieveContext(req: Request, env: Services) returns (stage: Stage<(string, seq<string>)>, calls: seq<Call>)
    ensures |calls| >= 1 && calls[0] == InferFile(req.prompt, req.matchStrength)
    ensures ContentRequestsSafe(calls, req.ignoreFiles)
    ensures ContentRequestsSelected(calls, req, env)
    ensures stage == Stop(NoFilesFound) <==> env.inferFile.Ok? && Candidates(env.inferFile.body, req.ignoreFiles) == []
    ensures stage.Stop? ==> stage.outcome.Error? || stage.outcome.NoFilesFound?
    ensures !env.inferFile.Ok? ==> stage == Stop(HttpErrorOutcome(ConnectPrefix, StatusPrefix, env.inferFile)) && calls == [calls[0]]
    ensures env.inferFile.Ok? && Candidates(env.inferFile.body, req.ignoreFiles) != [] && env.fileSummary.StatusError? ==>
              stage == Stop(if env.fileSummary.status == 404 then Error(NoSummariesError)
                            else Error(StatusPrefix + env.fileSummary.json))
    ensures stage.Go? ==>
              env.contents.Ok? && |calls| == 4 && calls[3].RetrieveFileContents?
              && stage.value == (CombinedPrompt(req.prompt, env.contents.body.contents), env.contents.body.retrievedFilePaths)
    ensures env.inferFile.Ok? && Candidates(env.inferFile.body, req.ignoreFiles) != []
            && env.fileSummary.Ok? && env.fileSummary.body != []
            && env.llm(SummaryPrompt(SummaryDict(env.fileSummary.body), req.prompt)).Failure? ==>
              stage == Stop(Error(UnexpectedPrefix + env.llm(SummaryPrompt(SummaryDict(env.fileSummary.body), req.prompt)).error))
              && |calls| == 3 && calls[2].Llm?
    ensures |calls| == 4 && env.contents.Ok? ==> stage.Go?
    ensures |calls| <= 4 && (|calls| == 4 ==> calls[3].RetrieveFileContents?)
  {
    var candidates;
    candidates, calls := RetrieveCandidates(req, env);
    if candidates.Stop? {
      return Stop(candidates.outcome), calls;
    }
    var contextCalls;
    stage, contextCalls := SelectAndFetch(req, env, candidates.value);
    calls := calls + contextCalls;
    AfterInferFile(calls, req, env);
  }

  /** A call list that starts with the infer-file call keeps its content requests' properties in its tail. */
  lemma AfterInferFile(calls: seq<Call>, req: Request, env: Services)
    requires |calls| >= 1 && calls[0].InferFile?
    requires ContentRequestsSafe(calls[1..], req.ignoreFiles) && ContentRequestsSelected(calls[1..], req, env)
    ensures ContentRequestsSafe(calls, req.ignoreFiles) && ContentRequestsSelected(calls, req, env)
  {
    forall k | 1 <= k < |calls| ensures calls[k] == calls[1..][k - 1] { }
  }

  /** The stages after a non-empty candidate list: the model's selection, then its contents. */
  method SelectAndFetch(req: Request, env: Services, entries: seq<FilePathEntry>)
    returns (stage: Stage<(string, seq<string>)>, calls: seq<Call>)
    requires env.inferFile.Ok? && entries == Candidates(env.inferFile.body, req.ignoreFiles) && entries != []
    ensures ContentRequestsSafe(calls, req.ignoreFiles)
    ensures ContentRequestsSelected(calls, req, env)
    ensures stage.Stop? ==> stage.outcome.Error?
    ensures env.fileSummary.StatusError? ==>
              stage == Stop(if env.fileSummary.status == 404 then Error(NoSummariesError)
                            else Error(StatusPrefix + env.fileSummary.json))
    ensures env.fileSummary.Ok? && env.fileSummary.body != []
            && env.llm(SummaryPrompt(SummaryDict(env.fileSummary.body), req.prompt)).Failure? ==>
              stage == Stop(Error(UnexpectedPrefix + env.llm(SummaryPrompt(SummaryDict(env.fileSummary.body), req.prompt)).error))
              && |calls| == 2 && calls[1].Llm?
    ensures stage.Go? ==>
              env.contents.Ok? && |calls| == 3 && calls[2].RetrieveFileContents?
              && stage.value == (CombinedPrompt(req.prompt, env.contents.body.contents), env.contents.body.retrievedFilePaths)
    ensures |calls| == 3 && env.contents.Ok? ==> stage.Go?
    ensures 1 <= |calls| <= 3 && (|calls| == 3 ==> calls[2].RetrieveFileContents?)
  {
    CandidatesProperties(env.inferFile.body, req.ignoreFiles);
    var selected;
    selected, calls := SelectRelevant(req.prompt, entries, env);
    if selected.Stop? {
      return Stop(selected.outcome), calls;
    }
    assert ModelSelected(req, env, selected.value);
    var contentCalls;
    stage, contentCalls := FetchContents(req, env, selected.value);
    ContentRequestsSafeAppend(calls, contentCalls, req.ignoreFiles);
    ContentRequestsSelectedAppend(calls, contentCalls, req, env);
    calls := calls + contentCalls;
  }

  /** The content request for the model's selection, and the combined prompt of what comes back. */
  method FetchContents(req: Request, env: Services, selected: seq<FilePathEntry>)
    returns (stage: Stage<(string, seq<string>)>, calls: seq<Call>)
    requires ModelSelected(req, env, selected)
    requires selected != [] && forall e :: e in selected ==> e.path !in req.ignoreFiles
    ensures |calls| == 1 && calls[0].RetrieveFileContents? && calls[0].filePaths == selected
    ensures ContentRequestsSafe(calls, req.ignoreFiles) && ContentRequestsSelected(calls, req, env)
    ensures !env.contents.Ok? ==> stage == Stop(HttpErrorOutcome(ConnectPrefix, StatusPrefix, env.contents))
    ensures env.contents.Ok? ==>
              stage == Go((CombinedPrompt(req.prompt, env.contents.body.contents), env.contents.body.retrievedFilePaths))
  {
    calls := [RetrieveFileContents(selected, req.ignoreFiles)];
    if !env.contents.Ok? {
      return Stop(HttpErrorOutcome(ConnectPrefix, StatusPrefix, env.contents)), calls;
    }
    var combinedPrompt := BuildCombinedPrompt(req.prompt, env.contents.body.contents);
    stage := Go((combinedPrompt, env.contents.body.retrievedFilePaths));
  }

  /**
   * The last stage on the assembled prompt: the token count, the strict limit
   * check and the final model call. A raising counter or model ends in the
   * catch-all's "unexpected error"; an answer needs a count within the limit and
   * a reply.
   */
  function Generate(model: string, prompt: string, paths: seq<string>,
                    llm: string -> Result<string>, countTokens: string -> Result<nat>): (r: Outcome)
    requires model in TokenLimits
    ensures r.Answer? <==>
              countTokens(prompt).Success? && countTokens(prompt).value <= TokenLimits[model] && llm(prompt).Success?
    ensures r.Answer? ==> r == Answer(llm(prompt).value, paths)
    ensures countTokens(prompt).Failure? ==> r == Error(UnexpectedPrefix + countTokens(prompt).error)
    ensures countTokens(prompt).Success? && countTokens(prompt).value > TokenLimits[model] ==>
              r == Error(TokenLimitMessage(TokenLimits[model], countTokens(prompt).value))
    ensures countTokens(prompt).Success? && countTokens(prompt).value <= TokenLimits[model] && llm(prompt).Failure? ==>
              r == Error(UnexpectedPrefix + llm(prompt).error)
  {
    match countTokens(prompt)
    case Failure(msg) => Error(UnexpectedPrefix + msg)
    case Success(tokenCount) =>
      match TokenCheck(model, tokenCount)
      case Some(message) => Error(message)
      case None =>
        match llm(prompt)
        case Failure(msg) => Error(UnexpectedPrefix + msg)
        case Success(reply) => Answer(reply, paths)
  }

  /** Whether the final model call is made: the count succeeded and is within the limit. */
  predicate WithinLimit(model: string, prompt: string, countTokens: string -> Result<nat>)
    requires model in TokenLimits
  {
    countTokens(prompt).Success? && countTokens(prompt).value <= TokenLimits[model]
  }

  /** The token count, the limit check and the final model call, as the flow runs them. */
  method Finish(model: string, prompt: string, paths: seq<string>, env: Services) returns (outcome: Outcome, calls: seq<Call>)
    requires model in TokenLimits
    ensures outcome == Generate(model, prompt, paths, env.llm, env.countTokens)
    ensures calls == if WithinLimit(model, prompt, env.countTokens) then [Llm(prompt)] else []
  {
    var tokenCount := env.countTokens(prompt);
    if tokenCount.Failure? {
      return Error(UnexpectedPrefix + tokenCount.error), [];
    }
    var overLimit := TokenCheck(model, tokenCount.value);
    if overLimit.Some? {
      return Error(overLimit.value), [];
    }
    calls := [Llm(prompt)];
    var reply := env.llm(prompt);
    if reply.Failure? {
      return Error(UnexpectedPrefix + reply.error), calls;
    }
    outcome := Answer(reply.value, paths);
  }

  /**
   * The flow after the gate outside pure chat: the context stages, then the last
   * stage on the combined prompt.
   */
  method Augmented(req: Request, env: Services) returns (outcome: Outcome, calls: seq<Call>)
    requires req.model in TokenLimits
    ensures |calls| >= 1 && calls[0] == InferFile(req.prompt, req.matchStrength)
    ensures outcome == NoFilesFound <==> env.inferFile.Ok? && Candidates(env.inferFile.body, req.ignoreFiles) == []
    ensures env.inferFile.Ok? && Candidates(env.inferFile.body, req.ignoreFiles) != [] && env.fileSummary.StatusError? ==>
              outcome == (if env.fileSummary.status == 404 then Error(NoSummariesError)
                          else Error(StatusPrefix + env.fileSummary.json))
    ensures env.inferFile.Ok? && Candidates(env.inferFile.body, req.ignoreFiles) != []
            && env.fileSummary.Ok? && env.fileSummary.body != []
            && env.llm(SummaryPrompt(SummaryDict(env.fileSummary.body), req.prompt)).Failure? ==>
              outcome == Error(UnexpectedPrefix + env.llm(SummaryPrompt(SummaryDict(env.fileSummary.body), req.prompt)).error)
              && |calls| == 3 && calls[2].Llm?
    ensures ContentRequestsSafe(calls, req.ignoreFiles)
    ensures ContentRequestsSelected(calls, req, env)
    ensures |calls| >= 4 && env.contents.Ok? ==>
              calls[3].RetrieveFileContents? && ModelSelected(req, env, calls[3].filePaths)
              && outcome == Generate(req.model, CombinedPrompt(req.prompt, env.contents.body.contents),
                                     env.contents.body.retrievedFilePaths, env.llm, env.countTokens)
    ensures outcome.Answer? ==>
              env.contents.Ok? && |calls| == 5 && calls[3].RetrieveFileContents?
              && calls[4] == Llm(CombinedPrompt(req.prompt, env.contents.body.contents))
              && WithinLimit(req.model, calls[4].prompt, env.countTokens)
  {
    var context;
    context, calls := RetrieveContext(req, env);
    if context.Stop? {
      return context.outcome, calls;
    }
    var lastCalls;
    outcome, lastCalls := Finish(req.model, context.value.0, context.value.1, env);
    ThenModelCall(calls, lastCalls, req, env);
    calls := calls + lastCalls;
  }

  /** Appending calls that are not content requests keeps the earlier calls and their properties. */
  lemma ThenModelCall(calls: seq<Call>, last: seq<Call>, req: Request, env: Services)
    requires ContentRequestsSafe(calls, req.ignoreFiles) && ContentRequestsSelected(calls, req, env)
    requires NoContentRequest(last)
    ensures ContentRequestsSafe(calls + last, req.ignoreFiles) && ContentRequestsSelected(calls + last, req, env)
    ensures (calls + last)[..|calls|] == calls
  {
    forall k | 0 <= k < |calls + last| && (calls + last)[k].RetrieveFileContents?
      ensures k < |calls| && (calls + last)[k] == calls[k]
    {
    }
  }

  method GenerateResponse(req: Request, env: Services) returns (outcome: Outcome, calls: seq<Call>)
    // Validation happens before any request.
    ensures req.model !in TokenLimits ==> outcome == Error(InvalidModelError) && calls == []
    ensures req.model in TokenLimits && req.matchStrength !in MatchStrengths ==>
              outcome == Error(InvalidStrengthError) && calls == []
    // The pull-access gate: nothing after it unless `pull_access` is true.
    ensures ValidationError(req.model, req.matchStrength).None? && env.pullAccess.Ok? && env.pullAccess.body != Some(true) ==>
              outcome == Error(PullAccessDenied) && calls == [TestPullAccess(req.project)]
    ensures ValidationError(req.model, req.matchStrength).None? && !env.pullAccess.Ok? ==>
              outcome == HttpErrorOutcome(ConnectPrefix, StatusPrefix, env.pullAccess) && calls == [TestPullAccess(req.project)]
    // Pure chat: the prompt goes to the model as it is and no paths are returned.
    ensures Admitted(req, env) && req.mode == PureChatMode ==>
              outcome == Generate(req.model, req.prompt, [], env.llm, env.countTokens)
              && calls == [TestPullAccess(req.project)] + (if WithinLimit(req.model, req.prompt, env.countTokens) then [Llm(req.prompt)] else [])
    // Empty candidate list.
    ensures outcome == NoFilesFound <==>
              Admitted(req, env) && req.mode != PureChatMode && env.inferFile.Ok?
              && Candidates(env.inferFile.body, req.ignoreFiles) == []
    // The summary lookup: a 404 is only logged, yet no summaries is an error.
    ensures Admitted(req, env) && req.mode != PureChatMode && env.inferFile.Ok?
            && Candidates(env.inferFile.body, req.ignoreFiles) != [] && env.fileSummary.StatusError? ==>
              outcome == (if env.fileSummary.status == 404 then Error(NoSummariesError)
                          else Error(StatusPrefix + env.fileSummary.json))
    // A model that raises on the summary prompt ends in the catch-all, before any content request.
    ensures Admitted(req, env) && req.mode != PureChatMode && env.inferFile.Ok?
            && Candidates(env.inferFile.body, req.ignoreFiles) != [] && env.fileSummary.Ok? && env.fileSummary.body != []
            && env.llm(SummaryPrompt(SummaryDict(env.fileSummary.body), req.prompt)).Failure? ==>
              outcome == Error(UnexpectedPrefix + env.llm(SummaryPrompt(SummaryDict(env.fileSummary.body), req.prompt)).error)
              && NoContentRequest(calls)
    // What reaches the content request: the model's selection, non-empty, never ignored.
    ensures ContentRequestsSafe(calls, req.ignoreFiles)
    ensures ContentRequestsSelected(calls, req, env)
    // Once the contents are in, the combined prompt goes through the last stage.
    ensures Admitted(req, env) && req.mode != PureChatMode && |calls| >= 5 && env.contents.Ok? ==>
              calls[4].RetrieveFileContents? && ModelSelected(req, env, calls[4].filePaths)
              && outcome == Generate(req.model, CombinedPrompt(req.prompt, env.contents.body.contents),
                                     env.contents.body.retrievedFilePaths, env.llm, env.countTokens)
    // An answer comes from the last call, whose prompt is within the limit.
    ensures outcome.Answer? ==>
              Admitted(req, env) && |calls| >= 2 && calls[|calls| - 1].Llm?
              && WithinLimit(req.model, calls[|calls| - 1].prompt, env.countTokens)
              && env.llm(calls[|calls| - 1].prompt) == Success(outcome.openaiResponse)
    // Outside pure chat an answer is built from the contents of the model's selection.
    ensures outcome.Answer? && req.mode != PureChatMode ==>
              env.contents.Ok? && |calls| == 6
              && calls[4].RetrieveFileContents? && ModelSelected(req, env, calls[4].filePaths)
              && calls[5] == Llm(CombinedPrompt(req.prompt, env.contents.body.contents))
              && outcome.retrievedFilePaths == env.contents.body.retrievedFilePaths
  {
    var invalid := ValidationError(req.model, req.matchStrength);
    if invalid.Some? {
      return Error(invalid.value), [];
    }

    calls := [TestPullAccess(req.project)];
    if !env.pullAccess.Ok? {
      return HttpErrorOutcome(ConnectPrefix, StatusPrefix, env.pullAccess), calls;
    }
    if env.pullAccess.body != Some(true) {
      return Error(PullAccessDenied), calls;
    }

    var lastCalls;
    if req.mode == PureChatMode {
      outcome, lastCalls := Finish(req.model, req.prompt, [], env);
    } else {
      outcome, lastCalls := Augmented(req, env);
    }
    ContentRequestsSafeAppend(calls, lastCalls, req.ignoreFiles);
    ContentRequestsSelectedAppend(calls, lastCalls, req, env);
    calls := calls + lastCalls;
  }
}
