/**
 * Client-side parts of a generate call: the repository name taken from a project
 * URL, the chunk loop followed by the new files the current client creates from
 * the model's proposals, the patch files written for updated files, and the
 * compatibility check of the CLI's head OID against the server's.
 *
 * The file system and the HTTP exchange are inputs: whether the patches
 * directory can be ensured, which writes succeed, what `os.Stat` reports for a
 * path, how creating a file ends, and the server's reply. Go's map iteration
 * order is arbitrary; the methods pick each next key with `:|` and return the
 * order they used, so their output is stated for every possible order.
 */
module ApiClient {
  import opened Common
  import opened StreamConsumer

  // ---------------------------------------------------------------------------
  // Repository name

  /** The last non-empty element of parts, or `whole` when every element is empty. */
  function LastNonEmpty(parts: seq<string>, whole: string): string
  {
    if parts == [] then whole
    else if parts[|parts| - 1] != "" then parts[|parts| - 1]
    else LastNonEmpty(parts[..|parts| - 1], whole)
  }

  /** The repository name in a project URL: its last non-empty '/'-separated segment. */
  function ExtractRepoName(projectURL: string): string
  {
    LastNonEmpty(Split(projectURL, '/'), projectURL)
  }

  /** parts[k] is non-empty and every element after it is empty. */
  predicate IsLastNonEmpty(parts: seq<string>, k: int)
  {
    0 <= k < |parts| && parts[k] != "" && forall j :: k < j < |parts| ==> parts[j] == ""
  }

  lemma {:induction false} LastNonEmptySpec(parts: seq<string>, whole: string)
    ensures (forall k :: 0 <= k < |parts| ==> parts[k] == "") ==> LastNonEmpty(parts, whole) == whole
    ensures (exists k :: 0 <= k < |parts| && parts[k] != "") ==>
              exists k :: IsLastNonEmpty(parts, k) && LastNonEmpty(parts, whole) == parts[k]
  {
    if parts != [] {
      var n := |parts| - 1;
      var init := parts[..n];
      LastNonEmptySpec(init, whole);
      if parts[n] != "" {
        assert IsLastNonEmpty(parts, n);
      } else if exists k :: 0 <= k < |parts| && parts[k] != "" {
        var k :| 0 <= k < |parts| && parts[k] != "";
        assert init[k] != "";
        var k' :| IsLastNonEmpty(init, k') && LastNonEmpty(init, whole) == init[k'];
        assert IsLastNonEmpty(parts, k');
      }
    }
  }

  /** Joining pieces that are all empty gives nothing but separators. */
  lemma {:induction false} JoinOfEmpties(parts: seq<string>, sep: char)
    requires forall k :: 0 <= k < |parts| ==> parts[k] == ""
    ensures forall i :: 0 <= i < |Join(parts, sep)| ==> Join(parts, sep)[i] == sep
  {
    if |parts| > 1 {
      JoinOfEmpties(parts[1..], sep);
      assert Join(parts, sep) == [sep] + Join(parts[1..], sep);
    }
  }

  /** The first character of every non-empty piece appears in the joined string. */
  lemma {:induction false} JoinHasPiece(parts: seq<string>, sep: char, k: nat)
    requires k < |parts| && parts[k] != ""
    ensures parts[k][0] in Join(parts, sep)
  {
    if k == 0 {
      if |parts| > 1 {
        assert Join(parts, sep)[0] == parts[0][0];
      }
    } else {
      JoinHasPiece(parts[1..], sep, k - 1);
      assert Join(parts, sep) == parts[0] + [sep] + Join(parts[1..], sep);
    }
  }

  /**
   * A URL made only of slashes (or empty) is returned unchanged; any other URL
   * yields a non-empty name without '/', the last non-empty segment.
   */
  lemma RepoNameIsLastSegment(url: string)
    ensures (forall i :: 0 <= i < |url| ==> url[i] == '/') ==> ExtractRepoName(url) == url
    ensures (exists i :: 0 <= i < |url| && url[i] != '/') ==>
              ExtractRepoName(url) != "" && '/' !in ExtractRepoName(url) &&
              exists k :: IsLastNonEmpty(Split(url, '/'), k) && ExtractRepoName(url) == Split(url, '/')[k]
  {
    var parts := Split(url, '/');
    JoinSplit(url, '/');
    LastNonEmptySpec(parts, url);
    if exists k :: 0 <= k < |parts| && parts[k] != "" {
      var k :| 0 <= k < |parts| && parts[k] != "";
      JoinHasPiece(parts, '/', k);
      assert parts[k][0] != '/';
    } else {
      JoinOfEmpties(parts, '/');
    }
  }

  lemma {:induction false} SplitAppendSeparator(s: string, sep: char)
    ensures Split(s + [sep], sep) == Split(s, sep) + [""]
  {
    if s != [] {
      SplitAppendSeparator(s[1..], sep);
      assert (s + [sep])[1..] == s[1..] + [sep];
    }
  }

  /** A bare name without '/' is its own repository name. */
  lemma RepoNameOfBareName(name: string)
    requires '/' !in name
    ensures ExtractRepoName(name) == name
  {
    SplitWhole(name, '/');
  }

  /** A trailing slash does not change the name of a URL that has a segment. */
  lemma RepoNameIgnoresTrailingSlash(url: string)
    requires exists i :: 0 <= i < |url| && url[i] != '/'
    ensures ExtractRepoName(url + "/") == ExtractRepoName(url)
  {
    SplitAppendSeparator(url, '/');
    var parts := Split(url, '/');
    assert (parts + [""])[..|parts|] == parts;
    RepoNameIsLastSegment(url);
    var k :| IsLastNonEmpty(parts, k) && ExtractRepoName(url) == parts[k];
    LastNonEmptySpec(parts, url + "/");
    var k' :| IsLastNonEmpty(parts, k') && LastNonEmpty(parts, url + "/") == parts[k'];
    assert k == k';
  }

  // ---------------------------------------------------------------------------
  // Patch files

  const PatchesDir: string := ".machtiani/patches"
  const PatchDirFailed: string := "failed to ensure patches directory exists: "

  /** Go strings.ReplaceAll with one-character old and new strings. */
  function ReplaceChar(s: string, from: char, to: char): (r: string)
    ensures |r| == |s|
    ensures forall i :: 0 <= i < |s| ==> r[i] == if s[i] == from then to else s[i]
  {
    seq(|s|, i requires 0 <= i < |s| => if s[i] == from then to else s[i])
  }

  /** The updated file's name with '/' and ':' replaced by '_'. */
  function SafeFilename(filename: string): string
  {
    ReplaceChar(ReplaceChar(filename, '/', '_'), ':', '_')
  }

  function PatchFileName(filename: string, timestamp: string): string
  {
    SafeFilename(filename) + "_" + timestamp + ".patch"
  }

  function PatchPath(filename: string, timestamp: string): string
  {
    PatchesDir + "/" + PatchFileName(filename, timestamp)
  }

  /**
   * The sanitised name has no '/' or ':' and keeps every other character, so a
   * patch lands directly in the patches directory whatever the file's path.
   */
  lemma PatchPathInPatchesDir(filename: string, timestamp: string)
    requires '/' !in timestamp
    ensures |SafeFilename(filename)| == |filename|
    ensures forall i :: 0 <= i < |filename| ==>
              SafeFilename(filename)[i] == if filename[i] in "/:" then '_' else filename[i]
    ensures HasPrefix(PatchPath(filename, timestamp), PatchesDir + "/")
    ensures HasSuffix(PatchPath(filename, timestamp), ".patch")
    ensures '/' !in PatchPath(filename, timestamp)[|PatchesDir| + 1..]
  {
    var p := PatchPath(filename, timestamp);
    var name := PatchFileName(filename, timestamp);
    var n := |PatchesDir| + 1;
    assert p == (PatchesDir + "/") + name;
    assert p[..n] == PatchesDir + "/";
    assert p[n..] == name;
    assert p[|p| - 6..] == ".patch";
    forall i | 0 <= i < |name| ensures name[i] != '/' {
      if i < |filename| {
        assert name[i] == SafeFilename(filename)[i];
      } else if i > |filename| {
        assert name[i] == (timestamp + ".patch")[i - |filename| - 1];
      }
    }
  }

  /** Different files can share a patch path: the sanitising is not one-to-one. */
  lemma PatchPathsCanCollide(timestamp: string)
    ensures "a/b" != "a_b" && PatchPath("a/b", timestamp) == PatchPath("a_b", timestamp)
  {
    assert SafeFilename("a/b") == "a_b";
    assert SafeFilename("a_b") == "a_b";
  }

  /** Some error reported for the file is non-blank. */
  predicate HasReportedError(errors: seq<string>)
  {
    exists k :: 0 <= k < |errors| && !IsBlank(errors[k])
  }

  /** The inner loop over a file's errors, stopping at the first non-blank one. */
  method AnyReportedError(errors: seq<string>) returns (skip: bool)
    ensures skip <==> HasReportedError(errors)
  {
    skip := false;
    var k := 0;
    while k < |errors|
      invariant 0 <= k <= |errors|
      invariant forall j :: 0 <= j < k ==> IsBlank(errors[j])
    {
      TrimSpaceEmptyIffBlank(errors[k]);
      if |TrimSpace(errors[k])| > 0 {
        skip := true;
        return;
      }
      k := k + 1;
    }
  }

  /** What happens to one updated file. */
  datatype PatchAction = SkipErrors | SkipEmpty | WritePatch(path: string)

  function PatchActionFor(filename: string, update: UpdateFileContent, timestamp: string): PatchAction
  {
    if HasReportedError(update.errors) then SkipErrors
    else if IsBlank(update.updatedContent) then SkipEmpty
    else WritePatch(PatchPath(filename, timestamp))
  }

  /** The line collected for one file; `written` says whether its write succeeded. */
  function PatchLine(filename: string, action: PatchAction, written: bool): string
  {
    match action
    case SkipErrors => "Skipping patch creation for " + filename + " due to errors during generation.\n"
    case SkipEmpty => "Skipping patch creation for " + filename + " as updated content is empty.\n"
    case WritePatch(path) =>
      if written then "Wrote patch for " + filename + " to " + path + "\n"
      else "Error writing patch for " + filename + " to " + path + "\n"
  }

  /** The message buffer after visiting `order`: a newline, then one line per file. */
  function PatchBuffer(order: seq<string>, updates: map<string, UpdateFileContent>, timestamp: string,
                       writeOk: string -> bool): string
    requires forall k :: 0 <= k < |order| ==> order[k] in updates
  {
    if order == [] then "\n"
    else
      var f := order[|order| - 1];
      var action := PatchActionFor(f, updates[f], timestamp);
      PatchBuffer(order[..|order| - 1], updates, timestamp, writeOk) +
      PatchLine(f, action, action.WritePatch? && writeOk(action.path))
  }

  lemma PatchBufferSnoc(order: seq<string>, f: string, updates: map<string, UpdateFileContent>, timestamp: string,
                        writeOk: string -> bool)
    requires forall k :: 0 <= k < |order| ==> order[k] in updates
    requires f in updates
    ensures PatchBuffer(order + [f], updates, timestamp, writeOk) ==
            PatchBuffer(order, updates, timestamp, writeOk) +
            PatchLine(f, PatchActionFor(f, updates[f], timestamp), PatchWritten(f, updates, timestamp, writeOk))
  {
    assert (order + [f])[..|order|] == order;
  }

  /** The file gets a patch written: it needs one and the write succeeds. */
  predicate PatchWritten(f: string, updates: map<string, UpdateFileContent>, timestamp: string,
                         writeOk: string -> bool)
    requires f in updates
  {
    var action := PatchActionFor(f, updates[f], timestamp);
    action.WritePatch? && writeOk(action.path)
  }

  /** p holds the content of an updated file whose patch is written to p. */
  ghost predicate PatchOf(p: string, text: string, updates: map<string, UpdateFileContent>, timestamp: string,
                          writeOk: string -> bool)
  {
    exists f :: f in updates && PatchWritten(f, updates, timestamp, writeOk) &&
      p == PatchPath(f, timestamp) && text == updates[f].updatedContent
  }

  /** Every key once: `order` lists exactly the keys of `m`, without repetition. */
  predicate EnumeratesKeys<V>(order: seq<string>, m: map<string, V>)
  {
    |order| == |m| && (forall k :: 0 <= k < |order| ==> order[k] in m) &&
    (forall f :: f in m ==> f in order) &&
    forall a, b :: 0 <= a < b < |order| ==> order[a] != order[b]
  }

  /**
   * Part way through a loop over the keys of a map: `order` lists the keys
   * visited, once each, and `remaining` the keys still to visit.
   */
  predicate Visiting(order: seq<string>, remaining: set<string>, keys: set<string>)
  {
    remaining <= keys &&
    (forall k :: 0 <= k < |order| ==> order[k] in keys && order[k] !in remaining) &&
    (forall f :: f in keys ==> f in remaining || f in order) &&
    (forall a, b :: 0 <= a < b < |order| ==> order[a] != order[b]) &&
    |order| + |remaining| == |keys|
  }

  lemma VisitStart(keys: set<string>)
    ensures Visiting([], keys, keys)
  {
  }

  lemma VisitStep(order: seq<string>, remaining: set<string>, keys: set<string>, f: string)
    requires Visiting(order, remaining, keys) && f in remaining
    ensures f !in order
    ensures Visiting(order + [f], remaining - {f}, keys)
  {
  }

  lemma VisitDone<V>(order: seq<string>, m: map<string, V>)
    requires Visiting(order, {}, m.Keys)
    ensures EnumeratesKeys(order, m)
  {
  }

  /** `patches` holds a patch for every visited file that gets one, and nothing else. */
  ghost predicate PatchesFrom(patches: map<string, string>, order: seq<string>,
                              updates: map<string, UpdateFileContent>, timestamp: string, writeOk: string -> bool)
  {
    (forall f :: f in order && f in updates && PatchWritten(f, updates, timestamp, writeOk) ==>
       PatchPath(f, timestamp) in patches) &&
    forall p :: p in patches ==> PatchOf(p, patches[p], updates, timestamp, writeOk)
  }

  lemma PatchesStep(patches: map<string, string>, order: seq<string>,
                    updates: map<string, UpdateFileContent>, timestamp: string, writeOk: string -> bool, f: string)
    requires PatchesFrom(patches, order, updates, timestamp, writeOk) && f in updates
    ensures PatchWritten(f, updates, timestamp, writeOk) ==>
              PatchesFrom(patches[PatchPath(f, timestamp) := updates[f].updatedContent], order + [f],
                          updates, timestamp, writeOk)
    ensures !PatchWritten(f, updates, timestamp, writeOk) ==>
              PatchesFrom(patches, order + [f], updates, timestamp, writeOk)
  {
    if PatchWritten(f, updates, timestamp, writeOk) {
      var q := PatchPath(f, timestamp);
      assert PatchOf(q, updates[f].updatedContent, updates, timestamp, writeOk);
    }
  }

  /** The part of the loop body that decides what to do with one updated file. */
  method DecidePatch(filename: string, update: UpdateFileContent, timestamp: string) returns (action: PatchAction)
    ensures action == PatchActionFor(filename, update, timestamp)
  {
    var skip := AnyReportedError(update.errors);
    TrimSpaceEmptyIffBlank(update.updatedContent);
    if skip {
      return SkipErrors;
    }
    if |TrimSpace(update.updatedContent)| == 0 {
      return SkipEmpty;
    }
    var safe := ReplaceChar(filename, '/', '_');
    safe := ReplaceChar(safe, ':', '_');
    var patchFileName := safe + "_" + timestamp + ".patch";
    return WritePatch(PatchesDir + "/" + patchFileName);
  }

  /**
   * WritePatchToFile: one patch per updated file without errors and with
   * non-blank content; an error only when such a file exists and the patches
   * directory cannot be ensured, and then nothing is written or printed.
   * `patches` maps each written patch path to its content.
   */
  method WritePatchToFile(updates: map<string, UpdateFileContent>, timestamp: string,
                          dirError: Option<string>, writeOk: string -> bool)
    returns (err: Option<string>, printed: string, order: seq<string>, patches: map<string, string>)
    ensures err.Some? <==> dirError.Some? && exists f :: f in updates && PatchActionFor(f, updates[f], timestamp).WritePatch?
    ensures err.Some? ==> err.value == PatchDirFailed + dirError.value && printed == "" && patches == map[]
    ensures err.None? ==> EnumeratesKeys(order, updates)
    ensures err.None? ==> printed == if updates == map[] then "" else PatchBuffer(order, updates, timestamp, writeOk)
    ensures err.None? ==> forall f :: f in updates && PatchWritten(f, updates, timestamp, writeOk) ==>
              PatchPath(f, timestamp) in patches
    ensures forall p :: p in patches ==> PatchOf(p, patches[p], updates, timestamp, writeOk)
  {
    order, patches := [], map[];
    if |updates| == 0 {
      return None, "", order, patches;
    }
    var buffer;
    err, buffer, order, patches := WritePatches(updates, timestamp, dirError, writeOk);
    if err.Some? {
      return err, "", order, patches;
    }
    PatchBufferGrows(order, updates, timestamp, writeOk);
    printed := if |buffer| > 1 then buffer else "";
  }

  /** Once a file has been visited the buffer holds more than its leading newline. */
  lemma PatchBufferGrows(order: seq<string>, updates: map<string, UpdateFileContent>, timestamp: string,
                         writeOk: string -> bool)
    requires forall k :: 0 <= k < |order| ==> order[k] in updates
    requires order != []
    ensures |PatchBuffer(order, updates, timestamp, writeOk)| > 1
  {
  }

  /**
   * The loop state after visiting `order` without error: the message buffer,
   * the patches written and, when the directory cannot be ensured, no visited
   * file needed a patch.
   */
  ghost predicate PatchLoop(order: seq<string>, buffer: string, patches: map<string, string>,
                            updates: map<string, UpdateFileContent>, timestamp: string,
                            dirError: Option<string>, writeOk: string -> bool)
  {
    (forall k :: 0 <= k < |order| ==> order[k] in updates) &&
    buffer == PatchBuffer(order, updates, timestamp, writeOk) &&
    (dirError.Some? ==> patches == map[]) &&
    (dirError.Some? ==> forall k :: 0 <= k < |order| ==> !PatchActionFor(order[k], updates[order[k]], timestamp).WritePatch?) &&
    PatchesFrom(patches, order, updates, timestamp, writeOk)
  }

  /** The loop body for one updated file. */
  method VisitPatch(order: seq<string>, buffer: string, patches: map<string, string>,
                    updates: map<string, UpdateFileContent>, timestamp: string,
                    dirError: Option<string>, writeOk: string -> bool, filename: string)
    returns (err: Option<string>, buffer': string, patches': map<string, string>)
    requires PatchLoop(order, buffer, patches, updates, timestamp, dirError, writeOk) && filename in updates
    ensures err.Some? ==> dirError.Some? && err.value == PatchDirFailed + dirError.value &&
                          PatchActionFor(filename, updates[filename], timestamp).WritePatch?
    ensures err.None? ==> PatchLoop(order + [filename], buffer', patches', updates, timestamp, dirError, writeOk)
  {
    var update := updates[filename];
    var action := DecidePatch(filename, update, timestamp);
    var written := false;
    if action.WritePatch? {
      if dirError.Some? {
        return Some(PatchDirFailed + dirError.value), buffer, patches;
      }
      written := writeOk(action.path);
    }
    PatchesStep(patches, order, updates, timestamp, writeOk, filename);
    patches' := if written then patches[action.path := update.updatedContent] else patches;
    PatchBufferSnoc(order, filename, updates, timestamp, writeOk);
    err, buffer' := None, buffer + PatchLine(filename, action, written);
  }

  /** The loop over the updated files, in an arbitrary order. */
  method WritePatches(updates: map<string, UpdateFileContent>, timestamp: string,
                      dirError: Option<string>, writeOk: string -> bool)
    returns (err: Option<string>, buffer: string, order: seq<string>, patches: map<string, string>)
    ensures err.Some? <==> dirError.Some? && exists f :: f in updates && PatchActionFor(f, updates[f], timestamp).WritePatch?
    ensures err.Some? ==> err.value == PatchDirFailed + dirError.value && patches == map[]
    ensures err.None? ==> EnumeratesKeys(order, updates) && buffer == PatchBuffer(order, updates, timestamp, writeOk)
    ensures err.None? ==> PatchesFrom(patches, order, updates, timestamp, writeOk)
  {
    order, patches := [], map[];
    buffer := "\n";
    var remaining := updates.Keys;
    VisitStart(updates.Keys);
    while remaining != {}
      invariant Visiting(order, remaining, updates.Keys)
      invariant PatchLoop(order, buffer, patches, updates, timestamp, dirError, writeOk)
      decreases |remaining|
    {
      var filename :| filename in remaining;
      err, buffer, patches := VisitPatch(order, buffer, patches, updates, timestamp, dirError, writeOk, filename);
      if err.Some? {
        return err, buffer, order, map[];
      }
      VisitStep(order, remaining, updates.Keys, filename);
      order := order + [filename];
      remaining := remaining - {filename};
    }
    VisitDone(order, updates);
    err := None;
  }

  // ---------------------------------------------------------------------------
  // New files

  const NoNewFilesData: string := "No new files data available - skipping\n"
  const NoNewContent: string := "New files content is empty - nothing to write\n"

  /** What `os.Stat` reports for a path. */
  datatype PathState = Missing | Present | StatError(msg: string)

  /** How creating a missing file ends: created, or failing to make its directories or to write. */
  datatype CreateResult = Created | MkdirError(msg: string) | WriteError(msg: string)

  /** What happens to one proposed new file. */
  datatype NewFileOutcome =
    | SkippedEmpty
    | SkippedExisting
    | StatFailed(msg: string)
    | MkdirFailed(msg: string)
    | WriteFailed(msg: string)
    | Wrote

  function NewFileOutcomeFor(content: string, state: PathState, create: CreateResult): NewFileOutcome
  {
    if IsBlank(content) then SkippedEmpty
    else match state
      case Present => SkippedExisting
      case StatError(m) => StatFailed(m)
      case Missing =>
        match create
        case MkdirError(m) => MkdirFailed(m)
        case WriteError(m) => WriteFailed(m)
        case Created => Wrote
  }

  function NewFileLine(path: string, outcome: NewFileOutcome): string
  {
    match outcome
    case SkippedEmpty => "- " + path + " (skipped - empty content)\n"
    case SkippedExisting => "- " + path + " (skipped - file already exists)\n"
    case StatFailed(m) => "- " + path + " (error checking existence: " + m + ")\n"
    case MkdirFailed(m) => "- " + path + " (error creating directories: " + m + ")\n"
    case WriteFailed(m) => "- " + path + " (error writing file: " + m + ")\n"
    case Wrote => "- Created " + path + "\n"
  }

  function Outcome(path: string, content: map<string, string>, stat: string -> PathState,
                   create: string -> CreateResult): NewFileOutcome
    requires path in content
  {
    NewFileOutcomeFor(content[path], stat(path), create(path))
  }

  /** The first line of the report. */
  function NewFilesHeader(entries: nat): string
  {
    "Creating new files for " + NatToString(entries) + " entries\n"
  }

  /** The report buffer after visiting `order`: its header, then one line per path. */
  function NewFilesBuffer(header: string, order: seq<string>, content: map<string, string>,
                          stat: string -> PathState, create: string -> CreateResult): string
    requires forall k :: 0 <= k < |order| ==> order[k] in content
  {
    if order == [] then header
    else
      NewFilesBuffer(header, order[..|order| - 1], content, stat, create) +
      NewFileLine(order[|order| - 1], Outcome(order[|order| - 1], content, stat, create))
  }

  /** How many of the visited paths end with the given kind of outcome. */
  function CountOutcomes(order: seq<string>, content: map<string, string>, stat: string -> PathState,
                         create: string -> CreateResult, skipped: bool): nat
    requires forall k :: 0 <= k < |order| ==> order[k] in content
    ensures CountOutcomes(order, content, stat, create, skipped) <= |order|
  {
    if order == [] then 0
    else
      var o := Outcome(order[|order| - 1], content, stat, create);
      CountOutcomes(order[..|order| - 1], content, stat, create, skipped) +
      (if (if skipped then o.SkippedEmpty? || o.SkippedExisting? else o.Wrote?) then 1 else 0)
  }

  lemma NewFilesSnoc(header: string, order: seq<string>, f: string, content: map<string, string>,
                     stat: string -> PathState, create: string -> CreateResult)
    requires forall k :: 0 <= k < |order| ==> order[k] in content
    requires f in content
    ensures NewFilesBuffer(header, order + [f], content, stat, create) ==
            NewFilesBuffer(header, order, content, stat, create) + NewFileLine(f, Outcome(f, content, stat, create))
    ensures CountOutcomes(order + [f], content, stat, create, false) ==
            CountOutcomes(order, content, stat, create, false) + if Outcome(f, content, stat, create).Wrote? then 1 else 0
    ensures CountOutcomes(order + [f], content, stat, create, true) ==
            CountOutcomes(order, content, stat, create, true) +
            if Outcome(f, content, stat, create).SkippedEmpty? || Outcome(f, content, stat, create).SkippedExisting?
            then 1 else 0
  {
    assert (order + [f])[..|order|] == order;
  }

  /** The summary line closing the report. */
  function NewFilesSummary(written: nat, skipped: nat): string
  {
    "\nNew files processing complete - " + NatToString(written) + " written, " + NatToString(skipped) + " skipped\n"
  }

  /** `created` holds exactly the visited paths whose outcome is Wrote, each with its content. */
  ghost predicate CreatedExactly(created: map<string, string>, order: seq<string>, content: map<string, string>,
                                 stat: string -> PathState, create: string -> CreateResult)
  {
    (forall p :: p in created ==> p in order && p in content && created[p] == content[p]) &&
    forall p :: p in content ==> (p in created <==> p in order && Outcome(p, content, stat, create).Wrote?)
  }

  lemma CreatedStep(created: map<string, string>, order: seq<string>, content: map<string, string>,
                    stat: string -> PathState, create: string -> CreateResult, f: string)
    requires CreatedExactly(created, order, content, stat, create) && f in content && f !in order
    ensures Outcome(f, content, stat, create).Wrote? ==>
              CreatedExactly(created[f := content[f]], order + [f], content, stat, create) &&
              |created[f := content[f]]| == |created| + 1
    ensures !Outcome(f, content, stat, create).Wrote? ==> CreatedExactly(created, order + [f], content, stat, create)
  {
  }

  /**
   * The body of the loop over the proposed files: the report line for one path,
   * whether it was created and whether it counts as skipped.
   */
  method NewFileStep(path: string, text: string, state: PathState, create: CreateResult)
    returns (line: string, wrote: bool, skip: bool)
    ensures line == NewFileLine(path, NewFileOutcomeFor(text, state, create))
    ensures wrote <==> NewFileOutcomeFor(text, state, create).Wrote?
    ensures skip <==> NewFileOutcomeFor(text, state, create).SkippedEmpty? ||
                      NewFileOutcomeFor(text, state, create).SkippedExisting?
  {
    TrimSpaceEmptyIffBlank(text);
    wrote, skip := false, false;
    if TrimSpace(text) == "" {
      line, skip := NewFileLine(path, SkippedEmpty), true;
      return;
    }
    match state
    case Present =>
      line, skip := NewFileLine(path, SkippedExisting), true;
    case StatError(m) =>
      line := NewFileLine(path, StatFailed(m));
    case Missing =>
      match create
      case MkdirError(m) =>
        line := NewFileLine(path, MkdirFailed(m));
      case WriteError(m) =>
        line := NewFileLine(path, WriteFailed(m));
      case Created =>
        line, wrote := NewFileLine(path, Wrote), true;
  }

  /**
   * WriteNewFiles: each proposed path with non-blank content that does not
   * exist yet is created with that content; nothing that exists is overwritten.
   * The report has one line per path and a summary whose counts are the paths
   * created and the paths skipped (empty content or already present).
   */
  method WriteNewFiles(newFiles: Option<NewFilesData>, stat: string -> PathState, create: string -> CreateResult)
    returns (output: string, order: seq<string>, created: map<string, string>, written: nat, skipped: nat)
    ensures newFiles.None? ==> output == NoNewFilesData && created == map[]
    ensures newFiles.Some? && newFiles.value.newContent == map[] ==> output == NoNewContent && created == map[]
    ensures newFiles.Some? && newFiles.value.newContent != map[] ==>
              NewFilesWritten(newFiles.value.newContent, stat, create, order, created, written, skipped) &&
              output == NewFilesBuffer(NewFilesHeader(|newFiles.value.newContent|), order,
                                       newFiles.value.newContent, stat, create) +
                        NewFilesSummary(written, skipped)
  {
    order, created, written, skipped := [], map[], 0, 0;
    if newFiles.None? {
      return NoNewFilesData, order, created, written, skipped;
    }
    var content := newFiles.value.newContent;
    if |content| == 0 {
      return NoNewContent, order, created, written, skipped;
    }
    var buffer;
    buffer, order, created, written, skipped := CreateNewFiles(content, stat, create);
    output := buffer + NewFilesSummary(written, skipped);
  }

  /**
   * The state after every proposed path has been handled: `order` lists each
   * path once, exactly the paths whose outcome is Wrote are created with their
   * content, and the counts are those of created and of skipped paths.
   */
  ghost predicate NewFilesWritten(content: map<string, string>, stat: string -> PathState,
                                  create: string -> CreateResult, order: seq<string>,
                                  created: map<string, string>, written: nat, skipped: nat)
  {
    EnumeratesKeys(order, content) &&
    CreatedExactly(created, order, content, stat, create) &&
    written == CountOutcomes(order, content, stat, create, false) == |created| &&
    skipped == CountOutcomes(order, content, stat, create, true) &&
    written + skipped <= |content|
  }

  /** A created file was proposed with non-blank content, did not exist, and its creation succeeded. */
  lemma CreatedOnlyWhenMissing(content: map<string, string>, stat: string -> PathState,
                               create: string -> CreateResult, order: seq<string>,
                               created: map<string, string>, written: nat, skipped: nat, p: string)
    requires NewFilesWritten(content, stat, create, order, created, written, skipped)
    requires p in created
    ensures p in content && created[p] == content[p]
    ensures !IsBlank(content[p]) && stat(p).Missing? && create(p).Created?
  {
  }

  /** The loop over the proposed paths, in an arbitrary order. */
  method CreateNewFiles(content: map<string, string>, stat: string -> PathState, create: string -> CreateResult)
    returns (buffer: string, order: seq<string>, created: map<string, string>, written: nat, skipped: nat)
    ensures NewFilesWritten(content, stat, create, order, created, written, skipped)
    ensures buffer == NewFilesBuffer(NewFilesHeader(|content|), order, content, stat, create)
  {
    order, created, written, skipped := [], map[], 0, 0;
    buffer := NewFilesHeader(|content|);
    var remaining := content.Keys;
    VisitStart(content.Keys);
    while remaining != {}
      invariant Visiting(order, remaining, content.Keys)
      invariant buffer == NewFilesBuffer(NewFilesHeader(|content|), order, content, stat, create)
      invariant written == CountOutcomes(order, content, stat, create, false) == |created|
      invariant skipped == CountOutcomes(order, content, stat, create, true)
      invariant written + skipped <= |order|
      invariant CreatedExactly(created, order, content, stat, create)
      decreases |remaining|
    {
      var path :| path in remaining;
      var text := content[path];
      var line, wrote, skip := NewFileStep(path, text, stat(path), create(path));
      VisitStep(order, remaining, content.Keys, path);
      CreatedStep(created, order, content, stat, create, path);
      NewFilesSnoc(NewFilesHeader(|content|), order, path, content, stat, create);
      if wrote {
        created := created[path := text];
        written := written + 1;
      }
      if skip {
        skipped := skipped + 1;
      }
      buffer := buffer + line;
      order := order + [path];
      remaining := remaining - {path};
    }
    VisitDone(order, content);
  }

  // ---------------------------------------------------------------------------
  // The generate call

  /**
   * The new files a run creates: with no proposals nothing; otherwise exactly the
   * proposed paths whose outcome is Wrote, each with its proposed content.
   */
  predicate CreatesExactly(newFiles: Option<NewFilesData>, stat: string -> PathState,
                           create: string -> CreateResult, created: map<string, string>)
  {
    var content := if newFiles.Some? then newFiles.value.newContent else map[];
    (forall p :: p in created ==> p in content && created[p] == content[p]) &&
    forall p :: p in content ==> (p in created <==> Outcome(p, content, stat, create).Wrote?)
  }

  /**
   * How the request fares before the first chunk: the codehost URL cannot be
   * read, the server URL is not set, the request cannot be built or sent, the
   * server answers 422, or the stream starts.
   */
  datatype Opening =
    | NoCodehostURL(reason: string)
    | NoServerURL
    | BadRequest(reason: string)
    | RequestFailed(reason: string)
    | Unprocessable(body: string)
    | Streams

  /** The error an opening ends the call with; the older client does not check for 422 and reads the body as the stream. */
  function OpeningError(variant: Variant, opening: Opening): Option<string>
  {
    match opening
    case NoCodehostURL(reason) => Some("failed to get codehost URL: " + reason)
    case NoServerURL => Some("MACHTIANI_URL environment variable is not set")
    case BadRequest(reason) => Some("failed to create request: " + reason)
    case RequestFailed(reason) => Some("failed to make API request: " + reason)
    case Unprocessable(body) => if variant == Current then Some("unprocessable entity: " + body) else None
    case Streams => None
  }

  /**
   * GenerateResponse: the request, the chunk loop (the whole stream consumed or
   * the first error), then the current client writes the proposed new files in
   * every mode (the older one has no such step). `opening` is how the request
   * fared before the stream; `stat` and `create` are what the file system reports
   * for each path; `created` is what was written to it; `display` is what was
   * printed, block by block.
   */
  method GenerateResponse(variant: Variant, mode: string, prompt: string, opening: Opening, frames: seq<Frame>,
                          stat: string -> PathState, create: string -> CreateResult)
    returns (r: Result<StreamResult>, display: seq<string>, created: map<string, string>)
    // Before the stream: the error, with nothing shown and nothing created.
    ensures OpeningError(variant, opening).Some? ==>
              r == Failure(OpeningError(variant, opening).value) && display == [] && created == map[]
    ensures OpeningError(variant, opening).None? ==>
              (r.Failure? <==> !NoFrameError(variant, IsAnswerOnly(variant, mode), frames))
    ensures OpeningError(variant, opening).None? && r.Failure? ==>
              exists k :: 0 <= k < |frames| && NoFrameError(variant, IsAnswerOnly(variant, mode), frames[..k])
                && FrameError(variant, IsAnswerOnly(variant, mode), frames[k]) == Some(r.error)
    ensures r.Success? ==>
              r.value.rawResponse == Header(prompt, IsAnswerOnly(variant, mode)) + StreamTokens(variant, frames)
                                     + Trailer(StreamPaths(variant, IsAnswerOnly(variant, mode), frames))
    ensures r.Success? ==> r.value.retrievedFilePaths == StreamPaths(variant, IsAnswerOnly(variant, mode), frames)
    ensures r.Success? ==> r.value.updateContentResponse == StreamUpdates(variant, IsAnswerOnly(variant, mode), frames)
    // The rendered answer and what was printed.
    ensures r.Success? ==>
              r.value.llmModelResponse == Answer(IsAnswerOnly(variant, mode), Header(prompt, IsAnswerOnly(variant, mode)),
                                                 StreamTokens(variant, frames),
                                                 StreamPaths(variant, IsAnswerOnly(variant, mode), frames))
              && display == Display(IsAnswerOnly(variant, mode), Header(prompt, IsAnswerOnly(variant, mode)),
                                    StreamTokens(variant, frames),
                                    StreamPaths(variant, IsAnswerOnly(variant, mode), frames))
    // The new files: the last decodable proposal, with its path list filled in.
    ensures r.Success? ==> FilledNewFiles(StreamNewFiles(variant, IsAnswerOnly(variant, mode), frames), r.value.newFiles)
    ensures r.Success? && variant == Older ==> r.value.updateContentResponse == map[] && r.value.newFiles.None?
    // Files are written only after a stream that ended well, by the current client, in any mode.
    ensures r.Failure? || variant == Older ==> created == map[]
    ensures r.Success? && variant == Current ==>
              CreatesExactly(StreamNewFiles(variant, IsAnswerOnly(variant, mode), frames), stat, create, created)
  {
    var openingError := OpeningError(variant, opening);
    if openingError.Some? {
      return Failure(openingError.value), [], map[];
    }
    var stream := new ResponseStream(variant, mode, prompt);
    var err, k := stream.Consume(frames);
    if err.Some? {
      return Failure(err.value), stream.display, map[];
    }
    var result := stream.Finish();
    r, display, created := Success(result), stream.display, map[];
    if variant == Current {
      var output, order, written, skipped;
      output, order, created, written, skipped := WriteNewFiles(result.newFiles, stat, create);
    }
  }

  // ---------------------------------------------------------------------------
  // Compatibility with the server

  /** The server's reply to the head-OID request: a transport failure, or a status, body and decoded JSON. */
  datatype Reply = SendFailed(msg: string) | Response(status: int, body: string, decoded: Result<map<string, string>>)

  const HeadOIDKey: string := "head_oid"
  const MessageKey: string := "message"

  /**
   * GetInstallInfo: whether the server's head OID equals the CLI's, and the
   * server's message. `configError` is the outcome of loading the configuration.
   */
  function GetInstallInfo(configError: Option<string>, machtianiURL: string, reply: Reply, headOID: string)
    : Result<(bool, string)>
  {
    if configError.Some? then Failure("error loading config: " + configError.value)
    else if machtianiURL == "" then Failure("MACHTIANI_URL environment variable is not set")
    else match reply
      case SendFailed(m) => Failure("error sending request: " + m)
      case Response(status, body, decoded) =>
        if status != 200 then
          Failure("error: received status code " + IntToString(status) + " from the server: " + body)
        else match decoded
          case Failure(m) => Failure("error decoding response: " + m)
          case Success(fields) =>
            if HeadOIDKey !in fields then Failure("response does not contain head_oid")
            else if MessageKey !in fields then Failure("response does not contain message")
            else Success((fields[HeadOIDKey] == headOID, fields[MessageKey]))
  }

  /**
   * The check succeeds exactly when the configuration loads, the URL is set, the
   * server answers 200 with a decodable object holding both keys; the CLI is then
   * compatible exactly when the returned head OID equals its own.
   */
  lemma InstallInfoSpec(configError: Option<string>, machtianiURL: string, reply: Reply, headOID: string)
    ensures GetInstallInfo(configError, machtianiURL, reply, headOID).Success? <==>
              configError.None? && machtianiURL != "" && reply.Response? && reply.status == 200 &&
              reply.decoded.Success? && HeadOIDKey in reply.decoded.value && MessageKey in reply.decoded.value
    ensures GetInstallInfo(configError, machtianiURL, reply, headOID).Success? ==>
              var (compatible, message) := GetInstallInfo(configError, machtianiURL, reply, headOID).value;
              (compatible <==> reply.decoded.value[HeadOIDKey] == headOID) &&
              message == reply.decoded.value[MessageKey]
  {
  }
}
