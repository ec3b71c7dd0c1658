/**
 * Repository facts the older machtiani client reads through git: the project
 * name from the origin URL, a remote's URL, the current branch (with its
 * detached-HEAD fallback) and the HEAD commit hash.
 *
 * Every git invocation is an input: what the command printed, or the error it
 * ended with.
 */
module GitUtils {
  import opened Common

  // ---------------------------------------------------------------------------
  // GetProjectName

  /** The last piece of a split. */
  function LastOf(parts: seq<string>): string
  {
    if parts == [] then "" else parts[|parts| - 1]
  }

  /** p is a suffix of s that is all of s or follows a separator. */
  predicate FollowsSeparator(s: string, sep: char, p: string)
  {
    HasSuffix(s, p) && (|p| == |s| || s[|s| - |p| - 1] == sep)
  }

  /**
   * Splitting a non-empty string gives the whole string when the separator does
   * not occur; otherwise the last piece is that of the string without its first
   * character, and it is the whole of that rest only when a separator was cut off.
   */
  lemma SplitLastStep(s: string, sep: char)
    requires s != []
    ensures (sep !in s && Split(s, sep) == [s])
            || (LastOf(Split(s, sep)) == LastOf(Split(s[1..], sep)) && (s[0] == sep || LastOf(Split(s[1..], sep)) != s[1..]))
  {
    var t := s[1..];
    var rest := Split(t, sep);
    if s[0] == sep {
      var r := [""] + rest;
      assert Split(s, sep) == r;
      assert r[|r| - 1] == rest[|rest| - 1];
    } else if sep !in t {
      SplitWhole(s, sep);
    } else {
      SplitWhole(t, sep);
      var r := [[s[0]] + rest[0]] + rest[1..];
      assert Split(s, sep) == r;
      assert r[|r| - 1] == rest[|rest| - 1];
    }
  }

  /** A suffix that follows a separator in the rest of s follows one in s too. */
  lemma FollowsSeparatorCons(s: string, sep: char, tail: string)
    requires s != [] && FollowsSeparator(s[1..], sep, tail)
    requires s[0] == sep || tail != s[1..]
    ensures FollowsSeparator(s, sep, tail)
  {
    var t := s[1..];
    assert t[|t| - |tail|..] == s[|s| - |tail|..];
    if |tail| == |t| {
      assert tail == t;
    } else {
      assert t[|t| - |tail| - 1] == s[|s| - |tail| - 1];
    }
  }

  /** The last piece of a split is the longest suffix free of the separator. */
  lemma {:induction false} SplitLast(s: string, sep: char)
    ensures FollowsSeparator(s, sep, LastOf(Split(s, sep)))
  {
    if s != [] {
      SplitLastStep(s, sep);
      if sep !in s && Split(s, sep) == [s] {
        assert s[|s| - |s|..] == s;
      } else {
        SplitLast(s[1..], sep);
        FollowsSeparatorCons(s, sep, LastOf(Split(s[1..], sep)));
      }
    } else {
      assert Split(s, sep) == [""];
    }
  }

  /** The piece of s after its last separator, or all of s when there is none. */
  function LastPiece(s: string, sep: char): (r: string)
    ensures sep !in r && FollowsSeparator(s, sep, r)
  {
    var parts := Split(s, sep);
    SplitLast(s, sep);
    assert LastOf(parts) == parts[|parts| - 1];
    parts[|parts| - 1]
  }

  /** After the separator that ends a, the last piece is b. */
  lemma LastPieceAfter(a: string, b: string, sep: char)
    requires sep !in b
    ensures LastPiece(a + [sep] + b, sep) == b
  {
    var s := a + [sep] + b;
    var p := LastPiece(s, sep);
    assert s[|s| - |b|..] == b;
    // the piece holds no separator, so it starts after the one at |a|; a piece
    // shorter than b would follow a character of b, which is no separator either
    assert forall i :: |s| - |p| <= i < |s| ==> s[i] == p[i - (|s| - |p|)];
    assert s[|a|] == sep;
    assert forall i :: |a| < i < |s| ==> s[i] == b[i - |a| - 1];
    assert p == s[|s| - |p|..];
  }

  /** GetProjectName on the origin URL git printed: its last `/`-piece, less one `.git` suffix. */
  function ProjectName(url: string): (r: string)
    ensures '/' !in r
  {
    var name := LastPiece(TrimSpace(url), '/');
    var r := TrimSuffix(name, ".git");
    assert forall i :: 0 <= i < |r| ==> r[i] == name[i];
    r
  }

  /** GetProjectName: the error of `git config --get remote.origin.url` is passed on unchanged. */
  function GetProjectName(output: Result<string>): (r: Result<string>)
    ensures output.Failure? ==> r == output
    ensures output.Success? ==> r == Success(ProjectName(output.value))
  {
    if output.Failure? then output else Success(ProjectName(output.value))
  }

  /** A URL whose last segment is name.git names the project name. */
  lemma ProjectNameOfRemote(base: string, name: string)
    requires '/' !in name
    requires forall i :: 0 <= i < |base + "/" + name + ".git"| ==> !IsSpace((base + "/" + name + ".git")[i])
    ensures ProjectName(base + "/" + name + ".git") == name
  {
    var url := base + "/" + name + ".git";
    TrimSpaceNoSpace(url);
    assert url == base + ['/'] + (name + ".git");
    LastPieceAfter(base, name + ".git", '/');
    assert (name + ".git")[..|name|] == name;
  }

  /**
   * A trailing slash leaves an empty last segment, so the project name is
   * empty; the mct client's extractRepoName skips empty segments instead.
   */
  lemma TrailingSlashEmptiesName(url: string)
    requires forall i :: 0 <= i < |url + "/"| ==> !IsSpace((url + "/")[i])
    ensures ProjectName(url + "/") == ""
  {
    var t := url + "/";
    TrimSpaceNoSpace(t);
    assert t == url + ['/'] + "";
    LastPieceAfter(url, "", '/');
    assert LastPiece(TrimSpace(t), '/') == "";
    assert TrimSuffix("", ".git") == "";
  }

  // ---------------------------------------------------------------------------
  // GetRemoteURL

  /** getRemoteURL: the trimmed output of `git remote get-url`, or its error wrapped with the name. */
  function RemoteURL(remoteName: string, output: Result<string>): (r: Result<string>)
    ensures output.Failure? ==> r == Failure("failed to get remote URL for " + remoteName + ": " + output.error)
    ensures r.Success? ==> IsTrimmed(r.value)
  {
    if output.Failure? then Failure("failed to get remote URL for " + remoteName + ": " + output.error)
    else
      TrimSpaceTrimmed(output.value);
      Success(TrimSpace(output.value))
  }

  /**
   * GetRemoteURL: git runs before the name is checked, but an empty name is
   * reported whatever git did; otherwise git's failure is wrapped once more.
   */
  function GetRemoteURL(remoteName: string, output: Result<string>): (r: Result<string>)
    ensures remoteName == "" ==> r == Failure("remote name cannot be empty")
    ensures r.Success? <==> remoteName != "" && output.Success?
    ensures r.Success? ==> IsTrimmed(r.value)
    ensures remoteName != "" && output.Failure? ==>
              r == Failure("Error fetching remote URL: " + RemoteURL(remoteName, output).error)
  {
    var fetched := RemoteURL(remoteName, output);
    if remoteName == "" then Failure("remote name cannot be empty")
    else if fetched.Failure? then Failure("Error fetching remote URL: " + fetched.error)
    else fetched
  }

  // ---------------------------------------------------------------------------
  // GetBranch

  const OriginPrefix := "origin/"

  /** A line of `git branch --remotes --contains HEAD` that names a branch on origin. */
  predicate IsOriginBranch(line: string)
  {
    var t := TrimSpace(line);
    HasPrefix(t, OriginPrefix) && !Contains(t, "HEAD")
  }

  /** Line k is the first line naming a branch on origin. */
  predicate FirstOriginBranchAt(lines: seq<string>, k: int)
  {
    0 <= k < |lines| && IsOriginBranch(lines[k]) && forall j :: 0 <= j < k ==> !IsOriginBranch(lines[j])
  }

  /** Some line names a branch on origin. */
  predicate SomeOriginBranch(lines: seq<string>)
  {
    exists k :: 0 <= k < |lines| && IsOriginBranch(lines[k])
  }

  const DetachedError := "detached HEAD state and no remote branch on origin found for current commit"

  /** A name with origin/ removed from a line free of HEAD is not HEAD. */
  lemma OriginNameNotHead(t: string)
    requires HasPrefix(t, OriginPrefix) && !Contains(t, "HEAD")
    ensures TrimPrefix(t, OriginPrefix) != "HEAD"
  {
    if TrimPrefix(t, OriginPrefix) == "HEAD" {
      assert OccursAt(t, "HEAD", |OriginPrefix|);
    }
  }

  /** The loop of GetBranch over the lines listing the remote branches that contain HEAD. */
  method FindOriginBranch(branches: seq<string>) returns (found: Option<string>)
    ensures found.Some? <==> SomeOriginBranch(branches)
    ensures found.Some? ==> exists k :: FirstOriginBranchAt(branches, k) && found.value == TrimPrefix(TrimSpace(branches[k]), OriginPrefix)
    ensures found.Some? ==> found.value != "HEAD"
  {
    for i := 0 to |branches|
      invariant forall j :: 0 <= j < i ==> !IsOriginBranch(branches[j])
    {
      var branchStr := TrimSpace(branches[i]);
      if HasPrefix(branchStr, OriginPrefix) && !Contains(branchStr, "HEAD") {
        assert FirstOriginBranchAt(branches, i) && SomeOriginBranch(branches);
        OriginNameNotHead(branchStr);
        return Some(TrimPrefix(branchStr, OriginPrefix));
      }
    }
    return None;
  }

  /**
   * GetBranch: `revParse` is the output of `git rev-parse --abbrev-ref HEAD`
   * and `containing` that of `git branch --remotes --contains HEAD`, which is
   * run only when the first answers HEAD. The name it returns is never HEAD.
   */
  method GetBranch(revParse: Result<string>, containing: Result<string>) returns (r: Result<string>)
    ensures revParse.Failure? ==> r == Failure("failed to get current branch name: " + revParse.error)
    ensures revParse.Success? && TrimSpace(revParse.value) != "HEAD" ==> r == Success(TrimSpace(revParse.value))
    ensures revParse.Success? && TrimSpace(revParse.value) == "HEAD" && containing.Failure? ==>
              r == Failure("error getting remote branches: " + containing.error)
    ensures revParse.Success? && TrimSpace(revParse.value) == "HEAD" && containing.Success? ==>
              var lines := Split(containing.value, '\n');
              (r.Success? <==> SomeOriginBranch(lines))
              && (r.Success? ==> exists k :: FirstOriginBranchAt(lines, k) && r.value == TrimPrefix(TrimSpace(lines[k]), OriginPrefix))
              && (r.Failure? ==> r == Failure(DetachedError))
    ensures r.Success? ==> r.value != "HEAD"
  {
    if revParse.Failure? {
      return Failure("failed to get current branch name: " + revParse.error);
    }
    var branchName := TrimSpace(revParse.value);
    if branchName == "HEAD" {
      if containing.Failure? {
        return Failure("error getting remote branches: " + containing.error);
      }
      var found := FindOriginBranch(Split(containing.value, '\n'));
      if found.Some? {
        return Success(found.value);
      }
      return Failure(DetachedError);
    }
    return Success(branchName);
  }

  // ---------------------------------------------------------------------------
  // GetHeadCommitHash

  /** How `git rev-parse HEAD` ended: what it wrote to stdout, or its error and what it wrote to stderr. */
  datatype RevParse = Completed(stdout: string) | Errored(reason: string, stderr: string)

  /**
   * GetHeadCommitHash: the trimmed hash; blank output is an error, and so is a
   * failed command, reported plainly when stderr says the directory is not a
   * repository.
   */
  function GetHeadCommitHash(run: RevParse): (r: Result<string>)
    ensures r.Success? <==> run.Completed? && !IsBlank(run.stdout)
    ensures r.Success? ==> r.value == TrimSpace(run.stdout) && r.value != "" && IsTrimmed(r.value)
    ensures run.Completed? && IsBlank(run.stdout) ==> r == Failure("empty commit hash returned from git rev-parse HEAD")
    ensures run.Errored? && Contains(run.stderr, "not a git repository") ==> r == Failure("not a git repository")
    ensures run.Errored? && !Contains(run.stderr, "not a git repository") ==>
              r == Failure("failed to execute git rev-parse HEAD: " + run.reason + ", stderr: " + run.stderr)
  {
    match run
    case Errored(reason, stderr) =>
      if Contains(stderr, "not a git repository") then Failure("not a git repository")
      else Failure("failed to execute git rev-parse HEAD: " + reason + ", stderr: " + stderr)
    case Completed(stdout) =>
      var commitHash := TrimSpace(stdout);
      TrimSpaceEmptyIffBlank(stdout);
      TrimSpaceTrimmed(stdout);
      if commitHash == "" then Failure("empty commit hash returned from git rev-parse HEAD")
      else Success(commitHash)
  }
}
