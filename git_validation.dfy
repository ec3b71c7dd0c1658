/**
 * The mct client's check that the HEAD commit exists on some branch of the
 * origin remote: the `git ls-remote --heads origin` listing is parsed, the
 * priority branches (the current branch unless HEAD is detached, then master
 * and main) are tried first, then every other remote branch in listing order.
 *
 * Git is an oracle: the listing (or its error), the detached-HEAD test and the
 * current branch, whether `git fetch origin <branch>` succeeds, and how
 * `git merge-base --is-ancestor` ends for each `origin/<branch>` reference.
 */
module GitValidation {
  import opened Common

  /** How running a git command ended: its exit status, or an error that is not an exit status. */
  datatype RunResult = Exited(code: int) | RunFailed(reason: string)

  /** isCommitInBranch: status 0 means contained, 1 means not contained, anything else is an error. */
  function IsCommitInBranch(run: RunResult): (r: Result<bool>)
    ensures r == Success(true) <==> run == Exited(0)
    ensures r == Success(false) <==> run == Exited(1)
    ensures r.Failure? <==> !(run == Exited(0) || run == Exited(1))
  {
    match run
    case Exited(code) =>
      if code == 0 then Success(true)
      else if code == 1 then Success(false)
      else Failure("merge-base failed with unexpected code " + IntToString(code))
    case RunFailed(reason) => Failure("merge-base failed: " + reason)
  }

  /** isPriorityBranch: membership in the priority list. */
  method IsPriorityBranch(branchName: string, priorityBranches: seq<string>) returns (r: bool)
    ensures r <==> branchName in priorityBranches
  {
    for i := 0 to |priorityBranches|
      invariant branchName !in priorityBranches[..i]
    {
      if priorityBranches[i] == branchName {
        return true;
      }
    }
    assert priorityBranches[..|priorityBranches|] == priorityBranches;
    return false;
  }

  /** getPriorityBranches: the current branch unless HEAD is detached, then master and main. */
  function PriorityBranches(detached: Result<bool>, currentBranch: Result<string>): (r: Result<seq<string>>)
    ensures r.Success? ==> |r.value| >= 2 && r.value[|r.value| - 2..] == ["master", "main"]
    ensures r == Success(["master", "main"]) <== detached == Success(true)
    ensures detached == Success(false) && currentBranch.Success? ==> r == Success([currentBranch.value, "master", "main"])
  {
    if detached.Failure? then Failure("failed to check detached HEAD state: " + detached.error)
    else if !detached.value then
      if currentBranch.Failure? then Failure("failed to get current branch: " + currentBranch.error)
      else Success([currentBranch.value, "master", "main"])
    else Success(["master", "main"])
  }

  // ---------------------------------------------------------------------------
  // The ls-remote listing

  const HeadsPrefix := "refs/heads/"

  function BranchName(branchRef: string): string
  {
    TrimPrefix(branchRef, HeadsPrefix)
  }

  /** The references of the listing: the second field of every line that has at least two. */
  function BranchRefs(lines: seq<string>): seq<string>
  {
    if lines == [] then []
    else
      var n := |lines| - 1;
      var parts := Fields(lines[n]);
      BranchRefs(lines[..n]) + (if |parts| < 2 then [] else [parts[1]])
  }

  /** Line j of the listing has at least two fields, the second being ref. */
  predicate RefAt(lines: seq<string>, j: int, ref: string)
  {
    0 <= j < |lines| && |Fields(lines[j])| >= 2 && Fields(lines[j])[1] == ref
  }

  /** A reference comes from a line with at least two fields, and every such line gives one. */
  lemma {:induction false} BranchRefsMembers(lines: seq<string>)
    ensures forall ref :: ref in BranchRefs(lines) <==> exists j :: RefAt(lines, j, ref)
  {
    if lines != [] {
      var n := |lines| - 1;
      var init := lines[..n];
      BranchRefsMembers(init);
      var parts := Fields(lines[n]);
      var last := if |parts| < 2 then [] else [parts[1]];
      assert BranchRefs(lines) == BranchRefs(init) + last;
      forall ref | ref in BranchRefs(lines)
        ensures exists j :: RefAt(lines, j, ref)
      {
        if ref in BranchRefs(init) {
          var j :| RefAt(init, j, ref);
          assert lines[j] == init[j];
          assert RefAt(lines, j, ref);
        } else {
          assert RefAt(lines, n, ref);
        }
      }
      forall ref | exists j :: RefAt(lines, j, ref)
        ensures ref in BranchRefs(lines)
      {
        var j :| RefAt(lines, j, ref);
        if j < n {
          assert init[j] == lines[j];
          assert RefAt(init, j, ref);
        } else {
          assert j == n && parts == Fields(lines[j]);
          assert last == [ref];
        }
      }
    }
  }

  /** The branch names of the references. */
  function Names(branchRefs: seq<string>): set<string>
  {
    if branchRefs == [] then {}
    else Names(branchRefs[..|branchRefs| - 1]) + {BranchName(branchRefs[|branchRefs| - 1])}
  }

  lemma {:induction false} NamesMembers(branchRefs: seq<string>)
    ensures forall b :: b in Names(branchRefs) <==> exists ref :: ref in branchRefs && BranchName(ref) == b
  {
    if branchRefs != [] {
      var n := |branchRefs| - 1;
      NamesMembers(branchRefs[..n]);
      assert branchRefs == branchRefs[..n] + [branchRefs[n]];
    }
  }

  /** The loop over the listing's lines: the references in order and the set of branch names. */
  method ParseRemoteBranches(lines: seq<string>) returns (remoteBranches: set<string>, branchRefs: seq<string>)
    ensures branchRefs == BranchRefs(lines)
    ensures remoteBranches == Names(branchRefs)
  {
    remoteBranches, branchRefs := {}, [];
    for i := 0 to |lines|
      invariant branchRefs == BranchRefs(lines[..i])
      invariant remoteBranches == Names(branchRefs)
    {
      assert lines[..i + 1][..i] == lines[..i];
      var parts := Fields(lines[i]);
      if |parts| < 2 {
        continue;
      }
      var branchRef := parts[1];
      var branchName := TrimPrefix(branchRef, HeadsPrefix);
      remoteBranches := remoteBranches + {branchName};
      ghost var prev := branchRefs;
      branchRefs := branchRefs + [branchRef];
      assert branchRefs[..|branchRefs| - 1] == prev;
    }
    assert lines[..|lines|] == lines;
  }

  // ---------------------------------------------------------------------------
  // Visit order

  /** The priority branches that exist on the remote, in priority order. */
  function PriorityVisits(priority: seq<string>, remoteBranches: set<string>): seq<string>
  {
    if priority == [] then []
    else
      var n := |priority| - 1;
      PriorityVisits(priority[..n], remoteBranches) + (if priority[n] in remoteBranches then [priority[n]] else [])
  }

  /** The remaining branches, in listing order, leaving out every name on the priority list. */
  function OtherVisits(branchRefs: seq<string>, priority: seq<string>): seq<string>
  {
    if branchRefs == [] then []
    else
      var n := |branchRefs| - 1;
      var name := BranchName(branchRefs[n]);
      OtherVisits(branchRefs[..n], priority) + (if name in priority then [] else [name])
  }

  /** Every branch the check may fetch, in the order it tries them. */
  function VisitOrder(priority: seq<string>, remoteBranches: set<string>, branchRefs: seq<string>): seq<string>
  {
    PriorityVisits(priority, remoteBranches) + OtherVisits(branchRefs, priority)
  }

  lemma {:induction false} PriorityVisitsMembers(priority: seq<string>, remoteBranches: set<string>)
    ensures forall b :: b in PriorityVisits(priority, remoteBranches) <==> b in priority && b in remoteBranches
  {
    if priority != [] {
      var n := |priority| - 1;
      PriorityVisitsMembers(priority[..n], remoteBranches);
      assert priority == priority[..n] + [priority[n]];
    }
  }

  lemma {:induction false} OtherVisitsMembers(branchRefs: seq<string>, priority: seq<string>)
    ensures forall b :: b in OtherVisits(branchRefs, priority) <==>
              b !in priority && exists ref :: ref in branchRefs && BranchName(ref) == b
  {
    if branchRefs != [] {
      var n := |branchRefs| - 1;
      OtherVisitsMembers(branchRefs[..n], priority);
      assert branchRefs == branchRefs[..n] + [branchRefs[n]];
    }
  }

  /**
   * The visit order tries a priority branch only when it exists on the remote,
   * never tries a priority branch among the other branches, and tries every
   * branch of the listing.
   */
  lemma VisitOrderSpec(priority: seq<string>, branchRefs: seq<string>)
    ensures var remote := Names(branchRefs);
            var order := VisitOrder(priority, remote, branchRefs);
            (forall b :: b in order <==> b in remote)
            && (forall k :: |PriorityVisits(priority, remote)| <= k < |order| ==> order[k] !in priority)
  {
    var remote := Names(branchRefs);
    NamesMembers(branchRefs);
    PriorityVisitsMembers(priority, remote);
    OtherVisitsMembers(branchRefs, priority);
    var p, o := PriorityVisits(priority, remote), OtherVisits(branchRefs, priority);
    forall k | |p| <= k < |p + o| ensures (p + o)[k] !in priority {
      assert (p + o)[k] == o[k - |p|];
    }
  }

  /** When the current branch is master, master is tried twice in a row: the priority list repeats it. */
  lemma MasterTriedTwice(branchRefs: seq<string>)
    requires "refs/heads/master" in branchRefs
    ensures var visits := PriorityVisits(["master", "master", "main"], Names(branchRefs));
            |visits| >= 2 && visits[0] == "master" && visits[1] == "master"
  {
    var remote := Names(branchRefs);
    NamesMembers(branchRefs);
    assert BranchName("refs/heads/master") == "master" by {
      assert HasPrefix("refs/heads/master", HeadsPrefix);
    }
    assert "master" in remote;
    var p := ["master", "master", "main"];
    assert p[..2][..1] == p[..1];
    assert p[..1][..0] == [];
    assert PriorityVisits(p[..1], remote) == ["master"];
    assert PriorityVisits(p[..2], remote) == ["master", "master"];
    assert p[..3][..2] == p[..2];
    assert p[..3] == p;
  }

  /** A prefix of a run of visits is the visits of a prefix. */
  lemma {:induction false} PriorityVisitsPrefix(priority: seq<string>, remoteBranches: set<string>, i: nat)
    requires i <= |priority|
    ensures PriorityVisits(priority[..i], remoteBranches) <= PriorityVisits(priority, remoteBranches)
    decreases |priority| - i
  {
    if i < |priority| {
      var n := |priority| - 1;
      assert priority[..n][..i] == priority[..i];
      PriorityVisitsPrefix(priority[..n], remoteBranches, i);
    } else {
      assert priority[..i] == priority;
    }
  }

  lemma {:induction false} OtherVisitsPrefix(branchRefs: seq<string>, priority: seq<string>, i: nat)
    requires i <= |branchRefs|
    ensures OtherVisits(branchRefs[..i], priority) <= OtherVisits(branchRefs, priority)
    decreases |branchRefs| - i
  {
    if i < |branchRefs| {
      var n := |branchRefs| - 1;
      assert branchRefs[..n][..i] == branchRefs[..i];
      OtherVisitsPrefix(branchRefs[..n], priority, i);
    } else {
      assert branchRefs[..i] == branchRefs;
    }
  }

  // ---------------------------------------------------------------------------
  // The check

  /** Git as seen by the check. */
  datatype Git = Git(
    lsRemote: Result<string>,
    detached: Result<bool>,
    currentBranch: Result<string>,
    fetchSucceeds: string -> bool,
    mergeBase: string -> RunResult)

  /** Branch b is fetched and found to contain the commit. */
  predicate Confirms(git: Git, b: string)
  {
    git.fetchSucceeds(b) && IsCommitInBranch(git.mergeBase("origin/" + b)) == Success(true)
  }

  /** The branches fetched so far: none of them confirmed the commit. */
  predicate NoneConfirm(git: Git, fetched: seq<string>)
  {
    forall k :: 0 <= k < |fetched| ==> !Confirms(git, fetched[k])
  }

  function ListingLines(output: string): seq<string>
  {
    Split(TrimSpace(output), '\n')
  }

  /** Tries one branch: fetches it and asks merge-base whether it contains the commit. */
  method TryBranch(git: Git, b: string) returns (found: bool)
    ensures found <==> Confirms(git, b)
  {
    if !git.fetchSucceeds(b) {
      return false;
    }
    var contained := IsCommitInBranch(git.mergeBase("origin/" + b));
    if contained.Failure? {
      return false;
    }
    return contained.value;
  }

  /**
   * A search along `order` that fetched `fetched`: a prefix of the order that
   * ends at its first confirming branch when `found`, and the whole order, with
   * no branch confirming, otherwise.
   */
  predicate Searched(git: Git, order: seq<string>, found: bool, fetched: seq<string>)
  {
    fetched <= order
    && (found ==> |fetched| >= 1 && Confirms(git, fetched[|fetched| - 1]) && NoneConfirm(git, fetched[..|fetched| - 1]))
    && (!found ==> fetched == order && NoneConfirm(git, order))
  }

  /** A failed search followed by a second search is a search along both orders. */
  lemma SearchedThen(git: Git, first: seq<string>, second: seq<string>, found: bool, fetched: seq<string>)
    requires Searched(git, first, false, first)
    requires Searched(git, second, found, fetched)
    ensures Searched(git, first + second, found, first + fetched)
  {
    var all := first + fetched;
    if found {
      assert all[..|all| - 1] == first + fetched[..|fetched| - 1];
      assert all[|all| - 1] == fetched[|fetched| - 1];
    }
  }

  /** The loop over the priority branches that exist on the remote. */
  method TryPriorityBranches(git: Git, priority: seq<string>, remoteBranches: set<string>)
    returns (found: bool, fetched: seq<string>)
    ensures Searched(git, PriorityVisits(priority, remoteBranches), found, fetched)
  {
    fetched := [];
    for i := 0 to |priority|
      invariant fetched == PriorityVisits(priority[..i], remoteBranches)
      invariant NoneConfirm(git, fetched)
    {
      assert priority[..i + 1][..i] == priority[..i];
      var pb := priority[i];
      if pb !in remoteBranches {
        continue;
      }
      ghost var prev := fetched;
      fetched := fetched + [pb];
      found := TryBranch(git, pb);
      if found {
        PriorityVisitsPrefix(priority, remoteBranches, i + 1);
        assert fetched[..|fetched| - 1] == prev;
        return;
      }
    }
    assert priority[..|priority|] == priority;
    found := false;
  }

  /** The loop over the listing's remaining branches, skipping the priority ones. */
  method TryOtherBranches(git: Git, branchRefs: seq<string>, priority: seq<string>)
    returns (found: bool, fetched: seq<string>)
    ensures Searched(git, OtherVisits(branchRefs, priority), found, fetched)
  {
    fetched := [];
    for i := 0 to |branchRefs|
      invariant fetched == OtherVisits(branchRefs[..i], priority)
      invariant NoneConfirm(git, fetched)
    {
      assert branchRefs[..i + 1][..i] == branchRefs[..i];
      var branchName := TrimPrefix(branchRefs[i], HeadsPrefix);
      var isPriority := IsPriorityBranch(branchName, priority);
      if isPriority {
        continue;
      }
      ghost var prev := fetched;
      fetched := fetched + [branchName];
      found := TryBranch(git, branchName);
      if found {
        OtherVisitsPrefix(branchRefs, priority, i + 1);
        assert fetched[..|fetched| - 1] == prev;
        return;
      }
    }
    assert branchRefs[..|branchRefs|] == branchRefs;
    found := false;
  }

  /**
   * ValidateHeadCommitExistsOnRemote: `fetched` lists the branches it fetches,
   * in order. It succeeds at the first branch of the visit order that contains
   * the commit, and otherwise fails after trying them all.
   */
  method ValidateHeadCommitExistsOnRemote(commitHash: string, git: Git) returns (err: Option<string>, fetched: seq<string>)
    ensures git.lsRemote.Failure? ==> err == Some("failed to list remote branches: " + git.lsRemote.error) && fetched == []
    ensures git.lsRemote.Success? && PriorityBranches(git.detached, git.currentBranch).Failure? ==>
              err == Some("failed to determine priority branches: " + PriorityBranches(git.detached, git.currentBranch).error)
              && fetched == []
    ensures git.lsRemote.Success? && PriorityBranches(git.detached, git.currentBranch).Success? ==>
              var refs := BranchRefs(ListingLines(git.lsRemote.value));
              var order := VisitOrder(PriorityBranches(git.detached, git.currentBranch).value, Names(refs), refs);
              Searched(git, order, err.None?, fetched)
              && (err.Some? ==> err == Some("commit " + commitHash + " not found in any remote branch"))
  {
    if git.lsRemote.Failure? {
      return Some("failed to list remote branches: " + git.lsRemote.error), [];
    }
    var lines := Split(TrimSpace(git.lsRemote.value), '\n');
    // strings.Split never returns an empty slice, so "no remote branches found" cannot be reported
    assert |lines| >= 1;
    var remoteBranches, branchRefs := ParseRemoteBranches(lines);
    var priorityResult := PriorityBranches(git.detached, git.currentBranch);
    if priorityResult.Failure? {
      return Some("failed to determine priority branches: " + priorityResult.error), [];
    }
    var priority := priorityResult.value;
    var found;
    found, fetched := TryPriorityBranches(git, priority, remoteBranches);
    if found {
      assert fetched <= VisitOrder(priority, remoteBranches, branchRefs);
      return None, fetched;
    }
    var others;
    found, others := TryOtherBranches(git, branchRefs, priority);
    SearchedThen(git, fetched, OtherVisits(branchRefs, priority), found, others);
    fetched := fetched + others;
    if found {
      return None, fetched;
    }
    return Some("commit " + commitHash + " not found in any remote branch"), fetched;
  }
}
