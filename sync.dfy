/**
 * The sync command of both Go clients: the loop that polls the repository's
 * status until its lock file is gone, and handleSync, which checks the local
 * repository, then either adds the repository to the service (when the
 * service does not know it) or syncs the current branch, with optional dry
 * runs that estimate the token cost first.
 *
 * Every call to the service, to git and to the user is an oracle: the world
 * holds what each of them answers. The model records, in order, the requests
 * that change something on the service or ask the user, and returns the
 * error handleSync reports.
 */
module Sync {
  import opened Common

  // ---------------------------------------------------------------------------
  // waitForRepoConfirmation

  const MaxRetries := 1800

  /** What one status check answers: an error, or the repository's error logs and lock flag. */
  datatype StatusReply = StatusFailed(message: string) | StatusOk(errorLogs: string, lockFilePresent: bool)

  /** What the loop does with one answer: poll again, or stop with an error or without one. */
  datatype Poll = KeepWaiting | Done(err: Option<string>)

  const DisappearedError := "repository disappeared during confirmation check"
  const TimeoutError := "timed out waiting for repository confirmation"

  /**
   * The decision on one answer. A missing repository ends the wait, other
   * errors are transient; the current client fails on error logs before it
   * looks at the lock flag, the older one has no such check.
   */
  function PollDecision(variant: Variant, reply: StatusReply): (d: Poll)
    ensures reply.StatusFailed? ==> (d.Done? <==> Contains(reply.message, "does not exist"))
    ensures reply.StatusFailed? && d.Done? ==> d.err == Some(DisappearedError)
    ensures d == Done(None) <==> reply.StatusOk? && !reply.lockFilePresent && (variant != Current || reply.errorLogs == "")
    ensures variant == Current && reply.StatusOk? && reply.errorLogs != "" ==>
              d == Done(Some("Error during repository processing: " + reply.errorLogs))
    ensures variant == Older && reply.StatusOk? ==> (d.Done? <==> !reply.lockFilePresent)
  {
    match reply
    case StatusFailed(message) =>
      if Contains(message, "does not exist") then Done(Some(DisappearedError)) else KeepWaiting
    case StatusOk(errorLogs, lockFilePresent) =>
      if variant == Current && errorLogs != "" then Done(Some("Error during repository processing: " + errorLogs))
      else if !lockFilePresent then Done(None)
      else KeepWaiting
  }

  /** How a wait ended: the error it returns and the number of status checks it made. */
  datatype WaitResult = WaitResult(err: Option<string>, polls: nat)

  /** The reference outcome of polling from check i on; `replies(i)` answers check i. */
  function WaitFrom(variant: Variant, replies: nat -> StatusReply, i: nat): WaitResult
    requires i <= MaxRetries
    decreases MaxRetries - i
  {
    if i == MaxRetries then WaitResult(Some(TimeoutError), MaxRetries)
    else
      match PollDecision(variant, replies(i))
      case Done(err) => WaitResult(err, i + 1)
      case KeepWaiting => WaitFrom(variant, replies, i + 1)
  }

  function Wait(variant: Variant, replies: nat -> StatusReply): WaitResult
  {
    WaitFrom(variant, replies, 0)
  }

  /** An answer that does not decide hands the wait on to the next check. */
  lemma WaitFromStep(variant: Variant, replies: nat -> StatusReply, i: nat)
    requires i < MaxRetries && PollDecision(variant, replies(i)) == KeepWaiting
    ensures WaitFrom(variant, replies, i) == WaitFrom(variant, replies, i + 1)
  {
  }

  /** The answer to check i stops the wait. */
  predicate StopsAt(variant: Variant, replies: nat -> StatusReply, i: nat)
  {
    PollDecision(variant, replies(i)).Done?
  }

  lemma {:induction false} WaitFromSpec(variant: Variant, replies: nat -> StatusReply, i: nat)
    requires i <= MaxRetries
    ensures var w := WaitFrom(variant, replies, i);
            i <= w.polls <= MaxRetries
            && (forall j :: i <= j < w.polls - 1 ==> !StopsAt(variant, replies, j))
            && ((i < w.polls && StopsAt(variant, replies, w.polls - 1) && w.err == PollDecision(variant, replies(w.polls - 1)).err)
                || (w.polls == MaxRetries && w.err == Some(TimeoutError)
                    && forall j :: i <= j < MaxRetries ==> !StopsAt(variant, replies, j)))
    decreases MaxRetries - i
  {
    if i < MaxRetries && !StopsAt(variant, replies, i) {
      WaitFromSpec(variant, replies, i + 1);
    }
  }

  /**
   * The wait makes at most 1800 checks. It stops at the first answer that
   * decides, with that answer's error; when none decides, it fails with a
   * timeout after exactly 1800 checks.
   */
  lemma WaitSpec(variant: Variant, replies: nat -> StatusReply)
    ensures var w := Wait(variant, replies);
            1 <= w.polls <= MaxRetries
            && (forall j :: 0 <= j < w.polls - 1 ==> !StopsAt(variant, replies, j))
            && (StopsAt(variant, replies, w.polls - 1) ==> w.err == PollDecision(variant, replies(w.polls - 1)).err)
            && (!StopsAt(variant, replies, w.polls - 1) ==> w.polls == MaxRetries && w.err == Some(TimeoutError))
  {
    WaitFromSpec(variant, replies, 0);
  }

  /** A first answer saying the repository does not exist fails the wait at once, in both clients. */
  lemma MissingRepositoryEndsWait(variant: Variant, replies: nat -> StatusReply)
    requires replies(0).StatusFailed? && Contains(replies(0).message, "does not exist")
    ensures Wait(variant, replies) == WaitResult(Some(DisappearedError), 1)
  {
  }

  /**
   * Error logs reported alongside a released lock: the current client fails,
   * the older one succeeds, both at the first check.
   */
  lemma ErrorLogsOnlyCurrent(replies: nat -> StatusReply, logs: string)
    requires replies(0) == StatusOk(logs, false) && logs != ""
    ensures Wait(Current, replies) == WaitResult(Some("Error during repository processing: " + logs), 1)
    ensures Wait(Older, replies) == WaitResult(None, 1)
  {
  }

  /** The seconds announced by the progress lines after n one-second waits: one line per ten. */
  function ProgressMarks(n: nat): (r: seq<nat>)
    ensures |r| == n / 10 && forall j :: 0 <= j < |r| ==> r[j] == 10 * (j + 1)
  {
    seq(n / 10, j requires 0 <= j => 10 * (j + 1))
  }

  lemma ProgressStep(n: nat)
    ensures ProgressMarks(n + 1) == if (n + 1) % 10 == 0 then ProgressMarks(n) + [n + 1] else ProgressMarks(n)
  {
    var a, b := ProgressMarks(n + 1), ProgressMarks(n);
    if (n + 1) % 10 == 0 {
      assert |a| == |b| + 1;
      assert a[|b|] == n + 1;
      assert a == b + [n + 1];
    } else {
      assert |a| == |b|;
    }
  }

  /**
   * waitForRepoConfirmation: `progress` holds the seconds printed by the
   * "Still waiting" lines. A line follows every tenth wait, including a wait
   * after the last check.
   */
  method WaitForRepoConfirmation(variant: Variant, replies: nat -> StatusReply)
    returns (err: Option<string>, polls: nat, progress: seq<nat>)
    ensures WaitResult(err, polls) == Wait(variant, replies)
    ensures 1 <= polls && progress == ProgressMarks(if StopsAt(variant, replies, polls - 1) then polls - 1 else polls)
  {
    progress := [];
    for i := 0 to MaxRetries
      invariant Wait(variant, replies) == WaitFrom(variant, replies, i)
      invariant forall j :: 0 <= j < i ==> !StopsAt(variant, replies, j)
      invariant progress == ProgressMarks(i)
    {
      var decision := PollDecision(variant, replies(i));
      if decision.Done? {
        return decision.err, i + 1, progress;
      }
      WaitFromStep(variant, replies, i);
      ProgressStep(i);
      if (i + 1) % 10 == 0 {
        progress := progress + [i + 1];
      }
    }
    return Some(TimeoutError), MaxRetries, progress;
  }

  // ---------------------------------------------------------------------------
  // handleSync

  // The errors handleSync reports, each followed by the error it wraps.
  const HeadCommitError := "Error retrieving HEAD commit hash: "
  const ValidationError := "Validation failed: "
  const ValidationHint := ". Use --force to bypass this validation."
  const BranchNameError := "Error retrieving current branch name: "
  const IgnoreFilesError := "Error retrieving ignore files: "
  const StatusError := "Error checking repository status: "
  const DryRunAddError := "error during initial repository check/add (dry run): "
  const DryRunWaitError := "failed to confirm repository setup during dry-run, cannot proceed"
  const AddError := "Error adding repository: "
  const InitialWaitError := "Error waiting for initial sync: "
  const DryRunSyncError := "Error during repository sync check (dry run): "
  const SyncError := "Error syncing repository: "
  const EstimateErrorPrefix := "failed to estimate cost: error getting token count: "

  /** A request that changes something on the service, a wait for its confirmation, or a question to the user. */
  datatype Request =
    | AddRepository(dryRun: bool)
    | SyncBranch(branch: string, dryRun: bool)
    | DeleteStore
    | EstimateTokens
    | AwaitConfirmation
    | AskToProceed

  /** A request that does the real work rather than a dry run for the cost estimate. */
  predicate IsReal(r: Request)
  {
    (r.AddRepository? || r.SyncBranch?) && !r.dryRun
  }

  /** What git, the service and the user answer during one sync. */
  datatype SyncWorld = SyncWorld(
    headCommit: Result<string>,         // git.GetHeadCommitHash
    validation: Option<string>,         // the error of ValidateHeadCommitExistsOnRemote (current client only)
    detached: bool,                     // git.IsDetachedHead, with
    detachedError: Option<string>,      //   the error it reports
    branch: Result<string>,             // git.GetBranch
    ignoreFiles: Result<seq<string>>,   // utils.LoadConfigAndIgnoreFiles
    status: Option<string>,             // the error of the first CheckStatus; None when the repository exists
    dryRunAdd: Option<string>,          // the error of the dry-run AddRepository
    dryRunWait: Option<string>,         // what waitForRepoConfirmation returns after the dry-run add
    estimate: Option<string>,           // the error of EstimateTokenCount
    proceed: bool,                      // the user's answer to ConfirmProceed
    add: Result<string>,                // the real AddRepository
    addWait: Option<string>,            // what waitForRepoConfirmation returns after the real add
    dryRunSync: Option<string>,         // the error of the dry-run FetchAndCheckoutBranch
    sync: Result<string>)               // the real FetchAndCheckoutBranch

  /** The cost estimate is reported through estimateAndPrintCost. */
  function EstimateError(e: string): string
  {
    EstimateErrorPrefix + e
  }

  /** With --cost-only no real add or sync is requested. */
  predicate CostOnlyRespected(costOnly: bool, trace: seq<Request>)
  {
    costOnly ==> forall r :: r in trace ==> !IsReal(r)
  }

  /** Real work is requested only with --force or when the user was asked and agreed. */
  predicate Consented(force: bool, proceed: bool, trace: seq<Request>)
  {
    forall r :: r in trace && IsReal(r) ==> force || (proceed && AskToProceed in trace)
  }

  /** Without --cost or --cost-only there is no dry run and no estimate. */
  predicate DryRunsOnlyForCost(cost: bool, costOnly: bool, trace: seq<Request>)
  {
    !(cost || costOnly) ==> forall r :: r in trace ==> IsReal(r) || r == AskToProceed || r == AwaitConfirmation
  }

  /** What a sync step ends with: the error it reports and the requests it made. */
  datatype Outcome = Outcome(err: Option<string>, trace: seq<Request>)

  /** The requests of a dry run before an initial add that gets through. */
  const InitialDryTrace: seq<Request> := [AddRepository(true), AwaitConfirmation, EstimateTokens, DeleteStore]

  /** The dry-run add succeeds or finds the repository already there, and the wait and the estimate succeed. */
  predicate InitialDryRunOk(w: SyncWorld)
  {
    (w.dryRunAdd.None? || Contains(w.dryRunAdd.value, "already exists")) && w.dryRunWait.None? && w.estimate.None?
  }

  /** The dry-run branch sync and the estimate succeed. */
  predicate BranchDryRunOk(w: SyncWorld)
  {
    w.dryRunSync.None? && w.estimate.None?
  }

  /** The flags let the run go past the dry run: no --cost-only, and a dry run, if made, got through. */
  predicate PastDryRun(cost: bool, costOnly: bool, dryRunOk: bool)
  {
    !costOnly && (!cost || dryRunOk)
  }

  /**
   * The reference dry run before an initial add: a dry-run add, a wait for it,
   * the estimate, and the removal of the dry-run store.
   */
  function InitialDryOutcome(w: SyncWorld): (o: Outcome)
    ensures o.err.None? <==> InitialDryRunOk(w)
    ensures o.err.None? ==> o.trace == InitialDryTrace
    ensures forall r :: r in o.trace ==> r == AddRepository(true) || r == AwaitConfirmation || r == EstimateTokens || r == DeleteStore
    ensures o.err.Some? ==> (AwaitConfirmation in o.trace <==> DeleteStore in o.trace)
    ensures w.dryRunAdd.Some? && !Contains(w.dryRunAdd.value, "already exists") ==>
              o == Outcome(Some(DryRunAddError + w.dryRunAdd.value), [AddRepository(true)])
  {
    if w.dryRunAdd.Some? && !Contains(w.dryRunAdd.value, "already exists") then
      Outcome(Some(DryRunAddError + w.dryRunAdd.value), [AddRepository(true)])
    else if w.dryRunWait.Some? then
      Outcome(Some(DryRunWaitError), [AddRepository(true), AwaitConfirmation, DeleteStore])
    else if w.estimate.Some? then
      Outcome(Some(EstimateError(w.estimate.value)), InitialDryTrace)
    else Outcome(None, InitialDryTrace)
  }

  /**
   * The dry run before an initial add, made for --cost and --cost-only. The
   * dry-run store is removed once the dry-run add got through, also after a
   * failed wait or estimate.
   */
  method InitialDryRun(w: SyncWorld) returns (err: Option<string>, trace: seq<Request>)
    ensures Outcome(err, trace) == InitialDryOutcome(w)
  {
    trace := [AddRepository(true)];
    if w.dryRunAdd.Some? && !Contains(w.dryRunAdd.value, "already exists") {
      return Some(DryRunAddError + w.dryRunAdd.value), trace;
    }
    trace := trace + [AwaitConfirmation];
    if w.dryRunWait.Some? {
      return Some(DryRunWaitError), trace + [DeleteStore];
    }
    trace := trace + [EstimateTokens];
    if w.estimate.Some? {
      return Some(EstimateError(w.estimate.value)), trace + [DeleteStore];
    }
    trace := trace + [DeleteStore];
    return None, trace;
  }

  /**
   * The reference branch of handleSync for a repository the service does not
   * know yet. The real add is made exactly when the run gets past the dry run
   * and --force is set or the user agrees; after it the current client waits
   * for the initial sync unless --force, the older one returns at once.
   */
  function InitialOutcome(variant: Variant, force: bool, cost: bool, costOnly: bool, w: SyncWorld): (o: Outcome)
  {
    var dry := if cost || costOnly then InitialDryOutcome(w) else Outcome(None, []);
    if dry.err.Some? || costOnly then dry
    else if !force && !w.proceed then Outcome(None, dry.trace + [AskToProceed])
    else
      var added := dry.trace + (if force then [] else [AskToProceed]) + [AddRepository(false)];
      if w.add.Failure? then Outcome(Some(AddError + w.add.error), added)
      else if variant == Older || force then Outcome(None, added)
      else if w.addWait.Some? then Outcome(Some(InitialWaitError + w.addWait.value), added + [AwaitConfirmation])
      else Outcome(None, added + [AwaitConfirmation])
  }

  /**
   * A failed dry run before an initial add ends the run with its error and
   * nothing after it; with --cost-only a dry run that got through ends it
   * without error; otherwise the run goes on after the dry run's requests.
   */
  lemma InitialDryRunEndsOrLeads(variant: Variant, force: bool, cost: bool, costOnly: bool, w: SyncWorld)
    ensures var o := InitialOutcome(variant, force, cost, costOnly, w);
            ((cost || costOnly) && !InitialDryRunOk(w) ==> o == InitialDryOutcome(w))
            && ((cost || costOnly) && InitialDryRunOk(w) ==> InitialDryTrace <= o.trace)
            && (costOnly && InitialDryRunOk(w) ==> o == Outcome(None, InitialDryTrace))
  {
  }

  /**
   * Past the dry run, the real add is made exactly when --force is set or the
   * user agrees, and it is the last request unless the current client then
   * waits for the initial sync (without --force); each failure reports its own
   * error.
   */
  lemma InitialAddSpec(variant: Variant, force: bool, cost: bool, costOnly: bool, w: SyncWorld)
    requires PastDryRun(cost, costOnly, InitialDryRunOk(w))
    ensures var o := InitialOutcome(variant, force, cost, costOnly, w);
            (!force && !w.proceed ==> o.err.None? && o.trace != [] && o.trace[|o.trace| - 1] == AskToProceed)
            && (force || w.proceed ==>
                  AddRepository(false) in o.trace
                  && (o.err.None? <==> w.add.Success? && (variant == Older || force || w.addWait.None?))
                  && (w.add.Failure? ==> o.err == Some(AddError + w.add.error))
                  && (w.add.Success? && variant == Current && !force && w.addWait.Some? ==>
                        o.err == Some(InitialWaitError + w.addWait.value)))
            && ((variant == Older || force || w.add.Failure?) && AddRepository(false) in o.trace ==>
                  o.trace[|o.trace| - 1] == AddRepository(false))
            && (variant == Current && !force && w.add.Success? && AddRepository(false) in o.trace ==>
                  o.trace[|o.trace| - 1] == AwaitConfirmation)
  {
  }

  /** The branch of handleSync for a repository the service does not know yet. */
  method InitialSync(variant: Variant, force: bool, cost: bool, costOnly: bool, w: SyncWorld)
    returns (err: Option<string>, trace: seq<Request>)
    ensures Outcome(err, trace) == InitialOutcome(variant, force, cost, costOnly, w)
    ensures CostOnlyRespected(costOnly, trace) && Consented(force, w.proceed, trace)
    ensures DryRunsOnlyForCost(cost, costOnly, trace)
    ensures forall b, d :: SyncBranch(b, d) !in trace
  {
    var dry: seq<Request> := [];
    if cost || costOnly {
      err, dry := InitialDryRun(w);
      if err.Some? {
        return err, dry;
      }
      if costOnly {
        return None, dry;
      }
    }
    var ask: seq<Request> := [];
    if !force {
      ask := [AskToProceed];
      if !w.proceed {
        return None, dry + ask;
      }
    }
    trace := dry + ask + [AddRepository(false)];
    if w.add.Failure? {
      return Some(AddError + w.add.error), trace;
    }
    if variant == Older || force {
      return None, trace;
    }
    trace := trace + [AwaitConfirmation];
    if w.addWait.Some? {
      return Some(InitialWaitError + w.addWait.value), trace;
    }
    return None, trace;
  }

  /** The reference dry run before a branch sync: a dry-run sync, then the estimate. */
  function BranchDryOutcome(branchName: string, w: SyncWorld): (o: Outcome)
    ensures o.err.None? <==> BranchDryRunOk(w)
    ensures o.trace == if w.dryRunSync.Some? then [SyncBranch(branchName, true)] else [SyncBranch(branchName, true), EstimateTokens]
    ensures w.dryRunSync.Some? ==> o.err == Some(DryRunSyncError + w.dryRunSync.value)
  {
    if w.dryRunSync.Some? then
      Outcome(Some(DryRunSyncError + w.dryRunSync.value), [SyncBranch(branchName, true)])
    else if w.estimate.Some? then
      Outcome(Some(EstimateError(w.estimate.value)), [SyncBranch(branchName, true), EstimateTokens])
    else Outcome(None, [SyncBranch(branchName, true), EstimateTokens])
  }

  /** The dry run before a branch sync, made for --cost and --cost-only. */
  method BranchDryRun(branchName: string, w: SyncWorld) returns (err: Option<string>, trace: seq<Request>)
    ensures Outcome(err, trace) == BranchDryOutcome(branchName, w)
  {
    trace := [SyncBranch(branchName, true)];
    if w.dryRunSync.Some? {
      return Some(DryRunSyncError + w.dryRunSync.value), trace;
    }
    trace := trace + [EstimateTokens];
    if w.estimate.Some? {
      return Some(EstimateError(w.estimate.value)), trace;
    }
    return None, trace;
  }

  /**
   * The reference branch of handleSync for a repository the service knows.
   * The real sync of the branch is made exactly when the run gets past the dry
   * run and --force is set or the user agrees, and it is the last request.
   */
  function BranchOutcome(force: bool, cost: bool, costOnly: bool, branchName: string, w: SyncWorld): (o: Outcome)
  {
    var dry := if cost || costOnly then BranchDryOutcome(branchName, w) else Outcome(None, []);
    if dry.err.Some? || costOnly then dry
    else if !force && !w.proceed then Outcome(None, dry.trace + [AskToProceed])
    else
      var synced := dry.trace + (if force then [] else [AskToProceed]) + [SyncBranch(branchName, false)];
      if w.sync.Failure? then Outcome(Some(SyncError + w.sync.error), synced)
      else Outcome(None, synced)
  }

  /**
   * A failed dry run before a branch sync ends the run with its error; with
   * --cost-only a dry run that got through ends it without error; past the dry
   * run the real sync is the last request exactly when --force is set or the
   * user agrees, and the run fails exactly when that sync fails.
   */
  lemma BranchOutcomeSpec(force: bool, cost: bool, costOnly: bool, branchName: string, w: SyncWorld)
    ensures var o := BranchOutcome(force, cost, costOnly, branchName, w);
            var past := PastDryRun(cost, costOnly, BranchDryRunOk(w));
            ((cost || costOnly) && !BranchDryRunOk(w) ==> o == BranchDryOutcome(branchName, w))
            && (costOnly && BranchDryRunOk(w) ==> o == Outcome(None, [SyncBranch(branchName, true), EstimateTokens]))
            && (past && !force && !w.proceed ==> o.err.None? && o.trace != [] && o.trace[|o.trace| - 1] == AskToProceed)
            && (past && (force || w.proceed) ==>
                  o.trace != [] && o.trace[|o.trace| - 1] == SyncBranch(branchName, false)
                  && o.err == (if w.sync.Failure? then Some(SyncError + w.sync.error) else None))
  {
  }

  /** The branch of handleSync for a repository the service knows: sync the current branch. */
  method BranchSync(force: bool, cost: bool, costOnly: bool, branchName: string, w: SyncWorld)
    returns (err: Option<string>, trace: seq<Request>)
    ensures Outcome(err, trace) == BranchOutcome(force, cost, costOnly, branchName, w)
    ensures CostOnlyRespected(costOnly, trace) && Consented(force, w.proceed, trace)
    ensures DryRunsOnlyForCost(cost, costOnly, trace)
    ensures AddRepository(false) !in trace && AddRepository(true) !in trace
    ensures forall b, d :: SyncBranch(b, d) in trace ==> b == branchName
  {
    var dry: seq<Request> := [];
    if cost || costOnly {
      err, dry := BranchDryRun(branchName, w);
      if err.Some? {
        return err, dry;
      }
    }
    trace := dry;
    if costOnly {
      return None, trace;
    }
    if !force {
      trace := trace + [AskToProceed];
      if !w.proceed {
        return None, trace;
      }
    }
    trace := trace + [SyncBranch(branchName, false)];
    if w.sync.Failure? {
      return Some(SyncError + w.sync.error), trace;
    }
    return None, trace;
  }

  /**
   * The branch name handleSync sends: empty when HEAD is detached, GetBranch's
   * answer otherwise. The error comes from GetBranch when it ran, from the
   * detached-HEAD test otherwise.
   */
  function BranchToSend(w: SyncWorld): (r: Result<string>)
    ensures !w.detached && w.branch.Success? ==> r == w.branch
    ensures w.detached && w.detachedError.None? ==> r == Success("")
  {
    if !w.detached then w.branch
    else if w.detachedError.Some? then Failure(w.detachedError.value)
    else Success("")
  }

  /**
   * The local checks before any request pass: the HEAD commit is known, the
   * validation passed or does not stop the run (--force, or the older client,
   * which has none), and the branch and the ignore files could be read.
   */
  predicate LocalChecksPass(variant: Variant, force: bool, headCommitHash: string, w: SyncWorld)
  {
    (headCommitHash != "" || w.headCommit.Success?)
    && (variant == Older || force || w.validation.None?)
    && BranchToSend(w).Success? && w.ignoreFiles.Success?
  }

  /**
   * The reference handleSync. A failed local check ends it with its own error
   * before any request; then the service's answer to the status check chooses
   * the initial add, the branch sync, or the status error.
   */
  function SyncOutcome(variant: Variant, force: bool, cost: bool, costOnly: bool, headCommitHash: string, w: SyncWorld): (o: Outcome)
  {
    if headCommitHash == "" && w.headCommit.Failure? then
      Outcome(Some(HeadCommitError + w.headCommit.error), [])
    else if variant == Current && w.validation.Some? && !force then
      Outcome(Some(ValidationError + w.validation.value + ValidationHint), [])
    else if BranchToSend(w).Failure? then
      Outcome(Some(BranchNameError + BranchToSend(w).error), [])
    else if w.ignoreFiles.Failure? then
      Outcome(Some(IgnoreFilesError + w.ignoreFiles.error), [])
    else if w.status.Some? then
      if Contains(w.status.value, "does not exist") then InitialOutcome(variant, force, cost, costOnly, w)
      else Outcome(Some(StatusError + w.status.value), [])
    else BranchOutcome(force, cost, costOnly, BranchToSend(w).value, w)
  }

  /**
   * Each local check that fails ends handleSync with its own error before any
   * request; once they pass, the status check's answer chooses the initial
   * add, the branch sync of the branch to send, or the status error.
   */
  lemma SyncSteps(variant: Variant, force: bool, cost: bool, costOnly: bool, headCommitHash: string, w: SyncWorld)
    ensures var o := SyncOutcome(variant, force, cost, costOnly, headCommitHash, w);
            var headKnown := headCommitHash != "" || w.headCommit.Success?;
            var validated := variant == Older || force || w.validation.None?;
            (!LocalChecksPass(variant, force, headCommitHash, w) ==> o.err.Some? && o.trace == [])
            && (!headKnown ==> o == Outcome(Some(HeadCommitError + w.headCommit.error), []))
            && (headKnown && !validated ==>
                  o == Outcome(Some(ValidationError + w.validation.value + ValidationHint), []))
            && (headKnown && validated && BranchToSend(w).Failure? ==>
                  o == Outcome(Some(BranchNameError + BranchToSend(w).error), []))
            && (headKnown && validated && BranchToSend(w).Success? && w.ignoreFiles.Failure? ==>
                  o == Outcome(Some(IgnoreFilesError + w.ignoreFiles.error), []))
            && (LocalChecksPass(variant, force, headCommitHash, w) && w.status.Some? ==>
                  o == if Contains(w.status.value, "does not exist") then InitialOutcome(variant, force, cost, costOnly, w)
                       else Outcome(Some(StatusError + w.status.value), []))
            && (LocalChecksPass(variant, force, headCommitHash, w) && w.status.None? ==>
                  o == BranchOutcome(force, cost, costOnly, BranchToSend(w).value, w))
  {
  }

  /**
   * handleSync. A missing HEAD commit, a failed validation without --force
   * (current client), a branch error or an ignore-file error ends it before
   * any request; then the service's answer to the status check chooses the
   * initial add or the branch sync.
   */
  method HandleSync(variant: Variant, force: bool, cost: bool, costOnly: bool, headCommitHash: string, w: SyncWorld)
    returns (err: Option<string>, trace: seq<Request>)
    ensures Outcome(err, trace) == SyncOutcome(variant, force, cost, costOnly, headCommitHash, w)
    ensures CostOnlyRespected(costOnly, trace) && Consented(force, w.proceed, trace)
    ensures DryRunsOnlyForCost(cost, costOnly, trace)
    ensures trace != [] ==> LocalChecksPass(variant, force, headCommitHash, w)
                            && (w.status.Some? ==> Contains(w.status.value, "does not exist"))
    ensures w.status.None? ==> AddRepository(false) !in trace && AddRepository(true) !in trace
    ensures w.status.Some? ==> forall b, d :: SyncBranch(b, d) !in trace
    ensures forall b, d :: SyncBranch(b, d) in trace ==> b == BranchToSend(w).value
  {
    if headCommitHash == "" && w.headCommit.Failure? {
      return Some(HeadCommitError + w.headCommit.error), [];
    }
    if variant == Current && w.validation.Some? && !force {
      return Some(ValidationError + w.validation.value + ValidationHint), [];
    }
    var branchName := "";
    var branchErr := w.detachedError;
    if !w.detached {
      if w.branch.Failure? {
        branchErr := Some(w.branch.error);
      } else {
        branchErr := None;
        branchName := w.branch.value;
      }
    }
    if branchErr.Some? {
      return Some(BranchNameError + branchErr.value), [];
    }
    if w.ignoreFiles.Failure? {
      return Some(IgnoreFilesError + w.ignoreFiles.error), [];
    }
    if w.status.Some? {
      if Contains(w.status.value, "does not exist") {
        err, trace := InitialSync(variant, force, cost, costOnly, w);
      } else {
        err, trace := Some(StatusError + w.status.value), [];
      }
      return;
    }
    err, trace := BranchSync(force, cost, costOnly, branchName, w);
  }

  /**
   * With --force a failed validation of the HEAD commit only warns: the run
   * ends exactly as it would have had the validation passed. The older client
   * ignores the validation always.
   */
  lemma ForceBypassesValidation(variant: Variant, force: bool, cost: bool, costOnly: bool, headCommitHash: string, w: SyncWorld)
    requires force || variant == Older
    ensures SyncOutcome(variant, force, cost, costOnly, headCommitHash, w)
            == SyncOutcome(variant, force, cost, costOnly, headCommitHash, w.(validation := None))
  {
    var v := w.(validation := None);
    assert LocalChecksPass(variant, force, headCommitHash, w) == LocalChecksPass(variant, force, headCommitHash, v);
    if LocalChecksPass(variant, force, headCommitHash, w) {
      InitialIgnoresValidation(variant, force, cost, costOnly, w);
      BranchIgnoresValidation(force, cost, costOnly, BranchToSend(w).value, w);
    }
  }

  /** Neither branch of handleSync looks at the validation. */
  lemma InitialIgnoresValidation(variant: Variant, force: bool, cost: bool, costOnly: bool, w: SyncWorld)
    ensures InitialOutcome(variant, force, cost, costOnly, w) == InitialOutcome(variant, force, cost, costOnly, w.(validation := None))
  {
    assert InitialDryOutcome(w) == InitialDryOutcome(w.(validation := None));
  }

  lemma BranchIgnoresValidation(force: bool, cost: bool, costOnly: bool, branchName: string, w: SyncWorld)
    ensures BranchOutcome(force, cost, costOnly, branchName, w) == BranchOutcome(force, cost, costOnly, branchName, w.(validation := None))
  {
    assert BranchDryOutcome(branchName, w) == BranchDryOutcome(branchName, w.(validation := None));
  }

  /**
   * A forced sync of a known repository whose dry run, if any, got through
   * makes the real sync of the current branch as its last request, and ends
   * without error exactly when that sync succeeds, whatever the validation said.
   */
  lemma ForcedSyncOfKnownRepository(variant: Variant, cost: bool, headCommitHash: string, w: SyncWorld)
    requires (headCommitHash != "" || w.headCommit.Success?) && BranchToSend(w).Success? && w.ignoreFiles.Success?
    requires w.status.None? && (!cost || BranchDryRunOk(w))
    ensures var o := SyncOutcome(variant, true, cost, false, headCommitHash, w);
            o.trace != [] && o.trace[|o.trace| - 1] == SyncBranch(BranchToSend(w).value, false)
            && (o.err.None? <==> w.sync.Success?)
  {
  }
}
