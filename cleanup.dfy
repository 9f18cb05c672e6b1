/**
 * Removing a worktree's resources (src/workflow/cleanup.rs): its zellij tab,
 * the pre-delete hooks, its directory, git's worktree metadata, the local
 * branch and optionally the remote one; and, afterwards, moving to the main
 * tab and closing the cleaned-up one.
 *
 * The steps run against a `Workspace.World`. The sleep between polls, the
 * prompt-file removal (its failure only warns) and the timing of the
 * detached close scripts are outside the model.
 */
module CleanupWorkflow {

  import opened Wrappers
  import Zellij
  import Context
  import Workspace

  /** What cleanup did; `tabClosed` is the source's `tmux_window_killed`. */
  datatype CleanupResult = CleanupResult(
    tabClosed: bool,
    worktreeRemoved: bool,
    localBranchDeleted: bool,
    remoteBranchDeleted: bool,
    remoteDeleteError: Option<string>,
    ranInsideTargetTab: bool)

  /** The number of tab listings cleanup waits for a closed tab to disappear. */
  const MaxRetries: nat := 20

  /** Whether this command runs inside the tab of the branch being cleaned up. */
  function InsideTargetTab(zellijRunning: bool, tabEnv: Option<string>, prefix: string, branch: string): (r: bool)
    ensures r <==> zellijRunning && tabEnv == Some(Zellij.Prefixed(prefix, branch)) && Zellij.Prefixed(prefix, branch) != []
  {
    if zellijRunning then
      match Zellij.CurrentTabName(tabEnv)
      case Some(current) => current == Zellij.Prefixed(prefix, branch)
      case None => false
    else false
  }

  /**
   * The bounded wait for a closed tab to leave the listing: at most
   * `MaxRetries` listings, stopping at the first that no longer shows it.
   * `listedAt(k)` is whether the k-th listing still shows the tab.
   */
  method PollUntilGone(listedAt: nat -> bool) returns (gone: bool, polls: nat)
    ensures 1 <= polls <= MaxRetries
    ensures gone <==> exists k :: 0 <= k < MaxRetries && !listedAt(k)
    ensures gone ==> !listedAt(polls - 1)
    ensures forall k :: 0 <= k < polls - 1 ==> listedAt(k)
    ensures !gone ==> polls == MaxRetries
  {
    gone := false;
    polls := 0;
    while polls < MaxRetries
      invariant polls <= MaxRetries
      invariant forall k :: 0 <= k < polls ==> listedAt(k)
    {
      var listed := listedAt(polls);
      polls := polls + 1;
      if !listed {
        gone := true;
        return;
      }
    }
  }

  /** The hook commands, each run in the worktree. */
  function HookOps(hooks: seq<string>, path: string): (r: seq<Workspace.Op>)
    ensures |r| == |hooks|
    ensures forall i :: 0 <= i < |hooks| ==> r[i] == Workspace.RunHook(hooks[i], path)
  {
    seq(|hooks|, i requires 0 <= i < |hooks| => Workspace.RunHook(hooks[i], path))
  }

  function HookFailedMessage(command: string): string {
    "Failed to run pre-delete command: '" + command + "'"
  }

  /** The last logged step is `op`, and it failed; a failed remote deletion never stops cleanup. */
  predicate StoppedAt(log: seq<Workspace.Op>, failures: map<Workspace.Op, string>, op: Workspace.Op) {
    |log| > 0 && log[|log| - 1] == op && Blocks(op, failures)
  }

  /** A failing step stops cleanup, except a failed remote deletion, which is only reported. */
  predicate Blocks(op: Workspace.Op, failures: map<Workspace.Op, string>) {
    op in failures && !op.DeleteRemote?
  }

  /** No step of `steps` stops cleanup. */
  predicate Clear(steps: seq<Workspace.Op>, failures: map<Workspace.Op, string>) {
    forall i :: 0 <= i < |steps| ==> !Blocks(steps[i], failures)
  }

  /**
   * From `start`, the log ran the steps of `plan` up to `op`, the first of
   * them that stops cleanup, and no further.
   */
  predicate StoppedFirst(start: seq<Workspace.Op>, log: seq<Workspace.Op>, plan: seq<Workspace.Op>,
                         failures: map<Workspace.Op, string>, op: Workspace.Op) {
    start < log && log <= start + plan && StoppedAt(log, failures, op) && Clear(log[|start|..|log| - 1], failures)
  }

  /** A plan that stopped partway is not clear. */
  lemma StoppedNotClear(start: seq<Workspace.Op>, log: seq<Workspace.Op>, plan: seq<Workspace.Op>,
                        failures: map<Workspace.Op, string>, op: Workspace.Op)
    requires StoppedFirst(start, log, plan, failures, op)
    ensures !Clear(plan, failures)
  {
    var k := |log| - 1 - |start|;
    assert plan[k] == (start + plan)[|log| - 1] == log[|log| - 1];
  }

  /** A stop within `done` is a stop within `done + plan`. */
  lemma StoppedWithin(start: seq<Workspace.Op>, log: seq<Workspace.Op>, done: seq<Workspace.Op>,
                      plan: seq<Workspace.Op>, failures: map<Workspace.Op, string>, op: Workspace.Op)
    requires StoppedFirst(start, log, done, failures, op)
    ensures StoppedFirst(start, log, done + plan, failures, op)
  {
    PrefixWithin(start, done, plan, log);
  }

  /** A stop within `plan`, after all of a clear `done` ran, is a stop within `done + plan`. */
  lemma StoppedAfter(start: seq<Workspace.Op>, log: seq<Workspace.Op>, done: seq<Workspace.Op>,
                     plan: seq<Workspace.Op>, failures: map<Workspace.Op, string>, op: Workspace.Op)
    requires Clear(done, failures) && StoppedFirst(start + done, log, plan, failures, op)
    ensures StoppedFirst(start, log, done + plan, failures, op)
  {
    PrefixThrough(start, done, plan, log);
    var ran := log[|start|..|log| - 1];
    assert ran == done + log[|start + done|..|log| - 1];
    ClearAppend(done, log[|start + done|..|log| - 1], failures);
  }

  /** Two stretches of steps are clear exactly when each is. */
  lemma ClearAppend(a: seq<Workspace.Op>, b: seq<Workspace.Op>, failures: map<Workspace.Op, string>)
    ensures Clear(a + b, failures) <==> Clear(a, failures) && Clear(b, failures)
  {
    if Clear(a + b, failures) {
      forall i | 0 <= i < |a| ensures !Blocks(a[i], failures) {
        assert a[i] == (a + b)[i];
      }
      forall i | 0 <= i < |b| ensures !Blocks(b[i], failures) {
        assert b[i] == (a + b)[|a| + i];
      }
    }
  }

  /** The removal steps are clear exactly when neither the directory removal it needs nor the prune fails. */
  lemma RemovalClear(path: string, exists_: bool, failures: map<Workspace.Op, string>)
    ensures Clear(RemovalSteps(path, exists_), failures)
            <==> (exists_ ==> Workspace.RemoveDir(path) !in failures) && Workspace.Prune !in failures
  {
    var steps := RemovalSteps(path, exists_);
    assert steps[|steps| - 1] == Workspace.Prune;
    if exists_ {
      assert steps[0] == Workspace.RemoveDir(path);
    }
  }

  /** Where the removal steps stop: at a failing directory removal, or else at a failing prune. */
  lemma RemovalStop(start: seq<Workspace.Op>, path: string, exists_: bool, failures: map<Workspace.Op, string>)
    ensures exists_ && Workspace.RemoveDir(path) in failures ==>
      StoppedFirst(start, start + [Workspace.RemoveDir(path)], RemovalSteps(path, exists_), failures,
                   Workspace.RemoveDir(path))
    ensures (exists_ ==> Workspace.RemoveDir(path) !in failures) && Workspace.Prune in failures ==>
      StoppedFirst(start, start + RemovalSteps(path, exists_), RemovalSteps(path, exists_), failures, Workspace.Prune)
  {
    var steps := RemovalSteps(path, exists_);
    var log := start + steps;
    assert log[|start|..|log| - 1] == steps[..|steps| - 1];
    if exists_ {
      var one := start + [Workspace.RemoveDir(path)];
      assert one[|start|..|one| - 1] == [];
      assert [Workspace.RemoveDir(path)] <= steps;
    }
  }

  /** The branch steps are clear exactly when the branch is kept or its local deletion does not fail. */
  lemma BranchesClear(branch: string, force: bool, deleteRemote: bool, keepBranch: bool,
                      failures: map<Workspace.Op, string>)
    ensures Clear(BranchSteps(branch, force, deleteRemote, keepBranch), failures)
            <==> keepBranch || Workspace.DeleteBranch(branch, force) !in failures
  {
    var steps := BranchSteps(branch, force, deleteRemote, keepBranch);
    if !keepBranch {
      assert steps[0] == Workspace.DeleteBranch(branch, force);
    }
  }

  /** The hooks are clear exactly when none of them fails. */
  lemma HooksClear(hooks: seq<string>, path: string, failures: map<Workspace.Op, string>)
    ensures Clear(HookOps(hooks, path), failures)
            <==> forall i :: 0 <= i < |hooks| ==> Workspace.RunHook(hooks[i], path) !in failures
  {
    if Clear(HookOps(hooks, path), failures) {
      forall i | 0 <= i < |hooks| ensures Workspace.RunHook(hooks[i], path) !in failures {
        assert !Blocks(HookOps(hooks, path)[i], failures);
      }
    }
  }

  /** The pre-delete hooks, in order; the first that fails stops the rest. */
  method RunHooks(w: Workspace.World, hooks: seq<string>, path: string) returns (failed: Option<Workspace.Op>)
    modifies w
    ensures w.warnings == old(w.warnings) && w.repo == old(w.repo)
    ensures failed.None? <==> forall i :: 0 <= i < |hooks| ==> Workspace.RunHook(hooks[i], path) !in w.failures
    ensures failed.None? ==> w.log == old(w.log) + HookOps(hooks, path)
    ensures failed.Some? ==>
      failed.value.RunHook? && StoppedFirst(old(w.log), w.log, HookOps(hooks, path), w.failures, failed.value)
    ensures Workspace.Traced(old(w.repo), old(w.log), w.repo, w.log, w.failures)
  {
    Workspace.TracedInert(w.repo, w.log, w.log, w.failures);
    for i := 0 to |hooks|
      invariant w.warnings == old(w.warnings) && w.repo == old(w.repo)
      invariant w.log == old(w.log) + HookOps(hooks[..i], path)
      invariant forall j :: 0 <= j < i ==> Workspace.RunHook(hooks[j], path) !in w.failures
      invariant Workspace.Traced(old(w.repo), old(w.log), w.repo, w.log, w.failures)
    {
      ghost var log1 := w.log;
      var e := w.Run(Workspace.RunHook(hooks[i], path));
      assert Workspace.Traced(old(w.repo), old(w.log), w.repo, w.log, w.failures) by {
        Workspace.TracedChain(old(w.repo), old(w.log), old(w.repo), log1, w.repo, w.log, w.failures);
      }
      assert HookOps(hooks[..i + 1], path) == HookOps(hooks[..i], path) + [Workspace.RunHook(hooks[i], path)];
      if e.Some? {
        HookStop(old(w.log), hooks, path, i, w.failures);
        assert w.log == old(w.log) + HookOps(hooks[..i + 1], path);
        return Some(Workspace.RunHook(hooks[i], path));
      }
    }
    assert hooks[..|hooks|] == hooks;
    return None;
  }

  /** The removal steps: the directory when it exists, then `git worktree prune`. */
  function RemovalSteps(path: string, exists_: bool): seq<Workspace.Op> {
    (if exists_ then [Workspace.RemoveDir(path)] else []) + [Workspace.Prune]
  }

  /** The branch steps: the local branch unless kept, the remote one when asked for and the branch is not kept. */
  function BranchSteps(branch: string, force: bool, deleteRemote: bool, keepBranch: bool): seq<Workspace.Op> {
    (if !keepBranch then [Workspace.DeleteBranch(branch, force)] else [])
    + (if deleteRemote && !keepBranch then [Workspace.DeleteRemote(branch)] else [])
  }

  /** The filesystem and git steps after the hooks, in the order the source fixes. */
  function GitSteps(path: string, exists_: bool, branch: string, force: bool,
                    deleteRemote: bool, keepBranch: bool): seq<Workspace.Op> {
    RemovalSteps(path, exists_) + BranchSteps(branch, force, deleteRemote, keepBranch)
  }

  /** Every step of the filesystem and git cleanup: the hooks first. */
  function FsTrace(hooks: seq<string>, path: string, exists_: bool, branch: string, force: bool,
                   deleteRemote: bool, keepBranch: bool): seq<Workspace.Op> {
    HookOps(hooks, path) + GitSteps(path, exists_, branch, force, deleteRemote, keepBranch)
  }

  /** The repository once the directory is gone and git's worktree metadata is pruned. */
  function WorktreeRemoved(repo: Workspace.Repo, path: string): Workspace.Repo {
    var dirs := repo.dirs - {path};
    repo.(dirs := dirs, worktrees := Workspace.Kept(repo.worktrees, dirs))
  }

  /** The repository once the branch steps went through; a failed remote deletion leaves the remote branch. */
  function BranchesDeleted(repo: Workspace.Repo, branch: string, deleteRemote: bool, keepBranch: bool,
                           failures: map<Workspace.Op, string>): Workspace.Repo {
    var remoteDeleted := deleteRemote && !keepBranch && Workspace.DeleteRemote(branch) !in failures;
    repo.(branches := if keepBranch then repo.branches else repo.branches - {branch},
          remoteBranches := if remoteDeleted then repo.remoteBranches - {branch} else repo.remoteBranches)
  }

  /** The repository after a cleanup that went through. */
  function Cleaned(repo: Workspace.Repo, path: string, branch: string, deleteRemote: bool, keepBranch: bool,
                   failures: map<Workspace.Op, string>): Workspace.Repo {
    BranchesDeleted(WorktreeRemoved(repo, path), branch, deleteRemote, keepBranch, failures)
  }

  /**
   * After a cleanup that went through, the directory is gone, git lists no
   * worktree at it and no worktree the repository did not list before, and
   * the local branch is gone unless kept; nothing else changes.
   */
  lemma CleanedForgetsWorktree(repo: Workspace.Repo, path: string, branch: string, deleteRemote: bool,
                               keepBranch: bool, failures: map<Workspace.Op, string>)
    ensures var after := Cleaned(repo, path, branch, deleteRemote, keepBranch, failures);
      path !in after.dirs && after.dirs == repo.dirs - {path}
      && (forall e :: e in after.worktrees <==> e in repo.worktrees && e.path in repo.dirs && e.path != path)
      && (keepBranch ==> after.branches == repo.branches)
      && (!keepBranch ==> branch !in after.branches && after.branches == repo.branches - {branch})
      && after.remoteBranches <= repo.remoteBranches
      && after.staged == repo.staged && after.unstaged == repo.unstaged && after.untracked == repo.untracked
  {
    var after := Cleaned(repo, path, branch, deleteRemote, keepBranch, failures);
    assert after.worktrees == Workspace.Kept(repo.worktrees, repo.dirs - {path});
  }

  /**
   * The partner of `Cleaned`: replaying the git steps of a cleanup, when the
   * directory removal, the prune and the local branch deletion go through,
   * yields exactly the cleaned repository.
   */
  lemma GitStepsReplay(repo: Workspace.Repo, path: string, branch: string, force: bool, deleteRemote: bool,
                       keepBranch: bool, failures: map<Workspace.Op, string>)
    requires Workspace.RemoveDir(path) !in failures && Workspace.Prune !in failures
    requires !keepBranch ==> Workspace.DeleteBranch(branch, force) !in failures
    ensures Workspace.Replay(repo, GitSteps(path, path in repo.dirs, branch, force, deleteRemote, keepBranch), failures)
            == Cleaned(repo, path, branch, deleteRemote, keepBranch, failures)
  {
    var removal := RemovalSteps(path, path in repo.dirs);
    var rest := BranchSteps(branch, force, deleteRemote, keepBranch);
    Workspace.ReplayAppend(repo, removal, rest, failures);
    RemovalReplay(repo, path, failures);
    BranchReplay(WorktreeRemoved(repo, path), branch, force, deleteRemote, keepBranch, failures);
  }

  /**
   * The whole filesystem and git trace, hooks first: the hooks leave the
   * repository as it is, so replaying the trace of a cleanup that went
   * through yields the cleaned repository.
   */
  lemma FsTraceReplay(repo: Workspace.Repo, hooks: seq<string>, path: string, branch: string, force: bool,
                      deleteRemote: bool, keepBranch: bool, failures: map<Workspace.Op, string>)
    requires Workspace.RemoveDir(path) !in failures && Workspace.Prune !in failures
    requires !keepBranch ==> Workspace.DeleteBranch(branch, force) !in failures
    ensures Workspace.Replay(repo, FsTrace(hooks, path, path in repo.dirs, branch, force, deleteRemote, keepBranch),
                             failures)
            == Cleaned(repo, path, branch, deleteRemote, keepBranch, failures)
  {
    var hookOps := HookOps(hooks, path);
    Workspace.ReplayAppend(repo, hookOps, GitSteps(path, path in repo.dirs, branch, force, deleteRemote, keepBranch),
                           failures);
    Workspace.InertReplay(repo, hookOps, failures);
    GitStepsReplay(repo, path, branch, force, deleteRemote, keepBranch, failures);
  }

  lemma RemovalReplay(repo: Workspace.Repo, path: string, failures: map<Workspace.Op, string>)
    requires Workspace.RemoveDir(path) !in failures && Workspace.Prune !in failures
    ensures Workspace.Replay(repo, RemovalSteps(path, path in repo.dirs), failures) == WorktreeRemoved(repo, path)
  {
    if path in repo.dirs {
      assert RemovalSteps(path, true) == [Workspace.RemoveDir(path), Workspace.Prune];
      Workspace.ReplayTwo(repo, Workspace.RemoveDir(path), Workspace.Prune, failures);
    } else {
      assert RemovalSteps(path, false) == [Workspace.Prune];
      Workspace.ReplayOne(repo, Workspace.Prune, failures);
      assert repo.dirs - {path} == repo.dirs;
    }
  }

  lemma BranchReplay(repo: Workspace.Repo, branch: string, force: bool, deleteRemote: bool, keepBranch: bool,
                     failures: map<Workspace.Op, string>)
    requires !keepBranch ==> Workspace.DeleteBranch(branch, force) !in failures
    ensures Workspace.Replay(repo, BranchSteps(branch, force, deleteRemote, keepBranch), failures)
            == BranchesDeleted(repo, branch, deleteRemote, keepBranch, failures)
  {
    var rest := BranchSteps(branch, force, deleteRemote, keepBranch);
    if keepBranch {
      assert rest == [];
    } else if deleteRemote {
      assert rest == [Workspace.DeleteBranch(branch, force), Workspace.DeleteRemote(branch)];
      Workspace.ReplayTwo(repo, Workspace.DeleteBranch(branch, force), Workspace.DeleteRemote(branch), failures);
    } else {
      assert rest == [Workspace.DeleteBranch(branch, force)];
      Workspace.ReplayOne(repo, Workspace.DeleteBranch(branch, force), failures);
    }
  }

  /** Why cleanup stopped: the branch's tab would not close, or a step failed. */
  datatype CleanupError = TabNotClosed | StepFailed(op: Workspace.Op)

  /** The message cleanup fails with. */
  function CleanupMessage(e: CleanupError): string {
    match e
    case TabNotClosed => CloseTabFailed
    case StepFailed(op) => StepFailedMessage(op)
  }

  /** The message a failing step of the filesystem and git cleanup ends with. */
  function StepFailedMessage(op: Workspace.Op): string {
    match op
    case RunHook(command, _) => HookFailedMessage(command)
    case RemoveDir(path) =>
      "Failed to remove worktree directory at " + path
      + ". Please close any terminals or editors using this directory and try again."
    case Prune => "Failed to prune worktrees"
    case DeleteBranch(_, _) => "Failed to delete local branch"
    case _ => ""
  }

  /** The flags set by the steps that went through; a remote deletion error is recorded, not raised. */
  function Flags(result: CleanupResult, existed: bool, branchDeleted: bool, remoteTried: bool,
                 remoteError: Option<string>): CleanupResult {
    result.(worktreeRemoved := result.worktreeRemoved || existed,
            localBranchDeleted := result.localBranchDeleted || branchDeleted,
            remoteBranchDeleted := result.remoteBranchDeleted || (remoteTried && remoteError.None?),
            remoteDeleteError := if remoteError.Some? then remoteError else result.remoteDeleteError)
  }

  /** The flags cleanup reports once every step went through. */
  function Reported(result: CleanupResult, existed: bool, branch: string, deleteRemote: bool, keepBranch: bool,
                    failures: map<Workspace.Op, string>): CleanupResult {
    var remoteTried := deleteRemote && !keepBranch;
    var remoteFailed := remoteTried && Workspace.DeleteRemote(branch) in failures;
    Flags(result, existed, !keepBranch, remoteTried,
          if remoteFailed then Some(failures[Workspace.DeleteRemote(branch)]) else None)
  }

  /**
   * `perform_fs_git_cleanup`: the steps of `FsTrace`, stopping at the first
   * that fails, except that a failed remote deletion is only recorded.
   */
  method FsGitCleanup(w: Workspace.World, branch: string, path: string, force: bool, deleteRemote: bool,
                      keepBranch: bool, hooks: seq<string>, result: CleanupResult)
    returns (r: Result<CleanupResult, Workspace.Op>)
    modifies w
    ensures w.warnings == old(w.warnings)
    ensures var trace := FsTrace(hooks, path, path in old(w.repo).dirs, branch, force, deleteRemote, keepBranch);
      old(w.log) <= w.log && w.log <= old(w.log) + trace
    ensures r.Success? ==>
      w.log == old(w.log) + FsTrace(hooks, path, path in old(w.repo).dirs, branch, force, deleteRemote, keepBranch)
      && r.value == Reported(result, path in old(w.repo).dirs, branch, deleteRemote, keepBranch, w.failures)
      && w.repo == Cleaned(old(w.repo), path, branch, deleteRemote, keepBranch, w.failures)
    ensures var trace := FsTrace(hooks, path, path in old(w.repo).dirs, branch, force, deleteRemote, keepBranch);
      (r.Success? <==> Clear(trace, w.failures))
      && (r.Failure? ==> r.error in trace && StoppedFirst(old(w.log), w.log, trace, w.failures, r.error))
    ensures Workspace.Traced(old(w.repo), old(w.log), w.repo, w.log, w.failures)
  {
    ghost var start := w.log;
    ghost var trace := FsTrace(hooks, path, path in old(w.repo).dirs, branch, force, deleteRemote, keepBranch);
    ghost var plan := GitSteps(path, path in old(w.repo).dirs, branch, force, deleteRemote, keepBranch);
    var err := RunHooks(w, hooks, path);
    if err.Some? {
      assert HookOps(hooks, path) <= trace;
      LastLoggedInTrace(start, trace, w.log);
      StoppedWithin(start, w.log, HookOps(hooks, path), plan, w.failures, err.value);
      StoppedNotClear(start, w.log, trace, w.failures, err.value);
      return Failure(err.value);
    }
    HooksClear(hooks, path, w.failures);
    ghost var hooked := w.log;
    r := RemoveWorktreeAndBranches(w, branch, path, force, deleteRemote, keepBranch, result);
    assert Workspace.Traced(old(w.repo), old(w.log), w.repo, w.log, w.failures) by {
      Workspace.TracedChain(old(w.repo), old(w.log), old(w.repo), hooked, w.repo, w.log, w.failures);
    }
    PrefixThrough(start, HookOps(hooks, path), plan, w.log);
    ClearAppend(HookOps(hooks, path), plan, w.failures);
    if r.Failure? {
      LastLoggedInTrace(start, trace, w.log);
      StoppedAfter(start, w.log, HookOps(hooks, path), plan, w.failures, r.error);
    }
  }

  /** The last step of a log that grew along a trace is a step of that trace. */
  lemma LastLoggedInTrace(start: seq<Workspace.Op>, trace: seq<Workspace.Op>, log: seq<Workspace.Op>)
    requires start <= log && log <= start + trace && |log| > |start|
    ensures log[|log| - 1] in trace
  {
    assert log[|log| - 1] == (start + trace)[|log| - 1] == trace[|log| - 1 - |start|];
  }

  /** The numbered steps of `perform_fs_git_cleanup`: directory, prune, local branch, remote branch. */
  method RemoveWorktreeAndBranches(w: Workspace.World, branch: string, path: string, force: bool,
                                   deleteRemote: bool, keepBranch: bool, result: CleanupResult)
    returns (r: Result<CleanupResult, Workspace.Op>)
    modifies w
    ensures w.warnings == old(w.warnings)
    ensures var steps := GitSteps(path, path in old(w.repo).dirs, branch, force, deleteRemote, keepBranch);
      old(w.log) <= w.log && w.log <= old(w.log) + steps
    ensures r.Success? ==>
      w.log == old(w.log) + GitSteps(path, path in old(w.repo).dirs, branch, force, deleteRemote, keepBranch)
      && r.value == Reported(result, path in old(w.repo).dirs, branch, deleteRemote, keepBranch, w.failures)
      && w.repo == Cleaned(old(w.repo), path, branch, deleteRemote, keepBranch, w.failures)
    ensures var steps := GitSteps(path, path in old(w.repo).dirs, branch, force, deleteRemote, keepBranch);
      (r.Success? <==> Clear(steps, w.failures))
      && (r.Failure? ==> StoppedFirst(old(w.log), w.log, steps, w.failures, r.error))
    ensures Workspace.Traced(old(w.repo), old(w.log), w.repo, w.log, w.failures)
  {
    ghost var start := w.log;
    var existed := path in w.repo.dirs;
    ghost var removal := RemovalSteps(path, existed);
    ghost var rest := BranchSteps(branch, force, deleteRemote, keepBranch);
    var err := RemoveWorktree(w, path);
    if err.Some? {
      StoppedWithin(start, w.log, removal, rest, w.failures, err.value);
      StoppedNotClear(start, w.log, removal + rest, w.failures, err.value);
      return Failure(err.value);
    }
    ghost var repo1, log1 := w.repo, w.log;
    r := DeleteAfterRemoval(w, branch, force, deleteRemote, keepBranch, result, existed);
    assert Workspace.Traced(old(w.repo), old(w.log), w.repo, w.log, w.failures) by {
      Workspace.TracedChain(old(w.repo), old(w.log), repo1, log1, w.repo, w.log, w.failures);
    }
    PrefixThrough(start, removal, rest, w.log);
    ClearAppend(removal, rest, w.failures);
    if r.Failure? {
      StoppedAfter(start, w.log, removal, rest, w.failures, r.error);
    }
  }

  /** `DeleteBranches` after a removal that went through, with its error or the flags cleanup reports. */
  method DeleteAfterRemoval(w: Workspace.World, branch: string, force: bool, deleteRemote: bool, keepBranch: bool,
                            result: CleanupResult, existed: bool)
    returns (r: Result<CleanupResult, Workspace.Op>)
    modifies w
    ensures w.warnings == old(w.warnings)
    ensures old(w.log) <= w.log && w.log <= old(w.log) + BranchSteps(branch, force, deleteRemote, keepBranch)
    ensures r.Success? ==>
      w.log == old(w.log) + BranchSteps(branch, force, deleteRemote, keepBranch)
      && r.value == Flags(result, existed, !keepBranch, deleteRemote && !keepBranch,
                          if deleteRemote && !keepBranch && Workspace.DeleteRemote(branch) in w.failures
                          then Some(w.failures[Workspace.DeleteRemote(branch)]) else None)
      && w.repo == BranchesDeleted(old(w.repo), branch, deleteRemote, keepBranch, w.failures)
    ensures r.Success? <==> Clear(BranchSteps(branch, force, deleteRemote, keepBranch), w.failures)
    ensures r.Failure? ==>
      StoppedFirst(old(w.log), w.log, BranchSteps(branch, force, deleteRemote, keepBranch), w.failures, r.error)
    ensures Workspace.Traced(old(w.repo), old(w.log), w.repo, w.log, w.failures)
  {
    var err, remoteError := DeleteBranches(w, branch, force, deleteRemote, keepBranch);
    if err.Some? {
      return Failure(err.value);
    }
    return Success(Flags(result, existed, !keepBranch, deleteRemote && !keepBranch, remoteError));
  }

  /** Remove the worktree's directory when it exists, then prune git's worktree metadata. */
  method RemoveWorktree(w: Workspace.World, path: string) returns (err: Option<Workspace.Op>)
    modifies w
    ensures w.warnings == old(w.warnings)
    ensures err.None? ==>
      w.log == old(w.log) + RemovalSteps(path, path in old(w.repo).dirs) && w.repo == WorktreeRemoved(old(w.repo), path)
    ensures err.None? <==> Clear(RemovalSteps(path, path in old(w.repo).dirs), w.failures)
    ensures err.Some? ==> StoppedFirst(old(w.log), w.log, RemovalSteps(path, path in old(w.repo).dirs), w.failures, err.value)
    ensures Workspace.Traced(old(w.repo), old(w.log), w.repo, w.log, w.failures)
  {
    var steps := RemovalSteps(path, path in w.repo.dirs);
    RemovalClear(path, path in w.repo.dirs, w.failures);
    RemovalStop(w.log, path, path in w.repo.dirs, w.failures);
    Workspace.TracedInert(w.repo, w.log, w.log, w.failures);
    if path in w.repo.dirs {
      var e := w.Run(Workspace.RemoveDir(path));
      if e.Some? {
        return Some(Workspace.RemoveDir(path));
      }
    }
    assert w.repo.dirs == old(w.repo).dirs - {path};
    ghost var repo1, log1 := w.repo, w.log;
    var e := w.Run(Workspace.Prune);
    assert Workspace.Traced(old(w.repo), old(w.log), w.repo, w.log, w.failures) by {
      Workspace.TracedChain(old(w.repo), old(w.log), repo1, log1, w.repo, w.log, w.failures);
    }
    if e.Some? {
      return Some(Workspace.Prune);
    }
    return None;
  }

  /**
   * Delete the local branch unless it is kept, then the remote one when asked
   * for; a failed remote deletion is only reported, in `remoteError`.
   */
  method DeleteBranches(w: Workspace.World, branch: string, force: bool, deleteRemote: bool, keepBranch: bool)
    returns (err: Option<Workspace.Op>, remoteError: Option<string>)
    modifies w
    ensures w.warnings == old(w.warnings)
    ensures err.None? ==>
      w.log == old(w.log) + BranchSteps(branch, force, deleteRemote, keepBranch)
      && remoteError == (if deleteRemote && !keepBranch && Workspace.DeleteRemote(branch) in w.failures
                         then Some(w.failures[Workspace.DeleteRemote(branch)]) else None)
      && w.repo == BranchesDeleted(old(w.repo), branch, deleteRemote, keepBranch, w.failures)
    ensures err.None? <==> Clear(BranchSteps(branch, force, deleteRemote, keepBranch), w.failures)
    ensures err.Some? ==>
      !keepBranch && w.log == old(w.log) + [Workspace.DeleteBranch(branch, force)]
      && StoppedFirst(old(w.log), w.log, BranchSteps(branch, force, deleteRemote, keepBranch), w.failures, err.value)
    ensures Workspace.Traced(old(w.repo), old(w.log), w.repo, w.log, w.failures)
  {
    remoteError := None;
    BranchesClear(branch, force, deleteRemote, keepBranch, w.failures);
    Workspace.TracedInert(w.repo, w.log, w.log, w.failures);
    if !keepBranch {
      var e := w.Run(Workspace.DeleteBranch(branch, force));
      if e.Some? {
        assert w.log[|old(w.log)|..|w.log| - 1] == [];
        return Some(Workspace.DeleteBranch(branch, force)), None;
      }
    }
    if deleteRemote && !keepBranch {
      ghost var repo1, log1 := w.repo, w.log;
      remoteError := w.Run(Workspace.DeleteRemote(branch));
      assert Workspace.Traced(old(w.repo), old(w.log), w.repo, w.log, w.failures) by {
        Workspace.TracedChain(old(w.repo), old(w.log), repo1, log1, w.repo, w.log, w.failures);
      }
    }
    err := None;
  }

  /** A log that ran all of `done` and then part of `plan` ran part of `done + plan`. */
  lemma PrefixThrough(start: seq<Workspace.Op>, done: seq<Workspace.Op>, plan: seq<Workspace.Op>, log: seq<Workspace.Op>)
    requires start + done <= log && log <= start + done + plan
    ensures start <= log && log <= start + (done + plan)
    ensures log == start + done + plan ==> log == start + (done + plan)
  {
    assert start + done + plan == start + (done + plan);
  }

  /** A log that ran part of `done` ran part of `done + plan`. */
  lemma PrefixWithin(start: seq<Workspace.Op>, done: seq<Workspace.Op>, plan: seq<Workspace.Op>, log: seq<Workspace.Op>)
    requires log <= start + done
    ensures log <= start + (done + plan)
  {
    assert start + (done + plan) == start + done + plan;
  }

  /** A hook that fails stops the hooks with its message, partway through them. */
  lemma HookStop(start: seq<Workspace.Op>, hooks: seq<string>, path: string, i: nat, failures: map<Workspace.Op, string>)
    requires i < |hooks| && Workspace.RunHook(hooks[i], path) in failures
    requires forall j :: 0 <= j < i ==> Workspace.RunHook(hooks[j], path) !in failures
    ensures StoppedFirst(start, start + HookOps(hooks[..i + 1], path), HookOps(hooks, path), failures,
                         Workspace.RunHook(hooks[i], path))
  {
    var log := start + HookOps(hooks[..i + 1], path);
    assert log[|log| - 1] == Workspace.RunHook(hooks[i], path);
    assert HookOps(hooks[..i + 1], path) <= HookOps(hooks, path);
    assert log[|start|..|log| - 1] == HookOps(hooks[..i], path);
  }

  const CloseTabFailed: string := "Failed to close zellij tab"
  const SelectTabFailed: string := "Failed to select tab"

  /** The warning printed when a closed tab still shows after every listing cleanup waits for. */
  function LingerWarning(branch: string): string {
    "Warning: zellij tab for '" + branch + "' did not close in the allotted time. Filesystem cleanup may fail."
  }

  /** The tab commands `close_tab` issues: go to the tab, close it. */
  function CloseSteps(closes: bool, tab: string): seq<Workspace.Op> {
    if closes then [Workspace.GoToTab(tab), Workspace.CloseCurrentTab] else []
  }

  /**
   * Wait for a closed tab to leave the listing; the tab stays listed for the
   * first `closeLag` listings, and a warning follows when that outlasts the wait.
   */
  method AwaitTabGone(w: Workspace.World, branch: string)
    modifies w
    ensures w.log == old(w.log) && w.repo == old(w.repo)
    ensures w.warnings == old(w.warnings) + (if w.closeLag >= MaxRetries then [LingerWarning(branch)] else [])
  {
    var lag := w.closeLag;
    var listedAt: nat -> bool := k => k < lag;
    var gone, polls := PollUntilGone(listedAt);
    if lag < MaxRetries {
      assert !listedAt(lag);
    } else {
      assert forall k :: 0 <= k < MaxRetries ==> listedAt(k);
    }
    if !gone {
      w.Warn(LingerWarning(branch));
    }
  }

  /**
   * Close the branch's tab when zellij runs and the tab exists, then wait for
   * it to leave the listing, warning when it does not in time. `Success(b)`
   * says whether a tab was closed.
   */
  method CloseTargetTab(w: Workspace.World, prefix: string, branch: string) returns (r: Result<bool, string>)
    requires w.Valid()
    modifies w, w.session
    ensures w.Valid() && w.repo == old(w.repo)
    ensures Workspace.Traced(old(w.repo), old(w.log), w.repo, w.log, w.failures)
    ensures r == Success(false) <==> !(w.zellijRunning && old(w.HasTab(prefix, branch)))
    ensures r == Success(false) ==>
      w.log == old(w.log) && w.warnings == old(w.warnings) && w.session.tabs == old(w.session.tabs)
    ensures r == Success(true) ==>
      Zellij.Prefixed(prefix, branch) in old(w.session.tabs)
      && w.log == old(w.log) + CloseSteps(true, Zellij.Prefixed(prefix, branch))
      && w.session.tabs == Zellij.Remove(old(w.session.tabs), Zellij.Prefixed(prefix, branch))
      && w.warnings == old(w.warnings) + (if w.closeLag >= MaxRetries then [LingerWarning(branch)] else [])
    ensures r.Failure? ==>
      r.error == CloseTabFailed && Zellij.Prefixed(prefix, branch) !in old(w.session.tabs)
      && w.log == old(w.log) + [Workspace.GoToTab(Zellij.Prefixed(prefix, branch))]
      && w.warnings == old(w.warnings) && w.session.tabs == old(w.session.tabs)
  {
    Workspace.TracedInert(w.repo, w.log, w.log, w.failures);
    if !(w.zellijRunning && w.HasTab(prefix, branch)) {
      return Success(false);
    }
    var closed := w.CloseTab(prefix, branch);
    if closed != Zellij.Done {
      return Failure(CloseTabFailed);
    }
    AwaitTabGone(w, branch);
    return Success(true);
  }

  /**
   * Nothing in this world, with the worktree directories `dirs`, can make
   * `Cleanup` fail: the tab it would close is open, and no command of its
   * trace fails except a remote deletion, which is only reported.
   */
  ghost predicate Unhindered(w: Workspace.World, dirs: set<string>, ctx: Context.WorkflowContext, branch: string,
                             path: string, force: bool, deleteRemote: bool, keepBranch: bool)
    requires w.Valid()
    reads w.session
  {
    var inside := InsideTargetTab(w.zellijRunning, w.tabEnv, ctx.prefix, branch);
    var trace := FsTrace(ctx.config.preDelete.GetOr([]), path, path in dirs, branch, force, deleteRemote, keepBranch);
    (!inside && w.zellijRunning && w.HasTab(ctx.prefix, branch) ==> Zellij.Prefixed(ctx.prefix, branch) in w.session.tabs)
    && Clear(trace, w.failures)
  }

  /**
   * `cleanup`: outside the branch's own tab, close that tab first; then the
   * hooks, the directory, the worktree metadata and the branches. Inside
   * the tab, the tab is left for the caller to close later.
   */
  method Cleanup(w: Workspace.World, ctx: Context.WorkflowContext, branch: string, path: string, force: bool,
                 deleteRemote: bool, keepBranch: bool)
    returns (r: Result<CleanupResult, CleanupError>)
    requires w.Valid()
    modifies w, w.session
    ensures w.Valid()
    ensures var inside := InsideTargetTab(w.zellijRunning, w.tabEnv, ctx.prefix, branch);
      var closes := !inside && w.zellijRunning && old(w.HasTab(ctx.prefix, branch));
      var tab := Zellij.Prefixed(ctx.prefix, branch);
      var trace := FsTrace(ctx.config.preDelete.GetOr([]), path, path in old(w.repo).dirs, branch, force,
                           deleteRemote, keepBranch);
      old(w.log) <= w.log && w.log <= old(w.log) + CloseSteps(closes, tab) + trace
      && (!closes ==> w.session.tabs == old(w.session.tabs))
      && (r.Success? ==>
            r.value.ranInsideTargetTab == inside && r.value.tabClosed == closes
            && w.log == old(w.log) + CloseSteps(closes, tab) + trace
            && r.value == Reported(CleanupResult(closes, false, false, false, None, inside), path in old(w.repo).dirs,
                                   branch, deleteRemote, keepBranch, w.failures))
      && (r.Success? && closes ==> w.session.tabs == Zellij.Remove(old(w.session.tabs), tab))
    ensures r.Success? ==> w.repo == Cleaned(old(w.repo), path, branch, deleteRemote, keepBranch, w.failures)
    ensures var inside := InsideTargetTab(w.zellijRunning, w.tabEnv, ctx.prefix, branch);
      var tab := Zellij.Prefixed(ctx.prefix, branch);
      r == Failure(TabNotClosed) ==>
        !inside && w.zellijRunning && old(w.HasTab(ctx.prefix, branch)) && tab !in old(w.session.tabs)
        && w.log == old(w.log) + [Workspace.GoToTab(tab)]
    ensures var trace := FsTrace(ctx.config.preDelete.GetOr([]), path, path in old(w.repo).dirs, branch, force,
                                 deleteRemote, keepBranch);
      r.Failure? && r.error.StepFailed? ==> StoppedAt(w.log, w.failures, r.error.op) && r.error.op in trace
    ensures var inside := InsideTargetTab(w.zellijRunning, w.tabEnv, ctx.prefix, branch);
      var closes := !inside && w.zellijRunning && old(w.HasTab(ctx.prefix, branch));
      var trace := FsTrace(ctx.config.preDelete.GetOr([]), path, path in old(w.repo).dirs, branch, force,
                           deleteRemote, keepBranch);
      r.Failure? && r.error.StepFailed? ==>
        StoppedFirst(old(w.log) + CloseSteps(closes, Zellij.Prefixed(ctx.prefix, branch)), w.log, trace, w.failures,
                     r.error.op)
    ensures var inside := InsideTargetTab(w.zellijRunning, w.tabEnv, ctx.prefix, branch);
      var closes := !inside && w.zellijRunning && old(w.HasTab(ctx.prefix, branch));
      var trace := FsTrace(ctx.config.preDelete.GetOr([]), path, path in old(w.repo).dirs, branch, force,
                           deleteRemote, keepBranch);
      r.Success? <==> (closes ==> Zellij.Prefixed(ctx.prefix, branch) in old(w.session.tabs)) && Clear(trace, w.failures)
    ensures Workspace.Traced(old(w.repo), old(w.log), w.repo, w.log, w.failures)
  {
    var inside := InsideTargetTab(w.zellijRunning, w.tabEnv, ctx.prefix, branch);
    var result := CleanupResult(false, false, false, false, None, inside);
    ghost var start := w.log;
    ghost var closes := !inside && w.zellijRunning && w.HasTab(ctx.prefix, branch);
    ghost var tab := Zellij.Prefixed(ctx.prefix, branch);
    if !inside {
      var closed := CloseTargetTab(w, ctx.prefix, branch);
      if closed.Failure? {
        assert [Workspace.GoToTab(tab)] <= CloseSteps(closes, tab);
        PrefixWithin(start, [Workspace.GoToTab(tab)], CloseSteps(closes, tab)[1..] + FsTrace(ctx.config.preDelete.GetOr([]),
          path, path in old(w.repo).dirs, branch, force, deleteRemote, keepBranch), w.log);
        return Failure(TabNotClosed);
      }
      result := result.(tabClosed := closed.value);
    } else {
      Workspace.TracedInert(w.repo, w.log, w.log, w.failures);
    }
    assert w.log == start + CloseSteps(closes, tab);
    ghost var repo1, log1 := w.repo, w.log;
    var cleaned := FsGitCleanup(w, branch, path, force, deleteRemote, keepBranch, ctx.config.preDelete.GetOr([]), result);
    r := if cleaned.Success? then Success(cleaned.value) else Failure(StepFailed(cleaned.error));
    assert Workspace.Traced(old(w.repo), old(w.log), w.repo, w.log, w.failures) by {
      Workspace.TracedChain(old(w.repo), old(w.log), repo1, log1, w.repo, w.log, w.failures);
    }
    PrefixThrough(start, CloseSteps(closes, tab), FsTrace(ctx.config.preDelete.GetOr([]), path, path in old(w.repo).dirs,
                  branch, force, deleteRemote, keepBranch), w.log);
  }

  /**
   * `navigate_to_main_and_close`: without a main tab, only a close of the
   * cleaned-up tab is scheduled, and only when cleanup ran inside it; inside
   * that tab, the move to the main tab and the close are scheduled together;
   * otherwise `SwitchToMainAndClose` does both at once.
   */
  method NavigateToMainAndClose(w: Workspace.World, prefix: string, mainBranch: string, targetBranch: string,
                                result: CleanupResult)
    returns (r: Zellij.Outcome)
    requires w.Valid()
    modifies w, w.session
    ensures w.Valid() && w.repo == old(w.repo) && w.warnings == old(w.warnings)
    ensures var target := Zellij.Prefixed(prefix, targetBranch);
      var hasMain := w.zellijRunning && old(w.HasTab(prefix, mainBranch));
      (!hasMain ==>
         r == Zellij.Done && w.session.tabs == old(w.session.tabs)
         && w.log == old(w.log) + (if result.ranInsideTargetTab then [Workspace.ScheduleClose(target)] else []))
      && (hasMain && result.ranInsideTargetTab ==>
            r == Zellij.Done && w.session.tabs == old(w.session.tabs)
            && w.log == old(w.log) + [Workspace.ScheduleNavigateAndClose(Zellij.Prefixed(prefix, mainBranch), target)])
      && (hasMain && !result.ranInsideTargetTab && r == Zellij.Done ==>
            w.log == old(w.log) + [Workspace.GoToTab(Zellij.Prefixed(prefix, mainBranch)), Workspace.GoToTab(target)]
                     + (if target in old(w.session.tabs) then [Workspace.CloseCurrentTab] else [])
            && w.session.tabs == Zellij.Remove(old(w.session.tabs), target))
      && (r != Zellij.Done ==> hasMain && !result.ranInsideTargetTab && r == Zellij.Failed(SelectTabFailed))
    ensures Zellij.Prefixed(prefix, mainBranch) != [] ==> r == Zellij.Done
    ensures old(w.log) <= w.log
    ensures Workspace.Traced(old(w.repo), old(w.log), w.repo, w.log, w.failures)
  {
    var target := Zellij.Prefixed(prefix, targetBranch);
    if !(w.zellijRunning && w.HasTab(prefix, mainBranch)) {
      if result.ranInsideTargetTab {
        w.Schedule(Workspace.ScheduleClose(target));
      } else {
        Workspace.TracedInert(w.repo, w.log, w.log, w.failures);
      }
      return Zellij.Done;
    }
    if result.ranInsideTargetTab {
      w.Schedule(Workspace.ScheduleNavigateAndClose(Zellij.Prefixed(prefix, mainBranch), target));
      return Zellij.Done;
    }
    r := SwitchToMainAndClose(w, prefix, mainBranch, targetBranch);
  }

  /**
   * Select the main tab, then close the cleaned-up one; only a failed
   * selection is an error, and a failed close changes nothing.
   */
  method SwitchToMainAndClose(w: Workspace.World, prefix: string, mainBranch: string, targetBranch: string)
    returns (r: Zellij.Outcome)
    requires w.Valid()
    modifies w, w.session
    ensures w.Valid() && w.repo == old(w.repo) && w.warnings == old(w.warnings)
    ensures var mainTab := Zellij.Prefixed(prefix, mainBranch);
      var target := Zellij.Prefixed(prefix, targetBranch);
      (r == Zellij.Done <==> mainTab in old(w.session.tabs))
      && (r == Zellij.Done ==>
            w.log == old(w.log) + [Workspace.GoToTab(mainTab), Workspace.GoToTab(target)]
                     + (if target in old(w.session.tabs) then [Workspace.CloseCurrentTab] else [])
            && w.session.tabs == Zellij.Remove(old(w.session.tabs), target))
      && (r != Zellij.Done ==>
            r == Zellij.Failed(SelectTabFailed)
            && w.log == old(w.log) + [Workspace.GoToTab(mainTab)] && w.session.tabs == old(w.session.tabs))
    ensures Workspace.Traced(old(w.repo), old(w.log), w.repo, w.log, w.failures)
  {
    var selected := w.SelectTab(prefix, mainBranch);
    if selected != Zellij.Done {
      return Zellij.Failed(SelectTabFailed);
    }
    ghost var log1 := w.log;
    var closed := w.CloseTab(prefix, targetBranch);
    assert Workspace.Traced(old(w.repo), old(w.log), w.repo, w.log, w.failures) by {
      Workspace.TracedChain(old(w.repo), old(w.log), old(w.repo), log1, w.repo, w.log, w.failures);
    }
    return Zellij.Done;
  }
}
