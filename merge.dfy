/**
 * `workmux merge` (src/workflow/merge.rs): merge a worktree's branch into a
 * target branch inside the target's worktree, by a merge commit, a squash or
 * a rebase followed by a fast-forward, then clean up the merged worktree and
 * move to the target's tab.
 *
 * Changing the process's directory to the main worktree is outside the
 * model, and so are the git status queries' own failures.
 */
module MergeWorkflow {

  import opened Wrappers
  import Git
  import Zellij
  import Context
  import Workspace
  import CleanupWorkflow

  datatype MergeResult = MergeResult(branchMerged: string, mergeTarget: string, hadStagedChanges: bool)

  /** How the branch is brought into the target. */
  datatype Strategy = RebaseFirst | Squash | MergeCommit

  /** `--rebase` wins over `--squash`; without either, a merge commit. */
  function StrategyOf(rebase: bool, squash: bool): (s: Strategy)
    ensures s == RebaseFirst <==> rebase
    ensures s == Squash <==> !rebase && squash
    ensures s == MergeCommit <==> !rebase && !squash
  {
    if rebase then RebaseFirst else if squash then Squash else MergeCommit
  }

  function NoWorktreeMessage(branch: string): string {
    "No worktree found for branch '" + branch + "'"
  }

  function NoTargetWorktreeMessage(target: string): string {
    "No worktree found for target branch '" + target + "'. The target branch must have an active worktree."
  }

  function UnstagedMessage(branch: string): string {
    "Worktree for '" + branch + "' has unstaged changes. Please stage or stash them, or use --ignore-uncommitted."
  }

  const CommitFailed: string := "Failed to commit staged changes"
  const SelfMerge: string := "Cannot merge a branch into itself."

  function DirtyTargetMessage(target: string): string {
    "Target worktree '" + target + "' has uncommitted changes. Please commit or stash them before merging."
  }

  function SwitchFailedMessage(target: string, targetPath: string): string {
    "Failed to switch to branch '" + target + "' in worktree '" + targetPath + "'"
  }

  function RebaseFailedMessage(path: string): string {
    "Rebase failed, likely due to conflicts.\n\nPlease resolve them manually inside the worktree at '" + path
    + "'.\nThen, run 'git rebase --continue' to proceed or 'git rebase --abort' to cancel."
  }

  const FastForwardFailed: string := "Failed to merge rebased branch. This should have been a fast-forward."
  const SquashCommitFailed: string := "Failed to commit squashed changes. You may need to commit them manually."

  /** The command that retries the merge: `--target` is spelled out unless the target is the main branch. */
  function RetryCommand(branch: string, target: string, mainBranch: string): string {
    "workmux merge " + branch + (if target != mainBranch then " --target " + target else "")
  }

  /** The advice a conflict message opens with: how to bring the branch up to date with the target. */
  function ConflictAdvice(path: string, target: string): string {
    "Merge failed due to conflicts. Target worktree kept clean.\n\nTo resolve, update your branch in worktree at "
    + path + ":\ngit rebase " + target + "  (recommended)\nOr:\ngit merge " + target
    + "\n\nAfter resolving conflicts, retry: "
  }

  /** The message for a merge or squash that ran into conflicts. */
  function ConflictMessage(path: string, target: string, mainBranch: string, branch: string): string {
    ConflictAdvice(path, target) + RetryCommand(branch, target, mainBranch)
  }

  /** Why merge stops before it brings the branch in. */
  datatype Refusal =
    | NoSource
    | NoTarget
    | UnstagedChanges
    | CommitFailure
    | IntoItself
    | DirtyTarget
    | SwitchFailure(targetPath: string)

  /** What the user is told for each refusal. */
  function RefusalMessage(e: Refusal, branch: string, target: string): string {
    match e
    case NoSource => NoWorktreeMessage(branch)
    case NoTarget => NoTargetWorktreeMessage(target)
    case UnstagedChanges => UnstagedMessage(branch)
    case CommitFailure => CommitFailed
    case IntoItself => SelfMerge
    case DirtyTarget => DirtyTargetMessage(target)
    case SwitchFailure(targetPath) => SwitchFailedMessage(target, targetPath)
  }

  /**
   * The worktree of the branch and the worktree of the target, from the
   * listing; the main branch's worktree is the main worktree root.
   */
  function ResolvePaths(listing: Git.Query, ctx: Context.WorkflowContext, branch: string, target: string)
    : (r: Result<(string, string), Refusal>)
    ensures Git.WorktreePath(listing, branch).Failure? ==> r == Failure(NoSource)
    ensures Git.WorktreePath(listing, branch).Success? && target != ctx.mainBranch
            && Git.WorktreePath(listing, target).Failure? ==>
      r == Failure(NoTarget)
    ensures r.Success? ==>
      Git.WorktreePath(listing, branch) == Success(r.value.0)
      && (target == ctx.mainBranch ==> r.value.1 == ctx.mainWorktreeRoot)
      && (target != ctx.mainBranch ==> Git.WorktreePath(listing, target) == Success(r.value.1))
  {
    match Git.WorktreePath(listing, branch)
    case Failure(_) => Failure(NoSource)
    case Success(path) =>
      if target == ctx.mainBranch then Success((path, ctx.mainWorktreeRoot))
      else
        match Git.WorktreePath(listing, target)
        case Failure(_) => Failure(NoTarget)
        case Success(targetPath) => Success((path, targetPath))
  }

  /** Whether merge commits the branch's staged changes itself before merging. */
  function CommitsStaged(repo: Workspace.Repo, path: string, ignoreUncommitted: bool): bool {
    path in repo.staged && !ignoreUncommitted
  }

  /** The commit of the branch's staged changes, when merge makes it. */
  function Committed(repo: Workspace.Repo, path: string, ignoreUncommitted: bool): seq<Workspace.Op> {
    if CommitsStaged(repo, path, ignoreUncommitted) then [Workspace.Commit(path)] else []
  }

  /**
   * The checks and commands before the strategy, in the source's order: the
   * two worktrees as `ResolvePaths` found them, unstaged changes, then `Checked`. The result is the
   * refusal or the two worktree paths, with the commands issued on the way.
   */
  function Preparation(resolved: Result<(string, string), Refusal>, repo: Workspace.Repo, branch: string,
                       target: string, ignoreUncommitted: bool, failures: map<Workspace.Op, string>)
    : (Result<(string, string), Refusal>, seq<Workspace.Op>)
  {
    match resolved
    case Failure(e) => (Failure(e), [])
    case Success(paths) =>
      if paths.0 in repo.unstaged && !ignoreUncommitted then (Failure(UnstagedChanges), [])
      else Checked(repo, paths.0, paths.1, branch, target, ignoreUncommitted, failures)
  }

  /**
   * The rest of the preparation: the commit of staged changes, merging into
   * itself, a dirty target (after that commit) and the switch of the target
   * worktree to the target branch.
   */
  function Checked(repo: Workspace.Repo, path: string, targetPath: string, branch: string, target: string,
                   ignoreUncommitted: bool, failures: map<Workspace.Op, string>)
    : (Result<(string, string), Refusal>, seq<Workspace.Op>)
  {
    var committed := Committed(repo, path, ignoreUncommitted);
    var switched := committed + [Workspace.Switch(targetPath, target)];
    if CommitsStaged(repo, path, ignoreUncommitted) && Workspace.Commit(path) in failures then
      (Failure(CommitFailure), committed)
    else if branch == target then (Failure(IntoItself), committed)
    else if Workspace.Uncommitted(Workspace.Replay(repo, committed, failures), targetPath) then
      (Failure(DirtyTarget), committed)
    else if Workspace.Switch(targetPath, target) in failures then (Failure(SwitchFailure(targetPath)), switched)
    else (Success((path, targetPath)), switched)
  }

  /** The checks and commands of `Preparation`, against the world; the flag is whether the branch had staged changes. */
  method Prepare(w: Workspace.World, listing: Git.Query, ctx: Context.WorkflowContext, branch: string, target: string,
                 ignoreUncommitted: bool)
    returns (r: Result<(string, string), Refusal>, hadStaged: bool)
    modifies w
    ensures w.warnings == old(w.warnings)
    ensures var p := Preparation(ResolvePaths(listing, ctx, branch, target), old(w.repo), branch, target,
                                 ignoreUncommitted, w.failures);
      r == p.0 && w.log == old(w.log) + p.1 && w.repo == Workspace.Replay(old(w.repo), p.1, w.failures)
    ensures r.Success? ==> hadStaged == (r.value.0 in old(w.repo).staged)
  {
    var paths := ResolvePaths(listing, ctx, branch, target);
    if paths.Failure? {
      return Failure(paths.error), false;
    }
    if paths.value.0 in w.repo.unstaged && !ignoreUncommitted {
      return Failure(UnstagedChanges), false;
    }
    hadStaged := paths.value.0 in w.repo.staged;
    r := CommitAndSwitch(w, paths.value.0, paths.value.1, branch, target, ignoreUncommitted);
  }

  /** The steps of `Checked`, against the world. */
  method CommitAndSwitch(w: Workspace.World, path: string, targetPath: string, branch: string, target: string,
                         ignoreUncommitted: bool)
    returns (r: Result<(string, string), Refusal>)
    modifies w
    ensures w.warnings == old(w.warnings)
    ensures var p := Checked(old(w.repo), path, targetPath, branch, target, ignoreUncommitted, w.failures);
      r == p.0 && w.log == old(w.log) + p.1 && w.repo == Workspace.Replay(old(w.repo), p.1, w.failures)
    ensures r.Success? ==> r.value == (path, targetPath)
  {
    ghost var before := w.repo;
    ghost var committed := Committed(before, path, ignoreUncommitted);
    if path in w.repo.staged && !ignoreUncommitted {
      var e := w.Run(Workspace.Commit(path));
      Workspace.ReplayOne(before, Workspace.Commit(path), w.failures);
      if e.Some? {
        return Failure(CommitFailure);
      }
    }
    assert w.repo == Workspace.Replay(before, committed, w.failures);
    if branch == target {
      return Failure(IntoItself);
    }
    if Workspace.Uncommitted(w.repo, targetPath) {
      return Failure(DirtyTarget);
    }
    var e := w.Run(Workspace.Switch(targetPath, target));
    Workspace.ReplayAppend(before, committed, [Workspace.Switch(targetPath, target)], w.failures);
    Workspace.ReplayOne(Workspace.Replay(before, committed, w.failures), Workspace.Switch(targetPath, target), w.failures);
    if e.Some? {
      return Failure(SwitchFailure(targetPath));
    }
    return Success((path, targetPath));
  }

  /** How a strategy can fail. */
  datatype StrategyError = RebaseConflict | FastForwardFailure | MergeConflict | SquashCommitFailure

  /** What the user is told for each failure. */
  function StrategyMessage(e: StrategyError, path: string, conflict: string): string {
    match e
    case RebaseConflict => RebaseFailedMessage(path)
    case FastForwardFailure => FastForwardFailed
    case MergeConflict => conflict
    case SquashCommitFailure => SquashCommitFailed
  }

  /**
   * The commands a strategy issues and the error it ends with, if any: a
   * failed squash is followed by a hard reset, a failed merge commit by an
   * abort, and both report the conflict.
   */
  function StrategyRun(s: Strategy, path: string, targetPath: string, branch: string, target: string,
                       failures: map<Workspace.Op, string>)
    : (run: (seq<Workspace.Op>, Option<StrategyError>))
  {
    match s
    case RebaseFirst =>
      if Workspace.Rebase(path, target) in failures then
        ([Workspace.Rebase(path, target)], Some(RebaseConflict))
      else if Workspace.Merge(targetPath, branch) in failures then
        ([Workspace.Rebase(path, target), Workspace.Merge(targetPath, branch)], Some(FastForwardFailure))
      else ([Workspace.Rebase(path, target), Workspace.Merge(targetPath, branch)], None)
    case Squash =>
      if Workspace.SquashMerge(targetPath, branch) in failures then
        ([Workspace.SquashMerge(targetPath, branch), Workspace.ResetHard(targetPath)], Some(MergeConflict))
      else if Workspace.Commit(targetPath) in failures then
        ([Workspace.SquashMerge(targetPath, branch), Workspace.Commit(targetPath)], Some(SquashCommitFailure))
      else ([Workspace.SquashMerge(targetPath, branch), Workspace.Commit(targetPath)], None)
    case MergeCommit =>
      if Workspace.Merge(targetPath, branch) in failures then
        ([Workspace.Merge(targetPath, branch), Workspace.AbortMerge(targetPath)], Some(MergeConflict))
      else ([Workspace.Merge(targetPath, branch)], None)
  }

  /** Bring the branch into the target by the chosen strategy. */
  method RunStrategy(w: Workspace.World, s: Strategy, path: string, targetPath: string, branch: string, target: string)
    returns (err: Option<StrategyError>)
    modifies w
    ensures w.warnings == old(w.warnings)
    ensures var run := StrategyRun(s, path, targetPath, branch, target, w.failures);
      w.log == old(w.log) + run.0 && err == run.1
    ensures w.repo == Workspace.Replay(old(w.repo), StrategyRun(s, path, targetPath, branch, target, w.failures).0,
                                       w.failures)
  {
    match s
    case RebaseFirst => err := RebaseThenMerge(w, path, targetPath, branch, target);
    case Squash => err := SquashAndCommit(w, targetPath, branch, path, target);
    case MergeCommit => err := MergeOrAbort(w, targetPath, branch, path, target);
  }

  /** Rebase the branch onto the target in its own worktree, then fast-forward the target. */
  method RebaseThenMerge(w: Workspace.World, path: string, targetPath: string, branch: string, target: string)
    returns (err: Option<StrategyError>)
    modifies w
    ensures w.warnings == old(w.warnings)
    ensures var run := StrategyRun(RebaseFirst, path, targetPath, branch, target, w.failures);
      w.log == old(w.log) + run.0 && err == run.1 && w.repo == Workspace.Replay(old(w.repo), run.0, w.failures)
  {
    ghost var before := w.repo;
    var e := w.Run(Workspace.Rebase(path, target));
    Workspace.ReplayOne(before, Workspace.Rebase(path, target), w.failures);
    if e.Some? {
      return Some(RebaseConflict);
    }
    e := w.Run(Workspace.Merge(targetPath, branch));
    Workspace.ReplayTwo(before, Workspace.Rebase(path, target), Workspace.Merge(targetPath, branch), w.failures);
    if e.Some? {
      return Some(FastForwardFailure);
    }
    return None;
  }

  /** Squash-merge into the target and commit; a failed squash is undone by a hard reset. */
  method SquashAndCommit(w: Workspace.World, targetPath: string, branch: string, path: string, target: string)
    returns (err: Option<StrategyError>)
    modifies w
    ensures w.warnings == old(w.warnings)
    ensures var run := StrategyRun(Squash, path, targetPath, branch, target, w.failures);
      w.log == old(w.log) + run.0 && err == run.1 && w.repo == Workspace.Replay(old(w.repo), run.0, w.failures)
  {
    ghost var before := w.repo;
    var e := w.Run(Workspace.SquashMerge(targetPath, branch));
    if e.Some? {
      var ignored := w.Run(Workspace.ResetHard(targetPath));
      Workspace.ReplayTwo(before, Workspace.SquashMerge(targetPath, branch), Workspace.ResetHard(targetPath), w.failures);
      return Some(MergeConflict);
    }
    e := w.Run(Workspace.Commit(targetPath));
    Workspace.ReplayTwo(before, Workspace.SquashMerge(targetPath, branch), Workspace.Commit(targetPath), w.failures);
    if e.Some? {
      return Some(SquashCommitFailure);
    }
    return None;
  }

  /** Merge into the target with a merge commit; a failed merge is aborted. */
  method MergeOrAbort(w: Workspace.World, targetPath: string, branch: string, path: string, target: string)
    returns (err: Option<StrategyError>)
    modifies w
    ensures w.warnings == old(w.warnings)
    ensures var run := StrategyRun(MergeCommit, path, targetPath, branch, target, w.failures);
      w.log == old(w.log) + run.0 && err == run.1 && w.repo == Workspace.Replay(old(w.repo), run.0, w.failures)
  {
    ghost var before := w.repo;
    var e := w.Run(Workspace.Merge(targetPath, branch));
    if e.Some? {
      var ignored := w.Run(Workspace.AbortMerge(targetPath));
      Workspace.ReplayTwo(before, Workspace.Merge(targetPath, branch), Workspace.AbortMerge(targetPath), w.failures);
      return Some(MergeConflict);
    }
    Workspace.ReplayOne(before, Workspace.Merge(targetPath, branch), w.failures);
    return None;
  }

  /** A strategy fails exactly when one of the commands it issued failed. */
  lemma StrategyFailsIffCommandFails(s: Strategy, path: string, targetPath: string, branch: string, target: string,
                                     failures: map<Workspace.Op, string>)
    ensures var run := StrategyRun(s, path, targetPath, branch, target, failures);
      run.1.None? <==> forall i :: 0 <= i < |run.0| ==> run.0[i] !in failures
  {
    var run := StrategyRun(s, path, targetPath, branch, target, failures);
    if run.1.Some? {
      assert run.0[0] in failures || run.0[1] in failures;
    }
  }

  /**
   * Starting from a clean target, the target worktree is clean again after
   * the strategy, unless the squashed changes could not be committed (they
   * stay staged) or the reset after a failed squash failed itself.
   */
  lemma TargetKeptClean(repo: Workspace.Repo, s: Strategy, path: string, targetPath: string, branch: string,
                           target: string, failures: map<Workspace.Op, string>)
    requires !Workspace.Uncommitted(repo, targetPath)
    requires Workspace.ResetHard(targetPath) !in failures
    requires StrategyRun(s, path, targetPath, branch, target, failures).1 != Some(SquashCommitFailure)
    ensures !Workspace.Uncommitted(Workspace.Replay(repo, StrategyRun(s, path, targetPath, branch, target, failures).0,
                                                    failures), targetPath)
  {
    var run := StrategyRun(s, path, targetPath, branch, target, failures);
    if |run.0| == 1 {
      Workspace.ReplayOne(repo, run.0[0], failures);
      assert run.0 == [run.0[0]];
    } else {
      Workspace.ReplayTwo(repo, run.0[0], run.0[1], failures);
      assert run.0 == [run.0[0], run.0[1]];
    }
  }

  /** Squashed changes that could not be committed stay staged in the target. */
  lemma SquashLeftStaged(repo: Workspace.Repo, path: string, targetPath: string, branch: string, target: string,
                         failures: map<Workspace.Op, string>)
    requires StrategyRun(Squash, path, targetPath, branch, target, failures).1 == Some(SquashCommitFailure)
    ensures targetPath in Workspace.Replay(repo, StrategyRun(Squash, path, targetPath, branch, target, failures).0,
                                           failures).staged
  {
    Workspace.ReplayTwo(repo, Workspace.SquashMerge(targetPath, branch), Workspace.Commit(targetPath), failures);
  }

  /** `t` is the last part of `s`. */
  predicate EndsWith(s: string, t: string) {
    |t| <= |s| && s[|s| - |t|..] == t
  }

  /**
   * For branch names without spaces, as git requires, the retry command a
   * conflict message ends with names the target exactly when it is not the
   * main branch; `ConflictMessage` is the advice followed by that command.
   */
  lemma RetryEndsWithTarget(advice: string, target: string, mainBranch: string, branch: string)
    requires ' ' !in branch && ' ' !in target
    ensures EndsWith(advice + RetryCommand(branch, target, mainBranch), " --target " + target) <==> target != mainBranch
  {
    var m := advice + RetryCommand(branch, target, mainBranch);
    var tail := " --target " + target;
    var head := advice + "workmux merge";
    if target != mainBranch {
      assert m == head + " " + branch + tail;
      assert m[|m| - |tail|..] == tail;
    } else {
      assert m == head + " " + branch;
      assert head[|head| - 1] == 'e';
      NotEndingInTarget(head, branch, target);
    }
  }

  /** A space-free word after a space cannot end in ` --target <word>` when the text before ends in `e`. */
  lemma NotEndingInTarget(head: string, branch: string, target: string)
    requires ' ' !in branch && ' ' !in target
    requires |head| > 0 && head[|head| - 1] == 'e'
    ensures !EndsWith(head + " " + branch, " --target " + target)
  {
    var m := head + " " + branch;
    var t := " --target " + target;
    var n, b, l := |m|, |branch|, |t|;
    if l <= n {
      // A position where the tail of `m` and `t` differ.
      var i: int;
      if l <= b {
        i := 0;
        assert m[n - l] == branch[b - l];
      } else if l == b + 1 {
        i := 9;
        assert m[n - l + 9] == branch[8];
      } else if l == b + 10 {
        i := 8;
        assert m[n - l + 8] == head[|head| - 1];
      } else {
        i := l - b - 1;
        assert m[n - l + i] == ' ';
        if i < 10 {
          assert t[i] == " --target "[i];
        } else {
          assert t[i] == target[i - 10];
        }
      }
      assert m[n - l..][i] != t[i];
    }
  }

  /**
   * What `Preparation` guarantees once it succeeds: the worktrees are the
   * resolved ones, the branch is not the target, the branch's unstaged and
   * staged changes were dealt with unless ignored, and the target worktree is
   * clean and on the target branch. Whatever the outcome, only commits and
   * the switch were issued; the refusals before the commit issue nothing,
   * and a failed commit, a merge into itself or a dirty target stop before
   * the switch.
   */
  lemma PreparationGuards(resolved: Result<(string, string), Refusal>, repo: Workspace.Repo, branch: string,
                          target: string, ignoreUncommitted: bool, failures: map<Workspace.Op, string>)
    ensures var p := Preparation(resolved, repo, branch, target, ignoreUncommitted, failures);
      (forall i :: 0 <= i < |p.1| ==> p.1[i].Commit? || p.1[i].Switch?)
      && (resolved.Failure? ==> p == (Failure(resolved.error), []))
      && (p.0 == Failure(UnstagedChanges) ==> p.1 == [])
      && (p.0 == Failure(CommitFailure) || p.0 == Failure(IntoItself) || p.0 == Failure(DirtyTarget) ==>
            (resolved.Success? ==> p.1 == Committed(repo, resolved.value.0, ignoreUncommitted))
            && forall i :: 0 <= i < |p.1| ==> !p.1[i].Switch?)
      && (p.0.Success? ==>
            var path := p.0.value.0;
            var targetPath := p.0.value.1;
            var after := Workspace.Replay(repo, p.1, failures);
            resolved == p.0 && branch != target
            && p.1 == Committed(repo, path, ignoreUncommitted) + [Workspace.Switch(targetPath, target)]
            && (!ignoreUncommitted ==> path !in repo.unstaged && path !in after.staged)
            && !Workspace.Uncommitted(after, targetPath))
  {
    if resolved.Success? && !(resolved.value.0 in repo.unstaged && !ignoreUncommitted) {
      CheckedGuards(repo, resolved.value.0, resolved.value.1, branch, target, ignoreUncommitted, failures);
    }
  }

  /** `Preparation` past the unstaged-changes check: what `Checked` guarantees and issues. */
  lemma CheckedGuards(repo: Workspace.Repo, path: string, targetPath: string, branch: string, target: string,
                      ignoreUncommitted: bool, failures: map<Workspace.Op, string>)
    ensures var c := Checked(repo, path, targetPath, branch, target, ignoreUncommitted, failures);
      (forall i :: 0 <= i < |c.1| ==> c.1[i].Commit? || c.1[i].Switch?)
      && (c.0 == Failure(CommitFailure) || c.0 == Failure(IntoItself) || c.0 == Failure(DirtyTarget) ==>
            c.1 == Committed(repo, path, ignoreUncommitted))
      && (c.0.Success? ==>
            var after := Workspace.Replay(repo, c.1, failures);
            c.0 == Success((path, targetPath)) && branch != target
            && c.1 == Committed(repo, path, ignoreUncommitted) + [Workspace.Switch(targetPath, target)]
            && (!ignoreUncommitted ==> path !in after.staged)
            && !Workspace.Uncommitted(after, targetPath))
  {
    var committed := Committed(repo, path, ignoreUncommitted);
    var switch := Workspace.Switch(targetPath, target);
    var mid := Workspace.Replay(repo, committed, failures);
    CommittedReplay(repo, path, ignoreUncommitted, failures);
    Workspace.ReplayAppend(repo, committed, [switch], failures);
    Workspace.ReplayOne(mid, switch, failures);
  }

  /** The commit of staged changes, when made and when it goes through, leaves nothing staged at the branch. */
  lemma CommittedReplay(repo: Workspace.Repo, path: string, ignoreUncommitted: bool,
                        failures: map<Workspace.Op, string>)
    ensures var mid := Workspace.Replay(repo, Committed(repo, path, ignoreUncommitted), failures);
      mid == (if CommitsStaged(repo, path, ignoreUncommitted) && Workspace.Commit(path) !in failures
              then repo.(staged := repo.staged - {path}) else repo)
  {
    if CommitsStaged(repo, path, ignoreUncommitted) {
      Workspace.ReplayOne(repo, Workspace.Commit(path), failures);
    }
  }

  /**
   * The target worktree, clean after the preparation, is clean after the
   * whole merge, unless squashed changes could not be committed or the
   * reset after a failed squash failed itself.
   */
  lemma MergeKeepsTargetClean(resolved: Result<(string, string), Refusal>, repo: Workspace.Repo, branch: string,
                              target: string, ignoreUncommitted: bool, s: Strategy,
                              failures: map<Workspace.Op, string>)
    requires Preparation(resolved, repo, branch, target, ignoreUncommitted, failures).0.Success?
    requires var paths := Preparation(resolved, repo, branch, target, ignoreUncommitted, failures).0.value;
      Workspace.ResetHard(paths.1) !in failures
      && StrategyRun(s, paths.0, paths.1, branch, target, failures).1 != Some(SquashCommitFailure)
    ensures var p := Preparation(resolved, repo, branch, target, ignoreUncommitted, failures);
      var run := StrategyRun(s, p.0.value.0, p.0.value.1, branch, target, failures);
      !Workspace.Uncommitted(Workspace.Replay(repo, p.1 + run.0, failures), p.0.value.1)
  {
    var p := Preparation(resolved, repo, branch, target, ignoreUncommitted, failures);
    var run := StrategyRun(s, p.0.value.0, p.0.value.1, branch, target, failures);
    PreparationGuards(resolved, repo, branch, target, ignoreUncommitted, failures);
    Workspace.ReplayAppend(repo, p.1, run.0, failures);
    TargetKeptClean(Workspace.Replay(repo, p.1, failures), s, p.0.value.0, p.0.value.1, branch, target, failures);
  }

  /** Why merge failed: refused before the strategy, the strategy failed, or cleanup or navigation failed. */
  datatype MergeError =
    | Refused(refusal: Refusal)
    | StrategyFailed(error: StrategyError, path: string)
    | CleanupFailed(cleanup: CleanupWorkflow.CleanupError)
    | NavigationFailed(message: string)

  /** The message merge fails with. */
  function ErrorMessage(e: MergeError, branch: string, target: string, mainBranch: string): string {
    match e
    case Refused(refusal) => RefusalMessage(refusal, branch, target)
    case StrategyFailed(error, path) => StrategyMessage(error, path, ConflictMessage(path, target, mainBranch, branch))
    case CleanupFailed(cleanup) => CleanupWorkflow.CleanupMessage(cleanup)
    case NavigationFailed(message) => message
  }

  /**
   * After the merge went through: clean up the merged worktree and its
   * branches (forced, local branch always deleted), then go to the target's
   * tab and close the merged one.
   */
  method Finish(w: Workspace.World, ctx: Context.WorkflowContext, branch: string, path: string, target: string,
                deleteRemote: bool)
    returns (err: Option<MergeError>)
    requires w.Valid()
    modifies w, w.session
    ensures w.Valid()
    ensures old(w.log) <= w.log
    ensures err.None? ==> w.repo == CleanupWorkflow.Cleaned(old(w.repo), path, branch, deleteRemote, false, w.failures)
    ensures err.Some? ==> err.value.CleanupFailed? || err.value == NavigationFailed(CleanupWorkflow.SelectTabFailed)
    ensures old(CleanupWorkflow.Unhindered(w, w.repo.dirs, ctx, branch, path, true, deleteRemote, false))
            && Zellij.Prefixed(ctx.prefix, target) != [] ==>
      err.None?
    ensures Workspace.Traced(old(w.repo), old(w.log), w.repo, w.log, w.failures)
  {
    var cleaned := CleanupWorkflow.Cleanup(w, ctx, branch, path, true, deleteRemote, false);
    if cleaned.Failure? {
      return Some(CleanupFailed(cleaned.error));
    }
    ghost var repo1, log1 := w.repo, w.log;
    var moved := CleanupWorkflow.NavigateToMainAndClose(w, ctx.prefix, target, branch, cleaned.value);
    assert Workspace.Traced(old(w.repo), old(w.log), w.repo, w.log, w.failures) by {
      Workspace.TracedChain(old(w.repo), old(w.log), repo1, log1, w.repo, w.log, w.failures);
    }
    if moved.Failed? {
      return Some(NavigationFailed(moved.message));
    }
    return None;
  }

  /**
   * How a prepared merge ends, from the log and repository it started with:
   * the strategy's commands are issued first; a failed strategy is reported
   * and ends the merge; with `keep` the merge ends there, otherwise the
   * worktree and branch are cleaned up (the remote branch too when asked).
   * Every change to the repository is one of the logged commands, and when
   * nothing can stop the finish (`clear`), a merge that went through succeeds.
   */
  ghost predicate Finished(log0: seq<Workspace.Op>, repo0: Workspace.Repo, log: seq<Workspace.Op>, repo: Workspace.Repo,
                           r: Result<MergeResult, MergeError>, run: (seq<Workspace.Op>, Option<StrategyError>),
                           path: string, branch: string, target: string, hadStaged: bool, keep: bool,
                           deleteRemote: bool, clear: bool, failures: map<Workspace.Op, string>)
  {
    var merged := Workspace.Replay(repo0, run.0, failures);
    log0 + run.0 <= log
    && Workspace.Traced(repo0, log0, repo, log, failures)
    && (run.1.Some? ==> r == Failure(StrategyFailed(run.1.value, path)))
    && (run.1.Some? || keep ==> log == log0 + run.0 && repo == merged)
    && (r.Success? ==> run.1.None? && r.value == MergeResult(branch, target, hadStaged))
    && (run.1.None? && keep ==> r.Success?)
    && (run.1.None? && clear ==> r.Success?)
    && (r.Success? && !keep ==> repo == CleanupWorkflow.Cleaned(merged, path, branch, deleteRemote, false, failures))
  }

  /** The preparation removes no worktree directory. */
  lemma PreparedKeepsDirs(resolved: Result<(string, string), Refusal>, repo: Workspace.Repo, branch: string,
                          target: string, ignoreUncommitted: bool, failures: map<Workspace.Op, string>)
    ensures Workspace.Replay(repo, Preparation(resolved, repo, branch, target, ignoreUncommitted, failures).1,
                             failures).dirs == repo.dirs
  {
    PreparationGuards(resolved, repo, branch, target, ignoreUncommitted, failures);
    Workspace.DirsKept(repo, Preparation(resolved, repo, branch, target, ignoreUncommitted, failures).1, failures);
  }

  /** No strategy removes a worktree directory. */
  lemma StrategyKeepsDirs(repo: Workspace.Repo, s: Strategy, path: string, targetPath: string, branch: string,
                          target: string, failures: map<Workspace.Op, string>)
    ensures Workspace.Replay(repo, StrategyRun(s, path, targetPath, branch, target, failures).0, failures).dirs
            == repo.dirs
  {
    var ops := StrategyRun(s, path, targetPath, branch, target, failures).0;
    assert forall i :: 0 <= i < |ops| ==> !ops[i].RemoveDir?;
    Workspace.DirsKept(repo, ops, failures);
  }

  /**
   * A merge that went through and was not kept leaves the merged worktree's
   * directory and the merged branch gone, and the target worktree, clean
   * before the strategy, clean after it.
   */
  lemma MergedAndCleanedUp(log0: seq<Workspace.Op>, repo0: Workspace.Repo, log: seq<Workspace.Op>,
                           repo: Workspace.Repo, r: Result<MergeResult, MergeError>, s: Strategy, path: string,
                           targetPath: string, branch: string, target: string, hadStaged: bool, deleteRemote: bool,
                           failures: map<Workspace.Op, string>)
    requires Finished(log0, repo0, log, repo, r, StrategyRun(s, path, targetPath, branch, target, failures),
                      path, branch, target, hadStaged, false, deleteRemote, false, failures)
    requires r.Success?
    requires !Workspace.Uncommitted(repo0, targetPath) && Workspace.ResetHard(targetPath) !in failures
    ensures path !in repo.dirs && branch !in repo.branches
    ensures !Workspace.Uncommitted(repo, targetPath)
  {
    var run := StrategyRun(s, path, targetPath, branch, target, failures);
    TargetKeptClean(repo0, s, path, targetPath, branch, target, failures);
    CleanupWorkflow.CleanedForgetsWorktree(Workspace.Replay(repo0, run.0, failures), path, branch, deleteRemote,
                                           false, failures);
  }

  /**
   * `merge`: the preparation against the worktrees git lists now, then
   * `MergeFrom`; a refusal is reported with the commands issued so far.
   * The error's text is `ErrorMessage`.
   */
  method Merge(w: Workspace.World, ctx: Context.WorkflowContext, branch: string, target: string,
               ignoreUncommitted: bool, deleteRemote: bool, rebase: bool, squash: bool, keep: bool)
    returns (r: Result<MergeResult, MergeError>)
    requires w.Valid()
    modifies w, w.session
    ensures w.Valid()
    ensures var p := Preparation(ResolvePaths(old(w.Listing()), ctx, branch, target), old(w.repo), branch, target,
                                 ignoreUncommitted, w.failures);
      p.0.Failure? ==>
        r == Failure(Refused(p.0.error)) && w.log == old(w.log) + p.1
        && w.repo == Workspace.Replay(old(w.repo), p.1, w.failures) && w.session.tabs == old(w.session.tabs)
    ensures var p := Preparation(ResolvePaths(old(w.Listing()), ctx, branch, target), old(w.repo), branch, target,
                                 ignoreUncommitted, w.failures);
      p.0.Success? ==>
        var path := p.0.value.0;
        Finished(old(w.log) + p.1, Workspace.Replay(old(w.repo), p.1, w.failures), w.log, w.repo, r,
                 StrategyRun(StrategyOf(rebase, squash), path, p.0.value.1, branch, target, w.failures),
                 path, branch, target, path in old(w.repo).staged, keep, deleteRemote,
                 !keep && old(CleanupWorkflow.Unhindered(w, w.repo.dirs, ctx, branch, path, true, deleteRemote, false))
                 && Zellij.Prefixed(ctx.prefix, target) != [],
                 w.failures)
  {
    var prepared, hadStaged := Prepare(w, w.Listing(), ctx, branch, target, ignoreUncommitted);
    if prepared.Failure? {
      return Failure(Refused(prepared.error));
    }
    PreparedKeepsDirs(ResolvePaths(old(w.Listing()), ctx, branch, target), old(w.repo), branch, target,
                      ignoreUncommitted, w.failures);
    r := MergeFrom(w, ctx, prepared.value.0, prepared.value.1, branch, target, hadStaged, StrategyOf(rebase, squash),
                   keep, deleteRemote);
  }

  /**
   * The merge proper, once prepared: the strategy, then, unless `keep`,
   * `Finish`. A failed strategy is reported with its commands; the result
   * records whether the branch had staged changes.
   */
  method MergeFrom(w: Workspace.World, ctx: Context.WorkflowContext, path: string, targetPath: string, branch: string,
                   target: string, hadStaged: bool, s: Strategy, keep: bool, deleteRemote: bool)
    returns (r: Result<MergeResult, MergeError>)
    requires w.Valid()
    modifies w, w.session
    ensures w.Valid()
    ensures Finished(old(w.log), old(w.repo), w.log, w.repo, r, StrategyRun(s, path, targetPath, branch, target, w.failures),
                     path, branch, target, hadStaged, keep, deleteRemote,
                     !keep && old(CleanupWorkflow.Unhindered(w, w.repo.dirs, ctx, branch, path, true, deleteRemote, false))
                     && Zellij.Prefixed(ctx.prefix, target) != [],
                     w.failures)
  {
    var failed := RunStrategy(w, s, path, targetPath, branch, target);
    ghost var run := StrategyRun(s, path, targetPath, branch, target, w.failures);
    assert Workspace.Traced(old(w.repo), old(w.log), w.repo, w.log, w.failures) by {
      assert w.log[|old(w.log)|..] == run.0;
    }
    if failed.Some? {
      return Failure(StrategyFailed(failed.value, path));
    }
    if keep {
      return Success(MergeResult(branch, target, hadStaged));
    }
    StrategyKeepsDirs(old(w.repo), s, path, targetPath, branch, target, w.failures);
    ghost var repo1, log1 := w.repo, w.log;
    var err := Finish(w, ctx, branch, path, target, deleteRemote);
    assert Workspace.Traced(old(w.repo), old(w.log), w.repo, w.log, w.failures) by {
      Workspace.TracedChain(old(w.repo), old(w.log), repo1, log1, w.repo, w.log, w.failures);
    }
    if err.Some? {
      return Failure(err.value);
    }
    return Success(MergeResult(branch, target, hadStaged));
  }
}
