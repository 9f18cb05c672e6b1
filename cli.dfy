/**
 * The command line (src/cli.rs): the branch names offered when completing a
 * worktree branch argument, and the flag rules the argument parser enforces
 * on `add`, `merge` and `remove` before any workflow runs.
 *
 * The argument parser itself, its help and its error texts are outside the
 * model: a command line is the set of flags and values it carries, and a
 * rejection is the set of rules it breaks.
 */
module Cli {

  import opened Wrappers
  import Git
  import Workspace
  import CleanupWorkflow
  import MergeWorkflow

  // ---------------------------------------------------------------------------
  // Completion candidates

  /** A listed branch is offered unless it is the main branch or a detached HEAD. */
  predicate Offered(branch: string, mainBranch: Option<string>) {
    mainBranch != Some(branch) && branch != Git.Detached
  }

  /** The branches of `entries`, in order, that are offered. */
  function Candidates(entries: seq<Git.Worktree>, mainBranch: Option<string>): (r: seq<string>)
    ensures |r| <= |entries|
    ensures forall b :: b in r <==>
      Offered(b, mainBranch) && exists i :: 0 <= i < |entries| && entries[i].branch == b
  {
    if entries == [] then []
    else
      var rest := Candidates(entries[1..], mainBranch);
      assert forall i :: 0 < i < |entries| ==> entries[i] == entries[1..][i - 1];
      if Offered(entries[0].branch, mainBranch) then [entries[0].branch] + rest else rest
  }

  /**
   * `get_branches`: nothing outside a repository (a failed check counts as
   * outside) or when the worktree listing fails; otherwise the listed
   * branches, in order, without the main branch (when it can be found) and
   * without detached HEADs.
   */
  function GetBranches(repo: Git.Repository): (r: seq<string>)
    ensures repo.isRepo != Success(true) ==> r == []
    ensures repo.listing.Failure? ==> r == []
    ensures r != [] ==> Git.Detached !in r
    ensures forall b :: b in r && Git.DefaultBranch(repo.originHead, repo.branchExists).Success? ==>
      b != Git.DefaultBranch(repo.originHead, repo.branchExists).value
  {
    if repo.isRepo != Success(true) then []
    else
      match repo.listing
      case Failure(_) => []
      case Success(output) =>
        var main := Git.DefaultBranch(repo.originHead, repo.branchExists);
        Candidates(Git.ParseWorktreeList(output), if main.Success? then Some(main.value) else None)
  }

  /** Filtering distributes over concatenation: candidates keep the listing's order. */
  lemma {:induction false} CandidatesAppend(a: seq<Git.Worktree>, b: seq<Git.Worktree>, mainBranch: Option<string>)
    ensures Candidates(a + b, mainBranch) == Candidates(a, mainBranch) + Candidates(b, mainBranch)
  {
    if a == [] {
      assert a + b == b;
    } else {
      assert (a + b)[1..] == a[1..] + b;
      CandidatesAppend(a[1..], b, mainBranch);
    }
  }

  /** Entries whose branches are all offered yield exactly their branches, in order. */
  lemma {:induction false} AllOffered(entries: seq<Git.Worktree>, mainBranch: Option<string>)
    requires forall i :: 0 <= i < |entries| ==> Offered(entries[i].branch, mainBranch)
    ensures |Candidates(entries, mainBranch)| == |entries|
    ensures forall i :: 0 <= i < |entries| ==> Candidates(entries, mainBranch)[i] == entries[i].branch
  {
    if entries != [] {
      AllOffered(entries[1..], mainBranch);
    }
  }

  /**
   * For a listing git printed, the candidates are those of the printed
   * worktrees: one per worktree that is neither on the main branch nor
   * detached.
   */
  lemma RenderedCandidates(repo: Git.Repository, worktrees: seq<Git.Worktree>)
    requires repo.isRepo == Success(true)
    requires repo.listing == Success(Git.RenderWorktreeList(worktrees))
    requires forall i :: 0 <= i < |worktrees| ==> Git.Printable(worktrees[i])
    ensures var main := Git.DefaultBranch(repo.originHead, repo.branchExists);
      GetBranches(repo) == Candidates(worktrees, if main.Success? then Some(main.value) else None)
  {
    Git.ParseRenderedList(worktrees);
    ListedCandidates(repo, Git.RenderWorktreeList(worktrees), worktrees);
  }

  /** `GetBranches` filters what the listing parses to: the unfolding step of `RenderedCandidates`. */
  lemma ListedCandidates(repo: Git.Repository, output: string, entries: seq<Git.Worktree>)
    requires repo.isRepo == Success(true) && repo.listing == Success(output)
    requires Git.ParseWorktreeList(output) == entries
    ensures var main := Git.DefaultBranch(repo.originHead, repo.branchExists);
      GetBranches(repo) == Candidates(entries, if main.Success? then Some(main.value) else None)
  {
  }

  // ---------------------------------------------------------------------------
  // Flag rules

  /** A pull request number, as the parser reads it into a `u32`. */
  newtype U32 = x: int | 0 <= x < 0x1_0000_0000

  /** The flags and values of a command line that the rules look at. */
  datatype Command =
    | Add(branchName: Option<string>, pr: Option<U32>, base: Option<string>)
    | Open(branch: string, runHooks: bool, forceFiles: bool)
    | Merge(branchName: Option<string>, ignoreUncommitted: bool, deleteRemote: bool, rebase: bool, squash: bool,
            keep: bool)
    | Remove(branchName: Option<string>, force: bool, deleteRemote: bool, keepBranch: bool)
    | List
    | Init

  /** The rules of the argument parser. */
  datatype Rule =
    | BranchOrPr            // `add` needs a branch name unless `--pr` is given
    | PrWithBase            // `--pr` conflicts with `--base`
    | OneStrategy           // `--rebase` and `--squash` form a group of which at most one is given
    | KeepWithDeleteRemote  // `merge --keep` conflicts with `--delete-remote`
    | KeepBranchWithDeleteRemote  // `remove --keep-branch` conflicts with `--delete-remote`

  /** The rules a command line breaks. */
  function Broken(c: Command): (r: set<Rule>)
    ensures c.Add? ==> r <= {BranchOrPr, PrWithBase}
    ensures c.Merge? ==> r <= {OneStrategy, KeepWithDeleteRemote}
    ensures c.Remove? ==> r <= {KeepBranchWithDeleteRemote}
    ensures c.Open? || c.List? || c.Init? ==> r == {}
  {
    match c
    case Add(branchName, pr, base) =>
      (if branchName.None? && pr.None? then {BranchOrPr} else {})
      + (if pr.Some? && base.Some? then {PrWithBase} else {})
    case Merge(_, _, deleteRemote, rebase, squash, keep) =>
      (if rebase && squash then {OneStrategy} else {})
      + (if keep && deleteRemote then {KeepWithDeleteRemote} else {})
    case Remove(_, _, deleteRemote, keepBranch) =>
      if keepBranch && deleteRemote then {KeepBranchWithDeleteRemote} else {}
    case _ => {}
  }

  /** The parser accepts a command line that breaks no rule. */
  predicate Accepted(c: Command) {
    Broken(c) == {}
  }

  /** An accepted `add` names its branch or its pull request, and a pull request never comes with a base. */
  lemma AcceptedAdd(c: Command)
    requires c.Add?
    ensures Accepted(c) <==> (c.branchName.Some? || c.pr.Some?) && !(c.pr.Some? && c.base.Some?)
  {
    if Accepted(c) {
      assert BranchOrPr !in Broken(c) && PrWithBase !in Broken(c);
    }
  }

  /**
   * A `merge` is accepted exactly when it gives at most one of `--rebase`
   * and `--squash` and not both `--keep` and `--delete-remote`; then the
   * strategy is the one flag given: `--squash` squashes exactly when it is
   * given, with no `--rebase` to win over it.
   */
  lemma AcceptedMergeStrategy(c: Command)
    requires c.Merge?
    ensures Accepted(c) <==> !(c.rebase && c.squash) && !(c.keep && c.deleteRemote)
    ensures Accepted(c) ==>
      (MergeWorkflow.StrategyOf(c.rebase, c.squash) == MergeWorkflow.Squash <==> c.squash)
      && (MergeWorkflow.StrategyOf(c.rebase, c.squash) == MergeWorkflow.RebaseFirst <==> c.rebase)
  {
    if Accepted(c) {
      assert OneStrategy !in Broken(c) && KeepWithDeleteRemote !in Broken(c);
    }
  }

  /** `remove` refuses only to keep the branch while deleting its remote. */
  lemma AcceptedRemove(c: Command)
    requires c.Remove?
    ensures Accepted(c) <==> !(c.keepBranch && c.deleteRemote)
  {
    if Accepted(c) {
      assert KeepBranchWithDeleteRemote !in Broken(c);
    }
  }

  /**
   * An accepted `remove --delete-remote` keeps no local branch: when the
   * cleanup goes through and the push deleting the remote branch does too,
   * the branch is gone both locally and on the remote.
   */
  lemma AcceptedRemoveDeletesBoth(c: Command, repo: Workspace.Repo, path: string, branch: string,
                                  failures: map<Workspace.Op, string>)
    requires c.Remove? && Accepted(c) && c.deleteRemote
    requires Workspace.DeleteRemote(branch) !in failures
    ensures var after := CleanupWorkflow.Cleaned(repo, path, branch, c.deleteRemote, c.keepBranch, failures);
      branch !in after.branches && branch !in after.remoteBranches
  {
    assert KeepBranchWithDeleteRemote !in Broken(c);
  }
}
