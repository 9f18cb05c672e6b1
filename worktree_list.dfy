/**
 * The worktree status listing (src/workflow/list.rs): every worktree git
 * lists, in order, with whether a zellij tab is open for it and whether its
 * branch has commits the main branch lacks.
 *
 * The git answers come in as a `Git.Repository`; whether zellij runs (the
 * `ZELLIJ` variable) and the output of `query-tab-names` are parameters.
 */
module WorkflowList {

  import opened Wrappers
  import Git
  import Zellij

  /** One listed worktree and its two status flags. */
  datatype WorktreeInfo = WorktreeInfo(branch: string, path: string, hasTmux: bool, hasUnmerged: bool)

  const NotInRepository: string := "Not in a git repository"
  const ListFailed: string := "Failed to list worktrees"

  /** The open tabs, read once: none at all unless zellij runs. */
  function OpenTabs(zellijRunning: bool, tabQuery: Result<string, string>): (r: set<string>)
    ensures r != {} ==> zellijRunning && tabQuery.Success?
  {
    if zellijRunning then Zellij.TabNames(tabQuery) else {}
  }

  /** The main branch the unmerged check compares against: unknown when it cannot be determined. */
  function MainBranch(repo: Git.Repository): Option<string> {
    Git.DefaultBranch(repo.originHead, repo.branchExists).ToOption()
  }

  /**
   * The branches with commits missing from the merge base of the main
   * branch; any step that fails (no main branch, no merge base, the listing
   * itself) leaves the set empty.
   */
  function UnmergedSet(repo: Git.Repository, main: Option<string>): (r: set<string>)
    ensures main.None? ==> r == {}
    ensures main.Some? && Git.MergeBase(main.value, repo.branchExists).Failure? ==> r == {}
    ensures main.Some? && Git.MergeBase(main.value, repo.branchExists).Success?
            && Git.UnmergedBranches(repo.noMerged(Git.MergeBase(main.value, repo.branchExists).value)).Success? ==>
      r == Git.UnmergedBranches(repo.noMerged(Git.MergeBase(main.value, repo.branchExists).value)).value
    ensures main.Some? && Git.MergeBase(main.value, repo.branchExists).Success?
            && Git.UnmergedBranches(repo.noMerged(Git.MergeBase(main.value, repo.branchExists).value)).Failure? ==>
      r == {}
    ensures r != {} ==>
      main.Some? && Git.MergeBase(main.value, repo.branchExists).Success?
      && var noMerged := repo.noMerged(Git.MergeBase(main.value, repo.branchExists).value);
         noMerged.Success? && r == Git.UnmergedBranches(noMerged).value
  {
    match main
    case None => {}
    case Some(m) =>
      match Git.MergeBase(m, repo.branchExists)
      case Failure(_) => {}
      case Success(base) =>
        match Git.UnmergedBranches(repo.noMerged(base))
        case Failure(_) => {}
        case Success(branches) => branches
  }

  /** The status of one worktree. */
  function Info(entry: Git.Worktree, prefix: string, tabs: set<string>, main: Option<string>, unmerged: set<string>): (r: WorktreeInfo)
    ensures r.branch == entry.branch && r.path == entry.path
    ensures r.hasTmux <==> Zellij.Prefixed(prefix, entry.branch) in tabs
    ensures r.hasUnmerged <==>
      main.Some? && entry.branch != main.value && entry.branch != Git.Detached && entry.branch in unmerged
  {
    var hasTmux := Zellij.Prefixed(prefix, entry.branch) in tabs;
    var hasUnmerged :=
      match main
      case Some(m) => if entry.branch == m || entry.branch == Git.Detached then false else entry.branch in unmerged
      case None => false;
    WorktreeInfo(entry.branch, entry.path, hasTmux, hasUnmerged)
  }

  /**
   * `list`: outside a git repository an error; otherwise one entry per
   * listed worktree, in order, with branch and path as git gave them.
   */
  function List(repo: Git.Repository, zellijRunning: bool, tabQuery: Result<string, string>, prefix: string)
    : (r: Result<seq<WorktreeInfo>, string>)
    ensures repo.isRepo.Failure? ==> r == Failure(repo.isRepo.error)
    ensures repo.isRepo == Success(false) ==> r == Failure(NotInRepository)
    ensures repo.isRepo == Success(true) && repo.listing.Failure? ==> r == Failure(ListFailed)
    ensures r.Success? <==> repo.isRepo == Success(true) && repo.listing.Success?
    ensures r.Success? ==>
      var entries := Git.ParseWorktreeList(repo.listing.value);
      |r.value| == |entries|
      && forall i :: 0 <= i < |entries| ==>
           r.value[i].branch == entries[i].branch && r.value[i].path == entries[i].path
           && (r.value[i].hasTmux <==> zellijRunning && Zellij.TabExists(prefix, entries[i].branch, tabQuery))
  {
    match repo.isRepo
    case Failure(msg) => Failure(msg)
    case Success(false) => Failure(NotInRepository)
    case Success(true) =>
      match repo.listing
      case Failure(_) => Failure(ListFailed)
      case Success(output) =>
        var entries := Git.ParseWorktreeList(output);
        if entries == [] then Success([])
        else
          var tabs := OpenTabs(zellijRunning, tabQuery);
          var main := MainBranch(repo);
          var unmerged := UnmergedSet(repo, main);
          Success(seq(|entries|, i requires 0 <= i < |entries| => Info(entries[i], prefix, tabs, main, unmerged)))
  }

  /**
   * The unmerged flag: never for the main branch or a detached worktree,
   * never when the main branch is unknown, otherwise exactly when the branch
   * is in the unmerged set.
   */
  lemma UnmergedFlag(repo: Git.Repository, zellijRunning: bool, tabQuery: Result<string, string>, prefix: string, i: nat)
    requires List(repo, zellijRunning, tabQuery, prefix).Success?
    requires i < |List(repo, zellijRunning, tabQuery, prefix).value|
    ensures var info := List(repo, zellijRunning, tabQuery, prefix).value[i];
      var main := MainBranch(repo);
      info.hasUnmerged <==>
        main.Some? && info.branch != main.value && info.branch != Git.Detached && info.branch in UnmergedSet(repo, main)
  {
  }

  /** When the unmerged branches cannot be computed, no worktree is flagged. */
  lemma NoUnmergedWithoutBase(repo: Git.Repository, zellijRunning: bool, tabQuery: Result<string, string>, prefix: string)
    requires List(repo, zellijRunning, tabQuery, prefix).Success?
    requires var main := MainBranch(repo);
      main.None?
      || Git.MergeBase(main.value, repo.branchExists).Failure?
      || repo.noMerged(Git.MergeBase(main.value, repo.branchExists).value).Failure?
    ensures forall info :: info in List(repo, zellijRunning, tabQuery, prefix).value ==> !info.hasUnmerged
  {
    var main := MainBranch(repo);
    var r := List(repo, zellijRunning, tabQuery, prefix).value;
    forall info | info in r
      ensures !info.hasUnmerged
    {
      var i :| 0 <= i < |r| && r[i] == info;
      UnmergedFlag(repo, zellijRunning, tabQuery, prefix, i);
      if main.Some? && Git.MergeBase(main.value, repo.branchExists).Success? {
        var noMerged := repo.noMerged(Git.MergeBase(main.value, repo.branchExists).value);
        assert noMerged.Failure?;
      }
    }
  }

  /**
   * Against a session whose tabs are listed one per line, `has_tmux` is
   * whether the session has the prefixed tab; outside zellij no worktree has one.
   */
  lemma TabFlagOfSession(repo: Git.Repository, zellijRunning: bool, tabs: seq<string>, prefix: string, i: nat)
    requires forall k :: 0 <= k < |tabs| ==> Zellij.ListableName(tabs[k])
    requires List(repo, zellijRunning, Success(Zellij.ListingOf(tabs)), prefix).Success?
    requires i < |List(repo, zellijRunning, Success(Zellij.ListingOf(tabs)), prefix).value|
    ensures var info := List(repo, zellijRunning, Success(Zellij.ListingOf(tabs)), prefix).value[i];
      info.branch != [] ==> (info.hasTmux <==> zellijRunning && Zellij.Prefixed(prefix, info.branch) in tabs)
  {
    var info := List(repo, zellijRunning, Success(Zellij.ListingOf(tabs)), prefix).value[i];
    if info.branch != [] {
      Zellij.TabExistsInSession(tabs, prefix, info.branch);
    }
  }

  /** For a listing git printed, the statuses are of exactly the printed worktrees, in order. */
  lemma ListOfRendered(repo: Git.Repository, zellijRunning: bool, tabQuery: Result<string, string>, prefix: string,
                       worktrees: seq<Git.Worktree>)
    requires repo.isRepo == Success(true) && repo.listing == Success(Git.RenderWorktreeList(worktrees))
    requires forall k :: 0 <= k < |worktrees| ==> Git.Printable(worktrees[k])
    ensures var r := List(repo, zellijRunning, tabQuery, prefix);
      r.Success? && |r.value| == |worktrees|
      && forall k :: 0 <= k < |worktrees| ==> r.value[k].branch == worktrees[k].branch && r.value[k].path == worktrees[k].path
  {
    Git.ParseRenderedList(worktrees);
  }
}
