/**
 * The shared workflow context (src/workflow/context.rs): the repository
 * check, the main worktree, the main branch and the tab prefix every
 * workflow starts from, and the "zellij must be running" guard.
 *
 * Loading `.workmux.yaml` is outside the model: the configuration is a value.
 */
module Context {

  import opened Wrappers
  import Git
  import Tmux
  import Zellij

  /** The configuration fields the modelled workflows read. */
  datatype Config = Config(
    mainBranch: Option<string>,
    windowPrefix: string,
    panes: Option<seq<Tmux.PaneConfig>>,
    preDelete: Option<seq<string>>)

  datatype WorkflowContext = WorkflowContext(
    repoRoot: string,
    mainWorktreeRoot: string,
    mainBranch: string,
    prefix: string,
    config: Config)

  const NotInRepository: string := "Not in a git repository"
  const NoMainWorktree: string := "Could not find the main git worktree"
  const NoMainBranch: string := "Failed to determine the main branch. Specify it in .workmux.yaml"
  const ZellijNotRunning: string := "zellij is not running. Please start a zellij session first."

  /** The main branch: the configured one, else the detected default branch. */
  function MainBranch(config: Config, repo: Git.Repository): Result<string, string> {
    match config.mainBranch
    case Some(b) => Success(b)
    case None =>
      match Git.DefaultBranch(repo.originHead, repo.branchExists)
      case Success(b) => Success(b)
      case Failure(_) => Failure(NoMainBranch)
  }

  /**
   * `WorkflowContext::new`: the repository check comes first, then the
   * repository root, the main worktree and the main branch, each failing
   * with its own message.
   */
  function New(config: Config, repo: Git.Repository): (r: Result<WorkflowContext, string>)
    ensures repo.isRepo.Failure? ==> r == Failure(repo.isRepo.error)
    ensures repo.isRepo == Success(false) ==> r == Failure(NotInRepository)
    ensures r.Success? <==>
      repo.isRepo == Success(true) && repo.toplevel.Success?
      && Git.MainWorktreeRoot(repo.listing).Success?
      && (config.mainBranch.Some? || Git.DefaultBranch(repo.originHead, repo.branchExists).Success?)
    ensures r.Success? ==>
      r.value.repoRoot == repo.toplevel.value
      && r.value.mainWorktreeRoot == Git.MainWorktreeRoot(repo.listing).value
      && r.value.mainBranch == (if config.mainBranch.Some? then config.mainBranch.value
                                else Git.DefaultBranch(repo.originHead, repo.branchExists).value)
      && r.value.prefix == config.windowPrefix
      && r.value.config == config
  {
    match repo.isRepo
    case Failure(msg) => Failure(msg)
    case Success(false) => Failure(NotInRepository)
    case Success(true) =>
      match repo.toplevel
      case Failure(msg) => Failure(msg)
      case Success(root) =>
        match Git.MainWorktreeRoot(repo.listing)
        case Failure(_) => Failure(NoMainWorktree)
        case Success(mainRoot) =>
          match MainBranch(config, repo)
          case Failure(msg) => Failure(msg)
          case Success(main) => Success(WorkflowContext(root, mainRoot, main, config.windowPrefix, config))
  }

  /** A configured main branch means the default branch is never looked up. */
  lemma ConfiguredMainBranchWins(config: Config, repo: Git.Repository, originHead: Git.Query,
                                 branchExists: string -> Result<bool, string>)
    requires config.mainBranch.Some?
    ensures New(config, repo) == New(config, repo.(originHead := originHead, branchExists := branchExists))
  {
  }

  /** For a listing git printed, the main worktree is the first printed worktree. */
  lemma MainWorktreeIsFirst(config: Config, repo: Git.Repository, worktrees: seq<Git.Worktree>)
    requires repo.listing == Success(Git.RenderWorktreeList(worktrees))
    requires forall k :: 0 <= k < |worktrees| ==> Git.Printable(worktrees[k])
    ensures New(config, repo).Success? ==> worktrees != [] && New(config, repo).value.mainWorktreeRoot == worktrees[0].path
    ensures worktrees == [] && repo.isRepo == Success(true) && repo.toplevel.Success? ==> New(config, repo) == Failure(NoMainWorktree)
  {
    Git.MainRootOfRendered(worktrees);
  }

  /** `ensure_zellij_running`: an error exactly when zellij is not running. */
  function EnsureZellijRunning(zellijRunning: bool): (r: Zellij.Outcome)
    ensures r == Zellij.Done <==> zellijRunning
    ensures r != Zellij.Done ==> r == Zellij.Failed(ZellijNotRunning)
  {
    if zellijRunning then Zellij.Done else Zellij.Failed(ZellijNotRunning)
  }
}
