/**
 * `workmux open` (src/workflow/open.rs): open a zellij tab for a worktree
 * that already exists. The checks run in a fixed order, each failing with its
 * own message before anything is issued; then the environment is set up.
 *
 * Checking the pane configuration and setting up the environment are outside
 * the model: the first is a parameter, the second one logged command.
 */
module OpenWorkflow {

  import opened Wrappers
  import Git
  import Tmux
  import Zellij
  import Context
  import Workspace

  function TabExistsMessage(branch: string, tab: string): string {
    "A zellij tab named '" + branch + "' already exists. To switch to it, run: zellij action go-to-tab-name '"
    + tab + "'"
  }

  function NoWorktreeMessage(branch: string): string {
    "No worktree found for branch '" + branch + "'. Use 'workmux add " + branch + "' to create it."
  }

  /** The error the configured panes fail validation with, if any. */
  function PanesError(panes: Option<seq<Tmux.PaneConfig>>, validate: seq<Tmux.PaneConfig> -> Option<string>)
    : (r: Option<string>)
    ensures panes.None? ==> r.None?
    ensures panes.Some? ==> r == validate(panes.value)
  {
    match panes
    case None => None
    case Some(p) => validate(p)
  }

  /** Why `open` refused. */
  datatype OpenError =
    | InvalidPanes(message: string)
    | NotInZellij
    | TabExists
    | NoWorktree
    | SetupFailed(message: string)

  /** The message `open` fails with. */
  function OpenMessage(e: OpenError, prefix: string, branch: string): string {
    match e
    case InvalidPanes(message) => message
    case NotInZellij => Context.ZellijNotRunning
    case TabExists => TabExistsMessage(branch, Zellij.Prefixed(prefix, branch))
    case NoWorktree => NoWorktreeMessage(branch)
    case SetupFailed(message) => message
  }

  /**
   * `open`: the pane check, then zellij must run, then the tab must not
   * exist yet, then the branch must have a worktree; every failed check
   * leaves the world untouched. The worktree's path is the result.
   */
  method Open(w: Workspace.World, ctx: Context.WorkflowContext, branch: string,
              validate: seq<Tmux.PaneConfig> -> Option<string>)
    returns (r: Result<string, OpenError>)
    requires w.Valid()
    modifies w
    ensures w.repo == old(w.repo) && w.warnings == old(w.warnings)
    ensures PanesError(ctx.config.panes, validate).Some? ==>
      r == Failure(InvalidPanes(PanesError(ctx.config.panes, validate).value)) && w.log == old(w.log)
    ensures PanesError(ctx.config.panes, validate).None? && !w.zellijRunning ==>
      r == Failure(NotInZellij) && w.log == old(w.log)
    ensures PanesError(ctx.config.panes, validate).None? && w.zellijRunning && old(w.HasTab(ctx.prefix, branch)) ==>
      r == Failure(TabExists) && w.log == old(w.log)
    ensures PanesError(ctx.config.panes, validate).None? && w.zellijRunning && !old(w.HasTab(ctx.prefix, branch))
            && Git.WorktreePath(old(w.Listing()), branch).Failure? ==>
      r == Failure(NoWorktree) && w.log == old(w.log)
    ensures PanesError(ctx.config.panes, validate).None? && w.zellijRunning && !old(w.HasTab(ctx.prefix, branch))
            && Git.WorktreePath(old(w.Listing()), branch).Success? ==>
      var setup := Workspace.SetupEnvironment(branch, Git.WorktreePath(old(w.Listing()), branch).value);
      w.log == old(w.log) + [setup]
      && (r.Success? <==> setup !in w.failures)
      && (setup in w.failures ==> r == Failure(SetupFailed(w.failures[setup])))
    ensures r.Success? ==>
      PanesError(ctx.config.panes, validate).None? && w.zellijRunning && !old(w.HasTab(ctx.prefix, branch))
      && Git.WorktreePath(old(w.Listing()), branch) == Success(r.value)
      && w.log == old(w.log) + [Workspace.SetupEnvironment(branch, r.value)]
      && Workspace.SetupEnvironment(branch, r.value) !in w.failures
  {
    var invalid := PanesError(ctx.config.panes, validate);
    if invalid.Some? {
      return Failure(InvalidPanes(invalid.value));
    }
    var running := Context.EnsureZellijRunning(w.zellijRunning);
    if running != Zellij.Done {
      return Failure(NotInZellij);
    }
    if w.HasTab(ctx.prefix, branch) {
      return Failure(TabExists);
    }
    var found := Git.GetWorktreePath(w.Listing(), branch);
    if found.Failure? {
      return Failure(NoWorktree);
    }
    ghost var before := w.repo;
    var err := w.Run(Workspace.SetupEnvironment(branch, found.value));
    Workspace.InertStep(before, Workspace.SetupEnvironment(branch, found.value), w.failures);
    if err.Some? {
      return Failure(SetupFailed(err.value));
    }
    return Success(found.value);
  }

  /**
   * The worktree `open` finds in the listing git prints is the first
   * worktree on the branch, when the names fit one per line.
   */
  lemma OpenedFirstWorktree(worktrees: seq<Git.Worktree>, branch: string, path: string)
    requires forall k :: 0 <= k < |worktrees| ==> Git.Printable(worktrees[k])
    requires Git.WorktreePath(Success(Git.RenderWorktreeList(worktrees)), branch) == Success(path)
    ensures Git.FindWorktreePath(worktrees, branch) == Some(path)
  {
    Git.ParseRenderedList(worktrees);
  }
}
