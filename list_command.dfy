/**
 * `workmux list` (src/command/list.rs): the rows of the status table built
 * from the listed worktrees. Printing the table is outside the model; the
 * current directory and the relative-path computation of `diff_paths` are
 * parameters.
 */
module ListCommand {

  import opened Wrappers
  import WorkflowList

  const TabOpen: string := "✓"
  const Unmerged: string := "●"
  const Blank: string := "-"
  const Here: string := "(here)"
  const NoWorktreesMessage: string := "No worktrees found"

  /** One row: branch, zellij status, unmerged status, path. */
  datatype Row = Row(branch: string, zellijStatus: string, unmergedStatus: string, pathStr: string)

  /** What the command shows: the message for an empty list, or the table's rows. */
  datatype Shown = NoWorktrees | Table(rows: seq<Row>)

  /** `✓` for a worktree with an open tab, `-` otherwise. */
  function TabMarker(hasTab: bool): (r: string)
    ensures r == TabOpen <==> hasTab
    ensures r == Blank <==> !hasTab
  {
    if hasTab then TabOpen else Blank
  }

  /** `●` for a branch with unmerged commits, `-` otherwise. */
  function UnmergedMarker(hasUnmerged: bool): (r: string)
    ensures r == Unmerged <==> hasUnmerged
    ensures r == Blank <==> !hasUnmerged
  {
    if hasUnmerged then Unmerged else Blank
  }

  /**
   * The path column: the path relative to the current directory, `(here)`
   * when that is empty or `.`, and the absolute path when there is no
   * relative one.
   */
  function PathCell(path: string, relative: Option<string>): (r: string)
    ensures relative.None? ==> r == path
    ensures relative.Some? ==> (r == Here <==> relative.value in {"", ".", Here})
    ensures relative.Some? && r != Here ==> r == relative.value
  {
    match relative
    case None => path
    case Some(s) => if s == "" || s == "." then Here else s
  }

  /** A cell never shows the current directory as `` or `.`: it reads `(here)` instead. */
  lemma PathCellNeverBare(path: string, relative: Option<string>)
    requires relative.Some?
    ensures PathCell(path, relative) != "" && PathCell(path, relative) != "."
  {
  }

  /** The row of one worktree, given its path relative to the current directory. */
  function RowOf(info: WorkflowList.WorktreeInfo, relative: Option<string>): (r: Row)
    ensures r.branch == info.branch
    ensures r.zellijStatus == TabMarker(info.hasTmux) && (r.zellijStatus == TabOpen <==> info.hasTmux)
    ensures r.unmergedStatus == UnmergedMarker(info.hasUnmerged) && (r.unmergedStatus == Unmerged <==> info.hasUnmerged)
    ensures r.pathStr == PathCell(info.path, relative)
  {
    Row(info.branch, TabMarker(info.hasTmux), UnmergedMarker(info.hasUnmerged), PathCell(info.path, relative))
  }

  /**
   * `run`: a failed listing fails; an empty one shows "No worktrees found"
   * without reading the current directory; otherwise one row per worktree,
   * in order. `diff(path, cwd)` stands for `diff_paths`, rendered.
   */
  function Run(listed: Result<seq<WorkflowList.WorktreeInfo>, string>, currentDir: Result<string, string>,
               diff: (string, string) -> Option<string>): (r: Result<Shown, string>)
    ensures listed.Failure? ==> r == Failure(listed.error)
    ensures listed == Success([]) ==> r == Success(NoWorktrees)
    ensures listed.Success? && listed.value != [] && currentDir.Failure? ==> r == Failure(currentDir.error)
    ensures r.Success? && r.value.Table? ==>
      listed.Success? && currentDir.Success?
      && |r.value.rows| == |listed.value| && r.value.rows != []
      && forall i :: 0 <= i < |listed.value| ==>
           r.value.rows[i] == RowOf(listed.value[i], diff(listed.value[i].path, currentDir.value))
  {
    match listed
    case Failure(msg) => Failure(msg)
    case Success(worktrees) =>
      if worktrees == [] then Success(NoWorktrees)
      else
        match currentDir
        case Failure(msg) => Failure(msg)
        case Success(cwd) =>
          Success(Table(seq(|worktrees|, i requires 0 <= i < |worktrees| => RowOf(worktrees[i], diff(worktrees[i].path, cwd)))))
  }

  /** Reading a row's markers back gives the worktree's flags. */
  lemma RowsShowFlags(listed: seq<WorkflowList.WorktreeInfo>, cwd: string, diff: (string, string) -> Option<string>, i: nat)
    requires listed != [] && i < |listed|
    ensures var r := Run(Success(listed), Success(cwd), diff);
      r.Success? && r.value.Table? && i < |r.value.rows|
      && r.value.rows[i].branch == listed[i].branch
      && (r.value.rows[i].zellijStatus == TabOpen <==> listed[i].hasTmux)
      && (r.value.rows[i].unmergedStatus == Unmerged <==> listed[i].hasUnmerged)
  {
    var r := Run(Success(listed), Success(cwd), diff);
    assert r.value.rows[i] == RowOf(listed[i], diff(listed[i].path, cwd));
  }
}
