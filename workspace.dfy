/**
 * The world the workflows act on: the git repository and its worktree
 * directories, the zellij session, and the record of every command issued.
 *
 * Every git or filesystem command a workflow issues is appended to `log`;
 * a command fails, with its error message, exactly when `failures` names it.
 * Only `Run` changes the repository, by the effect of the command it logs,
 * so no step changes the repository without leaving a trace in the log.
 */
module Workspace {

  import opened Wrappers
  import Git
  import Zellij

  /** The repository state the workflows read and change; worktrees are named by their paths. */
  datatype Repo = Repo(
    worktrees: seq<Git.Worktree>,
    branches: set<string>,
    remoteBranches: set<string>,
    dirs: set<string>,
    staged: set<string>,
    unstaged: set<string>,
    untracked: set<string>)

  /** `has_uncommitted_changes`: `git status --porcelain` has something to say. */
  predicate Uncommitted(repo: Repo, path: string) {
    path in repo.staged || path in repo.unstaged || path in repo.untracked
  }

  /** The commands the workflows issue. */
  datatype Op =
    | Commit(path: string)
    | Switch(path: string, branch: string)
    | Rebase(path: string, onto: string)
    | Merge(path: string, branch: string)
    | SquashMerge(path: string, branch: string)
    | ResetHard(path: string)
    | AbortMerge(path: string)
    | SetupEnvironment(branch: string, path: string)
    | RunHook(command: string, path: string)
    | RemoveDir(path: string)
    | Prune
    | DeleteBranch(branch: string, force: bool)
    | DeleteRemote(branch: string)
    | GoToTab(name: string)
    | CloseCurrentTab
    | ScheduleClose(name: string)
    | ScheduleNavigateAndClose(main: string, target: string)

  /** The worktrees whose directory is still there, in order: what `git worktree prune` keeps. */
  function Kept(worktrees: seq<Git.Worktree>, dirs: set<string>): (r: seq<Git.Worktree>)
    ensures |r| <= |worktrees|
    ensures forall e :: e in r <==> e in worktrees && e.path in dirs
  {
    if worktrees == [] then []
    else
      var rest := Kept(worktrees[..|worktrees| - 1], dirs);
      var last := worktrees[|worktrees| - 1];
      assert worktrees == worktrees[..|worktrees| - 1] + [last];
      if last.path in dirs then rest + [last] else rest
  }

  /** What a command that went through does to the repository. */
  function Apply(repo: Repo, op: Op): Repo {
    match op
    case Commit(p) => repo.(staged := repo.staged - {p})
    case SquashMerge(p, _) => repo.(staged := repo.staged + {p})
    case ResetHard(p) => repo.(staged := repo.staged - {p}, unstaged := repo.unstaged - {p})
    case RemoveDir(p) => repo.(dirs := repo.dirs - {p})
    case Prune => repo.(worktrees := Kept(repo.worktrees, repo.dirs))
    case DeleteBranch(b, _) => repo.(branches := repo.branches - {b})
    case DeleteRemote(b) => repo.(remoteBranches := repo.remoteBranches - {b})
    case _ => repo
  }

  /** One issued command: a failing command changes nothing. */
  function Step(repo: Repo, op: Op, failures: map<Op, string>): Repo {
    if op in failures then repo else Apply(repo, op)
  }

  /** The repository after the issued commands, in order. */
  function Replay(repo: Repo, ops: seq<Op>, failures: map<Op, string>): Repo {
    if ops == [] then repo
    else Step(Replay(repo, ops[..|ops| - 1], failures), ops[|ops| - 1], failures)
  }

  /** Replaying two runs of commands is replaying the first, then the second. */
  lemma {:induction false} ReplayAppend(repo: Repo, a: seq<Op>, b: seq<Op>, failures: map<Op, string>)
    ensures Replay(repo, a + b, failures) == Replay(Replay(repo, a, failures), b, failures)
  {
    if b == [] {
      assert a + b == a;
    } else {
      var n := |b| - 1;
      assert (a + b)[..|a + b| - 1] == a + b[..n];
      ReplayAppend(repo, a, b[..n], failures);
    }
  }

  /** Replaying one command is one step. */
  lemma ReplayOne(repo: Repo, a: Op, failures: map<Op, string>)
    ensures Replay(repo, [a], failures) == Step(repo, a, failures)
  {
    assert [a][..0] == [];
  }

  /** Replaying two commands is two steps. */
  lemma ReplayTwo(repo: Repo, a: Op, b: Op, failures: map<Op, string>)
    ensures Replay(repo, [a, b], failures) == Step(Step(repo, a, failures), b, failures)
  {
    assert [a, b][..1] == [a];
    ReplayOne(repo, a, failures);
  }

  /** Removing a worktree's directory and then pruning drops it from the worktree list. */
  lemma RemovedThenPruned(repo: Repo, path: string, failures: map<Op, string>)
    requires RemoveDir(path) !in failures && Prune !in failures
    ensures var after := Replay(repo, [RemoveDir(path), Prune], failures);
      forall e :: e in after.worktrees <==> e in repo.worktrees && e.path in repo.dirs && e.path != path
  {
    var one: seq<Op> := [RemoveDir(path)];
    var ops := one + [Prune];
    assert ops == [RemoveDir(path), Prune];
    assert one[..0] == [] && ops[..1] == one;
    assert Replay(repo, [], failures) == repo;
    var removed := Replay(repo, one, failures);
    assert removed == Step(Replay(repo, one[..0], failures), RemoveDir(path), failures);
    assert removed == Apply(repo, RemoveDir(path));
    assert Replay(repo, ops, failures) == Apply(removed, Prune);
  }

  /** Only `SetupEnvironment`, the merges and the tab commands leave the repository as it was. */
  predicate Inert(op: Op) {
    op.Switch? || op.Rebase? || op.Merge? || op.AbortMerge? || op.SetupEnvironment? || op.RunHook?
    || op.GoToTab? || op.CloseCurrentTab? || op.ScheduleClose? || op.ScheduleNavigateAndClose?
  }

  /** An inert command that goes through leaves the repository as it was. */
  lemma InertStep(repo: Repo, op: Op, failures: map<Op, string>)
    requires Inert(op)
    ensures Step(repo, op, failures) == repo
  {
  }

  lemma {:induction false} InertReplay(repo: Repo, ops: seq<Op>, failures: map<Op, string>)
    requires forall i :: 0 <= i < |ops| ==> Inert(ops[i])
    ensures Replay(repo, ops, failures) == repo
  {
    if ops != [] {
      InertReplay(repo, ops[..|ops| - 1], failures);
    }
  }

  /** Logging inert commands after a run leaves what the run made of the repository. */
  lemma InertLogged(repo: Repo, log: seq<Op>, more: seq<Op>, failures: map<Op, string>)
    requires forall i :: 0 <= i < |more| ==> Inert(more[i])
    ensures Replay(repo, log + more, failures) == Replay(repo, log, failures)
  {
    ReplayAppend(repo, log, more, failures);
    InertReplay(Replay(repo, log, failures), more, failures);
  }

  /** Commands that remove no directory leave the worktree directories as they were. */
  lemma {:induction false} DirsKept(repo: Repo, ops: seq<Op>, failures: map<Op, string>)
    requires forall i :: 0 <= i < |ops| ==> !ops[i].RemoveDir?
    ensures Replay(repo, ops, failures).dirs == repo.dirs
  {
    if ops != [] {
      DirsKept(repo, ops[..|ops| - 1], failures);
    }
  }

  /** `repo` is what the commands logged after `log0` made of `repo0`: nothing else changed it. */
  ghost predicate Traced(repo0: Repo, log0: seq<Op>, repo: Repo, log: seq<Op>, failures: map<Op, string>) {
    log0 <= log && repo == Replay(repo0, log[|log0|..], failures)
  }

  /** Two traced runs, one after the other, are one traced run. */
  lemma TracedChain(repo0: Repo, log0: seq<Op>, repo1: Repo, log1: seq<Op>, repo2: Repo, log2: seq<Op>,
                    failures: map<Op, string>)
    requires Traced(repo0, log0, repo1, log1, failures) && Traced(repo1, log1, repo2, log2, failures)
    ensures Traced(repo0, log0, repo2, log2, failures)
  {
    assert log2[|log0|..] == log1[|log0|..] + log2[|log1|..];
    ReplayAppend(repo0, log1[|log0|..], log2[|log1|..], failures);
  }

  /** Logging only inert commands is a traced run that leaves the repository as it was. */
  lemma TracedInert(repo: Repo, log0: seq<Op>, log: seq<Op>, failures: map<Op, string>)
    requires log0 <= log && forall i :: |log0| <= i < |log| ==> Inert(log[i])
    ensures Traced(repo, log0, repo, log, failures)
  {
    var more := log[|log0|..];
    assert forall i :: 0 <= i < |more| ==> more[i] == log[|log0| + i];
    InertReplay(repo, more, failures);
  }

  /** The repository, the zellij session and this process's environment. */
  class World {
    var repo: Repo
    var log: seq<Op>
    var warnings: seq<string>
    /** The commands that fail, with their error messages. */
    const failures: map<Op, string>
    /** `ZELLIJ` is set: this process runs inside a zellij session. */
    const zellijRunning: bool
    /** `ZELLIJ_TAB_NAME`. */
    const tabEnv: Option<string>
    /** How many tab listings after a `close-tab` still show the closed tab. */
    const closeLag: nat
    const session: Zellij.Session
    /** The session keeps its invariant, and its tab names fit one per line. */
    ghost predicate Valid()
      reads session
    {
      session.Valid() && forall t :: t in session.tabs ==> Zellij.ListableName(t)
    }

    constructor(repo: Repo, failures: map<Op, string>, zellijRunning: bool, tabEnv: Option<string>,
                closeLag: nat, session: Zellij.Session)
      requires session.Valid() && forall t :: t in session.tabs ==> Zellij.ListableName(t)
      ensures Valid() && log == [] && warnings == [] && this.repo == repo
      ensures this.failures == failures && this.zellijRunning == zellijRunning && this.tabEnv == tabEnv
      ensures this.closeLag == closeLag && this.session == session
    {
      this.repo := repo;
      this.log := [];
      this.warnings := [];
      this.failures := failures;
      this.zellijRunning := zellijRunning;
      this.tabEnv := tabEnv;
      this.closeLag := closeLag;
      this.session := session;
    }

    /** What `git worktree list --porcelain` prints now. */
    function Listing(): Git.Query
      reads this
    {
      Success(Git.RenderWorktreeList(repo.worktrees))
    }

    /** What `zellij action query-tab-names` prints; outside zellij the query fails. */
    function TabQuery(): Result<string, string>
      reads session
    {
      if zellijRunning then Success(Zellij.ListingOf(session.tabs)) else Failure("not inside a zellij session")
    }

    /** `tab_exists` against this session: whether the session has the prefixed tab. */
    function HasTab(prefix: string, name: string): (r: bool)
      reads session
      requires Valid()
      ensures Zellij.Prefixed(prefix, name) != [] ==>
        (r <==> zellijRunning && Zellij.Prefixed(prefix, name) in session.tabs)
    {
      if zellijRunning && Zellij.Prefixed(prefix, name) != [] then
        ListedTabs();
        Zellij.TabExistsInSession(session.tabs, prefix, name);
        Zellij.TabExists(prefix, name, TabQuery())
      else
        Zellij.TabExists(prefix, name, TabQuery())
    }

    lemma ListedTabs()
      requires Valid()
      ensures forall i :: 0 <= i < |session.tabs| ==> Zellij.ListableName(session.tabs[i])
    {
      forall i | 0 <= i < |session.tabs|
        ensures Zellij.ListableName(session.tabs[i])
      {
        assert session.tabs[i] in session.tabs;
      }
    }

    /** Issue one git or filesystem command: it is logged, and changes the repository unless it fails. */
    method Run(op: Op) returns (err: Option<string>)
      modifies this
      ensures log == old(log) + [op] && warnings == old(warnings)
      ensures err == (if op in failures then Some(failures[op]) else None)
      ensures repo == Step(old(repo), op, failures)
      ensures Traced(old(repo), old(log), repo, log, failures)
    {
      assert (log + [op])[|log|..] == [op];
      ReplayOne(repo, op, failures);
      log := log + [op];
      if op in failures {
        return Some(failures[op]);
      }
      repo := Apply(repo, op);
      return None;
    }

    method Warn(message: string)
      modifies this
      ensures log == old(log) && warnings == old(warnings) + [message] && repo == old(repo)
      ensures Traced(old(repo), old(log), repo, log, failures)
    {
      assert log[|log|..] == [];
      warnings := warnings + [message];
    }

    /** `zellij::select_tab`: go to the prefixed tab; fails, changing nothing, when it is not there. */
    method SelectTab(prefix: string, name: string) returns (r: Zellij.Outcome)
      requires Valid()
      modifies this, session
      ensures Valid() && warnings == old(warnings)
      ensures log == old(log) + [GoToTab(Zellij.Prefixed(prefix, name))]
      ensures repo == old(repo)
      ensures r == Zellij.Done <==> Zellij.Prefixed(prefix, name) in old(session.tabs)
      ensures session.tabs == old(session.tabs)
      ensures session.current == (if r == Zellij.Done then Zellij.Prefixed(prefix, name) else old(session.current))
      ensures Traced(old(repo), old(log), repo, log, failures)
    {
      r := Zellij.SelectTab(session, prefix, name);
      log := log + [GoToTab(Zellij.Prefixed(prefix, name))];
      TracedInert(repo, old(log), log, failures);
    }

    /** `zellij::close_tab`: go to the prefixed tab, then close the focused tab. */
    method CloseTab(prefix: string, name: string) returns (r: Zellij.Outcome)
      requires Valid()
      modifies this, session
      ensures Valid() && warnings == old(warnings)
      ensures repo == old(repo)
      ensures r == Zellij.Done <==> Zellij.Prefixed(prefix, name) in old(session.tabs)
      ensures r != Zellij.Done ==>
        log == old(log) + [GoToTab(Zellij.Prefixed(prefix, name))]
        && session.tabs == old(session.tabs) && session.current == old(session.current)
      ensures r == Zellij.Done ==>
        log == old(log) + [GoToTab(Zellij.Prefixed(prefix, name)), CloseCurrentTab]
        && session.tabs == Zellij.Remove(old(session.tabs), Zellij.Prefixed(prefix, name))
      ensures Traced(old(repo), old(log), repo, log, failures)
    {
      r := Zellij.CloseTab(session, prefix, name);
      var n := Zellij.Prefixed(prefix, name);
      if r == Zellij.Done {
        log := log + [GoToTab(n), CloseCurrentTab];
      } else {
        log := log + [GoToTab(n)];
      }
      TracedInert(repo, old(log), log, failures);
    }

    /** Start a detached process that closes or navigates later; only the request is modelled. */
    method Schedule(op: Op)
      requires op.ScheduleClose? || op.ScheduleNavigateAndClose?
      modifies this
      ensures log == old(log) + [op] && warnings == old(warnings)
      ensures repo == old(repo)
      ensures Traced(old(repo), old(log), repo, log, failures)
    {
      log := log + [op];
      TracedInert(repo, old(log), log, failures);
    }
  }
}
