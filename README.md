# workmux core, modelled in Dafny

workmux manages git worktrees, with one terminal-multiplexer tab per worktree.
This project models the core of the tool:

- **Git** (`git.dfy`): parsing of `git worktree list --porcelain` output. It also covers the lookups built on that
  parse: a branch's worktree, whether a worktree exists, and the main worktree root. Beside those are the
  default-branch and merge-base choices, the unmerged-branch set, and the argument vectors of the git commands
  workmux issues.
- **Text, Paths, Shell** (`text.dfy`, `paths.dfy`, `shell.dfy`): the string and path operations the Rust standard
  library supplies to that code. These are trimming, splitting, `lines()`, path components, `strip_prefix`,
  `file_name` and `file_stem`, and the shell single-quote escaping used to build startup commands.
- **Tmux and Zellij** (`tmux.dfy`, `zellij.dfy`):
  - prefixed tab and window names;
  - splitting off the first token of a command;
  - rewriting an agent command so that it reads a prompt file;
  - the startup command that runs the shell's prompt hooks before a pane's command;
  - the pane layout `setup_panes` produces, and where focus ends up;
  - the zellij tab operations, over a session object that holds the tab list and the current tab.
- **Workflows**:
  - `list` (`worktree_list.dfy`, `list_command.dfy`): the status of each worktree and the table row shown for it.
  - `context` (`context.dfy`): the repository facts every workflow starts from.
  - `open` (`open.dfy`).
  - `cleanup` (`cleanup.dfy`): hooks, removing the worktree, deleting the branches, closing the tab, and going back to the main tab.
  - `merge` (`merge.dfy`): checks, a commit of staged changes, the three strategies, and cleanup.

  The workflows run against `Workspace.World` (`workspace.dfy`). It is an object that holds:
  - an abstract repository: directories, listed worktrees, branches, remote branches, and staged, unstaged and untracked changes;
  - the log of every command issued;
  - the warnings printed;
  - a zellij session.

  The map `failures` says which commands fail and with what message. Every command a workflow issues is appended to
  the log. The repository changes as `Workspace.Replay` of that log says. The workflows' contracts state their logs
  and final repositories in terms of specification functions. Lemmas then prove what the source promises about
  those functions.
- **Cli** (`cli.dfy`): the branch names offered for completion, and the flag rules the argument parser enforces.

## Model

| member | source | states |
|---|---|---|
| Text.LeadingWhitespace | src/tmux.rs:381 | the count of leading whitespace: everything before it is whitespace, the character at it is not |
| Text.TrailingWhitespace | src/git.rs:153 | the count of trailing whitespace: everything after the kept part is whitespace, the last kept character is not |
| Text.TrimStart | src/tmux.rs:353 | `trim_start` returns a suffix of the input: what it drops is whitespace, and it does not start with whitespace |
| Text.TrimEnd | src/git.rs:153 | the end half of `trim`: it returns a prefix of the input, drops only whitespace, and does not end in whitespace |
| Text.TrimBlank | src/git.rs:153 | trimming an all-whitespace string gives the empty string |
| Text.SplitOn | src/git.rs:153 | `split` on one character: there is at least one piece, no piece holds the separator, and joining the pieces gives back the input |
| Text.SplitOnJoin | src/git.rs:153 | splitting a join of separator-free pieces gives back the pieces |
| Text.SplitBlocks | src/git.rs:153 | `split("\n\n")`: at least one block, and joining the blocks with a blank line gives back the input |
| Text.SplitBlocksJoin | src/git.rs:153 | splitting a join of blocks without blank lines gives back the blocks |
| Text.SplitBlocksPrefix | src/git.rs:153 | a block without blank lines followed by a blank line splits off as the first block |
| Text.SplitOnLast | src/git.rs:153 | splitting at a separator followed by separator-free text splits that text off as the last piece |
| Text.Lines | src/git.rs:157 | `lines()` yields lines that hold no newline |
| Text.Ended | src/git.rs:157 | `lines()` drops a carriage return at the end of each line and keeps the lines' number and order |
| Text.LinesJoin | src/git.rs:157 | the lines of a newline-join of lines free of newlines and trailing carriage returns are those lines |
| Text.LinesTerminated | src/zellij.rs:24 | a final newline adds no empty line at the end |
| Paths.Components | src/tmux.rs:351 | the components of a path: after the first, every one is `..` or a valid name |
| Paths.FileName | src/tmux.rs:347-349 | `file_name` is a valid name when present |
| Paths.PlainFileName | src/tmux.rs:347-349 | a valid name without `/` is its own file name |
| Paths.ChildFileName | src/tmux.rs:347-349 | the file name of `dir/name` is `name` |
| Paths.PlainFileStem | src/zellij.rs:298-299 | a valid name without a dot is its own file stem |
| Paths.LastDot | src/zellij.rs:298-299 | the position of the last dot of a name, or that it has none, as `file_stem` uses it |
| Paths.StripPrefix | src/tmux.rs:351 | `strip_prefix` succeeds exactly when the base's components prefix the path's, and returns the components that remain |
| Paths.RelativeTo | src/tmux.rs:351-352 | a path not under the working directory is kept as given |
| Paths.RelativeToResolves | src/tmux.rs:351-352 | a path under the working directory, taken relative to it, resolves back to the path |
| Paths.ChildComponents | src/tmux.rs:351 | `dir/name` has the components of `dir` followed by `name` |
| Paths.ChildRelative | src/tmux.rs:351-352 | `dir/name` taken relative to `dir` is `name` |
| Paths.RenderRelative | src/tmux.rs:351-352 | rendering components and reading them back gives the same components |
| Git.ScanBlock | src/git.rs:155-165 | the loop over a block's lines computes the path and branch the block scan specifies |
| Git.ScanKindsPath | src/git.rs:158-159 | a block has a path exactly when some line starts with `worktree `, and it is the last such line's text |
| Git.ScanKindsBranch | src/git.rs:160-164 | a block has a branch exactly when a line names a branch or says `detached`, and the last such line decides it |
| Git.BlockEntryHasBoth | src/git.rs:167-169 | a block yields a worktree exactly when it has both a path and a branch |
| Git.ParseWorktreeListPorcelain | src/git.rs:151-172 | the loop over blocks collects exactly the parsed worktrees, in order |
| Git.PresentAppend | src/git.rs:167-169 | collecting the complete blocks distributes over concatenation |
| Git.PresentLength | src/git.rs:151-172 | the parse yields at most one worktree per block |
| Git.BlankOutputIsEmpty | src/git.rs:153 | blank output lists no worktree |
| Git.RenderBlocks | src/git.rs:151-172 | one printed block per worktree, in order |
| Git.ParseRenderedList | src/git.rs:151-172 | parsing a listing rendered as path and branch lines per worktree gives back the worktrees |
| Git.RenderedBlock | src/git.rs:155-169 | a rendered block has no blank line and parses back to its worktree |
| Git.HeadLineIgnored | src/git.rs:157-165 | a `HEAD <sha>` line is neither a path line nor a branch line |
| Git.IgnoredLine | src/git.rs:157-165 | a line of no kind the parser reads changes nothing a block yields |
| Git.HeadBlock | src/git.rs:155-169 | the block git prints, with its `HEAD <sha>` line between the path and branch lines, yields its worktree |
| Git.FindWorktreePath | src/git.rs:183-189 | the path of the first worktree on the branch, or none exactly when no worktree is on it |
| Git.GetWorktreePath | src/git.rs:175-190 | a failed listing is a command error; otherwise the first matching path, or a not-found error |
| Git.FirstPathOn | src/git.rs:183-189 | the loop finds the first worktree on the branch |
| Git.FirstMatch | src/git.rs:183-189 | a worktree on the branch with none before it is the one found |
| Git.WorktreeExists | src/git.rs:82-94 | fails exactly when the listing fails; true exactly when a worktree on the branch is listed |
| Git.MainWorktreeRoot | src/git.rs:29-44 | a failed listing is an error, one that parses to no worktree is "no main worktree", otherwise the first parsed worktree's path |
| Git.MainRootOfRendered | src/git.rs:38-43 | for a rendered listing, the main root is the first worktree's path |
| Git.DefaultBranch | src/git.rs:47-72 | the branch of `origin/HEAD` when it has the `refs/remotes/origin/` prefix; else `main` if it exists, else `master` if it exists, else `NoDefaultBranch`; a failed existence query for `main`, or for `master` once `main` is absent, is returned as its error |
| Git.MergeBase | src/git.rs:249-256 | `origin/<main>` exactly when that ref exists; otherwise the main branch itself; errors pass through |
| Git.UnmergedBranches | src/git.rs:259-286 | the set of listed branch lines; a missing base gives the empty set; other failures are errors |
| Git.ArgsReadBack | src/git.rs:102-108 | the add, remove, branch-delete and push-delete argument vectors each read back as the command they were built for |
| Shell.Escape | src/tmux.rs:158 | escaping turns every single quote into four characters and keeps every other character |
| Shell.EscapeUnquote | src/tmux.rs:158 | inside single quotes, the shell reads the escaped text back as the original text |
| Shell.EscapeAppend | src/tmux.rs:158 | escaping distributes over concatenation |
| Shell.EscapePlain | src/tmux.rs:158 | text without a single quote is unchanged by escaping |
| Shell.SingleQuotedReadsBack | src/tmux.rs:160-176 | a single-quoted escaped script reads back as the script |
| Shell.StartupCommandQuotesScript | src/tmux.rs:160-176 | the startup command is `<shell> -ic '<script>'`, and the quoted part reads back as hook, command and `exec <shell> -l` |
| Tmux.Prefixed | src/tmux.rs:11-13 | the window name is the prefix followed by the name |
| Tmux.PrefixedInjective | src/tmux.rs:11-13 | different names under one prefix give different window names |
| Tmux.FirstWhitespace | src/tmux.rs:384-389 | the position of the first whitespace character, or that there is none |
| Tmux.SplitFirstToken | src/tmux.rs:380-392 | none exactly for blank input; otherwise a whitespace-free, non-empty token taken from the trimmed input, and the text after the separator |
| Tmux.SplitAtToken | src/tmux.rs:380-392 | a token followed by whitespace splits there, keeping the rest as written |
| Tmux.SplitSingleWord | src/tmux.rs:469-472 | `claude` splits into `claude` and an empty rest |
| Tmux.SplitWithArgs | src/tmux.rs:474-480 | `claude --verbose` splits into `claude` and `--verbose` |
| Tmux.SplitKeepsSpacing | src/tmux.rs:482-488 | only the first separator is dropped from the rest |
| Tmux.SplitBlank | src/tmux.rs:498-505 | empty and all-whitespace commands have no token |
| Tmux.CommandToken | src/tmux.rs:339-344 | a command has a first token exactly when it is not blank |
| Tmux.RewriteAgentCommand | src/tmux.rs:338-378 | no rewrite exactly for blank commands and agents other than claude, codex and gemini; a rewrite starts with the command's token |
| Tmux.WithPrompt | src/tmux.rs:356-373 | the rewrite begins with the token, the flag and the prompt substitution; when the left-trimmed arguments are not empty a space and those arguments follow, and nothing else |
| Tmux.RewriteKeepsToken | src/tmux.rs:356-373 | a rewritten command starts with the original token and a space |
| Tmux.RewritePassesPrompt | src/tmux.rs:351-373 | a known agent's rewrite is its token, a space (` -i ` for gemini) and the prompt file relative to the working directory, then the trimmed arguments after a space when there are any |
| Tmux.OneWordCommand | src/tmux.rs:339-344 | a one-word command is its own token, with nothing after it |
| Tmux.RewriteWord | src/tmux.rs:338-378 | a one-word known agent gets exactly the flag and the prompt |
| Tmux.ExamplePromptRelative | src/tmux.rs:401-402 | the test prompt file, relative to the test worktree, is `PROMPT.md` |
| Tmux.RewriteClaudeExample | src/tmux.rs:399-406 | `claude` becomes `claude "$(cat PROMPT.md)"` |
| Tmux.RewriteCodexExample | src/tmux.rs:408-415 | `codex` becomes `codex "$(cat PROMPT.md)"` |
| Tmux.RewriteGeminiExample | src/tmux.rs:417-424 | `gemini` becomes `gemini -i "$(cat PROMPT.md)"` |
| Tmux.RewritePathExample | src/tmux.rs:426-436 | `/usr/local/bin/claude` is recognised and keeps its path |
| Tmux.RewriteArgsExample | src/tmux.rs:438-448 | `claude --verbose` becomes `claude "$(cat PROMPT.md)" --verbose` |
| Tmux.RewriteUnknownExample | src/tmux.rs:450-457 | an unknown agent is not rewritten |
| Tmux.RewriteEmptyExample | src/tmux.rs:459-466 | an empty command is not rewritten |
| Tmux.AdjustCommand | src/tmux.rs:325-336 | without a prompt file, or for a command that cannot be rewritten, the command is unchanged; otherwise it is the rewrite |
| Tmux.HookHasNoQuote | src/tmux.rs:148-153 | no prompt hook holds a single quote, so none breaks the quoting |
| Tmux.BuildStartupCommand | src/tmux.rs:133-179 | a startup command exactly when there is a command; it is always the quoted hook-then-command script for the shell in use |
| Tmux.Layout | src/tmux.rs:257-323 | the layout always has at least one pane |
| Tmux.Arrange | src/tmux.rs:257-323 | the loop over panes issues exactly the layout's actions and returns its focus |
| Tmux.SetupPanes | src/tmux.rs:257-323 | `setup_panes`: no action for no panes; otherwise the layout's actions; focus as the layout says |
| Tmux.LayoutExtends | src/tmux.rs:291-318 | each further pane only appends actions |
| Tmux.LayoutCounts | src/tmux.rs:291-318 | one pane per split, and the number of actions the first pane and the splits issue |
| Tmux.SplitRequest | src/tmux.rs:291-318 | every pane after the first issues its split, against the pane it names |
| Tmux.FocusInRange | src/tmux.rs:320-322 | the focused pane is one that exists |
| Tmux.NoFocus | src/tmux.rs:320-322 | no pane is focused exactly when no created pane asks for focus |
| Tmux.FocusIsLastFocused | src/tmux.rs:320-322 | the focused pane is the last created pane that asks for focus |
| Zellij.Prefixed | src/zellij.rs:12-14 | the tab name is the prefix followed by the name |
| Zellij.PrefixedExamples | src/zellij.rs:332-335 | `wm-` and `feature` give `wm-feature`; an empty prefix keeps the name |
| Zellij.TabNames | src/zellij.rs:17-25 | a failed query gives no names; otherwise exactly the listed lines |
| Zellij.TabExists | src/zellij.rs:34-38 | true exactly when the prefixed name is a listed line |
| Zellij.CurrentTabName | src/zellij.rs:41-47 | the tab variable when set and not empty |
| Zellij.HookHasNoQuote | src/zellij.rs:163-165 | no prompt hook holds a single quote |
| Zellij.BuildStartupCommand | src/zellij.rs:148-187 | a startup command exactly when there is a command; it is always the quoted hook-then-command script for the shell in use |
| Zellij.RewriteAgentCommand | src/zellij.rs:278-324 | no rewrite exactly when there is no agent, the command is blank, or the resolved stems of pane and agent differ; a rewrite is the token, then a space and the trimmed arguments when there are any, then ` -i ` for a gemini stem or ` -- ` otherwise, and the prompt file relative to the working directory |
| Zellij.PromptLast | src/zellij.rs:305-320 | the token comes first, then a space and the trimmed arguments when there are any, and the flag and the prompt substitution last |
| Zellij.RewriteWord | src/zellij.rs:278-324 | a one-word pane command that runs the configured agent gets the flag and the prompt and nothing else |
| Zellij.RewriteClaudeExample | src/zellij.rs:337-344 | `claude` under the claude agent becomes `claude -- "$(cat PROMPT.md)"` |
| Zellij.RewriteGeminiExample | src/zellij.rs:346-353 | `gemini` under the gemini agent becomes `gemini -i "$(cat PROMPT.md)"` |
| Zellij.RewriteMismatchedExample | src/zellij.rs:355-362 | `claude` under the gemini agent is not rewritten |
| Zellij.RewriteEmptyExample | src/zellij.rs:364-371 | an empty command is not rewritten |
| Zellij.AdjustCommand | src/zellij.rs:262-275 | no prompt file, no agent or no rewrite leaves the command unchanged; otherwise it is the rewrite |
| Zellij.ChosenCommand | src/zellij.rs:232-236 | the agent placeholder stands for the effective agent; other commands are kept |
| Zellij.SetupTab | src/zellij.rs:217-260 | no panes or no command to run gives no startup; otherwise the startup command of the first pane's chosen command, adjusted for the prompt file |
| Zellij.SetupTabFirstPaneOnly | src/zellij.rs:231-250 | only the first pane's command matters |
| Zellij.PlaceholderIsAgent | src/zellij.rs:228-236 | the placeholder runs the task's agent or else the configured one, and nothing when there is neither |
| Zellij.TaskAgentFirst | src/zellij.rs:228 | a task agent wins over the configured agent |
| Zellij.Remove | tests/conftest.py:136-150 | removing a tab from the list keeps the others, their order and their distinctness |
| Zellij.Session.NewTab | tests/conftest.py:98-121 | a named new tab is appended unless it already exists, and becomes current |
| Zellij.Session.GoToTabName | tests/conftest.py:122-135 | succeeds exactly for an existing tab, which becomes current; the tab list is unchanged |
| Zellij.Session.CloseCurrentTab | tests/conftest.py:136-150 | the current tab leaves the list |
| Zellij.TabExistsInSession | src/zellij.rs:34-38 | against the session's listing, a tab exists exactly when its prefixed name is in the session |
| Zellij.ListingLines | tests/conftest.py:93-97 | the listing's lines are the session's tabs |
| Zellij.CreateTab | src/zellij.rs:52-92 | the prefixed tab is added unless it exists and becomes current; a detached create goes back to the tab named in the environment, failing when that tab is gone |
| Zellij.SelectTab | src/zellij.rs:95-104 | succeeds exactly for an existing tab, which becomes current |
| Zellij.CloseTab | src/zellij.rs:107-123 | succeeds exactly for an existing tab, which leaves the list; a failure changes nothing |
| Workspace.Kept | src/git.rs:142-148 | the prune keeps exactly the listed worktrees whose directories still exist |
| Workspace.RemovedThenPruned | src/git.rs:115-148 | removing a worktree's directory and then pruning forgets that worktree |
| Workspace.InertStep | src/workflow/cleanup.rs:57-70 | a hook or environment command leaves the repository as it is |
| Workspace.DirsKept | src/git.rs:115-148 | commands that remove no directory leave the directories as they are |
| Workspace.TracedChain | src/workflow/cleanup.rs:56-121 | two stretches of commands, each replayed onto the repository, replay as one |
| Workspace.World.SelectTab | src/zellij.rs:95-104 | logs the selection; succeeds exactly for an open tab, which becomes current; the repository stays the replay of the log |
| Workspace.World.CloseTab | src/zellij.rs:107-123 | logs the selection and the close; an open tab leaves the session; the repository stays the replay of the log |
| Workspace.World.Schedule | src/zellij.rs:127 | a scheduled close is logged and changes nothing now; the repository stays the replay of the log |
| WorkflowList.OpenTabs | src/workflow/list.rs:20-24 | tabs are only known while zellij runs and the query succeeds |
| WorkflowList.UnmergedSet | src/workflow/list.rs:31-35 | no main branch, a failing merge base or a failing `--no-merged` listing gives no unmerged branches; otherwise the branches that listing names |
| WorkflowList.Info | src/workflow/list.rs:38-62 | a worktree has a tab exactly when its prefixed name is open; it is unmerged exactly when its branch is, and it is not the main branch |
| WorkflowList.List | src/workflow/list.rs:8-65 | fails outside a repository or when listing fails; otherwise one status per listed worktree, in order |
| WorkflowList.UnmergedFlag | src/workflow/list.rs:45-53 | each status's unmerged flag follows the unmerged set |
| WorkflowList.NoUnmergedWithoutBase | src/workflow/list.rs:27-35 | without a main branch, no worktree is unmerged |
| WorkflowList.TabFlagOfSession | src/workflow/list.rs:41-42 | against a session, the tab flag says whether the worktree's tab is in it |
| WorkflowList.ListOfRendered | src/workflow/list.rs:13 | for a rendered listing, the statuses are those of the rendered worktrees |
| ListCommand.TabMarker | src/command/list.rs:49-53 | the tab marker is shown exactly when a tab is open |
| ListCommand.UnmergedMarker | src/command/list.rs:54-58 | the unmerged marker is shown exactly when the branch is unmerged |
| ListCommand.PathCell | src/command/list.rs:35-44 | the relative path, or `(here)` for the current directory; the absolute path when there is no relative one |
| ListCommand.PathCellNeverBare | src/command/list.rs:35-44 | the path cell is never empty or `.` |
| ListCommand.RowOf | src/command/list.rs:32-61 | a row shows the branch, `✓` or `-` for the tab and `●` or `-` for unmerged commits as flagged, and the path cell |
| ListCommand.Run | src/command/list.rs:21-71 | errors pass through; an empty list prints the no-worktrees note; otherwise one row per worktree |
| ListCommand.RowsShowFlags | src/command/list.rs:32-61 | each row's markers follow its worktree's flags |
| Context.New | src/workflow/context.rs:25-58 | fails outside a repository; otherwise the root, main worktree root, main branch and prefix the repository and config give |
| Context.ConfiguredMainBranchWins | src/workflow/context.rs:34-39 | a configured main branch makes the default-branch lookup irrelevant |
| Context.MainWorktreeIsFirst | src/workflow/context.rs:31-32 | for a rendered listing, the main worktree root is the first worktree, and none listed is an error |
| Context.EnsureZellijRunning | src/workflow/context.rs:63-70 | succeeds exactly when zellij runs |
| OpenWorkflow.PanesError | src/workflow/open.rs:24-26 | only configured panes are validated |
| OpenWorkflow.Open | src/workflow/open.rs:11-57 | each refusal in the source's order issues nothing; once every check passes the environment setup is issued, and open succeeds exactly when it goes through, returning the branch's worktree |
| OpenWorkflow.OpenedFirstWorktree | src/workflow/open.rs:40-45 | in a rendered listing, the worktree opened is the first on the branch |
| CleanupWorkflow.InsideTargetTab | src/workflow/cleanup.rs:35-43 | true exactly when zellij runs and the current tab is the branch's |
| CleanupWorkflow.PollUntilGone | src/workflow/cleanup.rs:143-152 | polls until the tab is gone, at most the retry limit; gone exactly when some poll missed it |
| CleanupWorkflow.HookOps | src/workflow/cleanup.rs:57-70 | one hook command per configured hook, in order, in the worktree |
| CleanupWorkflow.RunHooks | src/workflow/cleanup.rs:57-70 | all hooks run exactly when none fails; otherwise the run ends at the first failing hook, which is reported, and no later hook runs; either way the repository is the replay of the commands issued |
| CleanupWorkflow.CleanedForgetsWorktree | src/workflow/cleanup.rs:56-121 | after cleanup the directory and its listing are gone and the local branch too unless kept; changes are untouched |
| CleanupWorkflow.GitStepsReplay | src/workflow/cleanup.rs:72-119 | replaying the removal, prune and branch deletions yields the cleaned repository |
| CleanupWorkflow.FsTraceReplay | src/workflow/cleanup.rs:56-121 | the hooks change nothing, so the whole trace yields the cleaned repository |
| CleanupWorkflow.RemovalReplay | src/workflow/cleanup.rs:72-97 | removing the directory, if it exists, and pruning forget the worktree |
| CleanupWorkflow.BranchReplay | src/workflow/cleanup.rs:100-119 | the branch steps delete the local branch unless kept, and the remote one when asked |
| CleanupWorkflow.FsGitCleanup | src/workflow/cleanup.rs:56-121 | succeeds exactly when no step of the hooks-then-git trace fails other than the remote delete, reporting what it did; otherwise it ends at the first such failing step, which is reported, and issues nothing after it; either way the repository is the replay of the commands issued |
| CleanupWorkflow.RemoveWorktreeAndBranches | src/workflow/cleanup.rs:72-119 | succeeds exactly when no git step fails other than the remote delete; otherwise it ends at the first such failing step, which is reported; either way the repository is the replay of the commands issued |
| CleanupWorkflow.RemoveWorktree | src/workflow/cleanup.rs:72-97 | removes the directory if present, then prunes; succeeds exactly when neither step fails, else ends at the first that fails; the repository is the replay of the commands issued |
| CleanupWorkflow.DeleteBranches | src/workflow/cleanup.rs:100-119 | deletes the local branch unless kept, then the remote one when asked; fails exactly when the local delete fails, and then issues nothing more; a failed remote delete is reported, not fatal; the repository is the replay of the commands issued |
| CleanupWorkflow.DeleteAfterRemoval | src/workflow/cleanup.rs:100-119 | after the worktree is gone: the branch steps succeed, with the flags cleanup reports, exactly when the local delete does not fail, else stop at it; the repository is the replay of the commands issued |
| CleanupWorkflow.RemovalClear | src/workflow/cleanup.rs:72-97 | the removal steps go through exactly when the directory removal they need and the prune do not fail |
| CleanupWorkflow.RemovalStop | src/workflow/cleanup.rs:72-97 | a failing directory removal stops the removal at once; otherwise a failing prune stops it after the removal |
| CleanupWorkflow.BranchesClear | src/workflow/cleanup.rs:100-119 | the branch steps go through exactly when the branch is kept or its local delete does not fail |
| CleanupWorkflow.HooksClear | src/workflow/cleanup.rs:57-70 | the hooks go through exactly when none of them fails |
| CleanupWorkflow.AwaitTabGone | src/workflow/cleanup.rs:143-164 | warns that the tab lingers exactly when it outlives every poll |
| CleanupWorkflow.CloseTargetTab | src/workflow/cleanup.rs:131-168 | closes the branch's tab exactly when zellij runs and the tab is open, and a close means the tab was open; the repository stays the replay of the log |
| CleanupWorkflow.Cleanup | src/workflow/cleanup.rs:14-171 | closes the tab unless inside it, then runs the trace; success yields the cleaned repository and the flags of what was done; it succeeds exactly when the tab it must close is open and no step of the trace fails other than the remote delete; a failed step is the first such step of the trace, after which nothing is issued; whatever happens, the repository is the replay of the commands issued |
| CleanupWorkflow.NavigateToMainAndClose | src/workflow/cleanup.rs:175-255 | without a main tab only schedules a close from inside; from inside schedules both; otherwise switches and closes at once; the repository stays the replay of the log |
| CleanupWorkflow.SwitchToMainAndClose | src/workflow/cleanup.rs:231-252 | succeeds exactly when the main tab is open; the cleaned-up tab then leaves the session; the repository stays the replay of the log |
| MergeWorkflow.StrategyOf | src/cli.rs:144-148 | `--rebase` wins, then `--squash`, else a merge commit |
| MergeWorkflow.ResolvePaths | src/workflow/merge.rs:40-54 | a missing branch worktree, then a missing target worktree, refuse; the main branch's worktree is the main root |
| MergeWorkflow.Prepare | src/workflow/merge.rs:40-94 | issues exactly the preparation's commands and returns its verdict; records whether there were staged changes |
| MergeWorkflow.CommitAndSwitch | src/workflow/merge.rs:69-94 | issues the commit and the switch the checks call for |
| MergeWorkflow.RunStrategy | src/workflow/merge.rs:117-165 | issues the strategy's commands and reports its error |
| MergeWorkflow.RebaseThenMerge | src/workflow/merge.rs:117-141 | rebases, then fast-forwards, stopping at the first failure |
| MergeWorkflow.SquashAndCommit | src/workflow/merge.rs:142-155 | squashes and commits; a failed squash is followed by a hard reset |
| MergeWorkflow.MergeOrAbort | src/workflow/merge.rs:156-165 | merges; a failed merge is aborted |
| MergeWorkflow.StrategyFailsIffCommandFails | src/workflow/merge.rs:117-165 | a strategy fails exactly when one of its commands failed |
| MergeWorkflow.TargetKeptClean | src/workflow/merge.rs:117-165 | a clean target stays clean, unless the squash commit fails or the reset fails |
| MergeWorkflow.SquashLeftStaged | src/workflow/merge.rs:148-155 | a failed squash commit leaves the changes staged in the target |
| MergeWorkflow.RetryEndsWithTarget | src/workflow/merge.rs:109-113 | the retry command names `--target` exactly when the target is not the main branch |
| MergeWorkflow.PreparationGuards | src/workflow/merge.rs:40-94 | on success the branch is not the target, its changes are handled, and the target is clean and switched; a failed commit, a merge into itself or a dirty target issue no switch |
| MergeWorkflow.CheckedGuards | src/workflow/merge.rs:69-94 | past the unstaged check, only the commit and switch are issued, and success leaves the target clean |
| MergeWorkflow.CommittedReplay | src/workflow/merge.rs:69-74 | a successful commit clears the branch's staged changes |
| MergeWorkflow.MergeKeepsTargetClean | src/workflow/merge.rs:86-165 | the target is clean after the whole merge, with the same two exceptions |
| MergeWorkflow.Finish | src/workflow/merge.rs:182-197 | a successful finish leaves the repository cleaned, with the local branch deleted; it fails only in cleanup or when the main tab cannot be selected; it succeeds when no cleanup step can fail, the tab to close is open and the target's tab name is not empty; the repository is always the replay of the commands issued |
| MergeWorkflow.PreparedKeepsDirs | src/workflow/merge.rs:12-94 | the checks and commands before the strategy remove no directory |
| MergeWorkflow.StrategyKeepsDirs | src/workflow/merge.rs:117-165 | no merge strategy removes a directory |
| MergeWorkflow.MergedAndCleanedUp | src/workflow/merge.rs:168-203 | a merge that is not kept removes the worktree directory and the branch, and leaves the target clean |
| MergeWorkflow.Merge | src/workflow/merge.rs:12-204 | against the worktrees git lists now: a refusal returns the commands issued so far, leaves the repository their replay and the tabs untouched; otherwise the strategy runs, then cleanup unless kept, and that cleanup succeeds when nothing can hinder it |
| MergeWorkflow.MergeFrom | src/workflow/merge.rs:117-203 | a failed strategy ends the merge, and with keep it ends after the strategy, in both cases with the repository as the strategy left it; otherwise cleanup and navigation follow, and succeed when no cleanup step can fail, the tab to close is open and the target's tab name is not empty |
| Cli.Candidates | src/cli.rs:30-37 | offers exactly the listed branches that are neither the main branch nor detached, in order |
| Cli.GetBranches | src/cli.rs:16-38 | nothing outside a repository or when listing fails; never the main branch or detached |
| Cli.CandidatesAppend | src/cli.rs:30-37 | the filter keeps the listing's order |
| Cli.AllOffered | src/cli.rs:30-37 | when every branch qualifies, the candidates are all of them, in order |
| Cli.RenderedCandidates | src/cli.rs:16-38 | for a rendered listing, the candidates are those of the rendered worktrees |
| Cli.Broken | src/cli.rs:90-172 | each command breaks only its own rules; `open`, `list` and `init` have none |
| Cli.AcceptedAdd | src/cli.rs:90-95 | an accepted `add` names a branch or a PR, and never a PR with a base |
| Cli.AcceptedMergeStrategy | src/cli.rs:144-152 | a `merge` is accepted exactly when it has at most one strategy flag and not `--keep` with `--delete-remote`; then the strategy follows the flag given |
| Cli.AcceptedRemove | src/cli.rs:168-173 | a `remove` is accepted exactly when it does not combine `--keep-branch` with `--delete-remote` |
| Cli.AcceptedRemoveDeletesBoth | src/cli.rs:172 | an accepted `remove --delete-remote` deletes the branch locally and on the remote |

## Left out

- Processes, environment variables, the current directory and the clock are parameters or fields of `Workspace.World`.
  The model does not capture how commands are spawned or how their output is captured.
- `chdir_to_main_worktree` (src/workflow/context.rs:77-88) is not modelled. The workflows take the paths they act on as arguments.
- Failures of `is_git_repo` and of the status queries are modelled only where the core handles them.
  - `has_staged_changes` and `has_unstaged_changes` read the abstract repository.
  - `has_uncommitted_changes` is the predicate on its porcelain output.
- The tmux window functions are not modelled: `window_exists`, `create_window`, `select_pane`, `kill_window` and
  `schedule_window_close`. Their core, the pane layout and the startup command, is modelled. A failing
  `respawn-pane` or `split-window` is not modelled.
- For scheduled tab closes, only the decision is modelled, as a logged `Schedule` operation. The delay, `nohup` and
  the quoting of the scheduled script are not.
- The sleep between polls for a closed tab is not modelled. `closeLag` stands for the number of polls the tab still
  shows up in.
- Removing the prompt file (src/workflow/cleanup.rs:85-94) is not modelled. It only touches a temporary file and
  never fails the cleanup.
- `setup_environment` is one logged command. Pane validation (`validate_panes_config`) is a parameter of `open`.
  Executable resolution (`resolve_executable_path`) is a parameter of the zellij rewrite.
- `config::split_first_token` is not part of this model. Zellij's rewrite uses the tmux `split_first_token`.
- `reset_hard` and `abort_merge` are commands whose own failure the merge ignores.
- `diff_paths` is a parameter of the list command. The table layout and its column widths are not modelled.
- `Git.RenderWorktreeList`: renders each worktree as its path line and its branch line only. git also prints a
  `HEAD <sha>` line, and for some worktrees `bare`, `locked` or `prunable` lines. `Workspace.World.Listing` and the
  lemmas about rendered listings use the two-line rendering. `Git.HeadBlock` and `Git.IgnoredLine` show that such
  lines change nothing the parser yields.
- `Paths.RenderRelative`: rebuilds the relative path from its components. Rust's `strip_prefix` returns the rest of
  the path as written, so a rest of `b//c` stays `b//c` where the model gives `b/c`. Both name the same file.
- The zellij rewrite examples take a resolver that finds nothing on the search path (`Zellij.Unresolved`), so each
  token stands for itself; the source's tests run against the `$PATH` of the machine.
- `Paths.RelativeTo`: paths are compared component by component. `.` and `..` are not normalised, just as
  `strip_prefix` does not normalise them.
- Merge errors, cleanup errors and open errors are kinds. `MergeWorkflow.ErrorMessage`,
  `CleanupWorkflow.CleanupMessage` and `OpenWorkflow.OpenMessage` map them to the source's texts. The anyhow context
  chains are not modelled.
- `merge` commits staged changes before the self-merge and dirty-target checks, as src/workflow/merge.rs:69-91 does.
  The model follows that order.
- `Cli.Broken`: returns the set of rules broken. The order in which clap reports them is not modelled, nor are its
  texts, its help, or parsing `--pr` into a `u32` beyond the type's range.
- The repository is tied to the command log by the replay lemmas, not by a class invariant of `Workspace.World`.
- src/github.rs, src/main.rs, and the `add`, `remove` and `setup` workflows are not part of this model.
  `Cli.AcceptedRemoveDeletesBoth` covers `remove` through the cleanup it performs.
- `MergeWorkflow.Finish`: states the repository after a successful finish, forces success when cleanup cannot be
  hindered, and ties the repository to the log. The exact log of cleanup and navigation is not stated; it is covered
  by `CleanupWorkflow.Cleanup` and `CleanupWorkflow.NavigateToMainAndClose`.
