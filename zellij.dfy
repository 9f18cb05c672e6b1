/**
 * The zellij backend (src/zellij.rs): tab-name prefixing, the tab-name query,
 * the current tab from `ZELLIJ_TAB_NAME`, the startup command, the agent
 * command rewrite, the command `setup_tab` runs, and tab creation, selection
 * and closing as operations on the session's tab list and current tab.
 *
 * The session follows the behaviour the test suite's stand-in zellij gives
 * the three actions used: `new-tab` adds the name when it is new and focuses
 * it, `go-to-tab-name` fails for an unknown tab, and `close-tab` removes the
 * current tab and focuses the first remaining one.
 */
module Zellij {

  import opened Wrappers
  import Text
  import Paths
  import Shell
  import Tmux

  /** `prefixed`: the tab name is the prefix followed by the name. */
  function Prefixed(prefix: string, name: string): (r: string)
    ensures prefix <= r && r[|prefix|..] == name
  {
    prefix + name
  }

  /** The examples `prefixed` is written against; the empty prefix changes nothing. */
  lemma PrefixedExamples(name: string)
    ensures Prefixed("wm-", "feature") == "wm-feature"
    ensures Prefixed("", name) == name
  {
  }

  /** `get_all_tab_names`: the lines of `query-tab-names`; a failed query lists no tab. */
  function TabNames(query: Result<string, string>): (r: set<string>)
    ensures query.Failure? ==> r == {}
    ensures query.Success? ==> forall name :: name in r <==> name in Text.Lines(query.value)
  {
    match query
    case Failure(_) => {}
    case Success(out) => set line | line in Text.Lines(out)
  }

  /** `tab_exists`: the prefixed name is one of the listed lines; never when the query fails. */
  function TabExists(prefix: string, name: string, query: Result<string, string>): (r: bool)
    ensures r <==> query.Success? && Prefixed(prefix, name) in Text.Lines(query.value)
  {
    Prefixed(prefix, name) in TabNames(query)
  }

  /** `current_tab_name`: `ZELLIJ_TAB_NAME` when it is set and not empty. */
  function CurrentTabName(tabEnv: Option<string>): (r: Option<string>)
    ensures r.None? <==> tabEnv.None? || tabEnv.value == []
    ensures r.Some? ==> r == tabEnv
  {
    match tabEnv
    case Some(name) => if name != [] then Some(name) else None
    case None => None
  }

  // ---------------------------------------------------------------------------
  // Startup command

  const ZshHook: string := "if (( ${#precmd_functions[@]} )); " + "then for f in \"${precmd_functions[@]}\"" + "; do \"$f\"; done; fi"
  const BashHook: string := "eval \"${PROMPT_COMMAND:-}\""
  const FishHook: string := "functions -q fish_prompt" + "; and emit fish_prompt"

  /** The hook that runs the shell's pre-prompt functions, by shell name; `true` for other shells. */
  function PreCommandHook(shellName: string): string {
    if shellName == "zsh" then ZshHook
    else if shellName == "bash" then BashHook
    else if shellName == "fish" then FishHook
    else "true"
  }

  /** No hook holds a single quote, so none ends the quoted script early. */
  lemma HookHasNoQuote(shellName: string)
    ensures Shell.Quote !in PreCommandHook(shellName)
  {
    if shellName == "zsh" {
      ZshHookHasNoQuote();
    } else if shellName == "fish" {
      FishHookHasNoQuote();
    }
  }

  lemma ZshHookHasNoQuote()
    ensures Shell.Quote !in ZshHook
  {
    ZshTestHasNoQuote();
    ZshLoopHasNoQuote();
    ZshCallHasNoQuote();
  }

  lemma ZshTestHasNoQuote()
    ensures Shell.Quote !in "if (( ${#precmd_functions[@]} )); "
  {
  }

  lemma ZshLoopHasNoQuote()
    ensures Shell.Quote !in "then for f in \"${precmd_functions[@]}\""
  {
  }

  lemma ZshCallHasNoQuote()
    ensures Shell.Quote !in "; do \"$f\"; done; fi"
  {
  }

  lemma FishHookHasNoQuote()
    ensures Shell.Quote !in FishHook
  {
    assert Shell.Quote !in "functions -q fish_prompt";
    assert Shell.Quote !in "; and emit fish_prompt";
  }

  /**
   * `build_startup_command`: nothing without a command; otherwise
   * `{shell} -ic '{hook}; {command}; exec {shell} -l'` with the command's
   * quotes escaped, so that the inner shell reads the command back unchanged.
   */
  function BuildStartupCommand(command: Option<string>, shellEnv: Option<string>): (r: Option<string>)
    ensures r.Some? <==> command.Some?
    ensures r.Some? ==>
      var shell := Shell.ShellPath(shellEnv);
      r.value == Shell.StartupCommand(PreCommandHook(Shell.ShellName(shell)), command.value, shell)
    ensures r.Some? && Shell.Quote !in Shell.ShellPath(shellEnv) ==>
      var shell := Shell.ShellPath(shellEnv);
      var script := Shell.InnerScript(PreCommandHook(Shell.ShellName(shell)), command.value, shell);
      r.value == shell + " -ic " + Shell.SingleQuoted(script)
      && Shell.Unquote(Shell.SingleQuoted(script), false) == Some(script)
  {
    match command
    case None => None
    case Some(c) =>
      var shell := Shell.ShellPath(shellEnv);
      var hook := PreCommandHook(Shell.ShellName(shell));
      HookHasNoQuote(Shell.ShellName(shell));
      if Shell.Quote !in shell then
        Shell.StartupCommandQuotesScript(hook, c, shell);
        Some(Shell.StartupCommand(hook, c, shell))
      else
        Some(Shell.StartupCommand(hook, c, shell))
  }

  // ---------------------------------------------------------------------------
  // Agent command rewrite

  /**
   * The file stem of a command token after resolving it on the search path;
   * `resolve` stands for `resolve_executable_path`, which reads `$PATH`.
   */
  function ResolvedStem(token: string, resolve: string -> Option<string>): Option<string> {
    Paths.FileStem(resolve(token).GetOr(token))
  }

  /**
   * The agent whose prompt may be injected: the configured agent command's
   * first token; none when there is no agent or it is blank.
   */
  function AgentToken(effectiveAgent: Option<string>): Option<string> {
    match effectiveAgent
    case None => None
    case Some(a) =>
      match Tmux.SplitFirstToken(a)
      case None => None
      case Some((token, _)) => Some(token)
  }

  /**
   * `rewrite_agent_command`: when the pane's command runs the configured
   * agent (same executable stem), the pane's token and its left-trimmed
   * arguments, then ` -i "$(cat p)"` for gemini or ` -- "$(cat p)"` for any
   * other agent.
   */
  function RewriteAgentCommand(command: string, promptFile: string, workingDir: string,
                               effectiveAgent: Option<string>, resolve: string -> Option<string>): (r: Option<string>)
    ensures r.None? <==>
      AgentToken(effectiveAgent).None? || Tmux.CommandToken(command).None?
      || ResolvedStem(Tmux.CommandToken(command).value.0, resolve) != ResolvedStem(AgentToken(effectiveAgent).value, resolve)
    ensures r.Some? ==>
      var (token, rest) := Tmux.CommandToken(command).value;
      var flag := if ResolvedStem(token, resolve) == Some("gemini") then " -i " else " -- ";
      var args := Text.TrimStart(rest);
      var tail := flag + Tmux.CatPrompt(Paths.RelativeTo(promptFile, workingDir));
      |r.value| >= |token| + |tail|
      && r.value[..|token|] == token
      && r.value[|token|..|r.value| - |tail|] == (if args == [] then "" else " " + args)
      && r.value[|r.value| - |tail|..] == tail
  {
    if effectiveAgent.None? || Tmux.CommandToken(command).None? || AgentToken(effectiveAgent).None? then None
    else
      var (paneToken, paneRest) := Tmux.CommandToken(command).value;
      var configToken := AgentToken(effectiveAgent).value;
      var paneStem := ResolvedStem(paneToken, resolve);
      if paneStem != ResolvedStem(configToken, resolve) then None
      else
        var flag := if paneStem == Some("gemini") then " -i " else " -- ";
        Some(PromptLast(paneToken, paneRest, flag, Paths.RelativeTo(promptFile, workingDir)))
  }

  /**
   * The token, then ` <args>` when the left-trimmed arguments are not empty,
   * then the flag and the prompt: the command's own words come first and
   * the prompt is its last argument.
   */
  function PromptLast(token: string, rest: string, flag: string, promptPath: string): (r: string)
    ensures var args := Text.TrimStart(rest);
      var tail := flag + Tmux.CatPrompt(promptPath);
      |r| >= |token| + |tail|
      && r[..|token|] == token
      && r[|token|..|r| - |tail|] == (if args == [] then "" else " " + args)
      && r[|r| - |tail|..] == tail
  {
    var args := Text.TrimStart(rest);
    var middle := if args == [] then "" else " " + args;
    ThreeParts(token, middle, flag + Tmux.CatPrompt(promptPath));
    token + middle + (flag + Tmux.CatPrompt(promptPath))
  }

  /** The three parts of a concatenation can be read back by position. */
  lemma ThreeParts(a: string, b: string, c: string)
    ensures var s := a + b + c;
      s[..|a|] == a && s[|a|..|s| - |c|] == b && s[|s| - |c|..] == c
  {
    var s := a + b + c;
    assert s[..|a|] == a;
    assert s[|a|..|s| - |c|] == b;
    assert s[|s| - |c|..] == c;
  }

  /** `adjust_command`: the rewrite when there is a prompt file and it applies, the command unchanged otherwise. */
  function AdjustCommand(command: string, promptFile: Option<string>, workingDir: string,
                         effectiveAgent: Option<string>, resolve: string -> Option<string>): (r: string)
    ensures promptFile.None? ==> r == command
    ensures effectiveAgent.None? ==> r == command
    ensures promptFile.Some? && RewriteAgentCommand(command, promptFile.value, workingDir, effectiveAgent, resolve).None? ==>
      r == command
    ensures promptFile.Some? && RewriteAgentCommand(command, promptFile.value, workingDir, effectiveAgent, resolve).Some? ==>
      r == RewriteAgentCommand(command, promptFile.value, workingDir, effectiveAgent, resolve).value
  {
    match promptFile
    case None => command
    case Some(p) => RewriteAgentCommand(command, p, workingDir, effectiveAgent, resolve).GetOr(command)
  }

  /** A resolver that finds nothing on the search path, so each token stands for itself. */
  function Unresolved(token: string): Option<string> {
    None
  }

  /** The parts of the `claude` example. */
  lemma ClaudeParts()
    ensures Text.NoWhitespace("claude") && Paths.ValidName("claude") && '.' !in "claude"
    ensures "claude" + "" + (" -- " + "\"$(cat PROMPT.md)\"") == "claude -- \"$(cat PROMPT.md)\""
  {
  }

  /** The parts of the `gemini` example. */
  lemma GeminiParts()
    ensures Text.NoWhitespace("gemini") && Paths.ValidName("gemini") && '.' !in "gemini"
    ensures "gemini" + "" + (" -i " + "\"$(cat PROMPT.md)\"") == "gemini -i \"$(cat PROMPT.md)\""
  {
  }

  /** A one-word pane command that runs the configured agent, with nothing on the search path. */
  lemma RewriteWord(word: string, promptFile: string, workingDir: string)
    requires word != [] && Text.NoWhitespace(word)
    ensures RewriteAgentCommand(word, promptFile, workingDir, Some(word), Unresolved)
            == Some(PromptLast(word, "", if Paths.FileStem(word) == Some("gemini") then " -i " else " -- ",
                               Paths.RelativeTo(promptFile, workingDir)))
  {
    Tmux.OneWordCommand(word);
  }

  /** `claude` gets the prompt after `--`. */
  lemma RewriteClaudeExample()
    ensures RewriteAgentCommand("claude", Tmux.ExamplePrompt, Tmux.ExampleDir, Some("claude"), Unresolved)
            == Some("claude -- \"$(cat PROMPT.md)\"")
  {
    ClaudeParts();
    Paths.PlainFileStem("claude");
    RewriteWord("claude", Tmux.ExamplePrompt, Tmux.ExampleDir);
    Tmux.ExamplePromptRelative();
    Tmux.ExampleCatPrompt();
    assert Text.TrimStart("") == "";
  }

  /** `gemini` gets the prompt after `-i`. */
  lemma RewriteGeminiExample()
    ensures RewriteAgentCommand("gemini", Tmux.ExamplePrompt, Tmux.ExampleDir, Some("gemini"), Unresolved)
            == Some("gemini -i \"$(cat PROMPT.md)\"")
  {
    GeminiParts();
    Paths.PlainFileStem("gemini");
    RewriteWord("gemini", Tmux.ExamplePrompt, Tmux.ExampleDir);
    Tmux.ExamplePromptRelative();
    Tmux.ExampleCatPrompt();
    assert Text.TrimStart("") == "";
  }

  /** A pane running another agent than the configured one is left alone. */
  lemma RewriteMismatchedExample()
    ensures RewriteAgentCommand("claude", Tmux.ExamplePrompt, Tmux.ExampleDir, Some("gemini"), Unresolved) == None
  {
    ClaudeParts();
    GeminiParts();
    Paths.PlainFileStem("claude");
    Paths.PlainFileStem("gemini");
    Tmux.OneWordCommand("claude");
    Tmux.OneWordCommand("gemini");
  }

  /** An empty pane command is left alone. */
  lemma RewriteEmptyExample()
    ensures RewriteAgentCommand("", Tmux.ExamplePrompt, Tmux.ExampleDir, Some("claude"), Unresolved) == None
  {
    assert Text.Trim("") == [];
  }

  // ---------------------------------------------------------------------------
  // setup_tab

  const AgentPlaceholder: string := "<agent>"

  /**
   * The command `setup_tab` starts in the new tab, wrapped for the shell:
   * none when there are no panes or commands are not to run; otherwise the
   * first pane's command, with the `<agent>` placeholder standing for the
   * task's agent or else the configured one.
   */
  function SetupTab(panes: seq<Tmux.PaneConfig>, runCommands: bool, promptFile: Option<string>, workingDir: string,
                    configAgent: Option<string>, taskAgent: Option<string>, shellEnv: Option<string>,
                    resolve: string -> Option<string>): (r: Option<string>)
    ensures panes == [] || !runCommands ==> r.None?
    ensures panes != [] && runCommands ==>
      (r.Some? <==> ChosenCommand(panes[0], taskAgent.Or(configAgent)).Some?)
    ensures panes != [] && runCommands && ChosenCommand(panes[0], taskAgent.Or(configAgent)).Some? ==>
      var agent := taskAgent.Or(configAgent);
      r == BuildStartupCommand(Some(AdjustCommand(ChosenCommand(panes[0], agent).value, promptFile, workingDir, agent, resolve)), shellEnv)
  {
    if panes == [] || !runCommands then None
    else
      var agent := taskAgent.Or(configAgent);
      match ChosenCommand(panes[0], agent)
      case None => None
      case Some(cmd) =>
        BuildStartupCommand(Some(AdjustCommand(cmd, promptFile, workingDir, agent, resolve)), shellEnv)
  }

  /** The pane's command, or the agent when the command is the placeholder. */
  function ChosenCommand(pane: Tmux.PaneConfig, agent: Option<string>): (r: Option<string>)
    ensures pane.command.None? ==> r.None?
    ensures pane.command == Some(AgentPlaceholder) ==> r == agent
    ensures pane.command.Some? && pane.command != Some(AgentPlaceholder) ==> r == pane.command
  {
    if pane.command == Some(AgentPlaceholder) then agent else pane.command
  }

  /** Only the first pane is used: the panes after it change nothing. */
  lemma SetupTabFirstPaneOnly(panes: seq<Tmux.PaneConfig>, runCommands: bool, promptFile: Option<string>, workingDir: string,
                              configAgent: Option<string>, taskAgent: Option<string>, shellEnv: Option<string>,
                              resolve: string -> Option<string>)
    requires panes != []
    ensures SetupTab(panes, runCommands, promptFile, workingDir, configAgent, taskAgent, shellEnv, resolve)
         == SetupTab(panes[..1], runCommands, promptFile, workingDir, configAgent, taskAgent, shellEnv, resolve)
  {
    assert panes[..1][0] == panes[0];
  }

  /**
   * The placeholder runs exactly what naming the agent's command in the pane
   * would run; with neither a task agent nor a configured one nothing runs.
   */
  lemma PlaceholderIsAgent(pane: Tmux.PaneConfig, runCommands: bool, promptFile: Option<string>, workingDir: string,
                           configAgent: Option<string>, taskAgent: Option<string>, shellEnv: Option<string>,
                           resolve: string -> Option<string>)
    requires pane.command == Some(AgentPlaceholder)
    ensures taskAgent.Or(configAgent).None? ==>
      SetupTab([pane], runCommands, promptFile, workingDir, configAgent, taskAgent, shellEnv, resolve).None?
    ensures taskAgent.Or(configAgent).Some? ==>
      SetupTab([pane], runCommands, promptFile, workingDir, configAgent, taskAgent, shellEnv, resolve)
      == SetupTab([pane.(command := taskAgent.Or(configAgent))], runCommands, promptFile, workingDir, configAgent, taskAgent, shellEnv, resolve)
  {
    if taskAgent.Or(configAgent).Some? {
      var named := pane.(command := taskAgent.Or(configAgent));
      if named.command == Some(AgentPlaceholder) {
        assert ChosenCommand(named, taskAgent.Or(configAgent)) == taskAgent.Or(configAgent);
      }
    }
  }

  /** The task's agent takes precedence over the configured one. */
  lemma TaskAgentFirst(pane: Tmux.PaneConfig, runCommands: bool, promptFile: Option<string>, workingDir: string,
                       configAgent: Option<string>, task: string, shellEnv: Option<string>,
                       resolve: string -> Option<string>)
    requires pane.command == Some(AgentPlaceholder) && runCommands
    ensures SetupTab([pane], runCommands, promptFile, workingDir, configAgent, Some(task), shellEnv, resolve)
         == BuildStartupCommand(Some(AdjustCommand(task, promptFile, workingDir, Some(task), resolve)), shellEnv)
  {
  }

  // ---------------------------------------------------------------------------
  // The session's tabs

  /** No name occurs twice. */
  predicate Distinct(names: seq<string>) {
    forall i, j :: 0 <= i < j < |names| ==> names[i] != names[j]
  }

  /** `names` without its first occurrence of `name`. */
  function Remove(names: seq<string>, name: string): (r: seq<string>)
    ensures name in names ==> |r| == |names| - 1
    ensures name !in names ==> r == names
    ensures forall x :: x in r ==> x in names
    ensures forall x :: x in names && x != name ==> x in r
    ensures Distinct(names) ==> Distinct(r) && name !in r
  {
    if names == [] then []
    else if names[0] == name then names[1..]
    else
      var rest := Remove(names[1..], name);
      assert Distinct(names) ==> names[0] !in names[1..];
      [names[0]] + rest
  }

  /** The tabs of the zellij session and the focused one. */
  class Session {
    var tabs: seq<string>
    var current: string

    /** Tab names are unique, and the focused tab is one of them ("" when there is none). */
    ghost predicate Valid()
      reads this
    {
      Distinct(tabs) && (if tabs == [] then current == "" else current in tabs)
    }

    constructor(tabs: seq<string>, current: string)
      requires Distinct(tabs) && (if tabs == [] then current == "" else current in tabs)
      ensures Valid() && this.tabs == tabs && this.current == current
    {
      this.tabs := tabs;
      this.current := current;
    }

    /** What `query-tab-names` prints: one tab name per line. */
    function Listing(): string
      reads this
    {
      ListingOf(tabs)
    }

    /** `new-tab --name n`: adds `n` when it is new and focuses it; without a name nothing happens. */
    method NewTab(name: string)
      requires Valid()
      modifies this
      ensures Valid()
      ensures name == [] ==> tabs == old(tabs) && current == old(current)
      ensures name != [] ==> tabs == old(tabs) + (if name in old(tabs) then [] else [name]) && current == name
    {
      if name != [] {
        if name !in tabs {
          tabs := tabs + [name];
        }
        current := name;
      }
    }

    /** `go-to-tab-name n`: focuses `n`; fails, changing nothing, when there is no such tab. */
    method GoToTabName(name: string) returns (ok: bool)
      requires Valid()
      modifies this
      ensures Valid()
      ensures ok <==> name in old(tabs)
      ensures tabs == old(tabs)
      ensures current == (if ok then name else old(current))
    {
      ok := name in tabs;
      if ok {
        current := name;
      }
    }

    /** `close-tab`: removes the focused tab and focuses the first remaining one. */
    method CloseCurrentTab()
      requires Valid()
      modifies this
      ensures Valid()
      ensures old(current) in old(tabs) ==>
        tabs == Remove(old(tabs), old(current)) && current == (if tabs == [] then "" else tabs[0])
      ensures old(current) !in old(tabs) ==> tabs == old(tabs) && current == old(current)
    {
      if current in tabs {
        tabs := Remove(tabs, current);
        current := if tabs == [] then "" else tabs[0];
      }
    }
  }

  /** Tab names the listing can carry line by line. */
  predicate ListableName(name: string) {
    name != [] && '\n' !in name && name[|name| - 1] != '\r'
  }

  /** What the session prints when asked for its tab names. */
  function ListingOf(tabs: seq<string>): string {
    if tabs == [] then "\n" else Text.Join(tabs, "\n") + "\n"
  }

  /** Asked for its tabs, the session lists each of them: `tab_exists` is membership in the session. */
  lemma TabExistsInSession(tabs: seq<string>, prefix: string, name: string)
    requires forall i :: 0 <= i < |tabs| ==> ListableName(tabs[i])
    requires Prefixed(prefix, name) != []
    ensures TabExists(prefix, name, Success(ListingOf(tabs))) <==> Prefixed(prefix, name) in tabs
  {
    ListingLines(tabs);
  }

  /** The lines of the listing are the tabs; an empty session prints one empty line. */
  lemma ListingLines(tabs: seq<string>)
    requires forall i :: 0 <= i < |tabs| ==> ListableName(tabs[i])
    ensures Text.Lines(ListingOf(tabs)) == (if tabs == [] then [""] else tabs)
  {
    if tabs != [] {
      Text.LinesTerminated(tabs);
    } else {
      EmptyListing();
    }
  }

  lemma EmptyListing()
    ensures Text.Lines("\n") == [""]
  {
    Text.SplitOnPrefix("", "", '\n');
    assert "" + ['\n'] + "" == "\n";
    assert Text.SplitOn("\n", '\n') == ["", ""];
  }

  /** Whether an action went through, and the error message when it did not. */
  datatype Outcome = Done | Failed(message: string)

  /**
   * `create_tab`: the prefixed tab is created and focused; when `detached`,
   * focus goes back to the tab named by `ZELLIJ_TAB_NAME`, which fails when
   * that tab does not exist.
   */
  method CreateTab(s: Session, prefix: string, name: string, detached: bool, tabEnv: Option<string>)
    returns (r: Outcome)
    requires s.Valid()
    modifies s
    ensures s.Valid()
    ensures var n := Prefixed(prefix, name);
      n != [] ==> s.tabs == old(s.tabs) + (if n in old(s.tabs) then [] else [n])
    ensures var n := Prefixed(prefix, name);
      var back := if detached then CurrentTabName(tabEnv) else None;
      match back
      case None => r == Done && (n != [] ==> s.current == n)
      case Some(orig) => (r == Done <==> orig in s.tabs) && (r == Done ==> s.current == orig)
  {
    var n := Prefixed(prefix, name);
    var original := if detached then CurrentTabName(tabEnv) else None;
    s.NewTab(n);
    if original.Some? {
      var ok := s.GoToTabName(original.value);
      if !ok {
        return Failed("Failed to return to original tab");
      }
    }
    return Done;
  }

  /** `select_tab`: focuses the prefixed tab; fails, changing nothing, when it does not exist. */
  method SelectTab(s: Session, prefix: string, name: string) returns (r: Outcome)
    requires s.Valid()
    modifies s
    ensures s.Valid()
    ensures r == Done <==> Prefixed(prefix, name) in old(s.tabs)
    ensures s.tabs == old(s.tabs)
    ensures s.current == (if r == Done then Prefixed(prefix, name) else old(s.current))
  {
    var ok := s.GoToTabName(Prefixed(prefix, name));
    if !ok {
      return Failed("Failed to select tab");
    }
    return Done;
  }

  /**
   * `close_tab`: goes to the prefixed tab, then closes the focused tab. A
   * missing tab fails with nothing changed; otherwise exactly that tab goes.
   */
  method CloseTab(s: Session, prefix: string, name: string) returns (r: Outcome)
    requires s.Valid()
    modifies s
    ensures s.Valid()
    ensures r == Done <==> Prefixed(prefix, name) in old(s.tabs)
    ensures r != Done ==> s.tabs == old(s.tabs) && s.current == old(s.current)
    ensures r == Done ==>
      (s.tabs == Remove(old(s.tabs), Prefixed(prefix, name)) && s.current == (if s.tabs == [] then "" else s.tabs[0]))
  {
    var n := Prefixed(prefix, name);
    var ok := s.GoToTabName(n);
    if !ok {
      return Failed("Failed to navigate to tab for closing");
    }
    s.CloseCurrentTab();
    return Done;
  }
}
