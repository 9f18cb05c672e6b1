/**
 * The tmux backend's pure parts (src/tmux.rs): window-name prefixing, the
 * first-token split of a pane command, the agent-command rewrite that feeds a
 * prompt file to claude, codex or gemini, the `$SHELL -ic` startup command,
 * and the pane-index arithmetic of `setup_panes`.
 *
 * tmux itself is outside the model: `setup_panes` yields the list of
 * respawn/split requests it would send, in order, and the pane to focus.
 */
module Tmux {

  import opened Wrappers
  import Text
  import Paths
  import Shell

  /** `prefixed`: the window name is the prefix followed by the name. */
  function Prefixed(prefix: string, name: string): (r: string)
    ensures prefix <= r && r[|prefix|..] == name
  {
    prefix + name
  }

  /** Under one prefix, different names give different window names. */
  lemma PrefixedInjective(prefix: string, a: string, b: string)
    requires Prefixed(prefix, a) == Prefixed(prefix, b)
    ensures a == b
  {
    assert a == Prefixed(prefix, a)[|prefix|..];
  }

  // ---------------------------------------------------------------------------
  // First-token split

  /** Index of the first whitespace character, if any. */
  function FirstWhitespace(s: string): (r: Option<nat>)
    ensures r.None? ==> Text.NoWhitespace(s)
    ensures r.Some? ==> r.value < |s| && Text.IsWhitespace(s[r.value]) && Text.NoWhitespace(s[..r.value])
  {
    if s == [] then None
    else if Text.IsWhitespace(s[0]) then Some(0)
    else
      match FirstWhitespace(s[1..])
      case None => None
      case Some(k) =>
        assert s[..k + 1] == [s[0]] + s[1..][..k];
        Some(k + 1)
  }

  /**
   * `split_first_token`: after leading whitespace, the text up to the first
   * whitespace character and the text after that one character.
   */
  function SplitFirstToken(command: string): (r: Option<(string, string)>)
    ensures r.None? <==> Text.TrimStart(command) == []
    ensures r.Some? ==>
      var t := Text.TrimStart(command);
      var (token, rest) := r.value;
      token != [] && Text.NoWhitespace(token) && token <= t
      && (if |t| == |token| then rest == [] else Text.IsWhitespace(t[|token|]) && rest == t[|token| + 1..])
  {
    var t := Text.TrimStart(command);
    if t == [] then None
    else
      match FirstWhitespace(t)
      case None => Some((t, ""))
      case Some(k) => Some((t[..k], t[k + 1..]))
  }

  /** A token without whitespace, then whitespace: the split finds that token. */
  lemma SplitAtToken(token: string, c: char, rest: string)
    requires token != [] && Text.NoWhitespace(token) && Text.IsWhitespace(c)
    ensures SplitFirstToken(token + [c] + rest) == Some((token, rest))
  {
    var s := token + [c] + rest;
    assert s == token + ([c] + rest);
    assert Text.TrimStart(s) == s by {
      assert s[0] == token[0] && !Text.IsWhitespace(s[0]);
    }
    FirstWhitespaceAfter(token, [c] + rest);
    assert s[..|token|] == token;
    assert s[|token| + 1..] == rest;
  }

  /** A token without whitespace, then whitespace: the first whitespace is right after the token. */
  lemma {:induction false} FirstWhitespaceAfter(token: string, tail: string)
    requires Text.NoWhitespace(token) && tail != [] && Text.IsWhitespace(tail[0])
    ensures FirstWhitespace(token + tail) == Some(|token|)
  {
    if token != [] {
      assert (token + tail)[1..] == token[1..] + tail;
      FirstWhitespaceAfter(token[1..], tail);
    } else {
      assert token + tail == tail;
    }
  }

  /** `split_first_token("claude")` is `("claude", "")`. */
  lemma SplitSingleWord()
    ensures SplitFirstToken("claude") == Some(("claude", ""))
  {
    assert Text.TrimStart("claude") == "claude";
    assert Text.NoWhitespace("claude");
  }

  /** `split_first_token("claude --verbose")` is `("claude", "--verbose")`. */
  lemma SplitWithArgs()
    ensures SplitFirstToken("claude --verbose") == Some(("claude", "--verbose"))
  {
    ClaudeIsToken();
    SplitAtToken("claude", ' ', "--verbose");
    assert "claude" + [' '] + "--verbose" == "claude --verbose";
  }

  /** `split_first_token("claude   --verbose")` keeps the spaces after the first one. */
  lemma SplitKeepsSpacing()
    ensures SplitFirstToken("claude   --verbose") == Some(("claude", "  --verbose"))
  {
    ClaudeIsToken();
    SplitAtToken("claude", ' ', "  --verbose");
    assert "claude" + [' '] + "  --verbose" == "claude   --verbose";
  }

  lemma ClaudeIsToken()
    ensures "claude" != [] && Text.NoWhitespace("claude") && Text.IsWhitespace(' ')
  {
  }

  /** Blank commands have no first token. */
  lemma SplitBlank()
    ensures SplitFirstToken("") == None
    ensures SplitFirstToken("   ") == None
  {
    Text.TrimBlank("   ");
    assert Text.TrimStart("   ") == [];
  }

  // ---------------------------------------------------------------------------
  // Agent command rewrite

  /** The `$(cat …)` substitution that passes the prompt file's text as one argument. */
  function CatPrompt(promptPath: string): string {
    "\"$(cat " + promptPath + ")\""
  }

  /** The agents whose command takes the prompt: recognised by the token's last path component. */
  predicate KnownAgent(name: Option<string>) {
    name == Some("claude") || name == Some("codex") || name == Some("gemini")
  }

  /**
   * The first token of a pane command and the text after it, read from the
   * trimmed command; none when the command is blank.
   */
  function CommandToken(command: string): (r: Option<(string, string)>)
    ensures r.None? <==> Text.Trim(command) == []
  {
    var trimmed := Text.Trim(command);
    if trimmed == [] then None
    else
      TrimmedStart(command);
      SplitFirstToken(trimmed)
  }

  /** A trimmed text starts with no whitespace, so splitting it does not skip anything. */
  lemma TrimmedStart(command: string)
    ensures Text.TrimStart(Text.Trim(command)) == Text.Trim(command)
  {
    var t := Text.Trim(command);
    if t != [] {
      assert t[0] == Text.TrimStart(command)[0];
    }
  }

  /**
   * `rewrite_agent_command`: `<token> "$(cat p)"` for claude and codex,
   * `<token> -i "$(cat p)"` for gemini, followed by ` <rest>` when the
   * arguments are not blank; the prompt path is relative to the working
   * directory when the file lies under it. Blank commands and other agents
   * are not rewritten.
   */
  function RewriteAgentCommand(command: string, promptFile: string, workingDir: string): (r: Option<string>)
    ensures r.None? <==> CommandToken(command).None? || !KnownAgent(Paths.FileName(CommandToken(command).value.0))
    ensures r.Some? ==>
      var token := CommandToken(command).value.0;
      token <= r.value && |r.value| > |token| && r.value[|token|] == ' '
  {
    match CommandToken(command)
    case None => None
    case Some((token, rest)) =>
      var agent := Paths.FileName(token);
      var promptPath := Paths.RelativeTo(promptFile, workingDir);
      if agent == Some("claude") || agent == Some("codex") then Some(WithPrompt(token, " ", promptPath, rest))
      else if agent == Some("gemini") then Some(WithPrompt(token, " -i ", promptPath, rest))
      else None
  }

  /** The token, the flag and the prompt substitution, then ` <args>` when the left-trimmed arguments are not empty. */
  function WithPrompt(token: string, flag: string, promptPath: string, rest: string): (r: string)
    requires flag != [] && flag[0] == ' '
    ensures token <= r && |r| > |token| && r[|token|] == ' '
    ensures var head := token + flag + CatPrompt(promptPath);
      var args := Text.TrimStart(rest);
      head <= r
      && (args == [] ==> r == head)
      && (args != [] ==> |r| == |head| + 1 + |args| && r[|head|] == ' ' && r[|head| + 1..] == args)
  {
    var args := Text.TrimStart(rest);
    var tail := if args == [] then "" else " " + args;
    Joined(token, flag, CatPrompt(promptPath), tail);
    token + flag + CatPrompt(promptPath) + tail
  }

  /** Where the parts of a four-part text sit in it. */
  lemma Joined(a: string, b: string, c: string, d: string)
    requires b != []
    ensures var s := a + b + c + d;
      a <= s && |s| > |a| && s[|a|] == b[0] && a + b + c <= s && s[|a + b + c|..] == d
  {
    var s := a + b + c + d;
    assert s[..|a + b + c|] == a + b + c;
    assert s[..|a|] == a;
  }

  /**
   * The rewritten command still starts with the agent's token: split again,
   * it gives the same token, so the same agent runs.
   */
  lemma RewriteKeepsToken(command: string, promptFile: string, workingDir: string)
    requires RewriteAgentCommand(command, promptFile, workingDir).Some?
    ensures var token := CommandToken(command).value.0;
      var r := RewriteAgentCommand(command, promptFile, workingDir).value;
      SplitFirstToken(r) == Some((token, r[|token| + 1..]))
  {
    var token := CommandToken(command).value.0;
    var r := RewriteAgentCommand(command, promptFile, workingDir).value;
    TokenThenSpace(token, r);
    SplitAtToken(token, ' ', r[|token| + 1..]);
  }

  lemma TokenThenSpace(token: string, r: string)
    requires token <= r && |r| > |token| && r[|token|] == ' '
    ensures r == token + [' '] + r[|token| + 1..]
  {
  }

  /**
   * The prompt substitution comes right after the token and a space (a
   * space, `-i` and a space for gemini), and the command's own arguments
   * follow it, left-trimmed, after one more space.
   */
  lemma RewritePassesPrompt(command: string, promptFile: string, workingDir: string)
    requires RewriteAgentCommand(command, promptFile, workingDir).Some?
    ensures var (token, rest) := CommandToken(command).value;
      var flag := if Paths.FileName(token) == Some("gemini") then " -i " else " ";
      var head := token + flag + CatPrompt(Paths.RelativeTo(promptFile, workingDir));
      var args := Text.TrimStart(rest);
      var r := RewriteAgentCommand(command, promptFile, workingDir).value;
      head <= r && (args == [] ==> r == head) && (args != [] ==> r[|head|..] == " " + args)
  {
    var (token, rest) := CommandToken(command).value;
    var flag := if Paths.FileName(token) == Some("gemini") then " -i " else " ";
    var r := RewriteAgentCommand(command, promptFile, workingDir).value;
    assert r == WithPrompt(token, flag, Paths.RelativeTo(promptFile, workingDir), rest);
  }

  /** The prompt file of the examples, inside the working directory of the examples. */
  const ExampleDir: string := "/tmp/worktree"
  const ExamplePrompt: string := ExampleDir + "/" + "PROMPT.md"

  /** A one-word command is its own token, with nothing after it. */
  lemma OneWordCommand(word: string)
    requires word != [] && Text.NoWhitespace(word)
    ensures Text.Trim(word) == word && SplitFirstToken(word) == Some((word, ""))
    ensures CommandToken(word) == Some((word, ""))
  {
    assert Text.LeadingWhitespace(word) == 0;
    assert Text.TrailingWhitespace(word) == 0;
    assert Text.TrimStart(word) == word;
    assert Text.Trim(word) == word;
  }

  /** A one-word agent command gets the flag and the prompt, and nothing else. */
  lemma RewriteWord(word: string, promptFile: string, workingDir: string)
    requires word != [] && Text.NoWhitespace(word) && KnownAgent(Paths.FileName(word))
    ensures RewriteAgentCommand(word, promptFile, workingDir)
            == Some(word + (if Paths.FileName(word) == Some("gemini") then " -i " else " ")
                    + CatPrompt(Paths.RelativeTo(promptFile, workingDir)))
  {
    OneWordCommand(word);
    assert Text.TrimStart("") == "";
  }

  /** The example prompt file, named relative to the example worktree. */
  lemma ExamplePromptRelative()
    ensures Paths.RelativeTo(ExamplePrompt, ExampleDir) == "PROMPT.md"
  {
    Paths.ChildRelative(ExampleDir, "PROMPT.md");
  }

  /** The substitution for the example prompt file. */
  lemma ExampleCatPrompt()
    ensures CatPrompt("PROMPT.md") == "\"$(cat PROMPT.md)\""
  {
  }

  /** The example prompt passed to an agent that takes it after one space. */
  lemma SpacePromptLiteral(word: string, expected: string)
    requires word + " " + "\"$(cat PROMPT.md)\"" == expected
    ensures RewriteAgentCommand(word, ExamplePrompt, ExampleDir) == Some(expected)
      <== word != [] && Text.NoWhitespace(word) && KnownAgent(Paths.FileName(word))
          && Paths.FileName(word) != Some("gemini")
  {
    if word != [] && Text.NoWhitespace(word) && KnownAgent(Paths.FileName(word)) {
      RewriteWord(word, ExamplePrompt, ExampleDir);
      ExamplePromptRelative();
      ExampleCatPrompt();
    }
  }

  /** The parts of the `claude` example. */
  lemma ClaudeParts()
    ensures Text.NoWhitespace("claude")
    ensures "claude" + " " + "\"$(cat PROMPT.md)\"" == "claude \"$(cat PROMPT.md)\""
  {
  }

  /** `claude` gets the prompt right after it. */
  lemma RewriteClaudeExample()
    ensures RewriteAgentCommand("claude", ExamplePrompt, ExampleDir) == Some("claude \"$(cat PROMPT.md)\"")
  {
    assert Paths.FileName("claude") == Some("claude") by { Paths.PlainFileName("claude"); }
    ClaudeParts();
    SpacePromptLiteral("claude", "claude \"$(cat PROMPT.md)\"");
  }

  /** The parts of the `codex` example. */
  lemma CodexParts()
    ensures Text.NoWhitespace("codex")
    ensures "codex" + " " + "\"$(cat PROMPT.md)\"" == "codex \"$(cat PROMPT.md)\""
  {
  }

  /** `codex` is treated like claude. */
  lemma RewriteCodexExample()
    ensures RewriteAgentCommand("codex", ExamplePrompt, ExampleDir) == Some("codex \"$(cat PROMPT.md)\"")
  {
    assert Paths.FileName("codex") == Some("codex") by { Paths.PlainFileName("codex"); }
    CodexParts();
    SpacePromptLiteral("codex", "codex \"$(cat PROMPT.md)\"");
  }

  /** The parts of the `gemini` example. */
  lemma GeminiParts()
    ensures Text.NoWhitespace("gemini")
    ensures "gemini" + " -i " + "\"$(cat PROMPT.md)\"" == "gemini -i \"$(cat PROMPT.md)\""
  {
  }

  /** `gemini` also gets `-i` before the prompt. */
  lemma RewriteGeminiExample()
    ensures RewriteAgentCommand("gemini", ExamplePrompt, ExampleDir) == Some("gemini -i \"$(cat PROMPT.md)\"")
  {
    assert Paths.FileName("gemini") == Some("gemini") by { Paths.PlainFileName("gemini"); }
    GeminiParts();
    RewriteWord("gemini", ExamplePrompt, ExampleDir);
    ExamplePromptRelative();
    ExampleCatPrompt();
  }

  /** The parts of the full-path example. */
  lemma PathParts()
    ensures "/usr/local/bin" + "/" + "claude" == "/usr/local/bin/claude"
    ensures Text.NoWhitespace("/usr/local/bin/claude")
    ensures "/usr/local/bin/claude" + " " + "\"$(cat PROMPT.md)\"" == "/usr/local/bin/claude \"$(cat PROMPT.md)\""
  {
  }

  /** An agent named by its full path is still recognised, and the path is kept. */
  lemma RewritePathExample()
    ensures RewriteAgentCommand("/usr/local/bin/claude", ExamplePrompt, ExampleDir)
            == Some("/usr/local/bin/claude \"$(cat PROMPT.md)\"")
  {
    PathParts();
    Paths.ChildFileName("/usr/local/bin", "claude");
    SpacePromptLiteral("/usr/local/bin/claude", "/usr/local/bin/claude \"$(cat PROMPT.md)\"");
  }

  /** `claude --verbose` is already trimmed. */
  lemma ArgsTrimmed()
    ensures Text.Trim("claude --verbose") == "claude --verbose"
  {
    assert Text.LeadingWhitespace("claude --verbose") == 0;
    assert Text.TrailingWhitespace("claude --verbose") == 0;
  }

  /** `claude --verbose` splits into the agent and its one argument. */
  lemma ArgsCommandToken()
    ensures CommandToken("claude --verbose") == Some(("claude", "--verbose"))
  {
    ArgsTrimmed();
    SplitWithArgs();
  }

  /** The parts of the example with arguments. */
  lemma ArgsParts()
    ensures Text.TrimStart("--verbose") == "--verbose"
    ensures "claude" + " " + "\"$(cat PROMPT.md)\"" + (" " + "--verbose") == "claude \"$(cat PROMPT.md)\" --verbose"
  {
    assert Text.LeadingWhitespace("--verbose") == 0;
  }

  /** The command's arguments go after the prompt. */
  lemma RewriteArgsExample()
    ensures RewriteAgentCommand("claude --verbose", ExamplePrompt, ExampleDir)
            == Some("claude \"$(cat PROMPT.md)\" --verbose")
  {
    ArgsCommandToken();
    Paths.PlainFileName("claude");
    ExamplePromptRelative();
    ArgsParts();
    ExampleCatPrompt();
  }

  /** An agent the rewrite does not know is left alone. */
  lemma RewriteUnknownExample()
    ensures RewriteAgentCommand("unknown-agent", ExamplePrompt, ExampleDir) == None
  {
    UnknownParts();
    OneWordCommand("unknown-agent");
    Paths.PlainFileName("unknown-agent");
  }

  /** The parts of the unknown-agent example. */
  lemma UnknownParts()
    ensures Text.NoWhitespace("unknown-agent")
    ensures Paths.ValidName("unknown-agent")
  {
  }

  /** An empty command is left alone. */
  lemma RewriteEmptyExample()
    ensures RewriteAgentCommand("", ExamplePrompt, ExampleDir) == None
  {
    assert Text.Trim("") == [];
  }

  /** `adjust_command`: the rewrite when there is a prompt file and it applies, the command unchanged otherwise. */
  function AdjustCommand(command: string, promptFile: Option<string>, workingDir: string): (r: string)
    ensures promptFile.None? ==> r == command
    ensures promptFile.Some? && RewriteAgentCommand(command, promptFile.value, workingDir).None? ==> r == command
    ensures promptFile.Some? && RewriteAgentCommand(command, promptFile.value, workingDir).Some? ==>
      r == RewriteAgentCommand(command, promptFile.value, workingDir).value
  {
    match promptFile
    case None => command
    case Some(p) => RewriteAgentCommand(command, p, workingDir).GetOr(command)
  }

  // ---------------------------------------------------------------------------
  // Startup command

  const ZshHook: string := "for f in \"${precmd_functions[@]}\"" + "; do \"$f\"; done"
  const BashHook: string := "eval \"${PROMPT_COMMAND:-}\""
  const FishHook: string := "functions -q fish_prompt" + "; and emit fish_prompt"

  /** The hook that runs the shell's pre-prompt functions, by shell name; `true` for other shells. */
  function PreCommandHook(shellName: string): string {
    if shellName == "zsh" then ZshHook
    else if shellName == "bash" then BashHook
    else if shellName == "fish" then FishHook
    else "true"
  }

  /** No hook holds a single quote, so none ends the quoted script early. */
  lemma HookHasNoQuote(shellName: string)
    ensures Shell.Quote !in PreCommandHook(shellName)
  {
    if shellName == "zsh" {
      ZshHookHasNoQuote();
    } else if shellName == "fish" {
      FishHookHasNoQuote();
    }
  }

  lemma ZshHookHasNoQuote()
    ensures Shell.Quote !in ZshHook
  {
    assert Shell.Quote !in "for f in \"${precmd_functions[@]}\"";
    assert Shell.Quote !in "; do \"$f\"; done";
  }

  lemma FishHookHasNoQuote()
    ensures Shell.Quote !in FishHook
  {
    assert Shell.Quote !in "functions -q fish_prompt";
    assert Shell.Quote !in "; and emit fish_prompt";
  }

  /**
   * `build_startup_command`: nothing without a command; otherwise
   * `{shell} -ic '{hook}; {command}; exec {shell} -l'` with the command's
   * quotes escaped, so that the inner shell reads the command back unchanged.
   */
  function BuildStartupCommand(command: Option<string>, shellEnv: Option<string>): (r: Option<string>)
    ensures r.Some? <==> command.Some?
    ensures r.Some? ==>
      var shell := Shell.ShellPath(shellEnv);
      r.value == Shell.StartupCommand(PreCommandHook(Shell.ShellName(shell)), command.value, shell)
    ensures r.Some? && Shell.Quote !in Shell.ShellPath(shellEnv) ==>
      var shell := Shell.ShellPath(shellEnv);
      var script := Shell.InnerScript(PreCommandHook(Shell.ShellName(shell)), command.value, shell);
      r.value == shell + " -ic " + Shell.SingleQuoted(script)
      && Shell.Unquote(Shell.SingleQuoted(script), false) == Some(script)
  {
    match command
    case None => None
    case Some(c) =>
      var shell := Shell.ShellPath(shellEnv);
      var hook := PreCommandHook(Shell.ShellName(shell));
      HookHasNoQuote(Shell.ShellName(shell));
      if Shell.Quote !in shell then
        Shell.StartupCommandQuotesScript(hook, c, shell);
        Some(Shell.StartupCommand(hook, c, shell))
      else
        Some(Shell.StartupCommand(hook, c, shell))
  }

  // ---------------------------------------------------------------------------
  // setup_panes

  datatype SplitDirection = Horizontal | Vertical

  /** One pane of the configured layout. */
  datatype PaneConfig = PaneConfig(command: Option<string>, split: Option<SplitDirection>, target: Option<nat>, focus: bool)

  /** What the panes are set up with: the prompt file, the worktree directory, `$SHELL`. */
  datatype PaneEnv = PaneEnv(promptFile: Option<string>, workingDir: string, shellEnv: Option<string>)

  /** A request to tmux: restart pane 0 with a command, or split a pane (optionally running a command). */
  datatype PaneAction =
    | Respawn(pane: nat, startup: string)
    | Split(target: nat, direction: SplitDirection, command: Option<string>)

  /** Panes created so far, the pane to focus if one asked for it, and the requests sent. */
  datatype PaneLayout = PaneLayout(count: nat, focus: Option<nat>, actions: seq<PaneAction>)

  /** The startup command a pane runs: its adjusted command wrapped for the shell. */
  function StartupFor(p: PaneConfig, env: PaneEnv): Option<string> {
    match p.command
    case None => None
    case Some(c) => BuildStartupCommand(Some(AdjustCommand(c, env.promptFile, env.workingDir)), env.shellEnv)
  }

  /** `StartupFor` as a function of the pane alone. */
  function StartupOf(env: PaneEnv): PaneConfig -> Option<string> {
    p => StartupFor(p, env)
  }

  /** The first pane exists already: it is respawned when it has a command. */
  function FirstPane(p: PaneConfig, startup: PaneConfig -> Option<string>): PaneLayout {
    PaneLayout(1, if p.focus then Some(0) else None,
               match startup(p) case Some(s) => [Respawn(0, s)] case None => [])
  }

  /** A later pane: created by a split when it names a direction, skipped otherwise. */
  function AddPane(st: PaneLayout, p: PaneConfig, startup: PaneConfig -> Option<string>): PaneLayout
    requires st.count >= 1
  {
    if p.split.None? then st
    else
      PaneLayout(st.count + 1, if p.focus then Some(st.count) else st.focus,
                 st.actions + [Split(p.target.GetOr(st.count - 1), p.split.value, startup(p))])
  }

  /** The layout after the given panes, first to last. */
  function Layout(panes: seq<PaneConfig>, startup: PaneConfig -> Option<string>): (r: PaneLayout)
    requires panes != []
    ensures r.count >= 1
  {
    if |panes| == 1 then FirstPane(panes[0], startup)
    else AddPane(Layout(panes[..|panes| - 1], startup), panes[|panes| - 1], startup)
  }

  /** The pane `setup_panes` focuses: the layout's choice, else pane 0. */
  function FocusIndex(panes: seq<PaneConfig>, startup: PaneConfig -> Option<string>): nat {
    if panes == [] then 0 else Layout(panes, startup).focus.GetOr(0)
  }

  /** The layout loop of `setup_panes`, for any choice of startup command per pane. */
  method Arrange(panes: seq<PaneConfig>, startup: PaneConfig -> Option<string>) returns (focus: nat, actions: seq<PaneAction>)
    ensures focus == FocusIndex(panes, startup)
    ensures panes == [] ==> actions == []
    ensures panes != [] ==> actions == Layout(panes, startup).actions
  {
    if panes == [] {
      return 0, [];
    }
    var focusPane: Option<nat> := None;
    actions := [];
    var first := panes[0];
    var command := startup(first);
    if command.Some? {
      actions := [Respawn(0, command.value)];
    }
    if first.focus {
      focusPane := Some(0);
    }
    var count: nat := 1;
    assert PaneLayout(count, focusPane, actions) == FirstPane(first, startup);
    LayoutFirst(panes, startup);
    for i := 1 to |panes|
      invariant PaneLayout(count, focusPane, actions) == Layout(panes[..i], startup)
    {
      var p := panes[i];
      ghost var before := PaneLayout(count, focusPane, actions);
      LayoutStep(panes, i, startup);
      if p.split.Some? {
        var target := p.target.GetOr(count - 1);
        var command := startup(p);
        actions := actions + [Split(target, p.split.value, command)];
        var newPane := count;
        if p.focus {
          focusPane := Some(newPane);
        }
        count := count + 1;
      }
      assert PaneLayout(count, focusPane, actions) == AddPane(before, p, startup);
    }
    assert panes[..|panes|] == panes;
    focus := focusPane.GetOr(0);
    assert focus == Layout(panes, startup).focus.GetOr(0);
  }

  /** `setup_panes`: respawn the first pane, then split for each later pane that names a direction. */
  method SetupPanes(panes: seq<PaneConfig>, env: PaneEnv) returns (focus: nat, actions: seq<PaneAction>)
    ensures focus == FocusIndex(panes, StartupOf(env))
    ensures panes == [] ==> actions == []
    ensures panes != [] ==> actions == Layout(panes, StartupOf(env)).actions
  {
    focus, actions := Arrange(panes, StartupOf(env));
  }

  lemma LayoutFirst(panes: seq<PaneConfig>, startup: PaneConfig -> Option<string>)
    requires panes != []
    ensures Layout(panes[..1], startup) == FirstPane(panes[0], startup)
  {
    assert panes[..1] == [panes[0]];
  }

  /** One more pane applies that pane's step to the layout so far. */
  lemma LayoutStep(panes: seq<PaneConfig>, i: nat, startup: PaneConfig -> Option<string>)
    requires 1 <= i < |panes|
    ensures Layout(panes[..i + 1], startup) == AddPane(Layout(panes[..i], startup), panes[i], startup)
  {
    assert panes[..i + 1][..i] == panes[..i];
  }

  /** How many of the panes name a split direction. */
  function SplitCount(panes: seq<PaneConfig>): nat {
    if panes == [] then 0
    else SplitCount(panes[..|panes| - 1]) + (if panes[|panes| - 1].split.Some? then 1 else 0)
  }

  /** Pane `i` of the configuration gets a tmux pane: the first always, a later one when it splits. */
  predicate Created(panes: seq<PaneConfig>, i: nat)
    requires i < |panes|
  {
    i == 0 || panes[i].split.Some?
  }

  /** The tmux index of configured pane `i`: one more than the panes created before it. */
  function PaneIndex(panes: seq<PaneConfig>, i: nat): nat
    requires i < |panes|
  {
    if i == 0 then 0 else 1 + SplitCount(panes[1..i])
  }

  /** Requests sent for the first pane: one respawn when it has a command. */
  function FirstActions(panes: seq<PaneConfig>, startup: PaneConfig -> Option<string>): nat
    requires panes != []
  {
    if startup(panes[0]).Some? then 1 else 0
  }

  /**
   * Panes without a split direction are skipped: the layout counts one pane
   * plus one per split, and sends one request per split after the optional respawn.
   */
  lemma {:induction false} LayoutCounts(panes: seq<PaneConfig>, startup: PaneConfig -> Option<string>)
    requires panes != []
    ensures Layout(panes, startup).count == 1 + SplitCount(panes[1..])
    ensures |Layout(panes, startup).actions| == FirstActions(panes, startup) + SplitCount(panes[1..])
  {
    if |panes| > 1 {
      var init := panes[..|panes| - 1];
      LayoutCounts(init, startup);
      assert init[1..] == panes[1..][..|panes| - 2];
      assert init[0] == panes[0];
    } else {
      assert panes[1..] == [];
    }
  }

  /** Requests are only ever appended: an earlier layout's requests start the later one's. */
  lemma {:induction false} LayoutExtends(panes: seq<PaneConfig>, k: nat, startup: PaneConfig -> Option<string>)
    requires 1 <= k <= |panes|
    ensures Layout(panes[..k], startup).actions <= Layout(panes, startup).actions
    decreases |panes|
  {
    if k < |panes| {
      var init := panes[..|panes| - 1];
      assert init[..k] == panes[..k];
      LayoutExtends(init, k, startup);
    } else {
      assert panes[..k] == panes;
    }
  }

  /**
   * The request for a created later pane is a split of the pane it names,
   * defaulting to the pane created just before it, and it sits after the
   * requests of every earlier pane.
   */
  lemma SplitRequest(panes: seq<PaneConfig>, i: nat, startup: PaneConfig -> Option<string>)
    requires 1 <= i < |panes| && panes[i].split.Some?
    ensures var a := Layout(panes, startup).actions;
      var at := FirstActions(panes, startup) + SplitCount(panes[1..i]);
      at < |a| && a[at] == Split(panes[i].target.GetOr(PaneIndex(panes, i) - 1), panes[i].split.value, startup(panes[i]))
  {
    var init := panes[..i];
    var upto := panes[..i + 1];
    assert upto[..i] == init;
    assert init[1..] == panes[1..i];
    assert init[0] == panes[0];
    LayoutCounts(init, startup);
    LayoutExtends(panes, i + 1, startup);
  }

  /** The pane to focus, if any, is one that was created. */
  lemma {:induction false} FocusCreated(panes: seq<PaneConfig>, startup: PaneConfig -> Option<string>)
    requires panes != []
    ensures Layout(panes, startup).focus.Some? ==> Layout(panes, startup).focus.value < Layout(panes, startup).count
  {
    if |panes| > 1 {
      FocusCreated(panes[..|panes| - 1], startup);
    }
  }

  /** `setup_panes` always focuses an existing pane. */
  lemma FocusInRange(panes: seq<PaneConfig>, startup: PaneConfig -> Option<string>)
    ensures FocusIndex(panes, startup) < (if panes == [] then 1 else 1 + SplitCount(panes[1..]))
  {
    if panes != [] {
      FocusCreated(panes, startup);
      LayoutCounts(panes, startup);
    }
  }

  /** The layout names no pane to focus exactly when no created pane asks for focus. */
  lemma {:induction false} NoFocus(panes: seq<PaneConfig>, startup: PaneConfig -> Option<string>)
    requires panes != []
    ensures Layout(panes, startup).focus.None? <==>
      forall i :: 0 <= i < |panes| && Created(panes, i) ==> !panes[i].focus
  {
    var n := |panes| - 1;
    if n > 0 {
      var init := panes[..n];
      NoFocus(init, startup);
      assert forall i :: 0 <= i < n ==> init[i] == panes[i];
    }
  }

  /**
   * The focus goes to the last created pane that asks for it, by its tmux
   * index (with none, `setup_panes` focuses pane 0).
   */
  lemma {:induction false} FocusIsLastFocused(panes: seq<PaneConfig>, startup: PaneConfig -> Option<string>)
    requires panes != []
    ensures Layout(panes, startup).focus.Some? ==>
      exists i :: 0 <= i < |panes| && Created(panes, i) && panes[i].focus
        && PaneIndex(panes, i) == Layout(panes, startup).focus.value
        && (forall j :: i < j < |panes| && Created(panes, j) ==> !panes[j].focus)
  {
    var n := |panes| - 1;
    var layout := Layout(panes, startup);
    if n == 0 {
      if layout.focus.Some? {
        assert Created(panes, 0) && panes[0].focus && PaneIndex(panes, 0) == layout.focus.value;
      }
    } else {
      var init := panes[..n];
      var p := panes[n];
      assert layout == AddPane(Layout(init, startup), p, startup);
      if p.split.Some? && p.focus {
        LayoutCounts(init, startup);
        assert panes[1..n] == init[1..];
        assert Created(panes, n) && PaneIndex(panes, n) == layout.focus.value;
      } else {
        assert layout.focus == Layout(init, startup).focus;
        FocusIsLastFocused(init, startup);
        if layout.focus.Some? {
          var i :| 0 <= i < n && Created(init, i) && init[i].focus
            && PaneIndex(init, i) == layout.focus.value
            && (forall j :: i < j < n && Created(init, j) ==> !init[j].focus);
          KeepIndex(panes, n, i);
          forall j | i < j < |panes| && Created(panes, j)
            ensures !panes[j].focus
          {
            if j < n {
              assert init[j] == panes[j];
            }
          }
          assert Created(panes, i) && panes[i].focus && PaneIndex(panes, i) == layout.focus.value;
        }
      }
    }
  }

  lemma KeepIndex(panes: seq<PaneConfig>, n: nat, i: nat)
    requires i < n <= |panes|
    ensures Created(panes[..n], i) == Created(panes, i)
    ensures PaneIndex(panes[..n], i) == PaneIndex(panes, i)
  {
    if i > 0 {
      assert panes[..n][1..i] == panes[1..i];
    }
  }
}
