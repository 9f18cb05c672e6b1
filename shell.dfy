/**
 * The `$SHELL -ic '…'` startup command shared by the tmux and zellij backends
 * (src/tmux.rs `build_startup_command`, src/zellij.rs `build_startup_command`),
 * and the POSIX single-quote escaping it relies on. `Unquote` is the quote
 * removal a POSIX shell performs on one word, so that the escaping can be
 * proved to hand the user's command to the inner shell unchanged.
 */
module Shell {

  import opened Wrappers
  import Paths

  const Quote: char := '\''

  /** `str::replace('\'', "'\\''")`: every single quote closes the quoting, is escaped, and reopens it. */
  function Escape(s: string): (r: string)
    ensures |r| == |s| + 3 * CountQuotes(s)
  {
    if s == [] then ""
    else if s[0] == Quote then "'\\''" + Escape(s[1..])
    else [s[0]] + Escape(s[1..])
  }

  function CountQuotes(s: string): nat {
    if s == [] then 0 else (if s[0] == Quote then 1 else 0) + CountQuotes(s[1..])
  }

  function Prepend(s: string, o: Option<string>): Option<string> {
    match o
    case Some(v) => Some(s + v)
    case None => None
  }

  /**
   * POSIX quote removal of one word: inside single quotes every character is
   * literal up to the closing quote; outside, a backslash makes the next
   * character literal. An unclosed quote or a trailing backslash is an error.
   */
  function Unquote(w: string, quoted: bool): Option<string> {
    if w == [] then (if quoted then None else Some(""))
    else if quoted then
      if w[0] == Quote then Unquote(w[1..], false) else Prepend([w[0]], Unquote(w[1..], true))
    else if w[0] == Quote then Unquote(w[1..], true)
    else if w[0] == '\\' then
      if |w| < 2 then None else Prepend([w[1]], Unquote(w[2..], false))
    else Prepend([w[0]], Unquote(w[1..], false))
  }

  lemma PrependAppend(a: string, b: string, o: Option<string>)
    ensures Prepend(a, Prepend(b, o)) == Prepend(a + b, o)
  {
    if o.Some? {
      assert a + (b + o.value) == (a + b) + o.value;
    }
  }

  /** Inside single quotes, an escaped text reads back as the text itself. */
  lemma {:induction false} EscapeUnquote(s: string, rest: string)
    ensures Unquote(Escape(s) + rest, true) == Prepend(s, Unquote(rest, true))
  {
    if s == [] {
      assert Escape(s) + rest == rest;
      if Unquote(rest, true).Some? {
        assert s + Unquote(rest, true).value == Unquote(rest, true).value;
      }
    } else {
      EscapeUnquote(s[1..], rest);
      EscapeUnquoteStep(s, rest);
    }
  }

  /** One character of escaped text read inside single quotes. */
  lemma EscapeUnquoteStep(s: string, rest: string)
    requires s != []
    requires Unquote(Escape(s[1..]) + rest, true) == Prepend(s[1..], Unquote(rest, true))
    ensures Unquote(Escape(s) + rest, true) == Prepend(s, Unquote(rest, true))
  {
    var tail := Escape(s[1..]) + rest;
    if s[0] == Quote {
      EscapeHeadQuote(s, rest);
      EscapedQuote(tail);
    } else {
      EscapeHeadPlain(s, rest);
      QuotedChar(s[0], tail);
    }
    PrependAppend([s[0]], s[1..], Unquote(rest, true));
    assert [s[0]] + s[1..] == s;
  }

  lemma EscapeHeadQuote(s: string, rest: string)
    requires s != [] && s[0] == Quote
    ensures Escape(s) + rest == "'\\''" + (Escape(s[1..]) + rest)
  {
  }

  lemma EscapeHeadPlain(s: string, rest: string)
    requires s != [] && s[0] != Quote
    ensures Escape(s) + rest == [s[0]] + (Escape(s[1..]) + rest)
  {
  }

  /** `'\''` inside single quotes stands for one quote character. */
  lemma EscapedQuote(tail: string)
    ensures Unquote("'\\''" + tail, true) == Prepend([Quote], Unquote(tail, true))
  {
    var w, w1, w3 := "'\\''" + tail, "\\''" + tail, "'" + tail;
    assert w[0] == Quote && w[1..] == w1;
    assert w1[0] == '\\' && w1[1] == Quote && w1[2..] == w3;
    assert w3[0] == Quote && w3[1..] == tail;
    assert Unquote(w3, false) == Unquote(tail, true);
    assert Unquote(w1, false) == Prepend([Quote], Unquote(w3, false));
    assert Unquote(w, true) == Unquote(w1, false);
  }

  /** Inside single quotes, any other character stands for itself. */
  lemma QuotedChar(c: char, tail: string)
    requires c != Quote
    ensures Unquote([c] + tail, true) == Prepend([c], Unquote(tail, true))
  {
    assert ([c] + tail)[1..] == tail;
  }

  /** Text without single quotes is left as it is. */
  lemma {:induction false} EscapePlain(s: string)
    requires Quote !in s
    ensures Escape(s) == s
  {
    if s != [] {
      EscapePlain(s[1..]);
      assert [s[0]] + s[1..] == s;
    }
  }

  /** Escaping works character by character. */
  lemma {:induction false} EscapeAppend(a: string, b: string)
    ensures Escape(a + b) == Escape(a) + Escape(b)
  {
    if a != [] {
      assert (a + b)[1..] == a[1..] + b;
      EscapeAppend(a[1..], b);
    } else {
      assert a + b == b;
    }
  }

  /** `'` + escaped text + `'`: one shell word. */
  function SingleQuoted(s: string): string {
    "'" + Escape(s) + "'"
  }

  /** A single-quoted word reads back as exactly the text that was quoted. */
  lemma SingleQuotedReadsBack(s: string)
    ensures Unquote(SingleQuoted(s), false) == Some(s)
  {
    var w := SingleQuoted(s);
    assert w[1..] == Escape(s) + "'";
    EscapeUnquote(s, "'");
    assert Unquote("'", true) == Some("");
    assert s + "" == s;
  }

  /** The script the inner shell runs: the hook, the user's command, then a login shell. */
  function InnerScript(hook: string, command: string, shellPath: string): string {
    hook + "; " + command + "; exec " + shellPath + " -l"
  }

  /**
   * `format!("{shell} -ic '{hook}; {escaped}; exec {shell} -l'")`: only the
   * user's command is escaped, the hook and the shell path are inserted as they are.
   */
  function StartupCommand(hook: string, command: string, shellPath: string): string {
    shellPath + " -ic " + "'" + hook + "; " + Escape(command) + "; exec " + shellPath + " -l" + "'"
  }

  /**
   * When neither the hook nor the shell path holds a single quote, the word
   * after `-ic` is the inner script single-quoted: the shell reads back the
   * user's command unchanged, whatever quotes it contains.
   */
  lemma StartupCommandQuotesScript(hook: string, command: string, shellPath: string)
    requires Quote !in hook && Quote !in shellPath
    ensures StartupCommand(hook, command, shellPath)
      == shellPath + " -ic " + SingleQuoted(InnerScript(hook, command, shellPath))
    ensures Unquote(SingleQuoted(InnerScript(hook, command, shellPath)), false)
      == Some(InnerScript(hook, command, shellPath))
  {
    var before, after := hook + "; ", "; exec " + shellPath + " -l";
    assert InnerScript(hook, command, shellPath) == before + command + after;
    EscapeScript(before, command, after);
    Regroup(shellPath + " -ic ", "'", hook, "; ", Escape(command), "; exec " + shellPath + " -l");
    SingleQuotedReadsBack(InnerScript(hook, command, shellPath));
  }

  lemma Regroup(head: string, quote: string, hook: string, sep: string, escaped: string, tail: string)
    ensures head + quote + hook + sep + escaped + tail + quote == head + (quote + ((hook + sep) + escaped + tail) + quote)
  {
  }

  /** Escaping the script escapes only the part that holds quotes. */
  lemma EscapeScript(before: string, command: string, after: string)
    requires Quote !in before && Quote !in after
    ensures Escape(before + command + after) == before + Escape(command) + after
  {
    EscapePlain(before);
    EscapePlain(after);
    EscapeAppend(before, command);
    EscapeAppend(before + command, after);
  }

  lemma PlainJoin(a: string, b: string)
    requires Quote !in a && Quote !in b
    ensures Quote !in a + b
  {
  }

  /** The shell path: `$SHELL`, or `/bin/sh` when it is unset. */
  function ShellPath(shellEnv: Option<string>): string {
    shellEnv.GetOr("/bin/sh")
  }

  /** The shell's name: the last component of its path, or "" when it has none. */
  function ShellName(shellPath: string): string {
    Paths.FileName(shellPath).GetOr("")
  }
}
