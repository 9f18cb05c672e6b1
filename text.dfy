/**
 * The parts of Rust's `str` API that the modelled code relies on: whitespace
 * trimming, `split` on a separator, `lines()`, `strip_prefix` and substring
 * search. Strings are sequences of Unicode scalar values, as in Rust.
 */
module Text {

  import opened Wrappers

  /** `char::is_whitespace`: the Unicode White_Space property. */
  predicate IsWhitespace(c: char) {
    ('\U{9}' <= c <= '\U{D}') || c == ' ' || c == '\U{85}' || c == '\U{A0}'
    || c == '\U{1680}' || ('\U{2000}' <= c <= '\U{200A}') || c == '\U{2028}'
    || c == '\U{2029}' || c == '\U{202F}' || c == '\U{205F}' || c == '\U{3000}'
  }

  predicate AllWhitespace(s: string) {
    forall i :: 0 <= i < |s| ==> IsWhitespace(s[i])
  }

  predicate NoWhitespace(s: string) {
    forall i :: 0 <= i < |s| ==> !IsWhitespace(s[i])
  }

  /** The length of the longest all-whitespace prefix of `s`. */
  function LeadingWhitespace(s: string): (n: nat)
    ensures n <= |s| && AllWhitespace(s[..n])
    ensures n < |s| ==> !IsWhitespace(s[n])
  {
    if s == [] || !IsWhitespace(s[0]) then 0
    else
      var n := LeadingWhitespace(s[1..]);
      assert s[..n + 1] == [s[0]] + s[1..][..n];
      n + 1
  }

  /** The length of the longest all-whitespace suffix of `s`. */
  function TrailingWhitespace(s: string): (n: nat)
    ensures n <= |s| && AllWhitespace(s[|s| - n..])
    ensures n < |s| ==> !IsWhitespace(s[|s| - n - 1])
  {
    if s == [] || !IsWhitespace(s[|s| - 1]) then 0
    else
      var t := s[..|s| - 1];
      var n := TrailingWhitespace(t);
      assert s[|s| - n - 1..] == t[|t| - n..] + [s[|s| - 1]];
      n + 1
  }

  /** `str::trim_start`: drops the longest all-whitespace prefix. */
  function TrimStart(s: string): (r: string)
    ensures |r| <= |s| && r == s[|s| - |r|..]
    ensures AllWhitespace(s[..|s| - |r|])
    ensures r != [] ==> !IsWhitespace(r[0])
  {
    s[LeadingWhitespace(s)..]
  }

  /** `str::trim_end`: drops the longest all-whitespace suffix. */
  function TrimEnd(s: string): (r: string)
    ensures |r| <= |s| && r == s[..|r|]
    ensures AllWhitespace(s[|r|..])
    ensures r != [] ==> !IsWhitespace(r[|r| - 1])
  {
    s[..|s| - TrailingWhitespace(s)]
  }

  /** `str::trim` */
  function Trim(s: string): string {
    TrimEnd(TrimStart(s))
  }

  /** Trimming text made only of whitespace leaves nothing. */
  lemma TrimBlank(s: string)
    requires AllWhitespace(s)
    ensures Trim(s) == []
  {
  }

  /** `str::strip_prefix` */
  function StripPrefix(s: string, prefix: string): Option<string> {
    if prefix <= s then Some(s[|prefix|..]) else None
  }

  /** `str::contains` with a string pattern. */
  predicate Contains(s: string, pattern: string) {
    exists i :: 0 <= i <= |s| - |pattern| && pattern <= s[i..]
  }

  /** The pieces joined again with `sep` between consecutive pieces. */
  function Join(pieces: seq<string>, sep: string): string {
    if pieces == [] then ""
    else if |pieces| == 1 then pieces[0]
    else pieces[0] + sep + Join(pieces[1..], sep)
  }

  /** `str::split` with a single-character pattern. */
  function SplitOn(s: string, c: char): (r: seq<string>)
    ensures |r| >= 1
    ensures forall i :: 0 <= i < |r| ==> c !in r[i]
    ensures Join(r, [c]) == s
  {
    if s == [] then [""]
    else if s[0] == c then [""] + SplitOn(s[1..], c)
    else
      var rest := SplitOn(s[1..], c);
      [[s[0]] + rest[0]] + rest[1..]
  }

  /** Splitting undoes joining when no piece contains the separator. */
  lemma {:induction false} SplitOnJoin(pieces: seq<string>, c: char)
    requires |pieces| >= 1
    requires forall i :: 0 <= i < |pieces| ==> c !in pieces[i]
    ensures SplitOn(Join(pieces, [c]), c) == pieces
  {
    if |pieces| == 1 {
      SplitOnPiece(pieces[0], c);
    } else {
      SplitOnJoin(pieces[1..], c);
      SplitOnPrefix(pieces[0], Join(pieces[1..], [c]), c);
    }
  }

  lemma {:induction false} SplitOnPiece(s: string, c: char)
    requires c !in s
    ensures SplitOn(s, c) == [s]
  {
    if s != [] {
      SplitOnPiece(s[1..], c);
      assert [s[0]] + s[1..] == s;
    }
  }

  lemma {:induction false} SplitOnPrefix(p: string, t: string, c: char)
    requires c !in p
    ensures SplitOn(p + [c] + t, c) == [p] + SplitOn(t, c)
  {
    if p == [] {
      assert ([c] + t)[1..] == t;
    } else {
      var s := p + [c] + t;
      assert s[0] == p[0] && s[1..] == p[1..] + [c] + t;
      SplitOnPrefix(p[1..], t, c);
      var rest := SplitOn(s[1..], c);
      assert rest[0] == p[1..] && rest[1..] == SplitOn(t, c);
      assert [s[0]] + rest[0] == p;
    }
  }

  /** A separator followed by text without separators adds that text as the last piece. */
  lemma {:induction false} SplitOnLast(p: string, t: string, c: char)
    requires c !in t
    ensures SplitOn(p + [c] + t, c) == SplitOn(p, c) + [t]
  {
    if p == [] {
      assert ([c] + t)[1..] == t;
      SplitOnPiece(t, c);
    } else {
      var s := p + [c] + t;
      assert s[0] == p[0] && s[1..] == p[1..] + [c] + t;
      SplitOnLast(p[1..], t, c);
    }
  }

  /** True when `s` holds no two consecutive newlines. */
  predicate NoBlankLine(s: string) {
    forall i :: 0 <= i < |s| - 1 ==> !(s[i] == '\n' && s[i + 1] == '\n')
  }

  /**
   * `str::split("\n\n")`: the pieces between non-overlapping occurrences of
   * the separator, found from left to right.
   */
  function SplitBlocks(s: string): (r: seq<string>)
    ensures |r| >= 1
    ensures Join(r, "\n\n") == s
    decreases |s|
  {
    if |s| < 2 then [s]
    else if s[0] == '\n' && s[1] == '\n' then
      assert s == "\n\n" + s[2..];
      [""] + SplitBlocks(s[2..])
    else
      var rest := SplitBlocks(s[1..]);
      [[s[0]] + rest[0]] + rest[1..]
  }

  /**
   * Splitting on blank lines undoes joining blocks that contain no blank
   * line and do not end with a newline.
   */
  lemma {:induction false} SplitBlocksJoin(blocks: seq<string>)
    requires |blocks| >= 1
    requires forall i :: 0 <= i < |blocks| ==> NoBlankLine(blocks[i])
    requires forall i :: 0 <= i < |blocks| - 1 ==> blocks[i] == [] || blocks[i][|blocks[i]| - 1] != '\n'
    ensures SplitBlocks(Join(blocks, "\n\n")) == blocks
  {
    if |blocks| == 1 {
      SplitBlocksSingle(blocks[0]);
    } else {
      SplitBlocksJoin(blocks[1..]);
      SplitBlocksPrefix(blocks[0], Join(blocks[1..], "\n\n"));
    }
  }

  lemma {:induction false} SplitBlocksSingle(s: string)
    requires NoBlankLine(s)
    ensures SplitBlocks(s) == [s]
    decreases |s|
  {
    if |s| >= 2 {
      SplitBlocksSingle(s[1..]);
      assert [s[0]] + s[1..] == s;
    }
  }

  lemma {:induction false} SplitBlocksPrefix(p: string, t: string)
    requires NoBlankLine(p)
    requires p == [] || p[|p| - 1] != '\n'
    ensures SplitBlocks(p + "\n\n" + t) == [p] + SplitBlocks(t)
    decreases |p|
  {
    var s := p + "\n\n" + t;
    if p == [] {
      assert s[2..] == t;
    } else {
      assert s[1..] == p[1..] + "\n\n" + t;
      assert !(s[0] == '\n' && s[1] == '\n');
      SplitBlocksPrefix(p[1..], t);
      assert [p[0]] + p[1..] == p;
    }
  }

  /** Drops one trailing carriage return. */
  function StripCr(s: string): string {
    if s != [] && s[|s| - 1] == '\r' then s[..|s| - 1] else s
  }

  /**
   * `str::lines`: pieces ended by `\n` (a `\r` right before the `\n` is
   * dropped as well); the last line needs no terminator and an empty last
   * piece is no line.
   */
  function Lines(s: string): (r: seq<string>)
    ensures forall i :: 0 <= i < |r| ==> '\n' !in r[i]
  {
    var pieces := SplitOn(s, '\n');
    var ended := Ended(pieces[..|pieces| - 1]);
    var last := pieces[|pieces| - 1];
    if last == "" then ended else ended + [last]
  }

  /** The pieces that a newline ended, each without its trailing carriage return. */
  function Ended(pieces: seq<string>): (r: seq<string>)
    ensures |r| == |pieces|
    ensures forall i :: 0 <= i < |r| ==> r[i] == StripCr(pieces[i])
  {
    seq(|pieces|, i requires 0 <= i < |pieces| => StripCr(pieces[i]))
  }

  /** Pieces that end in no carriage return are kept whole. */
  lemma EndedKeeps(pieces: seq<string>)
    requires forall i :: 0 <= i < |pieces| ==> pieces[i] == [] || pieces[i][|pieces[i]| - 1] != '\r'
    ensures Ended(pieces) == pieces
  {
  }

  /** Lines joined by single newlines are read back as those lines. */
  lemma LinesJoin(lines: seq<string>)
    requires forall i :: 0 <= i < |lines| ==> '\n' !in lines[i] && (lines[i] == [] || lines[i][|lines[i]| - 1] != '\r')
    requires lines == [] || lines[|lines| - 1] != []
    ensures Lines(Join(lines, "\n")) == lines
  {
    if lines == [] {
      assert SplitOn("", '\n') == [""];
    } else {
      assert "\n" == ['\n'];
      SplitOnJoin(lines, '\n');
      LinesOfPieces(Join(lines, "\n"), lines);
    }
  }

  /** The lines of a text whose newline-separated pieces are known and end in a non-empty piece without `\r`s. */
  lemma LinesOfPieces(s: string, pieces: seq<string>)
    requires SplitOn(s, '\n') == pieces
    requires pieces[|pieces| - 1] != []
    requires forall i :: 0 <= i < |pieces| ==> pieces[i] == [] || pieces[i][|pieces[i]| - 1] != '\r'
    ensures Lines(s) == pieces
  {
    var n := |pieces| - 1;
    var front := pieces[..n];
    forall i | 0 <= i < |front|
      ensures front[i] == [] || front[i][|front[i]| - 1] != '\r'
    {
      assert front[i] == pieces[i];
    }
    EndedKeeps(front);
    assert front + [pieces[n]] == pieces;
  }

  /** Joining one more piece adds the separator and the piece. */
  lemma {:induction false} JoinSnoc(pieces: seq<string>, last: string, sep: string)
    requires pieces != []
    ensures Join(pieces + [last], sep) == Join(pieces, sep) + sep + last
  {
    if |pieces| > 1 {
      assert (pieces + [last])[1..] == pieces[1..] + [last];
      JoinSnoc(pieces[1..], last, sep);
    } else {
      assert pieces + [last] == [pieces[0], last];
    }
  }

  /** Lines each ended by a newline (as `print` writes them) are read back as those lines. */
  lemma LinesTerminated(lines: seq<string>)
    requires lines != []
    requires forall i :: 0 <= i < |lines| ==> '\n' !in lines[i] && (lines[i] == [] || lines[i][|lines[i]| - 1] != '\r')
    ensures Lines(Join(lines, "\n") + "\n") == lines
  {
    var all := lines + [""];
    JoinSnoc(lines, "", "\n");
    assert Join(lines, "\n") + "\n" + "" == Join(lines, "\n") + "\n";
    assert forall i :: 0 <= i < |all| ==> '\n' !in all[i];
    SplitOnJoin(all, '\n');
    assert all[..|lines|] == lines;
    EndedKeeps(lines);
  }
}
