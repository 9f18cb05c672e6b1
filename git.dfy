/**
 * The git side of the worktree manager (src/git.rs): parsing
 * `git worktree list --porcelain`, looking worktrees up by branch, choosing
 * the default branch and the merge base from query results, reading the
 * unmerged-branch listing, and the argument vectors handed to git.
 *
 * Every git process is outside the model: its outcome is a `Query`, the text
 * it printed on success or its error message on failure.
 */
module Git {

  import opened Wrappers
  import Text

  /** What a git invocation gave back: its standard output, or its error message. */
  type Query = Result<string, string>

  datatype GitError =
    | CommandFailed(message: string)
    | WorktreeNotFound(branch: string)
    | NoMainWorktree
    | NoDefaultBranch

  /**
   * What git answers, during one run of a command, to the queries that only
   * read the repository: `rev-parse --git-dir` as a check, `rev-parse
   * --show-toplevel`, `worktree list --porcelain`, the `origin/HEAD` symbolic
   * ref, whether a branch exists, and `branch --no-merged <base>` per base.
   */
  datatype Repository = Repository(
    isRepo: Result<bool, string>,
    toplevel: Query,
    listing: Query,
    originHead: Query,
    branchExists: string -> Result<bool, string>,
    noMerged: string -> Query)

  /** One entry of the worktree list: where it is checked out and which branch. */
  datatype Worktree = Worktree(path: string, branch: string)

  /** The branch name given to a worktree whose HEAD is detached. */
  const Detached: string := "(detached)"

  const PathTag: string := "worktree "
  const BranchTag: string := "branch refs/heads/"

  // ---------------------------------------------------------------------------
  // Parsing `git worktree list --porcelain`

  /** The path and branch seen so far while reading one block's lines. */
  datatype BlockScan = BlockScan(path: Option<string>, branch: Option<string>)

  /** What one line of a block says. */
  datatype LineKind = PathLine(path: string) | BranchLine(branch: string) | OtherLine

  /**
   * A `worktree ` line gives the path; a `branch refs/heads/` line gives the
   * short branch name; a line that trims to `detached` gives `(detached)`.
   */
  function Classify(line: string): LineKind {
    if PathTag <= line then PathLine(line[|PathTag|..])
    else if BranchTag <= line then BranchLine(line[|BranchTag|..])
    else if Text.Trim(line) == "detached" then BranchLine(Detached)
    else OtherLine
  }

  /** One line's effect: a later path or branch line replaces an earlier one. */
  function ScanLine(st: BlockScan, kind: LineKind): BlockScan {
    match kind
    case PathLine(p) => st.(path := Some(p))
    case BranchLine(b) => st.(branch := Some(b))
    case OtherLine => st
  }

  /** What each line says, in order. */
  function Kinds(lines: seq<string>): (r: seq<LineKind>)
    ensures |r| == |lines|
  {
    if lines == [] then [] else Kinds(lines[..|lines| - 1]) + [Classify(lines[|lines| - 1])]
  }

  /** A block's lines read from first to last. */
  function ScanKinds(kinds: seq<LineKind>): BlockScan {
    if kinds == [] then BlockScan(None, None)
    else ScanLine(ScanKinds(kinds[..|kinds| - 1]), kinds[|kinds| - 1])
  }

  /** The entry a block yields: only a block with both a path and a branch line yields one. */
  function BlockEntry(block: string): Option<Worktree> {
    var st := ScanKinds(Kinds(Text.Lines(block)));
    if st.path.Some? && st.branch.Some? then Some(Worktree(st.path.value, st.branch.value)) else None
  }

  /** The entry each block yields, if any. */
  function BlockEntries(blocks: seq<string>): (r: seq<Option<Worktree>>)
    ensures |r| == |blocks|
  {
    if blocks == [] then [] else BlockEntries(blocks[..|blocks| - 1]) + [BlockEntry(blocks[|blocks| - 1])]
  }

  /** The entries that are present, in order. */
  function Present(entries: seq<Option<Worktree>>): seq<Worktree> {
    if entries == [] then []
    else
      var last := entries[|entries| - 1];
      Present(entries[..|entries| - 1]) + (if last.Some? then [last.value] else [])
  }

  /** The worktree list the porcelain output describes. */
  function ParseWorktreeList(output: string): seq<Worktree> {
    Present(BlockEntries(Text.SplitBlocks(Text.Trim(output))))
  }

  /** The inner loop of `parse_worktree_list_porcelain`: one block's lines, first to last. */
  method ScanBlock(block: string) returns (path: Option<string>, branch: Option<string>)
    ensures BlockScan(path, branch) == ScanKinds(Kinds(Text.Lines(block)))
  {
    path, branch := None, None;
    var lines := Text.Lines(block);
    for j := 0 to |lines|
      invariant BlockScan(path, branch) == ScanKinds(Kinds(lines[..j]))
    {
      var line := lines[j];
      ScanStep(lines, j);
      if PathTag <= line {
        path := Some(line[|PathTag|..]);
      } else if BranchTag <= line {
        branch := Some(line[|BranchTag|..]);
      } else if Text.Trim(line) == "detached" {
        branch := Some(Detached);
      }
    }
    assert lines[..|lines|] == lines;
  }

  /** Reading one more line applies that line's effect. */
  lemma ScanStep(lines: seq<string>, j: nat)
    requires j < |lines|
    ensures ScanKinds(Kinds(lines[..j + 1])) == ScanLine(ScanKinds(Kinds(lines[..j])), Classify(lines[j]))
  {
    assert lines[..j + 1][..j] == lines[..j];
    var kinds := Kinds(lines[..j + 1]);
    assert kinds[..j] == Kinds(lines[..j]);
  }

  /** Reading one more block appends that block's entry, if it has one. */
  lemma PresentStep(blocks: seq<string>, k: nat)
    requires k < |blocks|
    ensures Present(BlockEntries(blocks[..k + 1])) == Present(BlockEntries(blocks[..k]))
      + (if BlockEntry(blocks[k]).Some? then [BlockEntry(blocks[k]).value] else [])
  {
    assert blocks[..k + 1][..k] == blocks[..k];
    var entries := BlockEntries(blocks[..k + 1]);
    assert entries[..k] == BlockEntries(blocks[..k]);
  }

  /** `parse_worktree_list_porcelain`: blocks in order, an entry for each block with both lines. */
  method ParseWorktreeListPorcelain(output: string) returns (worktrees: seq<Worktree>)
    ensures worktrees == ParseWorktreeList(output)
  {
    worktrees := [];
    var blocks := Text.SplitBlocks(Text.Trim(output));
    for k := 0 to |blocks|
      invariant worktrees == Present(BlockEntries(blocks[..k]))
    {
      var path, branch := ScanBlock(blocks[k]);
      PresentStep(blocks, k);
      if path.Some? && branch.Some? {
        worktrees := worktrees + [Worktree(path.value, branch.value)];
      }
    }
    assert blocks[..|blocks|] == blocks;
  }

  /**
   * A block's path is the one its last `worktree ` line gives, and it has one
   * exactly when such a line exists.
   */
  lemma {:induction false} ScanKindsPath(kinds: seq<LineKind>)
    ensures ScanKinds(kinds).path.Some? <==> exists i :: 0 <= i < |kinds| && kinds[i].PathLine?
    ensures ScanKinds(kinds).path.Some? ==>
      exists i :: 0 <= i < |kinds| && kinds[i] == PathLine(ScanKinds(kinds).path.value)
        && (forall j :: i < j < |kinds| ==> !kinds[j].PathLine?)
  {
    if kinds != [] {
      var n := |kinds| - 1;
      var init := kinds[..n];
      ScanKindsPath(init);
      var st := ScanKinds(init);
      assert ScanKinds(kinds) == ScanLine(st, kinds[n]);
      if kinds[n].PathLine? {
        assert kinds[n] == PathLine(ScanKinds(kinds).path.value);
      } else if st.path.Some? {
        var i :| 0 <= i < n && init[i] == PathLine(st.path.value) && (forall j :: i < j < n ==> !init[j].PathLine?);
        assert kinds[i] == init[i];
        forall j | i < j < |kinds|
          ensures !kinds[j].PathLine?
        {
          if j < n {
            assert kinds[j] == init[j];
          }
        }
      } else {
        forall j | 0 <= j < |kinds|
          ensures !kinds[j].PathLine?
        {
          if j < n {
            assert kinds[j] == init[j];
          }
        }
      }
    }
  }

  /**
   * A block's branch is the one its last `branch refs/heads/` or `detached`
   * line gives, and it has one exactly when such a line exists.
   */
  lemma {:induction false} ScanKindsBranch(kinds: seq<LineKind>)
    ensures ScanKinds(kinds).branch.Some? <==> exists i :: 0 <= i < |kinds| && kinds[i].BranchLine?
    ensures ScanKinds(kinds).branch.Some? ==>
      exists i :: 0 <= i < |kinds| && kinds[i] == BranchLine(ScanKinds(kinds).branch.value)
        && (forall j :: i < j < |kinds| ==> !kinds[j].BranchLine?)
  {
    if kinds != [] {
      var n := |kinds| - 1;
      var init := kinds[..n];
      ScanKindsBranch(init);
      var st := ScanKinds(init);
      assert ScanKinds(kinds) == ScanLine(st, kinds[n]);
      if kinds[n].BranchLine? {
        assert kinds[n] == BranchLine(ScanKinds(kinds).branch.value);
      } else if st.branch.Some? {
        var i :| 0 <= i < n && init[i] == BranchLine(st.branch.value) && (forall j :: i < j < n ==> !init[j].BranchLine?);
        assert kinds[i] == init[i];
        forall j | i < j < |kinds|
          ensures !kinds[j].BranchLine?
        {
          if j < n {
            assert kinds[j] == init[j];
          }
        }
      } else {
        forall j | 0 <= j < |kinds|
          ensures !kinds[j].BranchLine?
        {
          if j < n {
            assert kinds[j] == init[j];
          }
        }
      }
    }
  }

  /** The kinds are the lines classified one by one. */
  lemma {:induction false} KindsAt(lines: seq<string>, i: nat)
    requires i < |lines|
    ensures Kinds(lines)[i] == Classify(lines[i])
  {
    if i < |lines| - 1 {
      KindsAt(lines[..|lines| - 1], i);
    }
  }

  /**
   * A block yields an entry exactly when one of its lines is a path line and
   * one is a branch line; the path and the branch come from the last such lines.
   */
  lemma BlockEntryHasBoth(block: string)
    ensures var kinds := Kinds(Text.Lines(block));
      BlockEntry(block).Some? <==>
        (exists i :: 0 <= i < |kinds| && kinds[i].PathLine?)
        && (exists i :: 0 <= i < |kinds| && kinds[i].BranchLine?)
    ensures var kinds := Kinds(Text.Lines(block));
      BlockEntry(block).Some? ==>
        exists i :: (0 <= i < |kinds| && kinds[i] == PathLine(BlockEntry(block).value.path)
                     && forall j :: i < j < |kinds| ==> !kinds[j].PathLine?)
    ensures var kinds := Kinds(Text.Lines(block));
      BlockEntry(block).Some? ==>
        exists i :: (0 <= i < |kinds| && kinds[i] == BranchLine(BlockEntry(block).value.branch)
                     && forall j :: i < j < |kinds| ==> !kinds[j].BranchLine?)
  {
    ScanKindsPath(Kinds(Text.Lines(block)));
    ScanKindsBranch(Kinds(Text.Lines(block)));
  }

  /** The entries of consecutive runs of blocks follow one another: block order is kept. */
  lemma {:induction false} PresentAppend(a: seq<Option<Worktree>>, b: seq<Option<Worktree>>)
    ensures Present(a + b) == Present(a) + Present(b)
    decreases |b|
  {
    if b == [] {
      assert a + b == a;
    } else {
      var b' := b[..|b| - 1];
      assert (a + b)[..|a + b| - 1] == a + b';
      PresentAppend(a, b');
    }
  }

  /** Each block contributes at most one entry, so there are no more entries than blocks. */
  lemma {:induction false} PresentLength(entries: seq<Option<Worktree>>)
    ensures |Present(entries)| <= |entries|
  {
    if entries != [] {
      PresentLength(entries[..|entries| - 1]);
    }
  }

  /** Empty or all-whitespace output lists no worktree. */
  lemma BlankOutputIsEmpty(output: string)
    requires Text.AllWhitespace(output)
    ensures ParseWorktreeList(output) == []
  {
    Text.TrimBlank(output);
    assert Text.Trim(output) == "";
    assert Text.SplitBlocks("") == [""];
    assert BlockEntry("") == None by {
      assert Text.Lines("") == [];
    }
    assert BlockEntries([""]) == [None] by {
      assert [""][..0] == [];
    }
    var none: seq<Option<Worktree>> := [None];
    assert Present(none) == [] by {
      assert none[..0] == [];
    }
  }

  // ---------------------------------------------------------------------------
  // Rendering the porcelain listing, and reading it back

  /**
   * The porcelain block for one worktree: its path line and its branch
   * line. The `HEAD <sha>` line git prints between them is not rendered;
   * `HeadBlock` shows that the block with it yields the same worktree.
   */
  function RenderEntry(e: Worktree): string {
    PathTag + e.path + "\n" + BranchLineOf(e)
  }

  function RenderBlocks(entries: seq<Worktree>): (r: seq<string>)
    ensures |r| == |entries|
    ensures forall i :: 0 <= i < |entries| ==> r[i] == RenderEntry(entries[i])
  {
    if entries == [] then [] else [RenderEntry(entries[0])] + RenderBlocks(entries[1..])
  }

  /** The listing `git worktree list --porcelain` prints for these worktrees, without the `HEAD` lines. */
  function RenderWorktreeList(entries: seq<Worktree>): string {
    Text.Join(RenderBlocks(entries), "\n\n")
  }

  /**
   * An entry git can print unambiguously: no newline in the path or the
   * branch, no carriage return ending the path, and no whitespace ending the
   * branch (git refuses such branch names anyway).
   */
  predicate Printable(e: Worktree) {
    '\n' !in e.path && '\n' !in e.branch
    && (e.path == [] || e.path[|e.path| - 1] != '\r')
    && (e.branch == [] || !Text.IsWhitespace(e.branch[|e.branch| - 1]))
  }

  /** Parsing the printed listing gives back the worktrees, in order. */
  lemma ParseRenderedList(entries: seq<Worktree>)
    requires forall i :: 0 <= i < |entries| ==> Printable(entries[i])
    ensures ParseWorktreeList(RenderWorktreeList(entries)) == entries
  {
    if entries == [] {
      assert RenderWorktreeList(entries) == "";
      BlankOutputIsEmpty("");
    } else {
      var blocks := RenderBlocks(entries);
      forall i | 0 <= i < |blocks|
        ensures Text.NoBlankLine(blocks[i]) && blocks[i] != [] && blocks[i][0] == 'w'
        ensures !Text.IsWhitespace(blocks[i][|blocks[i]| - 1]) && BlockEntry(blocks[i]) == Some(entries[i])
      {
        RenderedBlock(entries[i]);
      }
      Text.SplitBlocksJoin(blocks);
      var s := RenderWorktreeList(entries);
      TrimRendered(blocks);
      var found := BlockEntries(blocks);
      forall i | 0 <= i < |blocks| ensures found[i] == Some(entries[i]) {
        BlockEntriesAt(blocks, i);
      }
      PresentAll(found, entries);
    }
  }

  /** The second line of a rendered block. */
  function BranchLineOf(e: Worktree): string {
    if e.branch == Detached then "detached" else BranchTag + e.branch
  }

  lemma RenderedBlock(e: Worktree)
    requires Printable(e)
    ensures var b := RenderEntry(e);
      Text.NoBlankLine(b) && b != [] && b[0] == 'w' && !Text.IsWhitespace(b[|b| - 1])
      && BlockEntry(b) == Some(e)
  {
    var first, second := PathTag + e.path, BranchLineOf(e);
    RenderedParts(e);
    TwoLines(first, second);
    RenderedLines(e);
  }

  /** A rendered block is its two lines, neither holding a newline nor ending in a carriage return. */
  lemma RenderedParts(e: Worktree)
    requires Printable(e)
    ensures var first, second := PathTag + e.path, BranchLineOf(e);
      RenderEntry(e) == first + "\n" + second
      && '\n' !in first && '\n' !in second && second != []
      && first[|first| - 1] != '\r' && second[|second| - 1] != '\r'
      && RenderEntry(e)[0] == 'w' && !Text.IsWhitespace(second[|second| - 1])
  {
  }

  /** Two lines joined by one newline form a block without blank lines, read back as those lines. */
  lemma TwoLines(first: string, second: string)
    requires '\n' !in first && '\n' !in second && second != []
    requires first == [] || first[|first| - 1] != '\r'
    requires second[|second| - 1] != '\r'
    ensures Text.NoBlankLine(first + "\n" + second)
    ensures Text.Lines(first + "\n" + second) == [first, second]
  {
    var b := first + "\n" + second;
    forall i | 0 <= i < |b| - 1 ensures !(b[i] == '\n' && b[i + 1] == '\n') {
      if i < |first| {
        assert b[i] == first[i];
      } else if i == |first| {
        assert b[i + 1] == second[0];
      } else {
        assert b[i] == second[i - |first| - 1];
      }
    }
    assert Text.Join([first, second], "\n") == b;
    Text.LinesJoin([first, second]);
  }

  /** Reading a rendered block's two lines recovers the entry. */
  lemma RenderedLines(e: Worktree)
    requires Printable(e)
    ensures ScanKinds(Kinds([PathTag + e.path, BranchLineOf(e)])) == BlockScan(Some(e.path), Some(e.branch))
  {
    var first, second := PathTag + e.path, BranchLineOf(e);
    var both: seq<string> := [first, second];
    var one: seq<string> := [first];
    assert both[..1] == one;
    assert one[..0] == [];
    assert first[|PathTag|..] == e.path;
    var kinds: seq<LineKind> := [PathLine(e.path)];
    assert Kinds(one) == kinds;
    assert kinds[..0] == [];
    assert ScanKinds(kinds) == BlockScan(Some(e.path), None);
    assert !(PathTag <= second) by {
      assert second[0] != PathTag[0];
    }
    if e.branch == Detached {
      assert !(BranchTag <= second) by { assert second[0] != BranchTag[0]; }
      assert Text.TrimStart(second) == second;
      assert Text.Trim(second) == "detached";
    } else {
      assert second[|BranchTag|..] == e.branch;
    }
    var both_kinds := Kinds(both);
    assert both_kinds == kinds + [BranchLine(e.branch)];
    assert both_kinds[..1] == kinds;
  }

  const HeadTag: string := "HEAD "

  /** The `HEAD <sha>` line is of no kind the parser reads. */
  lemma HeadLineIgnored(sha: string)
    ensures Classify(HeadTag + sha) == OtherLine
  {
    var line := HeadTag + sha;
    assert !(PathTag <= line) by { assert line[0] != PathTag[0]; }
    assert !(BranchTag <= line) by { assert line[0] != BranchTag[0]; }
    assert Text.TrimStart(line) == line by { assert Text.LeadingWhitespace(line) == 0; }
    assert Text.Trim(line) != "detached" by {
      var t := Text.Trim(line);
      if t != [] { assert t[0] == line[0] == 'H'; }
    }
  }

  /** A line of no kind the parser reads changes nothing a block yields, wherever it stands. */
  lemma {:induction false} IgnoredLine(before: seq<LineKind>, after: seq<LineKind>)
    ensures ScanKinds(before + [OtherLine] + after) == ScanKinds(before + after)
    decreases |after|
  {
    if after == [] {
      assert (before + [OtherLine])[..|before|] == before;
      assert before + [OtherLine] + after == before + [OtherLine];
      assert before + after == before;
    } else {
      var n := |after| - 1;
      IgnoredLine(before, after[..n]);
      assert (before + [OtherLine] + after)[..|before| + 1 + n] == before + [OtherLine] + after[..n];
      assert (before + after)[..|before| + n] == before + after[..n];
    }
  }

  /**
   * The block git prints for a worktree, with its `HEAD <sha>` line between
   * the path line and the branch line, yields that worktree.
   */
  lemma HeadBlock(e: Worktree, sha: string)
    requires Printable(e) && '\n' !in sha && (sha == [] || sha[|sha| - 1] != '\r')
    ensures BlockEntry(PathTag + e.path + "\n" + (HeadTag + sha) + "\n" + BranchLineOf(e)) == Some(e)
  {
    var first, head, second := PathTag + e.path, HeadTag + sha, BranchLineOf(e);
    var block := first + "\n" + head + "\n" + second;
    RenderedParts(e);
    ThreeLines(first, head, second);
    ThreeKinds(first, head, second);
    HeadLineIgnored(sha);
    IgnoredLine([Classify(first)], [Classify(second)]);
    TwoKinds(first, second);
    RenderedLines(e);
    assert ScanKinds(Kinds(Text.Lines(block))) == BlockScan(Some(e.path), Some(e.branch));
  }

  /** The kinds of two lines are the kinds of each. */
  lemma TwoKinds(first: string, second: string)
    ensures Kinds([first, second]) == [Classify(first)] + [Classify(second)]
  {
    assert [first, second][..1] == [first] && [first][..0] == [];
    assert Kinds([first]) == [Classify(first)];
  }

  /** Three lines joined by newlines are read back as those lines. */
  lemma ThreeLines(first: string, head: string, second: string)
    requires '\n' !in first && '\n' !in head && '\n' !in second && second != []
    requires first == [] || first[|first| - 1] != '\r'
    requires head == [] || head[|head| - 1] != '\r'
    requires second[|second| - 1] != '\r'
    ensures Text.Lines(first + "\n" + head + "\n" + second) == [first, head, second]
  {
    var lines := [first, head, second];
    assert lines[1..] == [head, second] && lines[1..][1..] == [second];
    assert Text.Join([second], "\n") == second;
    assert Text.Join([head, second], "\n") == head + "\n" + second;
    assert Text.Join(lines, "\n") == first + "\n" + (head + "\n" + second);
    assert first + "\n" + (head + "\n" + second) == first + "\n" + head + "\n" + second;
    Text.LinesJoin(lines);
  }

  /** The kinds of three lines are the kinds of each. */
  lemma ThreeKinds(first: string, head: string, second: string)
    ensures Kinds([first, head, second]) == [Classify(first)] + [Classify(head)] + [Classify(second)]
  {
    var lines := [first, head, second];
    assert lines[..2] == [first, head];
    assert [first, head][..1] == [first] && [first][..0] == [];
    assert Kinds([first]) == [Classify(first)];
    assert Kinds([first, head]) == [Classify(first)] + [Classify(head)];
    assert Kinds(lines) == Kinds(lines[..2]) + [Classify(second)];
  }

  lemma TrimRendered(blocks: seq<string>)
    requires |blocks| >= 1
    requires forall i :: 0 <= i < |blocks| ==> blocks[i] != [] && blocks[i][0] == 'w'
    requires forall i :: 0 <= i < |blocks| ==> !Text.IsWhitespace(blocks[i][|blocks[i]| - 1])
    ensures Text.Trim(Text.Join(blocks, "\n\n")) == Text.Join(blocks, "\n\n")
  {
    var s := Text.Join(blocks, "\n\n");
    JoinEnds(blocks);
    assert Text.TrimStart(s) == s;
  }

  lemma {:induction false} JoinEnds(blocks: seq<string>)
    requires |blocks| >= 1
    requires forall i :: 0 <= i < |blocks| ==> blocks[i] != []
    ensures var s := Text.Join(blocks, "\n\n");
      s != [] && s[0] == blocks[0][0] && s[|s| - 1] == blocks[|blocks| - 1][|blocks[|blocks| - 1]| - 1]
  {
    if |blocks| > 1 {
      JoinEnds(blocks[1..]);
    }
  }

  /** The entries yielded are the blocks' entries one by one. */
  lemma {:induction false} BlockEntriesAt(blocks: seq<string>, i: nat)
    requires i < |blocks|
    ensures BlockEntries(blocks)[i] == BlockEntry(blocks[i])
  {
    if i < |blocks| - 1 {
      BlockEntriesAt(blocks[..|blocks| - 1], i);
    }
  }

  /** When every block yields an entry, the list is exactly those entries. */
  lemma {:induction false} PresentAll(found: seq<Option<Worktree>>, entries: seq<Worktree>)
    requires |found| == |entries|
    requires forall i :: 0 <= i < |found| ==> found[i] == Some(entries[i])
    ensures Present(found) == entries
  {
    if found != [] {
      var n := |found| - 1;
      PresentAll(found[..n], entries[..n]);
      assert entries[..n] + [entries[n]] == entries;
    }
  }

  // ---------------------------------------------------------------------------
  // Looking worktrees up

  /** The path of the first entry checked out on `branch`. */
  function FindWorktreePath(entries: seq<Worktree>, branch: string): (r: Option<string>)
    ensures r.None? <==> forall i :: 0 <= i < |entries| ==> entries[i].branch != branch
    ensures r.Some? ==>
      exists i :: 0 <= i < |entries| && entries[i] == Worktree(r.value, branch)
        && (forall j :: 0 <= j < i ==> entries[j].branch != branch)
  {
    if entries == [] then None
    else if entries[0].branch == branch then Some(entries[0].path)
    else
      var r := FindWorktreePath(entries[1..], branch);
      assert forall i :: 0 < i < |entries| ==> entries[i] == entries[1..][i - 1];
      r
  }

  /** What `get_worktree_path` answers for a listing query. */
  function WorktreePath(listing: Query, branch: string): Result<string, GitError> {
    match listing
    case Failure(msg) => Failure(CommandFailed(msg))
    case Success(output) =>
      match FindWorktreePath(ParseWorktreeList(output), branch)
      case Some(p) => Success(p)
      case None => Failure(WorktreeNotFound(branch))
  }

  /** `get_worktree_path`: parse the listing, then look for the first entry on `branch`. */
  method GetWorktreePath(listing: Query, branch: string) returns (r: Result<string, GitError>)
    ensures r == WorktreePath(listing, branch)
  {
    if listing.Failure? {
      return Failure(CommandFailed(listing.error));
    }
    var worktrees := ParseWorktreeListPorcelain(listing.value);
    var found := FirstPathOn(worktrees, branch);
    if found.Some? {
      return Success(found.value);
    }
    return Failure(WorktreeNotFound(branch));
  }

  /** The loop of `get_worktree_path`, which returns at the first entry on `branch`. */
  method FirstPathOn(worktrees: seq<Worktree>, branch: string) returns (r: Option<string>)
    ensures r == FindWorktreePath(worktrees, branch)
  {
    for i := 0 to |worktrees|
      invariant forall j :: 0 <= j < i ==> worktrees[j].branch != branch
    {
      if worktrees[i].branch == branch {
        FirstMatch(worktrees, i, branch);
        return Some(worktrees[i].path);
      }
    }
    return None;
  }

  lemma {:induction false} FirstMatch(entries: seq<Worktree>, i: nat, branch: string)
    requires i < |entries| && entries[i].branch == branch
    requires forall j :: 0 <= j < i ==> entries[j].branch != branch
    ensures FindWorktreePath(entries, branch) == Some(entries[i].path)
  {
    if i > 0 {
      FirstMatch(entries[1..], i - 1, branch);
    }
  }

  /**
   * `worktree_exists`: true when the lookup succeeds, false when it finds no
   * worktree, and the listing's own failure otherwise.
   */
  function WorktreeExists(listing: Query, branch: string): (r: Result<bool, GitError>)
    ensures r.Failure? <==> listing.Failure?
    ensures r.Failure? ==> r.error == CommandFailed(listing.error)
    ensures r == Success(true) <==> WorktreePath(listing, branch).Success?
    ensures listing.Success? ==>
      (r == Success(true) <==> exists i :: 0 <= i < |ParseWorktreeList(listing.value)|
                                   && ParseWorktreeList(listing.value)[i].branch == branch)
  {
    match WorktreePath(listing, branch)
    case Success(_) => Success(true)
    case Failure(WorktreeNotFound(_)) => Success(false)
    case Failure(e) => Failure(e)
  }

  /** `get_main_worktree_root`: the first listed worktree is the main one. */
  function MainWorktreeRoot(listing: Query): (r: Result<string, GitError>)
    ensures listing.Failure? ==> r == Failure(CommandFailed(listing.error))
    ensures listing.Success? && ParseWorktreeList(listing.value) == [] ==> r == Failure(NoMainWorktree)
    ensures listing.Success? && ParseWorktreeList(listing.value) != [] ==>
      r == Success(ParseWorktreeList(listing.value)[0].path)
  {
    match listing
    case Failure(msg) => Failure(CommandFailed(msg))
    case Success(output) =>
      var worktrees := ParseWorktreeList(output);
      if worktrees == [] then Failure(NoMainWorktree) else Success(worktrees[0].path)
  }

  /** For a listing git printed, the main worktree root is the first worktree's path. */
  lemma MainRootOfRendered(entries: seq<Worktree>)
    requires forall i :: 0 <= i < |entries| ==> Printable(entries[i])
    ensures MainWorktreeRoot(Success(RenderWorktreeList(entries))) ==
      if entries == [] then Failure(NoMainWorktree) else Success(entries[0].path)
  {
    ParseRenderedList(entries);
  }

  // ---------------------------------------------------------------------------
  // Default branch, merge base and unmerged branches

  const OriginRefs: string := "refs/remotes/origin/"

  /**
   * `get_default_branch`: the branch `origin/HEAD` points to, else `main` if
   * it exists, else `master` if it exists; an existence check that fails
   * propagates its error.
   */
  function DefaultBranch(originHead: Query, branchExists: string -> Result<bool, string>): (r: Result<string, GitError>)
    ensures originHead.Success? && OriginRefs <= originHead.value ==> r == Success(originHead.value[|OriginRefs|..])
    ensures r.Success? ==> (originHead.Success? && OriginRefs + r.value == originHead.value)
                           || r.value == "main" || r.value == "master"
    ensures r == Success("main") && !(originHead.Success? && OriginRefs <= originHead.value) ==>
      branchExists("main") == Success(true)
    ensures r == Success("master") && !(originHead.Success? && OriginRefs <= originHead.value) ==>
      branchExists("main") == Success(false) && branchExists("master") == Success(true)
    ensures r == Failure(NoDefaultBranch) <==>
      !(originHead.Success? && OriginRefs <= originHead.value)
      && branchExists("main") == Success(false) && branchExists("master") == Success(false)
    ensures !(originHead.Success? && OriginRefs <= originHead.value) ==>
      (branchExists("main") == Success(true) ==> r == Success("main"))
      && (branchExists("main").Failure? ==> r == Failure(CommandFailed(branchExists("main").error)))
      && (branchExists("main") == Success(false) && branchExists("master") == Success(true) ==>
            r == Success("master"))
      && (branchExists("main") == Success(false) && branchExists("master").Failure? ==>
            r == Failure(CommandFailed(branchExists("master").error)))
  {
    if originHead.Success? && OriginRefs <= originHead.value then
      Success(originHead.value[|OriginRefs|..])
    else
      match branchExists("main")
      case Failure(msg) => Failure(CommandFailed(msg))
      case Success(true) => Success("main")
      case Success(false) =>
        match branchExists("master")
        case Failure(msg) => Failure(CommandFailed(msg))
        case Success(true) => Success("master")
        case Success(false) => Failure(NoDefaultBranch)
  }

  /** `get_merge_base`: the remote-tracking `origin/<main>` when it exists, else `<main>`. */
  function MergeBase(mainBranch: string, branchExists: string -> Result<bool, string>): (r: Result<string, GitError>)
    ensures r == Success("origin/" + mainBranch) <==> branchExists("origin/" + mainBranch) == Success(true)
    ensures r.Failure? <==> branchExists("origin/" + mainBranch).Failure?
    ensures r.Success? ==> r.value == mainBranch || r.value == "origin/" + mainBranch
  {
    var remoteMain := "origin/" + mainBranch;
    match branchExists(remoteMain)
    case Failure(msg) => Failure(CommandFailed(msg))
    case Success(exists_) =>
      assert mainBranch != remoteMain by { assert |remoteMain| > |mainBranch|; }
      if exists_ then Success(remoteMain) else Success(mainBranch)
  }

  /** Whether git's message says the base branch is missing rather than something worse. */
  predicate MissingBase(message: string) {
    Text.Contains(message, "malformed object name") || Text.Contains(message, "unknown commit")
  }

  /**
   * `get_unmerged_branches`: the branch names git lists one per line; a
   * failure because the base does not exist is read as "no unmerged branch".
   */
  function UnmergedBranches(noMerged: Query): (r: Result<set<string>, GitError>)
    ensures noMerged.Success? ==> r.Success? && forall b :: b in r.value <==> b in Text.Lines(noMerged.value)
    ensures noMerged.Failure? && MissingBase(noMerged.error) ==> r == Success({})
    ensures r.Failure? <==> noMerged.Failure? && !MissingBase(noMerged.error)
  {
    match noMerged
    case Success(stdout) => Success(set b | b in Text.Lines(stdout))
    case Failure(msg) => if MissingBase(msg) then Success({}) else Failure(CommandFailed(msg))
  }

  /** `has_uncommitted_changes`: `git status --porcelain` printed anything at all. */
  predicate HasUncommittedChanges(statusOutput: string) {
    statusOutput != ""
  }

  /** `has_staged_changes` / `has_unstaged_changes`: the quiet diff did not exit cleanly. */
  predicate HasChanges(quietDiffClean: bool) {
    !quietDiffClean
  }

  // ---------------------------------------------------------------------------
  // Argument vectors

  /** `create_worktree`: the arguments after `git`. */
  function WorktreeAddArgs(path: string, branch: string, createBranch: bool): seq<string> {
    if createBranch then ["worktree", "add", "-b", branch, path]
    else ["worktree", "add", path, branch]
  }

  /** `remove_worktree`: the arguments after `git`. */
  function WorktreeRemoveArgs(path: string, force: bool): seq<string> {
    ["worktree", "remove"] + (if force then ["--force"] else []) + [path]
  }

  /** `delete_branch`: `-D` forces deletion of an unmerged branch, `-d` refuses it. */
  function BranchDeleteArgs(branch: string, force: bool): seq<string> {
    ["branch", if force then "-D" else "-d", branch]
  }

  /** `delete_remote_branch`: the arguments after `git`. */
  function PushDeleteArgs(branch: string): seq<string> {
    ["push", "origin", "--delete", branch]
  }

  /** The git commands these vectors ask for. */
  datatype GitCommand =
    | WorktreeAdd(path: string, branch: string, createBranch: bool)
    | WorktreeRemove(path: string, force: bool)
    | BranchDelete(branch: string, force: bool)
    | PushDelete(remote: string, branch: string)

  /** An argument git reads as an option rather than as a value. */
  predicate OptionLike(arg: string) {
    arg != [] && arg[0] == '-'
  }

  /**
   * How git reads an argument vector of these subcommands: options first,
   * then the positional arguments; `None` for anything else.
   */
  function ReadGitCommand(args: seq<string>): Option<GitCommand> {
    if |args| == 5 && args[..3] == ["worktree", "add", "-b"] && !OptionLike(args[4]) then
      Some(WorktreeAdd(args[4], args[3], true))
    else if |args| == 4 && args[..2] == ["worktree", "add"] && !OptionLike(args[2]) && !OptionLike(args[3]) then
      Some(WorktreeAdd(args[2], args[3], false))
    else if |args| == 4 && args[..3] == ["worktree", "remove", "--force"] && !OptionLike(args[3]) then
      Some(WorktreeRemove(args[3], true))
    else if |args| == 3 && args[..2] == ["worktree", "remove"] && !OptionLike(args[2]) then
      Some(WorktreeRemove(args[2], false))
    else if |args| == 3 && args[0] == "branch" && args[1] in {"-d", "-D"} && !OptionLike(args[2]) then
      Some(BranchDelete(args[2], args[1] == "-D"))
    else if |args| == 4 && args[..3] == ["push", "origin", "--delete"] && !OptionLike(args[3]) then
      Some(PushDelete("origin", args[3]))
    else None
  }

  /**
   * Git reads each vector back as the command it was built for, as long as
   * no path or branch looks like an option (git refuses branch names that
   * start with `-`).
   */
  lemma ArgsReadBack(path: string, branch: string, flag: bool)
    requires !OptionLike(path) && !OptionLike(branch)
    ensures ReadGitCommand(WorktreeAddArgs(path, branch, flag)) == Some(WorktreeAdd(path, branch, flag))
    ensures ReadGitCommand(WorktreeRemoveArgs(path, flag)) == Some(WorktreeRemove(path, flag))
    ensures ReadGitCommand(BranchDeleteArgs(branch, flag)) == Some(BranchDelete(branch, flag))
    ensures ReadGitCommand(PushDeleteArgs(branch)) == Some(PushDelete("origin", branch))
  {
    var add := WorktreeAddArgs(path, branch, flag);
    if flag {
      assert add[..3] == ["worktree", "add", "-b"];
    } else {
      assert add[..2] == ["worktree", "add"];
      assert add[..3] != ["worktree", "add", "-b"] by { assert add[2] == path; }
    }
    var rm := WorktreeRemoveArgs(path, flag);
    if flag {
      assert rm[..3] == ["worktree", "remove", "--force"];
    } else {
      assert rm == ["worktree", "remove", path];
      assert rm[..2] == ["worktree", "remove"];
    }
    var del := BranchDeleteArgs(branch, flag);
    assert del[1] in {"-d", "-D"};
    assert (del[1] == "-D") == flag by { assert "-d"[1] != "-D"[1]; }
    var push := PushDeleteArgs(branch);
    assert push[..3] == ["push", "origin", "--delete"];
  }
}
