/**
 * Unix path semantics of Rust's `std::path::Path` as far as the modelled code
 * uses them: the component view, `file_name`, `file_stem` and `strip_prefix`.
 * Paths are strings; `/` is the only separator.
 */
module Paths {

  import opened Wrappers
  import Text

  datatype Component = RootDir | CurDir | ParentDir | Normal(name: string)

  /** One non-leading piece between separators; empty pieces and `.` vanish. */
  function PieceComponents(piece: string): seq<Component> {
    if piece == "" || piece == "." then []
    else if piece == ".." then [ParentDir]
    else [Normal(piece)]
  }

  function PiecesComponents(pieces: seq<string>): (r: seq<Component>)
    requires forall i :: 0 <= i < |pieces| ==> '/' !in pieces[i]
    ensures forall i :: 0 <= i < |r| ==> r[i].ParentDir? || (r[i].Normal? && ValidName(r[i].name))
  {
    if pieces == [] then []
    else PieceComponents(pieces[0]) + PiecesComponents(pieces[1..])
  }

  /** A name a `Normal` component can carry. */
  predicate ValidName(name: string) {
    name != "" && name != "." && name != ".." && '/' !in name
  }

  /**
   * `Path::components`: a leading `/` is the root, a leading `.` piece of a
   * relative path is the current directory, later `.` pieces and empty pieces
   * are dropped.
   */
  function Components(p: string): (r: seq<Component>)
    ensures forall i :: 0 < i < |r| ==> r[i].ParentDir? || (r[i].Normal? && ValidName(r[i].name))
    ensures r != [] && r[0].Normal? ==> ValidName(r[0].name)
  {
    var pieces := Text.SplitOn(p, '/');
    if p != [] && p[0] == '/' then [RootDir] + PiecesComponents(pieces[1..])
    else if pieces[0] == "." then [CurDir] + PiecesComponents(pieces[1..])
    else PiecesComponents(pieces)
  }

  /** `Path::file_name`: the last component when it is a normal name. */
  function FileName(p: string): (r: Option<string>)
    ensures r.Some? ==> ValidName(r.value)
  {
    var cs := Components(p);
    if cs != [] && cs[|cs| - 1].Normal? then Some(cs[|cs| - 1].name) else None
  }

  /** Index of the last `.` in `s`, if any. */
  function LastDot(s: string): (r: Option<nat>)
    ensures r.Some? ==> r.value < |s| && s[r.value] == '.' && '.' !in s[r.value + 1..]
    ensures r.None? ==> '.' !in s
  {
    if s == [] then None
    else if s[|s| - 1] == '.' then Some(|s| - 1)
    else
      var r := LastDot(s[..|s| - 1]);
      assert r.Some? ==> s[r.value + 1..] == s[..|s| - 1][r.value + 1..] + [s[|s| - 1]];
      assert r.None? ==> s == s[..|s| - 1] + [s[|s| - 1]];
      r
  }

  /**
   * `Path::file_stem` of a file name: the part before the last `.`, or the
   * whole name when it has no `.` other than a leading one.
   */
  function Stem(name: string): string {
    match LastDot(name)
    case None => name
    case Some(k) => if k == 0 then name else name[..k]
  }

  /** `Path::file_stem` */
  function FileStem(p: string): Option<string> {
    match FileName(p)
    case None => None
    case Some(name) => Some(Stem(name))
  }

  /** `Path::strip_prefix`: the components left when `base`'s are a prefix of `p`'s. */
  function StripPrefix(p: string, base: string): (r: Option<seq<Component>>)
    ensures r.Some? <==> Components(base) <= Components(p)
    ensures r.Some? ==> Components(base) + r.value == Components(p)
  {
    var cs, bs := Components(p), Components(base);
    if bs <= cs then Some(cs[|bs|..]) else None
  }

  function ComponentText(c: Component): string {
    match c
    case RootDir => "/"
    case CurDir => "."
    case ParentDir => ".."
    case Normal(name) => name
  }

  /** Component texts joined by single separators (how a stripped path displays). */
  function Render(cs: seq<Component>): string {
    if cs == [] then ""
    else if cs[0] == RootDir then "/" + Text.Join(Texts(cs[1..]), "/")
    else Text.Join(Texts(cs), "/")
  }

  function Texts(cs: seq<Component>): (r: seq<string>)
    ensures |r| == |cs|
    ensures forall i :: 0 <= i < |cs| ==> r[i] == ComponentText(cs[i])
  {
    if cs == [] then [] else [ComponentText(cs[0])] + Texts(cs[1..])
  }

  /**
   * The prompt path as the agent command shows it: relative to the working
   * directory when the file lies under it, the file's own path otherwise.
   */
  function RelativeTo(file: string, workingDir: string): (r: string)
    ensures StripPrefix(file, workingDir).None? ==> r == file
  {
    match StripPrefix(file, workingDir)
    case Some(rest) => Render(rest)
    case None => file
  }

  /** A plain name is a one-component relative path, and its own file name. */
  lemma PlainFileName(name: string)
    requires ValidName(name)
    ensures FileName(name) == Some(name)
  {
    Text.SplitOnPiece(name, '/');
    var pieces := [name];
    assert name[0] != '/';
    assert PiecesComponents(pieces[1..]) == [];
    assert Components(name) == [Normal(name)];
  }

  /** A plain name without a dot is its own file stem. */
  lemma PlainFileStem(name: string)
    requires ValidName(name) && '.' !in name
    ensures FileStem(name) == Some(name)
  {
    PlainFileName(name);
    assert LastDot(name).None?;
  }

  /** The pieces after a separator add their components at the end. */
  lemma {:induction false} PiecesAppend(pieces: seq<string>, last: string)
    requires forall i :: 0 <= i < |pieces| ==> '/' !in pieces[i]
    requires '/' !in last
    ensures PiecesComponents(pieces + [last]) == PiecesComponents(pieces) + PieceComponents(last)
  {
    if pieces == [] {
      assert [last][1..] == [];
    } else {
      assert (pieces + [last])[1..] == pieces[1..] + [last];
      PiecesAppend(pieces[1..], last);
    }
  }

  /** A name appended to a non-empty directory path is one more component. */
  lemma ChildComponents(dir: string, name: string)
    requires dir != [] && ValidName(name)
    ensures Components(dir + "/" + name) == Components(dir) + [Normal(name)]
  {
    var p := dir + "/" + name;
    Text.SplitOnLast(dir, name, '/');
    var ds := Text.SplitOn(dir, '/');
    var ps := Text.SplitOn(p, '/');
    assert ps == ds + [name];
    assert p[0] == dir[0] && ps[0] == ds[0];
    assert ps[1..] == ds[1..] + [name];
    PiecesAppend(ds[1..], name);
    PiecesAppend(ds, name);
  }

  /** A name appended to a path has that name as its file name. */
  lemma ChildFileName(dir: string, name: string)
    requires dir != [] && ValidName(name)
    ensures FileName(dir + "/" + name) == Some(name)
  {
    ChildComponents(dir, name);
  }

  /** A file directly inside the working directory is shown by its bare name. */
  lemma ChildRelative(dir: string, name: string)
    requires dir != [] && ValidName(name)
    ensures RelativeTo(dir + "/" + name, dir) == name
  {
    ChildComponents(dir, name);
    var cs := Components(dir + "/" + name);
    assert cs[|Components(dir)|..] == [Normal(name)];
    assert Render([Normal(name)]) == name;
  }

  /**
   * Read back from inside a non-empty working directory, the relative prompt
   * path names the same file: the directory's components followed by the
   * relative path's are the file's components.
   */
  lemma RelativeToResolves(file: string, workingDir: string)
    requires Components(workingDir) != []
    requires Components(workingDir) <= Components(file)
    requires Components(file) != Components(workingDir)
    ensures Components(workingDir) + Components(RelativeTo(file, workingDir)) == Components(file)
  {
    var cs, bs := Components(file), Components(workingDir);
    var rest := cs[|bs|..];
    assert rest != [];
    forall i | 0 <= i < |rest|
      ensures rest[i].ParentDir? || (rest[i].Normal? && ValidName(rest[i].name))
    {
      assert rest[i] == cs[|bs| + i];
    }
    RenderRelative(rest);
  }

  /** Components read back a rendered list of normal names and parent steps. */
  lemma {:induction false} RenderRelative(cs: seq<Component>)
    requires cs != []
    requires forall i :: 0 <= i < |cs| ==> cs[i].ParentDir? || (cs[i].Normal? && ValidName(cs[i].name))
    ensures Components(Render(cs)) == cs
  {
    var texts := Texts(cs);
    assert cs[0] != RootDir;
    forall i | 0 <= i < |texts| ensures '/' !in texts[i] {
      assert texts[i] == ComponentText(cs[i]);
    }
    Text.SplitOnJoin(texts, '/');
    var s := Text.Join(texts, "/");
    JoinHead(texts, "/");
    assert s != [] && s[0] != '/' by {
      assert texts[0] != [] && texts[0][0] != '/';
    }
    assert Text.SplitOn(s, '/')[0] == texts[0] != ".";
    PiecesOfTexts(cs);
  }

  lemma {:induction false} JoinHead(pieces: seq<string>, sep: string)
    requires pieces != []
    ensures pieces[0] <= Text.Join(pieces, sep)
  {
  }

  lemma {:induction false} PiecesOfTexts(cs: seq<Component>)
    requires forall i :: 0 <= i < |cs| ==> cs[i].ParentDir? || (cs[i].Normal? && ValidName(cs[i].name))
    ensures forall i :: 0 <= i < |cs| ==> '/' !in Texts(cs)[i]
    ensures PiecesComponents(Texts(cs)) == cs
  {
    if cs != [] {
      PiecesOfTexts(cs[1..]);
      assert Texts(cs)[1..] == Texts(cs[1..]);
    }
  }
}
