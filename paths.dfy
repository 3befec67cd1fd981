/** The part of POSIX `pathlib` the download code relies on: a directory value,
    its `str()` form, and the `/` operator that appends a file name to it. */
module Paths {
  import opened Strings

  /** A path component as `pathlib` stores it: non-empty, not `.`, no `/`. */
  predicate IsSegment(s: string)
  {
    s != "" && s != "." && '/' !in s
  }

  /** A pure POSIX path: rooted or relative, and its components. */
  datatype Path = Path(absolute: bool, parts: seq<string>)

  /** The shape every path built by `pathlib` has. */
  predicate Valid(p: Path)
  {
    forall i :: 0 <= i < |p.parts| ==> IsSegment(p.parts[i])
  }

  /** `pathlib` drops empty and `.` components when it parses a string. */
  function KeepSegments(xs: seq<string>): (ys: seq<string>)
    ensures |ys| <= |xs|
    ensures forall i :: 0 <= i < |ys| ==> IsSegment(ys[i])
    decreases |xs|
  {
    if xs == [] then []
    else if IsSegment(xs[0]) then [xs[0]] + KeepSegments(xs[1..])
    else KeepSegments(xs[1..])
  }

  /** Filtering a list of proper components leaves it unchanged. */
  lemma {:induction false} KeepAllSegments(xs: seq<string>)
    requires forall i :: 0 <= i < |xs| ==> IsSegment(xs[i])
    ensures KeepSegments(xs) == xs
    decreases |xs|
  {
    if xs != [] {
      KeepAllSegments(xs[1..]);
    }
  }

  /** `PurePosixPath(s)`. */
  function Parse(s: string): (p: Path)
    ensures Valid(p)
  {
    Path(|s| > 0 && s[0] == '/', KeepSegments(Split(s)))
  }

  /** `str(p)`: for a well-formed path, non-empty and starting with `/`
      exactly when the path is rooted. */
  function Str(p: Path): (text: string)
    ensures Valid(p) ==> |text| > 0 && (text[0] == '/' <==> p.absolute)
  {
    if p.absolute then "/" + JoinSep(p.parts)
    else if p.parts == [] then "."
    else JoinSep(p.parts)
  }

  /** `dir / name`: a rooted name replaces the directory, otherwise its
      components are appended to the directory's. */
  function Join(dir: Path, name: string): (p: Path)
    ensures Valid(dir) ==> Valid(p)
    ensures |name| > 0 && name[0] == '/' ==> p == Parse(name)
    ensures !(|name| > 0 && name[0] == '/') ==>
      && p.absolute == dir.absolute
      && |dir.parts| <= |p.parts| && p.parts[..|dir.parts|] == dir.parts
  {
    if |name| > 0 && name[0] == '/' then Parse(name)
    else Path(dir.absolute, dir.parts + KeepSegments(Split(name)))
  }

  /** Printing a path and parsing the text back gives the same path, so the
      text handed to another program names exactly this directory. */
  lemma ParseStr(p: Path)
    requires Valid(p)
    ensures Parse(Str(p)) == p
  {
    var text := JoinSep(p.parts);
    KeepAllSegments(p.parts);
    if p.parts == [] {
      assert text == "";
      SplitPlain("");
    } else {
      SplitJoin(p.parts);
      assert text[0] == p.parts[0][0];
    }
    assert KeepSegments(Split(text)) == p.parts;
    if p.absolute {
      SplitAtFirst("", text);
      assert "" + "/" + text == Str(p);
      assert ([""] + Split(text))[1..] == Split(text);
    } else if p.parts == [] {
      SplitPlain(".");
    }
  }

  /** Appending a plain file name adds exactly that one component. */
  lemma JoinSegment(dir: Path, name: string)
    requires IsSegment(name)
    ensures Join(dir, name) == Path(dir.absolute, dir.parts + [name])
  {
    SplitPlain(name);
    KeepAllSegments([name]);
  }

  /** Appending `""` or `"."` leaves the directory unchanged. */
  lemma JoinNothing(dir: Path, name: string)
    requires name == "" || name == "."
    ensures Join(dir, name) == dir
  {
    SplitPlain(name);
    assert dir.parts + [] == dir.parts;
  }
}
