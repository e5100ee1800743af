/** The part of `std::path` the runner relies on, for Unix paths: turning a
    string into components (`PathBuf::from`), `Path::parent`,
    `Path::ends_with` for a one-component suffix, and `Path::join` of a
    relative name. */
module Paths {
  import opened Wrappers

  const SEPARATOR: char := '/'

  /** A parsed path: whether it starts at the root directory, and its other
      components in order. A component is never empty and never holds the
      separator; `.` appears only as the first component of a relative path
      and `..` is kept as it is. */
  datatype Path = Path(hasRoot: bool, parts: seq<string>)

  /** The pieces of `s` between separators, empty pieces included. */
  function SplitOn(s: string, sep: char): (r: seq<string>)
    ensures |r| >= 1
    ensures forall i :: 0 <= i < |r| ==> sep !in r[i]
  {
    if s == [] then [""]
    else
      var rest := SplitOn(s[1..], sep);
      if s[0] == sep then [""] + rest else [[s[0]] + rest[0]] + rest[1..]
  }

  /** The pieces glued back together with one separator between neighbours. */
  function JoinWith(pieces: seq<string>, sep: char): string
    requires |pieces| >= 1
  {
    if |pieces| == 1 then pieces[0] else pieces[0] + [sep] + JoinWith(pieces[1..], sep)
  }

  lemma JoinWithConsFirst(x: char, pieces: seq<string>, sep: char)
    requires |pieces| >= 1
    ensures JoinWith([[x] + pieces[0]] + pieces[1..], sep) == [x] + JoinWith(pieces, sep)
  {
  }

  /** Splitting loses nothing: gluing the pieces back gives the string. */
  lemma {:induction false} SplitJoin(s: string, sep: char)
    ensures JoinWith(SplitOn(s, sep), sep) == s
  {
    if s != [] {
      var rest := SplitOn(s[1..], sep);
      SplitJoin(s[1..], sep);
      if s[0] == sep {
        assert ([""] + rest)[1..] == rest;
      } else {
        JoinWithConsFirst(s[0], rest, sep);
      }
      assert s == [s[0]] + s[1..];
    }
  }

  /** A separator between two strings splits them apart and nothing else. */
  lemma {:induction false} SplitAppend(a: string, b: string, sep: char)
    ensures SplitOn(a + [sep] + b, sep) == SplitOn(a, sep) + SplitOn(b, sep)
  {
    var s := a + [sep] + b;
    if a == [] {
      assert s[1..] == b;
    } else {
      assert s[1..] == a[1..] + [sep] + b;
      SplitAppend(a[1..], b, sep);
    }
  }

  /** A string without separators is one piece. */
  lemma {:induction false} SplitNoSeparator(s: string, sep: char)
    requires sep !in s
    ensures SplitOn(s, sep) == [s]
  {
    if s != [] {
      SplitNoSeparator(s[1..], sep);
      assert s == [s[0]] + s[1..];
    }
  }

  /** The pieces that are real components: empty pieces (doubled, leading or
      trailing separators) and `.` pieces are dropped. */
  function Normal(pieces: seq<string>): (r: seq<string>)
    ensures forall i :: 0 <= i < |r| ==> r[i] != "" && r[i] != "." && r[i] in pieces
  {
    if pieces == [] then []
    else if pieces[0] == "" || pieces[0] == "." then Normal(pieces[1..])
    else [pieces[0]] + Normal(pieces[1..])
  }

  lemma {:induction false} NormalAppend(p: seq<string>, q: seq<string>)
    ensures Normal(p + q) == Normal(p) + Normal(q)
  {
    if p != [] {
      assert (p + q)[1..] == p[1..] + q;
      NormalAppend(p[1..], q);
    } else {
      assert p + q == q;
    }
  }

  /** `PathBuf::from(s)` seen through `Path::components` on Unix. */
  function Parse(s: string): (p: Path)
    ensures p.hasRoot <==> |s| > 0 && s[0] == SEPARATOR
    ensures forall i :: 0 <= i < |p.parts| ==> p.parts[i] != "" && SEPARATOR !in p.parts[i]
    ensures forall i :: 0 < i < |p.parts| ==> p.parts[i] != "."
  {
    var pieces := SplitOn(s, SEPARATOR);
    var hasRoot := |s| > 0 && s[0] == SEPARATOR;
    if !hasRoot && pieces[0] == "." then Path(false, ["."] + Normal(pieces[1..]))
    else Path(hasRoot, Normal(pieces))
  }

  /** A name that makes exactly one normal component. */
  predicate IsName(name: string) {
    name != "" && name != "." && SEPARATOR !in name
  }

  /** Appending `/name` to a non-empty path appends one component. */
  lemma ParseJoin(dir: string, name: string)
    requires |dir| > 0 && IsName(name)
    ensures Parse(dir + [SEPARATOR] + name) == Path(Parse(dir).hasRoot, Parse(dir).parts + [name])
  {
    var d := SplitOn(dir, SEPARATOR);
    SplitAppend(dir, name, SEPARATOR);
    SplitNoSeparator(name, SEPARATOR);
    assert SplitOn(dir + [SEPARATOR] + name, SEPARATOR) == d + [name];
    assert Normal([name]) == [name];
    if d[0] == "." && dir[0] != SEPARATOR {
      assert (d + [name])[1..] == d[1..] + [name];
      NormalAppend(d[1..], [name]);
    } else {
      NormalAppend(d, [name]);
    }
  }

  /** `Path::parent`: the path without its last component; a path with no
      component besides the root (`/`, or the empty path) has no parent. */
  function Parent(p: Path): (r: Option<Path>)
    ensures r.None? <==> p.parts == []
    ensures r.Some? ==> r.value.hasRoot == p.hasRoot && r.value.parts + [p.parts[|p.parts| - 1]] == p.parts
  {
    if p.parts == [] then None else Some(Path(p.hasRoot, p.parts[..|p.parts| - 1]))
  }

  /** `Path::ends_with(name)` for a one-component `name`. */
  predicate EndsWith(p: Path, name: string): (r: bool)
    ensures r <==> Parent(p).Some? && Parent(p).value.parts + [name] == p.parts
  {
    |p.parts| > 0 && p.parts[|p.parts| - 1] == name
  }

  /** The parent of `dir/name` is `dir`. */
  lemma ParentOfJoin(dir: string, name: string)
    requires |dir| > 0 && IsName(name)
    ensures Parent(Parse(dir + [SEPARATOR] + name)) == Some(Parse(dir))
  {
    ParseJoin(dir, name);
    var p := Parse(dir);
    assert (p.parts + [name])[..|p.parts|] == p.parts;
  }

  /** `Path::join(name)` for a relative `name`: a separator is put in unless
      the base is empty or already ends with one. */
  function Join(base: string, name: string): (r: string)
    ensures |r| >= |base| + |name| && r[..|base|] == base && r[|r| - |name|..] == name
    ensures |r| == |base| + |name| <==> base == [] || base[|base| - 1] == SEPARATOR
    ensures |r| != |base| + |name| ==> |r| == |base| + 1 + |name| && r[|base|] == SEPARATOR
  {
    if base == [] || base[|base| - 1] == SEPARATOR then base + name else base + [SEPARATOR] + name
  }

  /** Joining a name onto a directory adds it as the last component. */
  lemma ParseOfJoin(base: string, name: string)
    requires IsName(name)
    ensures Parse(Join(base, name)) == Path(Parse(base).hasRoot, Parse(base).parts + [name])
  {
    if base == [] {
      SplitNoSeparator(name, SEPARATOR);
      assert Join(base, name) == name;
      assert Normal([name]) == [name];
      assert [""][1..] == [];
      assert Parse(base).parts == Normal([""]) == [];
    } else if base[|base| - 1] != SEPARATOR {
      ParseJoin(base, name);
    } else if |base| == 1 {
      SplitNoSeparator(name, SEPARATOR);
      assert Join(base, name) == [SEPARATOR] + name;
      assert Join(base, name)[1..] == name;
      assert base[1..] == [];
      assert SplitOn(base, SEPARATOR) == ["", ""];
      assert SplitOn(Join(base, name), SEPARATOR) == ["", name];
      assert Normal([name]) == [name];
      assert ["", name][1..] == [name];
      assert Normal([""]) == [];
      assert ["", ""][1..] == [""];
    } else {
      var dir := base[..|base| - 1];
      assert base == dir + [SEPARATOR];
      assert Join(base, name) == dir + [SEPARATOR] + name;
      ParseJoin(dir, name);
      TrailingSeparator(dir);
      assert Parse(base) == Parse(dir);
    }
  }

  /** A trailing separator does not change the components. */
  lemma TrailingSeparator(dir: string)
    requires |dir| > 0
    ensures Parse(dir + [SEPARATOR]) == Parse(dir)
  {
    var d := SplitOn(dir, SEPARATOR);
    SplitAppend(dir, "", SEPARATOR);
    assert dir + [SEPARATOR] + "" == dir + [SEPARATOR];
    assert SplitOn(dir + [SEPARATOR], SEPARATOR) == d + [""];
    if d[0] == "." && dir[0] != SEPARATOR {
      assert (d + [""])[1..] == d[1..] + [""];
      NormalAppend(d[1..], [""]);
    } else {
      NormalAppend(d, [""]);
    }
  }
}
