/** Path strings as the scanner sees them: `format_path`, `PathBuf::join`
    and the file-name / extension logic of `std::path::Path`. */
module Paths {
  import opened Outcomes

  /** The compilation target: `format_path` is chosen by `cfg(target_os)`. */
  datatype Target = Windows | Other

  /** On Windows both `\` and `/` separate components; elsewhere only `/`. */
  predicate IsSeparator(target: Target, c: char)
  {
    c == '/' || (target == Windows && c == '\\')
  }

  /** The separator `PathBuf::push` inserts. */
  function MainSeparator(target: Target): (c: char)
    ensures IsSeparator(target, c)
  {
    if target == Windows then '\\' else '/'
  }

  /** Every occurrence of `from` in `s` becomes `to` (`str::replace` on one character). */
  function Replace(s: string, from: char, to: char): (r: string)
    ensures |r| == |s|
    ensures forall i :: 0 <= i < |s| ==> r[i] == (if s[i] == from then to else s[i])
  {
    if s == [] then [] else [if s[0] == from then to else s[0]] + Replace(s[1..], from, to)
  }

  /** `format_path`: on Windows every backslash becomes a forward slash,
      on every other target the displayed path is returned as it is. */
  function FormatPath(target: Target, p: string): (r: string)
    ensures |r| == |p|
    ensures target == Windows ==> '\\' !in r
    ensures target == Windows ==> forall i :: 0 <= i < |p| && p[i] == '\\' ==> r[i] == '/'
    ensures target == Other ==> r == p
    ensures forall i :: 0 <= i < |p| && p[i] != '\\' ==> r[i] == p[i]
  {
    if target == Windows then Replace(p, '\\', '/') else p
  }

  lemma FormatPathIdempotent(target: Target, p: string)
    ensures FormatPath(target, FormatPath(target, p)) == FormatPath(target, p)
  {
    var q := FormatPath(target, p);
    assert forall i :: 0 <= i < |q| ==> FormatPath(target, q)[i] == q[i];
  }

  /** `dir.join(name)` for a relative single-component `name`: a separator
      is inserted unless `dir` is empty or already ends with one. */
  function Join(target: Target, dir: string, name: string): (r: string)
  {
    if dir == [] then name
    else if IsSeparator(target, dir[|dir| - 1]) then dir + name
    else dir + [MainSeparator(target)] + name
  }

  /** `dir.join(name)` starts with `dir` and ends with `name`; a separator
      comes between them unless `dir` is empty or already ends with one. */
  lemma JoinShape(target: Target, dir: string, name: string)
    ensures var r := Join(target, dir, name);
      dir <= r && |r| >= |dir| + |name| && r[|r| - |name|..] == name
    ensures dir != [] && !IsSeparator(target, dir[|dir| - 1]) ==>
      |Join(target, dir, name)| == |dir| + 1 + |name| && IsSeparator(target, Join(target, dir, name)[|dir|])
    ensures dir == [] || IsSeparator(target, dir[|dir| - 1]) ==> Join(target, dir, name) == dir + name
  {
  }

  /** The pieces of `s` between separators, empty pieces included. */
  function Split(target: Target, s: string): (r: seq<string>)
    ensures |r| >= 1
    ensures forall k, j :: 0 <= k < |r| && 0 <= j < |r[k]| ==> !IsSeparator(target, r[k][j])
  {
    if s == [] then [[]]
    else
      var rest := Split(target, s[1..]);
      if IsSeparator(target, s[0]) then [[]] + rest
      else [[s[0]] + rest[0]] + rest[1..]
  }

  lemma SplitPlain(target: Target, s: string)
    requires forall j :: 0 <= j < |s| ==> !IsSeparator(target, s[j])
    ensures Split(target, s) == [s]
  {
    if s != [] {
      SplitPlain(target, s[1..]);
      assert [s[0]] + s[1..] == s;
    }
  }

  /** The pieces that are names: `Path::components` drops empty pieces
      (repeated or trailing separators) and `.` pieces. */
  function NamePieces(pieces: seq<string>): (r: seq<string>)
    ensures forall k :: 0 <= k < |r| ==> r[k] in pieces && r[k] != [] && r[k] != "."
  {
    if pieces == [] then []
    else
      var rest := NamePieces(pieces[1..]);
      if pieces[0] == [] || pieces[0] == "." then rest else [pieces[0]] + rest
  }

  /** `Path::file_name`: the last component, or none when there is none or
      when it is `..`. */
  function FileName(target: Target, p: string): (r: Option<string>)
    ensures r.Some? ==> r.value != [] && r.value != "." && r.value != ".."
    ensures r.Some? ==> forall j :: 0 <= j < |r.value| ==> !IsSeparator(target, r.value[j])
  {
    var names := NamePieces(Split(target, p));
    if names == [] || names[|names| - 1] == ".." then None else Some(names[|names| - 1])
  }

  /** A path that is a single plain name is its own file name. */
  lemma FileNameOfName(target: Target, s: string)
    requires s != [] && s != "." && s != ".."
    requires forall j :: 0 <= j < |s| ==> !IsSeparator(target, s[j])
    ensures FileName(target, s) == Some(s)
  {
    SplitPlain(target, s);
    assert NamePieces([s]) == [s];
  }

  /** Splitting after a separator starts a new last piece. */
  lemma {:induction false} SplitSnoc(target: Target, s: string, c: char, n: string)
    requires IsSeparator(target, c)
    requires forall j :: 0 <= j < |n| ==> !IsSeparator(target, n[j])
    ensures Split(target, s + [c] + n) == Split(target, s) + [n]
  {
    if s == [] {
      assert s + [c] + n == [c] + n;
      assert ([c] + n)[1..] == n;
      SplitPlain(target, n);
    } else {
      assert (s + [c] + n)[0] == s[0];
      assert (s + [c] + n)[1..] == s[1..] + [c] + n;
      SplitSnoc(target, s[1..], c, n);
    }
  }

  lemma {:induction false} NamePiecesSnoc(pieces: seq<string>, n: string)
    requires n != [] && n != "."
    ensures NamePieces(pieces + [n]) == NamePieces(pieces) + [n]
  {
    if pieces == [] {
      assert [] + [n] == [n];
    } else {
      assert (pieces + [n])[0] == pieces[0];
      assert (pieces + [n])[1..] == pieces[1..] + [n];
      NamePiecesSnoc(pieces[1..], n);
    }
  }

  /** The file name of `dir.join(name)` is `name`: `entry.path().file_name()`
      is the entry's own name. */
  lemma FileNameOfJoin(target: Target, dir: string, name: string)
    requires name != [] && name != "." && name != ".."
    requires forall j :: 0 <= j < |name| ==> !IsSeparator(target, name[j])
    ensures FileName(target, Join(target, dir, name)) == Some(name)
  {
    if dir == [] {
      FileNameOfName(target, name);
    } else {
      var s, c := if IsSeparator(target, dir[|dir| - 1]) then dir[..|dir| - 1] else dir,
                  if IsSeparator(target, dir[|dir| - 1]) then dir[|dir| - 1] else MainSeparator(target);
      assert Join(target, dir, name) == s + [c] + name;
      SplitSnoc(target, s, c, name);
      NamePiecesSnoc(Split(target, s), name);
    }
  }

  /** The extension of `dir.join(name)` is the extension of `name`. */
  lemma PathExtensionOfJoin(target: Target, dir: string, name: string)
    requires name != [] && name != "." && name != ".."
    requires forall j :: 0 <= j < |name| ==> !IsSeparator(target, name[j])
    ensures PathExtension(target, Join(target, dir, name)) == Extension(name)
  {
    FileNameOfJoin(target, dir, name);
  }

  /** The index of the last `.` in `s`, if any. */
  function LastDot(s: string): (r: Option<nat>)
    ensures r.Some? ==> r.value < |s| && s[r.value] == '.' && '.' !in s[r.value + 1..]
    ensures r.None? <==> '.' !in s
  {
    if s == [] then None
    else if s[|s| - 1] == '.' then Some(|s| - 1)
    else
      var r := LastDot(s[..|s| - 1]);
      assert s == s[..|s| - 1] + [s[|s| - 1]];
      if r.Some? then assert s[r.value + 1..] == s[..|s| - 1][r.value + 1..] + [s[|s| - 1]]; r
      else r
  }

  /** `rsplit_file_at_dot` as used by `Path::extension`: the text after the
      last dot, unless the name is `..` or its only dot is the first character. */
  function Extension(name: string): (r: Option<string>)
    ensures r.Some? ==>
      '.' !in r.value && |r.value| < |name| - 1 &&
      name[|name| - |r.value| - 1] == '.' && r.value == name[|name| - |r.value|..]
    ensures name == ".." || '.' !in name ==> r.None?
  {
    if name == ".." then None
    else match LastDot(name)
      case None => None
      case Some(i) => if i == 0 then None else Some(name[i + 1..])
  }

  /** `Path::extension`. */
  function PathExtension(target: Target, p: string): (r: Option<string>)
    ensures r.Some? ==> FileName(target, p).Some? && '.' !in r.value
  {
    match FileName(target, p)
    case None => None
    case Some(name) => Extension(name)
  }

  /** An extension is exactly a dot-free tail that follows a dot which is
      not the name's first character. */
  lemma ExtensionCharacterized(name: string, e: string)
    ensures Extension(name) == Some(e) <==>
      name != ".." && '.' !in e && exists i :: 1 <= i < |name| && name[i] == '.' && name[i + 1..] == e
  {
    if name != ".." && '.' !in e && exists i :: 1 <= i < |name| && name[i] == '.' && name[i + 1..] == e {
      var i :| 1 <= i < |name| && name[i] == '.' && name[i + 1..] == e;
      assert LastDot(name).Some?;
    }
  }

  /** A name has no extension exactly when it is `..` or has no dot after
      its first character. */
  lemma NoExtensionCharacterized(name: string)
    ensures Extension(name).None? <==> name == ".." || name == [] || '.' !in name[1..]
  {
    var d := LastDot(name);
    if name != ".." && name != [] && '.' in name[1..] {
      var j :| 0 <= j < |name[1..]| && name[1..][j] == '.';
      assert name[j + 1] == '.';
    }
  }
}
