/** The parts of Rust's `std::path::Path` the backend relies on, for Unix
    paths (`/` is the only separator): `file_name`, `file_stem`,
    `extension` and `join`. */
module RustPath {
  import opened Optional
  import opened Seqs

  /** `s.split('/')`: one more piece than there are slashes. */
  function SplitSlash(s: string): (parts: seq<string>)
    ensures |parts| >= 1
    ensures forall p :: p in parts ==> '/' !in p
  {
    if s == [] then [""]
    else
      var rest := SplitSlash(s[1..]);
      if s[0] == '/' then [""] + rest
      else [[s[0]] + rest[0]] + rest[1..]
  }

  /** Drops the empty pieces (repeated or trailing slashes) and the `.` pieces. */
  function DropEmpty(parts: seq<string>): (cs: seq<string>)
    ensures |cs| <= |parts|
    ensures forall c :: c in cs <==> c in parts && c != "" && c != "."
  {
    if parts == [] then []
    else if parts[0] == "" || parts[0] == "." then DropEmpty(parts[1..])
    else [parts[0]] + DropEmpty(parts[1..])
  }

  /** The named components of a path (normal components and `..`). */
  function Components(p: string): (cs: seq<string>)
    ensures forall c :: c in cs ==> c != "" && c != "." && '/' !in c
  {
    DropEmpty(SplitSlash(p))
  }

  /** `Path::file_name`: the last component, unless there is none or it is `..`. */
  function FileName(p: string): (n: Option<string>)
    ensures n.None? <==> Components(p) == [] || Components(p)[|Components(p)| - 1] == ".."
    ensures n.Some? ==> n.value == Components(p)[|Components(p)| - 1]
    ensures n.Some? ==> n.value != "" && n.value != "." && n.value != ".." && '/' !in n.value
  {
    var cs := Components(p);
    if cs == [] || cs[|cs| - 1] == ".." then None
    else
      assert cs[|cs| - 1] in cs;
      Some(cs[|cs| - 1])
  }

  /** A plain file name: not empty, not `.` or `..`, no slash. */
  predicate IsPlainName(name: string) {
    name != "" && name != "." && name != ".." && '/' !in name
  }

  /** The position of the last `.` in `s`. */
  function LastDot(s: string): (i: Option<nat>)
    ensures i.None? <==> '.' !in s
    ensures i.Some? ==> i.value < |s| && s[i.value] == '.' && '.' !in s[i.value + 1..]
  {
    if s == [] then None
    else if s[|s| - 1] == '.' then Some(|s| - 1)
    else
      assert s == s[..|s| - 1] + [s[|s| - 1]];
      LastDot(s[..|s| - 1])
  }

  /** Rust's `rsplit_file_at_dot`: the part before the last dot and the part
      after it; a name without a dot is all "after", and `..` or a name whose
      only dot is its first character is all "before". */
  function SplitAtDot(file: string): (Option<string>, Option<string>) {
    if file == ".." then (Some(file), None)
    else match LastDot(file)
      case None => (None, Some(file))
      case Some(i) => if i == 0 then (Some(file), None) else (Some(file[..i]), Some(file[i + 1..]))
  }

  /** `Path::file_stem`. */
  function FileStem(p: string): (s: Option<string>)
    ensures s.None? <==> FileName(p).None?
  {
    match FileName(p)
    case None => None
    case Some(name) =>
      var (before, after) := SplitAtDot(name);
      if before.Some? then before else after
  }

  /** `Path::extension`: what follows the last dot of the file name, when
      something non-empty precedes that dot. The stem, a dot and the
      extension make up the file name again. */
  function Extension(p: string): (e: Option<string>)
    ensures e.Some? ==> FileName(p).Some? && FileStem(p).Some?
    ensures e.Some? ==> FileName(p).value == FileStem(p).value + "." + e.value
    ensures e.Some? ==> FileStem(p).value != "" && '.' !in e.value
    ensures e.None? ==> FileStem(p) == FileName(p)
  {
    match FileName(p)
    case None => None
    case Some(name) =>
      var (before, after) := SplitAtDot(name);
      assert LastDot(name).Some? && LastDot(name).value > 0 ==>
        name == name[..LastDot(name).value] + "." + name[LastDot(name).value + 1..];
      if before.Some? && after.Some? then after else None
  }

  /** `Path::join` of a relative name: a slash goes between unless the
      directory is empty or already ends in one; an absolute name replaces
      the directory. */
  function JoinPath(dir: string, name: string): (r: string)
    ensures name != [] && name[0] == '/' ==> r == name
    ensures !(name != [] && name[0] == '/') ==>
      r == dir + name || r == dir + "/" + name
  {
    if name != [] && name[0] == '/' then name
    else if dir == [] || dir[|dir| - 1] == '/' then dir + name
    else dir + "/" + name
  }

  /** Splitting at a slash splits the pieces too. */
  lemma {:induction false} SplitSlashConcat(a: string, b: string)
    ensures SplitSlash(a + "/" + b) == SplitSlash(a) + SplitSlash(b)
  {
    if a == [] {
      assert a + "/" + b == ['/'] + b;
      SplitSlashCons('/', b);
      assert SplitSlash(a) == [""];
    } else {
      SplitSlashConcat(a[1..], b);
      if a[0] == '/' {
        SplitSlashConcatSlash(a, b);
      } else {
        SplitSlashConcatChar(a, b);
      }
    }
  }

  /** The step of `SplitSlashConcat` when `a` starts with a slash. */
  lemma SplitSlashConcatSlash(a: string, b: string)
    requires a != [] && a[0] == '/'
    requires SplitSlash(a[1..] + "/" + b) == SplitSlash(a[1..]) + SplitSlash(b)
    ensures SplitSlash(a + "/" + b) == SplitSlash(a) + SplitSlash(b)
  {
    var t := a[1..] + "/" + b;
    assert SplitSlash(a + "/" + b) == SplitSlash([a[0]] + t) by {
      ConsSplit3(a, "/", b);
    }
    assert SplitSlash(a) == SplitSlash([a[0]] + a[1..]) by {
      ConsSplit(a, "");
    }
    SplitSlashCons(a[0], t);
    SplitSlashCons(a[0], a[1..]);
    ConsConcat("", SplitSlash(a[1..]), SplitSlash(b));
  }

  /** The step of `SplitSlashConcat` when `a` starts with another character. */
  lemma SplitSlashConcatChar(a: string, b: string)
    requires a != [] && a[0] != '/'
    requires SplitSlash(a[1..] + "/" + b) == SplitSlash(a[1..]) + SplitSlash(b)
    ensures SplitSlash(a + "/" + b) == SplitSlash(a) + SplitSlash(b)
  {
    var t := a[1..] + "/" + b;
    assert SplitSlash(a + "/" + b) == SplitSlash([a[0]] + t) by {
      ConsSplit3(a, "/", b);
    }
    assert SplitSlash(a) == SplitSlash([a[0]] + a[1..]) by {
      ConsSplit(a, "");
    }
    SplitSlashCons(a[0], t);
    SplitSlashCons(a[0], a[1..]);
    HeadConcat([a[0]], SplitSlash(a[1..]), SplitSlash(b));
  }

  /** Splitting a string one character longer: a slash starts a new piece,
      any other character joins the first piece. */
  lemma SplitSlashCons(c: char, t: string)
    ensures c == '/' ==> SplitSlash([c] + t) == [""] + SplitSlash(t)
    ensures c != '/' ==> SplitSlash([c] + t) == [[c] + SplitSlash(t)[0]] + SplitSlash(t)[1..]
  {
    assert ([c] + t)[0] == c && ([c] + t)[1..] == t;
  }

  lemma {:induction false} DropEmptyConcat(x: seq<string>, y: seq<string>)
    ensures DropEmpty(x + y) == DropEmpty(x) + DropEmpty(y)
  {
    if x != [] {
      DropEmptyConcat(x[1..], y);
      assert (x + y)[0] == x[0] && (x + y)[1..] == x[1..] + y;
    } else {
      assert x + y == y;
    }
  }

  /** A plain name is its own single component. */
  lemma {:induction false} ComponentsOfPlainName(name: string)
    requires IsPlainName(name)
    ensures Components(name) == [name]
  {
    SplitSlashNoSlash(name);
  }

  lemma {:induction false} SplitSlashNoSlash(s: string)
    requires '/' !in s
    ensures SplitSlash(s) == [s]
  {
    if s != [] {
      SplitSlashNoSlash(s[1..]);
      assert [s[0]] + s[1..] == s;
    }
  }

  /** Joining a plain name to any directory gives a path whose file name is that name. */
  lemma FileNameOfJoin(dir: string, name: string)
    requires IsPlainName(name)
    ensures FileName(JoinPath(dir, name)) == Some(name)
  {
    ComponentsOfPlainName(name);
    var d := if dir != [] && dir[|dir| - 1] == '/' then dir[..|dir| - 1] else dir;
    if dir == [] {
      assert JoinPath(dir, name) == name;
    } else {
      assert JoinPath(dir, name) == d + "/" + name by {
        if dir[|dir| - 1] == '/' {
          assert dir == d + "/";
        }
      }
      SplitSlashConcat(d, name);
      SplitSlashNoSlash(name);
      DropEmptyConcat(SplitSlash(d), [name]);
      assert Components(JoinPath(dir, name)) == Components(d) + [name];
    }
  }

  /** The file name of a plain name is the name itself. */
  lemma FileNameOfPlainName(name: string)
    requires IsPlainName(name)
    ensures FileName(name) == Some(name)
  {
    ComponentsOfPlainName(name);
  }
}
