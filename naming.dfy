/** The backend's pure name helpers (src-tauri/src/lib.rs): project-name
    sanitising, the image-extension test, the MIME type of an image file,
    folder names, and the `name_k.ext` scheme that avoids overwriting a file
    in the destination directory. */
module Naming {
  import opened Optional
  import opened Seqs
  import opened Text
  import opened RustPath

  /** The characters `sanitize_name` removes: path separators, the characters
      Windows forbids in file names, and NUL. */
  predicate IsForbidden(c: char) {
    c == '/' || c == '\\' || c == ':' || c == '*' || c == '?' || c == '"' ||
    c == '<' || c == '>' || c == '|' || c == '\0'
  }

  /** Rust's `char::is_whitespace`: the Unicode White_Space property. */
  predicate IsWhitespace(c: char) {
    var n := c as int;
    (0x09 <= n <= 0x0D) || n == 0x20 || n == 0x85 || n == 0xA0 || n == 0x1680 ||
    (0x2000 <= n <= 0x200A) || n == 0x2028 || n == 0x2029 || n == 0x202F || n == 0x205F || n == 0x3000
  }

  /** The `filter` step: every allowed character, in order. */
  function RemoveForbidden(s: string): (r: string)
    ensures |r| <= |s|
    ensures forall c :: c in r <==> c in s && !IsForbidden(c)
    ensures (forall c :: c in s ==> !IsForbidden(c)) ==> r == s
    ensures forall c :: multiset(r)[c] == if IsForbidden(c) then 0 else multiset(s)[c]
    ensures IsSubseq(r, s)
  {
    if s == [] then []
    else
      var rest := RemoveForbidden(s[1..]);
      assert s == [s[0]] + s[1..];
      if IsForbidden(s[0]) then
        SubseqCons(rest, s[1..], s[0]);
        rest
      else
        [s[0]] + rest
  }

  /** `trim_start`: the longest suffix that does not start with whitespace. */
  function TrimStart(s: string): (r: string)
    ensures |r| <= |s| && r == s[|s| - |r|..]
    ensures r == [] || !IsWhitespace(r[0])
    ensures forall i :: 0 <= i < |s| - |r| ==> IsWhitespace(s[i])
  {
    if s == [] || !IsWhitespace(s[0]) then s else TrimStart(s[1..])
  }

  /** `trim_end`: the longest prefix that does not end with whitespace. */
  function TrimEnd(s: string): (r: string)
    ensures |r| <= |s| && r == s[..|r|]
    ensures r == [] || !IsWhitespace(r[|r| - 1])
    ensures forall i :: |r| <= i < |s| ==> IsWhitespace(s[i])
  {
    if s == [] || !IsWhitespace(s[|s| - 1]) then s else TrimEnd(s[..|s| - 1])
  }

  /** Every character of `s` is whitespace. */
  predicate AllWhitespace(s: string) {
    forall k :: 0 <= k < |s| ==> IsWhitespace(s[k])
  }

  /** `sanitize_name`: the forbidden characters filtered out, then the
      surrounding whitespace trimmed. What remains is a contiguous run of the
      filtered name, and everything cut from either end is whitespace. */
  function SanitizeName(name: string): (r: string)
    ensures forall c :: c in r ==> c in name && !IsForbidden(c)
    ensures r == [] || (!IsWhitespace(r[0]) && !IsWhitespace(r[|r| - 1]))
    ensures |r| <= |name|
    ensures exists i, j ::
      && 0 <= i <= j <= |RemoveForbidden(name)| && r == RemoveForbidden(name)[i..j]
      && AllWhitespace(RemoveForbidden(name)[..i]) && AllWhitespace(RemoveForbidden(name)[j..])
  {
    Trim(RemoveForbidden(name))
  }

  /** `trim`: a contiguous run of `s` that neither starts nor ends with
      whitespace, with only whitespace cut from either end. */
  function Trim(s: string): (r: string)
    ensures |r| <= |s| && forall c :: c in r ==> c in s
    ensures r == [] || (!IsWhitespace(r[0]) && !IsWhitespace(r[|r| - 1]))
    ensures exists i, j :: 0 <= i <= j <= |s| && r == s[i..j] && AllWhitespace(s[..i]) && AllWhitespace(s[j..])
  {
    TrimKeepsChars(s);
    TrimIsSlice(s);
    TrimEnd(TrimStart(s))
  }

  /** Trimming keeps a contiguous run and cuts only whitespace from either end. */
  lemma {:induction false} TrimIsSlice(f: string)
    ensures exists i, j :: 0 <= i <= j <= |f| && TrimEnd(TrimStart(f)) == f[i..j] && AllWhitespace(f[..i]) && AllWhitespace(f[j..])
  {
    var i, j := TrimBounds(f);
  }

  /** Where trimming cuts `f`: before `i` and from `j` on. */
  lemma {:induction false} TrimBounds(f: string) returns (i: nat, j: nat)
    ensures i <= j <= |f| && TrimEnd(TrimStart(f)) == f[i..j]
    ensures AllWhitespace(f[..i]) && AllWhitespace(f[j..])
  {
    var start := TrimStart(f);
    i := |f| - |start|;
    LeadingCut(f, start);
    var r := TrimEnd(start);
    j := i + |r|;
    TrailingCut(start, r);
    assert start[|r|..] == f[j..];
  }

  lemma LeadingCut(f: string, start: string)
    requires start == TrimStart(f)
    ensures AllWhitespace(f[..|f| - |start|])
  {
    var i := |f| - |start|;
    forall k | 0 <= k < i ensures IsWhitespace(f[..i][k]) {
      assert f[..i][k] == f[k];
    }
  }

  lemma TrailingCut(start: string, r: string)
    requires r == TrimEnd(start)
    ensures AllWhitespace(start[|r|..])
  {
    forall k | 0 <= k < |start| - |r| ensures IsWhitespace(start[|r|..][k]) {
      assert start[|r|..][k] == start[|r| + k];
    }
  }

  /** Trimming only drops characters. */
  lemma {:induction false} TrimKeepsChars(s: string)
    ensures forall c :: c in TrimEnd(TrimStart(s)) ==> c in s
  {
    var start := TrimStart(s);
    var trimmed := TrimEnd(start);
    var k := |s| - |start|;
    forall i | 0 <= i < |trimmed| ensures trimmed[i] in s {
      assert trimmed[i] == start[i] == s[k + i];
    }
  }

  /** Sanitising a sanitised name changes nothing. */
  lemma SanitizeIdempotent(name: string)
    ensures SanitizeName(SanitizeName(name)) == SanitizeName(name)
  {
    SanitizeKeepsCleanName(SanitizeName(name));
  }

  /** A name with no forbidden character and no whitespace at either end
      is left as it is. */
  lemma SanitizeKeepsCleanName(name: string)
    requires forall c :: c in name ==> !IsForbidden(c)
    requires name == [] || (!IsWhitespace(name[0]) && !IsWhitespace(name[|name| - 1]))
    ensures SanitizeName(name) == name
  {
    assert RemoveForbidden(name) == name;
    assert TrimStart(name) == name;
    assert TrimEnd(name) == name;
  }

  /** A name made only of forbidden characters and whitespace sanitises to
      the empty name, which `create_project` rejects. */
  lemma {:induction false} SanitizeEmpty(name: string)
    requires forall c :: c in name ==> IsForbidden(c) || IsWhitespace(c)
    ensures SanitizeName(name) == ""
  {
    var filtered := RemoveForbidden(name);
    assert forall i :: 0 <= i < |filtered| ==> IsWhitespace(filtered[i]) by {
      forall i | 0 <= i < |filtered| ensures IsWhitespace(filtered[i]) {
        assert filtered[i] in filtered;
      }
    }
    AllWhitespaceTrims(filtered);
  }

  lemma {:induction false} AllWhitespaceTrims(s: string)
    requires forall i :: 0 <= i < |s| ==> IsWhitespace(s[i])
    ensures TrimStart(s) == ""
  {
    if s != [] {
      AllWhitespaceTrims(s[1..]);
    }
  }

  const SupportedExtensions: seq<string> := ["png", "jpg", "jpeg", "webp", "gif", "bmp"]

  /** `is_image_file`: the path has an extension whose lower-cased form is supported. */
  function IsImageFile(path: string): (b: bool)
    ensures b ==> FileName(path).Some? && Extension(path).Some?
    ensures b <==> Extension(path).Some? && LowerAscii(Extension(path).value) in SupportedExtensions
  {
    match Extension(path)
    case None => false
    case Some(ext) => LowerAscii(ext) in SupportedExtensions
  }

  /** The `match` of `get_image_data_url` on a lower-cased extension. */
  function MimeOfExtension(ext: string): (m: string)
    ensures m in ["image/jpeg", "image/png", "image/gif", "image/webp", "image/bmp"]
  {
    if ext == "jpg" || ext == "jpeg" then "image/jpeg"
    else if ext == "png" then "image/png"
    else if ext == "gif" then "image/gif"
    else if ext == "webp" then "image/webp"
    else if ext == "bmp" then "image/bmp"
    else "image/png"
  }

  /** The MIME type `get_image_data_url` reports: by lower-cased extension,
      with `png` standing in for a missing one. */
  function MimeType(path: string): (m: string)
    ensures Extension(path).None? ==> m == "image/png"
  {
    assert LowerAscii("png") == "png";
    MimeOfExtension(LowerAscii(Extension(path).GetOr("png")))
  }

  /** The MIME match agrees with the supported extensions: each is reported
      under its own type (`jpg` as `jpeg`), anything else as PNG. */
  lemma MimeOfSupported(ext: string)
    ensures ext in SupportedExtensions ==>
      MimeOfExtension(ext) == "image/" + (if ext == "jpg" then "jpeg" else ext)
    ensures ext !in SupportedExtensions ==> MimeOfExtension(ext) == "image/png"
  {
    if ext == "png" {
      assert "image/" + ext == "image/png";
    } else if ext == "jpg" {
      assert "image/" + "jpeg" == "image/jpeg";
    } else if ext == "jpeg" {
      assert "image/" + ext == "image/jpeg";
    } else if ext == "gif" {
      assert "image/" + ext == "image/gif";
    } else if ext == "webp" {
      assert "image/" + ext == "image/webp";
    } else if ext == "bmp" {
      assert "image/" + ext == "image/bmp";
    }
  }

  /** An image file is reported under its own type, anything else as PNG. */
  lemma MimeTypeOfImage(path: string)
    ensures IsImageFile(path) ==>
      var ext := LowerAscii(Extension(path).value);
      MimeType(path) == "image/" + (if ext == "jpg" then "jpeg" else ext)
    ensures !IsImageFile(path) ==> MimeType(path) == "image/png"
  {
    if Extension(path).Some? {
      MimeOfSupported(LowerAscii(Extension(path).value));
    }
  }

  /** `get_folder_name`: the last path component, or "unnamed". */
  function GetFolderName(path: string): (n: string)
    ensures IsPlainName(n)
    ensures FileName(path).Some? ==> n == FileName(path).value
    ensures FileName(path).None? ==> n == "unnamed"
  {
    FileName(path).GetOr("unnamed")
  }

  /** The `k`-th alternative name: `stem_k.ext`, or `stem_k` without an extension. */
  function Candidate(stem: string, ext: string, k: nat): (n: string)
  {
    if ext == "" then stem + "_" + DecimalString(k) else stem + "_" + DecimalString(k) + "." + ext
  }

  /** The `k`-th alternative is the stem, `_`, the counter in decimal, and
      `.ext` only when there is an extension. */
  lemma CandidateForm(stem: string, ext: string, k: nat)
    ensures Candidate(stem, ext, k) == stem + "_" + DecimalString(k) + (if ext == "" then "" else "." + ext)
  {
  }

  /** Different counters give different names. */
  lemma CandidateInjective(stem: string, ext: string, j: nat, k: nat)
    requires '.' !in ext
    requires Candidate(stem, ext, j) == Candidate(stem, ext, k)
    ensures j == k
  {
    var dj := DecimalString(j);
    var dk := DecimalString(k);
    var nj := Candidate(stem, ext, j);
    assert |dj| == |dk|;
    assert nj[|stem| + 1..|stem| + 1 + |dj|] == dj;
    assert Candidate(stem, ext, k)[|stem| + 1..|stem| + 1 + |dk|] == dk;
    DecimalInjective(j, k);
  }

  /** The stem and the extension `resolve_filename_conflict` builds from:
      the file stem (or the whole name), and the extension or "". */
  function StemOf(name: string): string { FileStem(name).GetOr(name) }
  function ExtOf(name: string): (e: string)
    ensures '.' !in e
  {
    Extension(name).GetOr("")
  }

  /** The first counter from `k` on whose candidate is free; candidate 1000
      is taken without being checked. */
  function FirstFree(existing: set<string>, stem: string, ext: string, k: nat): (r: nat)
    requires 1 <= k <= 1000
    ensures k <= r <= 1000
    ensures forall j :: k <= j < r ==> Candidate(stem, ext, j) in existing
    ensures r < 1000 ==> Candidate(stem, ext, r) !in existing
    decreases 1000 - k
  {
    if k == 1000 || Candidate(stem, ext, k) !in existing then k
    else FirstFree(existing, stem, ext, k + 1)
  }

  /** The name a file is given in the destination directory, from the stem
      and extension of its name. */
  function ResolvedWith(existing: set<string>, name: string, stem: string, ext: string): string {
    if name !in existing then name
    else Candidate(stem, ext, FirstFree(existing, stem, ext, 1))
  }

  function ResolvedName(existing: set<string>, name: string): string {
    ResolvedWith(existing, name, StemOf(name), ExtOf(name))
  }

  /** `resolve_filename_conflict`, with the destination directory's entries as
      `existing`: tries the name, then `stem_1.ext`, `stem_2.ext`, ..., and
      stops after the thousandth candidate. */
  method ResolveFilenameConflict(existing: set<string>, originalName: string) returns (newName: string)
    ensures newName == ResolvedName(existing, originalName)
  {
    var stem := StemOf(originalName);
    var ext := ExtOf(originalName);
    newName := TryCandidates(existing, originalName, stem, ext);
  }

  /** The loop of `resolve_filename_conflict`. */
  method TryCandidates(existing: set<string>, originalName: string, stem: string, ext: string)
    returns (newName: string)
    ensures newName == ResolvedWith(existing, originalName, stem, ext)
  {
    var counter := 1;
    newName := originalName;
    while newName in existing
      invariant 1 <= counter <= 1000
      invariant counter == 1 ==> newName == originalName
      invariant counter > 1 ==> originalName in existing && newName == Candidate(stem, ext, counter - 1)
      invariant forall j :: 1 <= j < counter - 1 ==> Candidate(stem, ext, j) in existing
      decreases 1000 - counter
    {
      newName := Candidate(stem, ext, counter);
      counter := counter + 1;
      if counter > 1000 {
        FirstFreeAt(existing, stem, ext, 1000);
        break;
      }
    }
    if counter > 1 && counter <= 1000 {
      FirstFreeAt(existing, stem, ext, counter - 1);
    }
  }

  /** A counter whose candidate is free (or the cap) and whose predecessors
      are all taken is the one `FirstFree` finds. */
  lemma FirstFreeAt(existing: set<string>, stem: string, ext: string, r: nat)
    requires 1 <= r <= 1000
    requires forall j :: 1 <= j < r ==> Candidate(stem, ext, j) in existing
    requires r < 1000 ==> Candidate(stem, ext, r) !in existing
    ensures FirstFree(existing, stem, ext, 1) == r
  {
  }

  /** The resolved name is the original when that is free; otherwise, when
      any of the first 999 candidates is free, it is the first free one and
      does not overwrite anything. */
  lemma {:induction false} ResolvedNameFree(existing: set<string>, name: string, k: nat)
    requires 1 <= k < 1000 && Candidate(StemOf(name), ExtOf(name), k) !in existing
    ensures ResolvedName(existing, name) !in existing
    ensures name in existing ==> exists j :: 1 <= j <= k && ResolvedName(existing, name) == Candidate(StemOf(name), ExtOf(name), j)
  {
    if name in existing {
      var r := FirstFree(existing, StemOf(name), ExtOf(name), 1);
      assert ResolvedName(existing, name) == Candidate(StemOf(name), ExtOf(name), r);
    }
  }
}
