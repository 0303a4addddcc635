/** The project card's text helpers (src/components/ProjectCard.tsx): the
    shortened project path and the folder summary line. */
module ProjectCard {
  import opened Text

  /** The horizontal ellipsis, U+2026. */
  const Ellipsis: string := [0x2026 as char]

  /** `parts.slice(-segments)`; `slice(-0)` is `slice(0)`, the whole list. */
  function LastParts(parts: seq<string>, segments: nat): (r: seq<string>)
    requires segments <= |parts|
    ensures segments > 0 ==> |r| == segments && r == parts[|parts| - segments..]
    ensures segments == 0 ==> r == parts
  {
    if segments == 0 then parts else parts[|parts| - segments..]
  }

  /** `shortenPath`: a path of at most `segments + 1` parts (split on `/`
      and `\`) is kept; a longer one becomes an ellipsis, a slash and its
      last `segments` parts joined with `/`. */
  function ShortenPath(path: string, segments: nat): (r: string)
    ensures |SplitPath(path)| <= segments + 1 ==> r == path
    ensures |SplitPath(path)| > segments + 1 ==>
      r == Ellipsis + "/" + Join(LastParts(SplitPath(path), segments), "/")
  {
    var parts := SplitPath(path);
    if |parts| <= segments + 1 then path
    else Ellipsis + "/" + Join(LastParts(parts, segments), "/")
  }

  /** What follows the ellipsis of a shortened path splits back into exactly
      the path's last `segments` parts. */
  lemma ShortenedTailIsLastParts(path: string, segments: nat)
    requires segments > 0 && |SplitPath(path)| > segments + 1
    ensures var parts := SplitPath(path);
      SplitPath(ShortenPath(path, segments)[|Ellipsis| + 1..]) == parts[|parts| - segments..]
  {
    var parts := SplitPath(path);
    var last := LastParts(parts, segments);
    var tail := Join(last, "/");
    var prefix := Ellipsis + "/";
    assert ShortenPath(path, segments) == prefix + tail;
    assert (prefix + tail)[|prefix|..] == tail;
    forall p, i | p in last && 0 <= i < |p| ensures !IsPathSeparator(p[i]) {
      assert p in parts;
    }
    SplitJoin(last);
  }

  /** The folder summary of a card. */
  datatype FolderSummary =
    | NoFolders
    | Names(shown: seq<string>, remaining: int)
  {
    /** The text as rendered: the names joined with ", ", then ` +n` when n > 0. */
    function Text(): (t: string)
      ensures NoFolders? ==> t == "No folders"
      ensures Names? && remaining <= 0 ==> t == Join(shown, ", ")
      ensures Names? && remaining > 0 ==> t == Join(shown, ", ") + " +" + DecimalString(remaining)
    {
      match this
      case NoFolders => "No folders"
      case Names(shown, remaining) =>
        Join(shown, ", ") + (if remaining > 0 then " +" + DecimalString(remaining) else "")
    }
  }

  /** `formatFolders`: "No folders" exactly when the count is 0; otherwise
      the first three names at most, and the count of the rest. */
  function FormatFolders(folderCount: nat, folderNames: seq<string>): (s: FolderSummary)
    ensures s.NoFolders? <==> folderCount == 0
    ensures s.Names? ==> |s.shown| <= 3 && s.shown <= folderNames
    ensures s.Names? ==> |s.shown| == if |folderNames| < 3 then |folderNames| else 3
    ensures s.Names? ==> s.remaining == folderCount - |s.shown|
  {
    if folderCount == 0 then NoFolders
    else
      var displayNames := if |folderNames| < 3 then folderNames else folderNames[..3];
      Names(displayNames, folderCount - |displayNames|)
  }

  /** The `+n` suffix appears exactly when the count exceeds the names shown,
      and the shown names and `n` then account for every folder. */
  lemma SuffixIffMoreFolders(folderCount: nat, folderNames: seq<string>)
    requires folderCount > 0
    ensures var s := FormatFolders(folderCount, folderNames);
      (s.remaining > 0 <==> folderCount > |s.shown|) &&
      (s.remaining > 0 ==> |s.shown| + s.remaining == folderCount)
  {
  }

  /** When the names list matches the count, at most three names show and the
      suffix counts exactly the names left out. */
  lemma ConsistentSummary(folderNames: seq<string>)
    requires |folderNames| > 0
    ensures var s := FormatFolders(|folderNames|, folderNames);
      s.Names? && s.shown + folderNames[|s.shown|..] == folderNames &&
      s.remaining == |folderNames[|s.shown|..]| &&
      (s.remaining > 0 <==> |folderNames| > 3)
  {
  }
}
