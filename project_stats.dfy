/** `get_project_stats` (src-tauri/src/lib.rs): per-folder image counts and
    the keep and maybe totals. Directory scans are an input: `dirCount` maps
    a directory path to the number of image files in it, and a directory it
    does not list counts 0, as a missing directory does. Counts and totals
    are `u32`; the totals wrap around on overflow. */
module ProjectStatsModel {
  import opened Optional
  import opened RustPath
  import opened Naming
  import opened Projects
  import opened Seqs

  const U32: int := 0x1_0000_0000

  /** Rust's `u32`. */
  newtype u32 = x: int | 0 <= x < 0x1_0000_0000

  /** The cast `as u32` of a count: the low 32 bits. */
  function AsU32(n: nat): (r: u32)
    ensures r as int == n % U32
    ensures n < U32 ==> r as int == n
  {
    (n % U32) as u32
  }

  /** `count_images_in_dir`, whose `usize` count is cast `as u32`. */
  function CountIn(dirCount: map<string, nat>, dir: string): (n: u32)
    ensures dir !in dirCount ==> n == 0
    ensures dir in dirCount ==> n == AsU32(dirCount[dir])
  {
    if dir in dirCount then AsU32(dirCount[dir]) else 0
  }

  datatype FolderStats = FolderStats(folderId: string, folderName: string, sourceCount: u32,
                                     keepCount: u32, maybeCount: u32)

  datatype ProjectStats = ProjectStats(totalKeep: u32, totalMaybe: u32, folderStats: seq<FolderStats>)

  /** The statistics of one folder: its source directory's count and, in
      per-folder mode, the counts of `<project>/<folder name>/keep` and
      `.../maybe`; in unified mode those two are 0. */
  function StatsOf(folder: Folder, projectDir: string, dirCount: map<string, nat>, unified: bool): (s: FolderStats)
    ensures s.folderId == folder.id && s.folderName == GetFolderName(folder.sourcePath)
    ensures s.sourceCount == CountIn(dirCount, folder.sourcePath)
    ensures unified ==> s.keepCount == 0 && s.maybeCount == 0
    ensures !unified ==>
      var outputDir := JoinPath(projectDir, GetFolderName(folder.sourcePath));
      s.keepCount == CountIn(dirCount, JoinPath(outputDir, "keep")) &&
      s.maybeCount == CountIn(dirCount, JoinPath(outputDir, "maybe"))
  {
    var folderName := GetFolderName(folder.sourcePath);
    var sourceCount := CountIn(dirCount, folder.sourcePath);
    if unified then FolderStats(folder.id, folderName, sourceCount, 0, 0)
    else
      var outputDir := JoinPath(projectDir, folderName);
      FolderStats(folder.id, folderName, sourceCount, CountIn(dirCount, JoinPath(outputDir, "keep")),
                  CountIn(dirCount, JoinPath(outputDir, "maybe")))
  }

  /** The statistics of every folder, in order. */
  function AllStatsOf(folders: seq<Folder>, projectDir: string, dirCount: map<string, nat>, unified: bool)
    : (all: seq<FolderStats>)
    ensures |all| == |folders|
    ensures forall i :: 0 <= i < |folders| ==> all[i] == StatsOf(folders[i], projectDir, dirCount, unified)
  {
    seq(|folders|, i requires 0 <= i < |folders| => StatsOf(folders[i], projectDir, dirCount, unified))
  }

  /** The sum of the keep counts. */
  function SumKeep(stats: seq<FolderStats>): nat {
    if stats == [] then 0 else SumKeep(stats[..|stats| - 1]) + stats[|stats| - 1].keepCount as int
  }

  /** The sum of the maybe counts. */
  function SumMaybe(stats: seq<FolderStats>): nat {
    if stats == [] then 0 else SumMaybe(stats[..|stats| - 1]) + stats[|stats| - 1].maybeCount as int
  }

  /** `get_project_stats` for a project whose configuration is `project`,
      stored in `projectDir`. */
  method GetProjectStats(project: Project, projectDir: string, dirCount: map<string, nat>)
    returns (stats: ProjectStats)
    ensures |stats.folderStats| == |project.folders|
    ensures forall i :: 0 <= i < |project.folders| ==>
      stats.folderStats[i] == StatsOf(project.folders[i], projectDir, dirCount, project.outputDirectoryMode == "unified")
    ensures project.outputDirectoryMode == "unified" ==>
      stats.totalKeep == CountIn(dirCount, JoinPath(projectDir, "keep")) &&
      stats.totalMaybe == CountIn(dirCount, JoinPath(projectDir, "maybe"))
    ensures project.outputDirectoryMode != "unified" ==>
      stats.totalKeep as int == SumKeep(stats.folderStats) % U32 &&
      stats.totalMaybe as int == SumMaybe(stats.folderStats) % U32
  {
    if project.outputDirectoryMode == "unified" {
      stats := UnifiedStats(project.folders, projectDir, dirCount);
    } else {
      stats := PerFolderStats(project.folders, projectDir, dirCount);
    }
  }

  /** The unified branch: the totals come from the project's own `keep` and
      `maybe` directories. */
  method UnifiedStats(folders: seq<Folder>, projectDir: string, dirCount: map<string, nat>)
    returns (stats: ProjectStats)
    ensures |stats.folderStats| == |folders|
    ensures forall i :: 0 <= i < |folders| ==> stats.folderStats[i] == StatsOf(folders[i], projectDir, dirCount, true)
    ensures stats.totalKeep == CountIn(dirCount, JoinPath(projectDir, "keep"))
    ensures stats.totalMaybe == CountIn(dirCount, JoinPath(projectDir, "maybe"))
  {
    var totalKeep := CountIn(dirCount, JoinPath(projectDir, "keep"));
    var totalMaybe := CountIn(dirCount, JoinPath(projectDir, "maybe"));
    var folderStats: seq<FolderStats> := [];
    for i := 0 to |folders|
      invariant |folderStats| == i
      invariant forall k :: 0 <= k < i ==> folderStats[k] == StatsOf(folders[k], projectDir, dirCount, true)
    {
      folderStats := folderStats + [StatsOf(folders[i], projectDir, dirCount, true)];
    }
    stats := ProjectStats(totalKeep, totalMaybe, folderStats);
  }

  /** The per-folder branch: each folder's keep and maybe counts are added
      to the totals with `u32` wrap-around. */
  method PerFolderStats(folders: seq<Folder>, projectDir: string, dirCount: map<string, nat>)
    returns (stats: ProjectStats)
    ensures stats.folderStats == AllStatsOf(folders, projectDir, dirCount, false)
    ensures stats.totalKeep as int == SumKeep(stats.folderStats) % U32
    ensures stats.totalMaybe as int == SumMaybe(stats.folderStats) % U32
  {
    ghost var expected := AllStatsOf(folders, projectDir, dirCount, false);
    var totalKeep := 0;
    var totalMaybe := 0;
    var folderStats: seq<FolderStats> := [];
    for i := 0 to |folders|
      invariant folderStats == expected[..i]
      invariant totalKeep == WrappedKeep(folderStats) && totalMaybe == WrappedMaybe(folderStats)
    {
      var s := StatsOf(folders[i], projectDir, dirCount, false);
      totalKeep := WrappingAdd(totalKeep, s.keepCount);
      totalMaybe := WrappingAdd(totalMaybe, s.maybeCount);
      PrefixSnoc(expected, i);
      WrappedSnoc(folderStats, s);
      folderStats := folderStats + [s];
    }
    assert folderStats == expected;
    WrappedIsRemainder(folderStats);
    stats := ProjectStats(totalKeep, totalMaybe, folderStats);
  }

  /** The keep total as the loop accumulates it, with `u32` wrap-around. */
  function WrappedKeep(stats: seq<FolderStats>): u32 {
    if stats == [] then 0 else WrappingAdd(WrappedKeep(stats[..|stats| - 1]), stats[|stats| - 1].keepCount)
  }

  /** The maybe total as the loop accumulates it, with `u32` wrap-around. */
  function WrappedMaybe(stats: seq<FolderStats>): u32 {
    if stats == [] then 0 else WrappingAdd(WrappedMaybe(stats[..|stats| - 1]), stats[|stats| - 1].maybeCount)
  }

  /** One more folder adds its counts to the wrapped totals. */
  lemma WrappedSnoc(stats: seq<FolderStats>, s: FolderStats)
    ensures WrappedKeep(stats + [s]) == WrappingAdd(WrappedKeep(stats), s.keepCount)
    ensures WrappedMaybe(stats + [s]) == WrappingAdd(WrappedMaybe(stats), s.maybeCount)
  {
    assert (stats + [s])[..|stats|] == stats;
  }

  /** Wrapping after every addition gives the remainder of the exact sum. */
  lemma {:induction false} WrappedIsRemainder(stats: seq<FolderStats>)
    ensures WrappedKeep(stats) as int == SumKeep(stats) % U32
    ensures WrappedMaybe(stats) as int == SumMaybe(stats) % U32
  {
    if stats != [] {
      var init := stats[..|stats| - 1];
      var last := stats[|stats| - 1];
      WrappedIsRemainder(init);
      AddWrapped(WrappedKeep(init), SumKeep(init), last.keepCount);
      AddWrapped(WrappedMaybe(init), SumMaybe(init), last.maybeCount);
    }
  }

  /** The `u32` addition of a release build: the sum, less 2^32 when it overflows. */
  function WrappingAdd(a: u32, b: u32): (r: u32)
    ensures r as int == a as int + b as int || r as int == a as int + b as int - U32
  {
    if a as int + b as int >= U32 then (a as int + b as int - U32) as u32 else (a as int + b as int) as u32
  }

  /** Adding a count to a wrapped total wraps the exact sum. */
  lemma AddWrapped(total: u32, sum: nat, c: u32)
    requires total as int == sum % U32
    ensures WrappingAdd(total, c) as int == (sum + c as int) % U32
  {
    var q := sum / U32;
    assert sum == q * U32 + total as int;
    if total as int + c as int >= U32 {
      assert sum + c as int == (q + 1) * U32 + (total as int + c as int - U32);
    } else {
      assert sum + c as int == q * U32 + (total as int + c as int);
    }
  }
}
