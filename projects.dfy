/** The project registry and the project configuration of the backend
    (src-tauri/src/lib.rs): projects created and deleted in the registry,
    folders added to and removed from a project. Reading and writing the
    JSON files is not modelled: each class holds what the file holds, and
    the new UUID and the current time are parameters. */
module Projects {
  import opened Optional
  import opened Seqs
  import opened RustPath
  import opened Naming

  datatype Folder = Folder(id: string, sourcePath: string, outputMode: string, addedAt: string)

  datatype Project = Project(id: string, name: string, createdAt: string, outputDirectoryMode: string,
                             folders: seq<Folder>)

  datatype RegistryEntry = RegistryEntry(id: string, name: string, path: string, createdAt: string)

  /** `folders.retain(|f| f.id != id)`. */
  function WithoutFolder(folders: seq<Folder>, id: string): (r: seq<Folder>)
    ensures forall f :: f in r <==> f in folders && f.id != id
    ensures IsSubseq(r, folders)
    ensures (forall f :: f in folders ==> f.id != id) ==> r == folders
  {
    if folders == [] then []
    else
      var rest := WithoutFolder(folders[1..], id);
      assert folders == [folders[0]] + folders[1..];
      if folders[0].id == id then
        SubseqCons(rest, folders[1..], folders[0]);
        rest
      else [folders[0]] + rest
  }

  /** `entries.retain(|e| e.id != id)`. */
  function WithoutEntry(entries: seq<RegistryEntry>, id: string): (r: seq<RegistryEntry>)
    ensures forall e :: e in r <==> e in entries && e.id != id
    ensures IsSubseq(r, entries)
    ensures (forall e :: e in entries ==> e.id != id) ==> r == entries
  {
    if entries == [] then []
    else
      var rest := WithoutEntry(entries[1..], id);
      assert entries == [entries[0]] + entries[1..];
      if entries[0].id == id then
        SubseqCons(rest, entries[1..], entries[0]);
        rest
      else [entries[0]] + rest
  }

  /** No two folders of a project share a source path. */
  predicate DistinctSourcePaths(folders: seq<Folder>) {
    forall i, j :: 0 <= i < j < |folders| ==> folders[i].sourcePath != folders[j].sourcePath
  }

  /** Removing folders keeps source paths distinct. */
  lemma {:induction false} WithoutFolderDistinct(folders: seq<Folder>, id: string)
    requires DistinctSourcePaths(folders)
    ensures DistinctSourcePaths(WithoutFolder(folders, id))
  {
    if folders != [] {
      assert DistinctSourcePaths(folders[1..]);
      WithoutFolderDistinct(folders[1..], id);
      var rest := WithoutFolder(folders[1..], id);
      if folders[0].id != id {
        forall f | f in rest ensures f.sourcePath != folders[0].sourcePath {
          var j :| 0 <= j < |folders[1..]| && folders[1..][j] == f;
          assert folders[j + 1] == f;
        }
      }
    }
  }

  /** The project name check of `create_project` as written: the sanitised
      name, rejected only when empty. `.` and `..` pass. */
  function ProjectNameAsWritten(name: string): (r: Result<string, string>)
    ensures r.Err? <==> SanitizeName(name) == ""
    ensures r.Ok? ==> r.value == SanitizeName(name)
  {
    var sanitized := SanitizeName(name);
    if sanitized == "" then Err("Invalid project name") else Ok(sanitized)
  }

  /** The name `..` passes the check as written, and the project directory
      `output_path/..` is then the parent of the output directory: it is not
      a directory named after the project. */
  lemma DotDotEscapesOutputDir()
    ensures ProjectNameAsWritten("..") == Ok("..")
    ensures FileName(JoinPath("/data/out", "..")) == None
  {
    DotDotSanitizesToItself();
    DotDotJoinHasNoFileName();
  }

  lemma DotDotSanitizesToItself()
    ensures SanitizeName("..") == ".."
  {
    assert forall c :: c in ".." ==> c == '.';
    SanitizeKeepsCleanName("..");
  }

  lemma DotDotJoinHasNoFileName()
    ensures FileName(JoinPath("/data/out", "..")) == None
  {
    assert JoinPath("/data/out", "..") == "/data/out" + "/" + "..";
    SplitSlashConcat("/data/out", "..");
    SplitSlashNoSlash("..");
    DropEmptyConcat(SplitSlash("/data/out"), [".."]);
  }

  /** The project name check with `.` and `..` rejected as well. */
  function ProjectName(name: string): (r: Result<string, string>)
    ensures r.Err? <==> SanitizeName(name) in {"", ".", ".."}
    ensures r.Ok? ==> r.value == SanitizeName(name) && IsPlainName(r.value)
  {
    var sanitized := SanitizeName(name);
    if sanitized == "" || sanitized == "." || sanitized == ".." then Err("Invalid project name")
    else Ok(sanitized)
  }

  /** An accepted project lives in a directory directly inside the output
      directory, named after the sanitised project name. */
  lemma ProjectDirIsChild(name: string, outputPath: string)
    requires ProjectName(name).Ok?
    ensures FileName(JoinPath(outputPath, ProjectName(name).value)) == Some(SanitizeName(name))
  {
    FileNameOfJoin(outputPath, ProjectName(name).value);
  }

  /** A project's `project.json`. */
  class ProjectConfig {
    var id: string
    var name: string
    var createdAt: string
    var outputDirectoryMode: string
    var folders: seq<Folder>

    ghost predicate Valid()
      reads this
    {
      DistinctSourcePaths(folders)
    }

    /** The configuration `create_project` writes: per-folder output, no folders. */
    constructor (newId: string, projectName: string, now: string)
      ensures Valid()
      ensures id == newId && name == projectName && createdAt == now
      ensures outputDirectoryMode == "per-folder" && folders == []
    {
      id := newId;
      name := projectName;
      createdAt := now;
      outputDirectoryMode := "per-folder";
      folders := [];
    }

    function Snapshot(): (p: Project)
      reads this
      ensures p.folders == folders && p.id == id
    {
      Project(id, name, createdAt, outputDirectoryMode, folders)
    }

    /** `add_folder_to_project`: refuses a source path the project already
        has; otherwise appends one new folder. */
    method AddFolder(sourcePath: string, outputMode: string, newId: string, now: string)
      returns (r: Result<Folder, string>)
      modifies this
      ensures old(Valid()) ==> Valid()
      ensures (exists f :: f in old(folders) && f.sourcePath == sourcePath) ==>
        r == Err("Folder already added to project") && folders == old(folders)
      ensures (forall f :: f in old(folders) ==> f.sourcePath != sourcePath) ==>
        r == Ok(Folder(newId, sourcePath, outputMode, now)) && folders == old(folders) + [r.value]
      ensures id == old(id) && name == old(name) && createdAt == old(createdAt)
      ensures outputDirectoryMode == old(outputDirectoryMode)
    {
      var i := 0;
      while i < |folders|
        invariant 0 <= i <= |folders|
        invariant forall k :: 0 <= k < i ==> folders[k].sourcePath != sourcePath
      {
        if folders[i].sourcePath == sourcePath {
          return Err("Folder already added to project");
        }
        i := i + 1;
      }
      var folder := Folder(newId, sourcePath, outputMode, now);
      folders := folders + [folder];
      r := Ok(folder);
    }

    /** `remove_folder_from_project`: drops every folder with that id. */
    method RemoveFolder(folderId: string)
      modifies this
      ensures old(Valid()) ==> Valid()
      ensures folders == WithoutFolder(old(folders), folderId)
      ensures id == old(id) && name == old(name) && createdAt == old(createdAt)
      ensures outputDirectoryMode == old(outputDirectoryMode)
    {
      if Valid() {
        WithoutFolderDistinct(folders, folderId);
      }
      folders := WithoutFolder(folders, folderId);
    }
  }

  /** The registry file `projects.json`. */
  class Registry {
    var entries: seq<RegistryEntry>

    constructor ()
      ensures entries == []
    {
      entries := [];
    }

    /** `create_project`: rejects a name that sanitises to nothing (or to
        `.` or `..`); otherwise registers a project in `outputPath/name`. */
    method CreateProject(name: string, outputPath: string, newId: string, now: string)
      returns (r: Result<Project, string>)
      modifies this
      ensures ProjectName(name).Err? ==> r == Err("Invalid project name") && entries == old(entries)
      ensures ProjectName(name).Ok? ==>
        var n := SanitizeName(name);
        && r == Ok(Project(newId, n, now, "per-folder", []))
        && entries == old(entries) + [RegistryEntry(newId, n, JoinPath(outputPath, n), now)]
    {
      var checked := ProjectName(name);
      if checked.Err? {
        return Err("Invalid project name");
      }
      var sanitizedName := checked.value;
      var projectPath := JoinPath(outputPath, sanitizedName);
      var project := Project(newId, sanitizedName, now, "per-folder", []);
      entries := entries + [RegistryEntry(newId, sanitizedName, projectPath, now)];
      r := Ok(project);
    }

    /** `delete_project`: drops every registry entry with that id. */
    method DeleteProject(projectId: string)
      modifies this
      ensures entries == WithoutEntry(old(entries), projectId)
      ensures forall e :: e in entries <==> e in old(entries) && e.id != projectId
    {
      entries := WithoutEntry(entries, projectId);
    }
  }
}
