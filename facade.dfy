/** The platform-independent part of the shell facade: the Explore dispatch,
    the \\?\ prefix for long Windows paths, the quiet delete with its
    fallback, the directory walk of moveFileRecursive / copyFileRecursive,
    the choice of files removeOldFiles deletes and the stored custom URL
    handler with the routing of Open(url).

    File-system calls (QDir::exists, QDir::mkdir, QFile::rename, copy,
    remove) are oracles: functions of the path that say whether the call
    succeeds. */
module Facade {
  import opened Common
  import opened ShellResult

  // ---------------------------------------------------------------------------
  // Explore
  // ---------------------------------------------------------------------------

  /** What Explore learns from a QFileInfo: its absolute path, whether it is a
      file or a directory, and the absolute path of the directory holding it
      together with whether that directory exists. */
  datatype FileInfo = FileInfo(path: string, isFile: bool, isDir: bool,
                               parentPath: string, parentExists: bool)

  /** The backend call Explore decides on. */
  datatype ExploreAction =
    | ShowFileInDirectory(path: string)
    | ShowDirectory(path: string)
    | NotFound

  /** The file is shown in its directory, a directory is opened, anything else
      falls back to its immediate parent when that exists. Nothing above the
      parent is ever looked at. */
  function ChooseExplore(info: FileInfo): (a: ExploreAction)
    ensures a.ShowFileInDirectory? <==> info.isFile
    ensures a.ShowDirectory? <==> !info.isFile && (info.isDir || info.parentExists)
    ensures a.NotFound? <==> !info.isFile && !info.isDir && !info.parentExists
    ensures a.ShowFileInDirectory? ==> a.path == info.path
    ensures a.ShowDirectory? && info.isDir ==> a.path == info.path
    ensures a.ShowDirectory? && !info.isDir ==> a.path == info.parentPath
  {
    if info.isFile then ShowFileInDirectory(info.path)
    else if info.isDir then ShowDirectory(info.path)
    else if info.parentExists then ShowDirectory(info.parentPath)
    else NotFound
  }

  /** Explore(QFileInfo) with the platform's ExploreFileInDirectory and
      ExploreDirectory as `showFile` and `showDir`. */
  function Explore(os: Os, sysText: int -> Option<string>, info: FileInfo,
                   showFile: string -> Result, showDir: string -> Result): (r: Result)
    ensures info.isFile ==> r == showFile(info.path)
    ensures !info.isFile && info.isDir ==> r == showDir(info.path)
    ensures !info.isFile && !info.isDir && info.parentExists ==> r == showDir(info.parentPath)
    ensures !info.isFile && !info.isDir && !info.parentExists ==>
              !r.success && r.error == ERROR_FILE_NOT_FOUND && r.process == InvalidHandle(os)
  {
    match ChooseExplore(info)
    case ShowFileInDirectory(p) => showFile(p)
    case ShowDirectory(p) => showDir(p)
    case NotFound => MakeFailure(os, sysText, ERROR_FILE_NOT_FOUND, [])
  }

  // ---------------------------------------------------------------------------
  // toUNC
  // ---------------------------------------------------------------------------

  /** The Win32 prefix that lifts the MAX_PATH limit: \\?\ */
  const UNC_PREFIX: string := "\\\\?\\"

  /** toUNC: the absolute path with native separators, prefixed with \\?\
      unless it already carries the prefix. */
  function ToUNC(absolutePath: string): (r: string)
    ensures StartsWith(r, UNC_PREFIX)
    ensures |r| >= |absolutePath| && r[|r| - |absolutePath|..] == NativeSeparators(absolutePath)
    ensures |r| == |absolutePath| || |r| == |absolutePath| + |UNC_PREFIX|
    ensures '/' !in r
  {
    var w := NativeSeparators(absolutePath);
    if StartsWith(w, UNC_PREFIX) then w else UNC_PREFIX + w
  }

  lemma NativeSeparatorsFixed(s: string)
    requires '/' !in s
    ensures NativeSeparators(s) == s
  {
  }

  /** Prefixing twice is prefixing once. */
  lemma ToUNCIdempotent(absolutePath: string)
    ensures ToUNC(ToUNC(absolutePath)) == ToUNC(absolutePath)
  {
    var r := ToUNC(absolutePath);
    NativeSeparatorsFixed(r);
  }

  /** A path that already carries the prefix only has its separators changed. */
  lemma ToUNCKeepsPrefixed(absolutePath: string)
    requires StartsWith(absolutePath, UNC_PREFIX)
    ensures ToUNC(absolutePath) == NativeSeparators(absolutePath)
  {
    var w := NativeSeparators(absolutePath);
    assert w[..|UNC_PREFIX|] == UNC_PREFIX by {
      forall i | 0 <= i < |UNC_PREFIX|
        ensures w[i] == UNC_PREFIX[i]
      {
        assert absolutePath[i] == UNC_PREFIX[i];
      }
    }
  }

  // ---------------------------------------------------------------------------
  // shellDeleteQuiet
  // ---------------------------------------------------------------------------

  /** The file-system calls that change something, in the order they are made. */
  datatype FsCall =
    | MakeDir(path: string)
    | Rename(from: string, to: string)
    | Copy(from: string, to: string)
    | Remove(path: string)
    | ShellDeleteCall(files: seq<string>, recycle: bool)

  /** What shellDeleteQuiet reports, and the calls it made. */
  datatype QuietDelete = QuietDelete(ok: bool, calls: seq<FsCall>)

  /** shellDeleteQuiet: QFile::remove first; shellDelete of the single file,
      without recycling, only when that fails. */
  function ShellDeleteQuiet(fileName: string, remove: string -> bool,
                            shellDelete: (seq<string>, bool) -> bool): (r: QuietDelete)
    ensures |r.calls| == (if remove(fileName) then 1 else 2) && r.calls[0] == Remove(fileName)
    ensures ShellDeleteCall([fileName], false) in r.calls <==> !remove(fileName)
    ensures forall c :: c in r.calls ==> c == Remove(fileName) || c == ShellDeleteCall([fileName], false)
    ensures r.ok <==> remove(fileName) || shellDelete([fileName], false)
  {
    if remove(fileName) then QuietDelete(true, [Remove(fileName)])
    else QuietDelete(shellDelete([fileName], false), [Remove(fileName), ShellDeleteCall([fileName], false)])
  }

  // ---------------------------------------------------------------------------
  // moveFileRecursive / copyFileRecursive
  // ---------------------------------------------------------------------------

  /** base, then "/" and each component in turn. */
  function PathOf(base: string, comps: seq<string>): string
    decreases |comps|
  {
    if comps == [] then base else PathOf(base, comps[..|comps| - 1]) + "/" + comps[|comps| - 1]
  }

  /** PathOf(base, comps[..1]), PathOf(base, comps[..2]), ..., PathOf(base, comps). */
  function DirsOf(base: string, comps: seq<string>): (dirs: seq<string>)
    ensures |dirs| == |comps|
    decreases |comps|
  {
    if comps == [] then [] else DirsOf(base, comps[..|comps| - 1]) + [PathOf(base, comps)]
  }

  /** The directories the walk visits: baseDir/c0, baseDir/c0/c1, ... for every
      '/'-separated component of the destination but the last. */
  function ParentDirs(baseDir: string, destination: string): seq<string> {
    var comps := Split(destination, '/');
    DirsOf(baseDir, comps[..|comps| - 1])
  }

  /** The mkdir calls made for the directories that do not exist yet. */
  function MakeDirCalls(dirs: seq<string>, isDir: string -> bool): (calls: seq<FsCall>)
    ensures forall c :: c in calls ==> c.MakeDir?
    decreases |dirs|
  {
    if dirs == [] then []
    else
      var last := dirs[|dirs| - 1];
      MakeDirCalls(dirs[..|dirs| - 1], isDir) + (if isDir(last) then [] else [MakeDir(last)])
  }

  /** The walk creates exactly the directories of the list that do not
      exist yet. */
  lemma MakeDirCallsContents(dirs: seq<string>, isDir: string -> bool, d: string)
    ensures MakeDir(d) in MakeDirCalls(dirs, isDir) <==> d in dirs && !isDir(d)
  {
    MakeDirCallsCount(dirs, isDir, d);
    assert MakeDir(d) in MakeDirCalls(dirs, isDir) <==> MakeDir(d) in multiset(MakeDirCalls(dirs, isDir));
    assert d in dirs <==> d in multiset(dirs);
  }

  /** Each directory that does not exist yet is created once for each time
      the list names it. */
  lemma {:induction false} MakeDirCallsCount(dirs: seq<string>, isDir: string -> bool, d: string)
    ensures multiset(MakeDirCalls(dirs, isDir))[MakeDir(d)] == (if isDir(d) then 0 else multiset(dirs)[d])
    decreases |dirs|
  {
    if dirs != [] {
      var front, last := dirs[..|dirs| - 1], dirs[|dirs| - 1];
      MakeDirCallsCount(front, isDir, d);
      assert dirs == front + [last];
      assert multiset(dirs) == multiset(front) + multiset{last};
    }
  }

  /** Every directory of the list is the base path followed by the components up to its own. */
  lemma {:induction false} DirsOfIndex(base: string, comps: seq<string>, j: int)
    requires 0 <= j < |comps|
    ensures DirsOf(base, comps)[j] == PathOf(base, comps[..j + 1])
    decreases |comps|
  {
    if j < |comps| - 1 {
      DirsOfIndex(base, comps[..|comps| - 1], j);
      assert comps[..|comps| - 1][..j + 1] == comps[..j + 1];
    } else {
      assert comps[..j + 1] == comps;
    }
  }

  lemma {:induction false} PathOfJoin(base: string, comps: seq<string>)
    requires |comps| >= 1
    ensures PathOf(base, comps) == base + "/" + Join(comps, "/")
    decreases |comps|
  {
    if |comps| > 1 {
      PathOfJoin(base, comps[..|comps| - 1]);
    } else {
      assert comps[..0] == [];
    }
  }

  /** The walk ends one component short of the final target
      baseDir + "/" + destination, and every directory it visits is followed
      by a separator in that target. */
  lemma {:induction false} ParentDirsLeadToTarget(baseDir: string, destination: string)
    ensures var comps := Split(destination, '/');
      PathOf(baseDir, comps) == baseDir + "/" + destination
    ensures var dirs := ParentDirs(baseDir, destination);
      forall j :: 0 <= j < |dirs| ==> StartsWith(baseDir + "/" + destination, dirs[j] + "/")
  {
    var comps := Split(destination, '/');
    PathOfJoin(baseDir, comps);
    JoinSplit(destination, '/');
    var dirs := ParentDirs(baseDir, destination);
    forall j | 0 <= j < |dirs|
      ensures StartsWith(baseDir + "/" + destination, dirs[j] + "/")
    {
      DirsOfIndex(baseDir, comps[..|comps| - 1], j);
      assert comps[..|comps| - 1][..j + 1] == comps[..j + 1];
      PathOfPrefix(baseDir, comps, j + 1);
    }
  }

  lemma {:induction false} PathOfPrefix(base: string, comps: seq<string>, k: int)
    requires 0 <= k < |comps|
    ensures StartsWith(PathOf(base, comps), PathOf(base, comps[..k]) + "/")
    decreases |comps|
  {
    var front := comps[..|comps| - 1];
    if k == |comps| - 1 {
      assert comps[..k] == front;
    } else {
      PathOfPrefix(base, front, k);
      assert front[..k] == comps[..k];
    }
  }

  lemma PathOfStep(base: string, comps: seq<string>, i: nat)
    requires i < |comps|
    ensures PathOf(base, comps[..i + 1]) == PathOf(base, comps[..i]) + "/" + comps[i]
  {
    assert comps[..i + 1][..i] == comps[..i];
  }

  /** The loop shared by moveFileRecursive and copyFileRecursive: for each
      directory on the way to the destination, create it unless it exists,
      and stop with false at the first mkdir that fails. */
  method CreateParentDirs(baseDir: string, destination: string,
                          isDir: string -> bool, makeDir: string -> bool)
    returns (ok: bool, calls: seq<FsCall>)
    ensures forall c :: c in calls ==> c.MakeDir?
    ensures var dirs := ParentDirs(baseDir, destination);
      ok ==> (forall j :: 0 <= j < |dirs| ==> isDir(dirs[j]) || makeDir(dirs[j]))
             && calls == MakeDirCalls(dirs, isDir)
    ensures var dirs := ParentDirs(baseDir, destination);
      !ok ==> exists f :: 0 <= f < |dirs| && !isDir(dirs[f]) && !makeDir(dirs[f])
                          && (forall j :: 0 <= j < f ==> isDir(dirs[j]) || makeDir(dirs[j]))
                          && calls == MakeDirCalls(dirs[..f + 1], isDir)
  {
    var comps := Split(destination, '/');
    ghost var parents := comps[..|comps| - 1];
    ghost var dirs := ParentDirs(baseDir, destination);
    var path := baseDir;
    var i := 0;
    calls := [];
    while i < |comps| - 1
      invariant 0 <= i <= |comps| - 1
      invariant path == PathOf(baseDir, parents[..i])
      invariant forall j :: 0 <= j < i ==> isDir(dirs[j]) || makeDir(dirs[j])
      invariant calls == MakeDirCalls(dirs[..i], isDir)
    {
      PathOfStep(baseDir, parents, i);
      path := path + "/" + comps[i];
      DirsOfIndex(baseDir, parents, i);
      assert path == dirs[i];
      assert dirs[..i + 1][..i] == dirs[..i];
      if !isDir(path) {
        calls := calls + [MakeDir(path)];
        if !makeDir(path) {
          return false, calls;
        }
      }
      assert isDir(dirs[i]) || makeDir(dirs[i]);
      i := i + 1;
    }
    assert dirs[..i] == dirs;
    ok := true;
  }

  /** moveFileRecursive: the directory walk, then a rename to
      baseDir + "/" + destination; when the rename fails, a copy followed by
      a removal of the source. Only a failed mkdir or a failed copy makes it
      return false. */
  method MoveFileRecursive(source: string, baseDir: string, destination: string,
                           isDir: string -> bool, makeDir: string -> bool,
                           rename: (string, string) -> bool, copy: (string, string) -> bool)
    returns (ok: bool, calls: seq<FsCall>)
    ensures var dirs := ParentDirs(baseDir, destination);
            var target := baseDir + "/" + destination;
      (forall j :: 0 <= j < |dirs| ==> isDir(dirs[j]) || makeDir(dirs[j])) ==>
        && ok == (rename(source, target) || copy(source, target))
        && calls == MakeDirCalls(dirs, isDir) + [Rename(source, target)]
                    + (if rename(source, target) then []
                       else [Copy(source, target)] + (if copy(source, target) then [Remove(source)] else []))
    ensures var dirs := ParentDirs(baseDir, destination);
      !(forall j :: 0 <= j < |dirs| ==> isDir(dirs[j]) || makeDir(dirs[j])) ==>
        !ok && forall c :: c in calls ==> c.MakeDir?
  {
    ok, calls := CreateParentDirs(baseDir, destination, isDir, makeDir);
    if !ok {
      return;
    }
    var target := baseDir + "/" + destination;
    calls := calls + [Rename(source, target)];
    if !rename(source, target) {
      calls := calls + [Copy(source, target)];
      if !copy(source, target) {
        return false, calls;
      }
      calls := calls + [Remove(source)];
    }
    ok := true;
  }

  /** copyFileRecursive: the directory walk, then a copy to
      baseDir + "/" + destination; false when a mkdir or the copy fails. */
  method CopyFileRecursive(source: string, baseDir: string, destination: string,
                           isDir: string -> bool, makeDir: string -> bool,
                           copy: (string, string) -> bool)
    returns (ok: bool, calls: seq<FsCall>)
    ensures var dirs := ParentDirs(baseDir, destination);
            var target := baseDir + "/" + destination;
      (forall j :: 0 <= j < |dirs| ==> isDir(dirs[j]) || makeDir(dirs[j])) ==>
        ok == copy(source, target) && calls == MakeDirCalls(dirs, isDir) + [Copy(source, target)]
    ensures var dirs := ParentDirs(baseDir, destination);
      !(forall j :: 0 <= j < |dirs| ==> isDir(dirs[j]) || makeDir(dirs[j])) ==>
        !ok && forall c :: c in calls ==> c.MakeDir?
  {
    ok, calls := CreateParentDirs(baseDir, destination, isDir, makeDir);
    if !ok {
      return;
    }
    var target := baseDir + "/" + destination;
    calls := calls + [Copy(source, target)];
    ok := copy(source, target);
  }

  // ---------------------------------------------------------------------------
  // removeOldFiles
  // ---------------------------------------------------------------------------

  /** The files removeOldFiles deletes from the sorted matches: all but the
      last numToKeep, in sort order. A negative numToKeep would index past the
      end of the list in the source, so it is excluded. */
  method SelectOldFiles(files: seq<string>, numToKeep: int) returns (deleteFiles: seq<string>)
    requires numToKeep >= 0
    ensures |files| > numToKeep ==> |deleteFiles| == |files| - numToKeep
    ensures |files| <= numToKeep ==> deleteFiles == []
    ensures deleteFiles == files[..|deleteFiles|]
  {
    deleteFiles := [];
    if |files| > numToKeep {
      var i := 0;
      while i < |files| - numToKeep
        invariant 0 <= i <= |files| - numToKeep
        invariant deleteFiles == files[..i]
      {
        deleteFiles := deleteFiles + [files[i]];
        i := i + 1;
      }
    }
  }

  /** removeOldFiles on Windows: the selected files go to shellDelete in one
      batch, and a warning is logged when it fails. Returns the batch passed
      to shellDelete (None when nothing is selected) and whether the warning
      is logged. */
  method RemoveOldFiles(files: seq<string>, numToKeep: int, shellDelete: seq<string> -> bool)
    returns (batch: Option<seq<string>>, warned: bool)
    requires numToKeep >= 0
    ensures batch.None? <==> |files| <= numToKeep
    ensures batch.Some? ==> batch.value == files[..|files| - numToKeep]
    ensures warned <==> batch.Some? && !shellDelete(batch.value)
  {
    batch := None;
    warned := false;
    if |files| > numToKeep {
      var deleteFiles := SelectOldFiles(files, numToKeep);
      batch := Some(deleteFiles);
      warned := !shellDelete(deleteFiles);
    }
  }

  // ---------------------------------------------------------------------------
  // The custom URL handler
  // ---------------------------------------------------------------------------

  /** g_urlHandler: the custom browser command, empty when none is set. */
  class UrlHandlerSetting {
    var handler: string

    constructor()
      ensures handler == []
    {
      handler := [];
    }

    /** SetUrlHandler: overwrites the stored command. */
    method SetUrlHandler(cmd: string)
      modifies this
      ensures handler == cmd
    {
      handler := cmd;
    }
  }

  /** How Open(url) reaches the browser. */
  datatype UrlRoute = DefaultOpen | CustomHandler(command: string)

  /** The default "open" action is used exactly when no handler is set. */
  function RouteUrl(handler: string): (r: UrlRoute)
    ensures r.DefaultOpen? <==> handler == []
    ensures r.CustomHandler? ==> r.command == handler
  {
    if handler == [] then DefaultOpen else CustomHandler(handler)
  }

  /** Setting a handler and routing afterwards reaches that handler; clearing
      it goes back to the default. */
  method SetThenRoute(setting: UrlHandlerSetting, cmd: string) returns (r: UrlRoute)
    modifies setting
    ensures setting.handler == cmd
    ensures cmd == [] ==> r == DefaultOpen
    ensures cmd != [] ==> r == CustomHandler(cmd)
  {
    setting.SetUrlHandler(cmd);
    r := RouteUrl(setting.handler);
  }
}
